/**
  Printed zero-context diffs are read back to exactly their added lines, with
  the line numbers at the head, whatever the texts look like
  (src/internal/verify/gitdiff.go, parseAddedLines).
 */
module AddedLinesRoundTrip {
  import opened Wrappers
  import opened AddedLines

  /** A hunk: the removed and added texts, where they start, and whether a last line lacks its newline. */
  datatype Hunk = Hunk(
    oldStart: nat, removed: seq<string>, oldUnended: bool,
    newStart: nat, added: seq<string>, newUnended: bool,
    section: string)

  const MARKER: string := "\\ No newline at end of file"

  // ---------------------------------------------------------------- printing

  function Digits(n: nat): string {
    var last := ['0' + (n % 10) as char];
    if n < 10 then last else Digits(n / 10) + last
  }

  /** A count of one is not printed. */
  function PrintRange(start: nat, count: nat): string {
    Digits(start) + if count == 1 then "" else "," + Digits(count)
  }

  function HeaderLine(h: Hunk): string {
    "@@ -" + PrintRange(h.oldStart, |h.removed|) + " +" + PrintRange(h.newStart, |h.added|) + " @@" + h.section
  }

  function Marked(c: char, texts: seq<string>): seq<string> {
    if texts == [] then [] else [[c] + texts[0]] + Marked(c, texts[1..])
  }

  function MarkerIf(b: bool): seq<string> {
    if b then [MARKER] else []
  }

  function PrintHunk(h: Hunk): seq<string> {
    [HeaderLine(h)] + Marked('-', h.removed) + MarkerIf(h.oldUnended) + Marked('+', h.added) + MarkerIf(h.newUnended)
  }

  function PrintHunks(hs: seq<Hunk>): seq<string> {
    if hs == [] then [] else PrintHunk(hs[0]) + PrintHunks(hs[1..])
  }

  /** Every line with its newline. */
  function Text(lines: seq<string>): string
    decreases |lines|
  {
    if lines == [] then "" else Text(lines[..|lines| - 1]) + lines[|lines| - 1] + "\n"
  }

  /** The added lines of a hunk with their numbers at the head. */
  function Numbered(texts: seq<string>, next: int): seq<Added> {
    if texts == [] then [] else [Added(next, texts[0])] + Numbered(texts[1..], next + 1)
  }

  function AllAdded(hs: seq<Hunk>): seq<Added> {
    if hs == [] then [] else Numbered(hs[0].added, hs[0].newStart) + AllAdded(hs[1..])
  }

  lemma {:induction false} NumberedAt(texts: seq<string>, next: int, i: nat)
    requires i < |texts|
    ensures |Numbered(texts, next)| == |texts| && Numbered(texts, next)[i] == Added(next + i, texts[i])
    decreases |texts|
  {
    if i > 0 {
      NumberedAt(texts[1..], next + 1, i - 1);
    } else if |texts| > 1 {
      NumberedAt(texts[1..], next + 1, 0);
    }
  }

  /** How many lines the hunks before the i-th one add. */
  function Offset(hs: seq<Hunk>, i: nat): nat
    requires i <= |hs|
  {
    if i == 0 then 0 else |hs[0].added| + Offset(hs[1..], i - 1)
  }

  lemma {:induction false} AllAddedCount(hs: seq<Hunk>)
    ensures |AllAdded(hs)| == Offset(hs, |hs|)
    decreases |hs|
  {
    if hs != [] {
      AllAddedCount(hs[1..]);
      NumberedCount(hs[0].added, hs[0].newStart);
    }
  }

  lemma NumberedCount(texts: seq<string>, next: int)
    ensures |Numbered(texts, next)| == |texts|
  {
    if texts != [] {
      NumberedAt(texts, next, 0);
    }
  }

  /** The j-th added line of the i-th hunk stands behind those of the hunks before, with its line number at the head. */
  predicate IsPlaced(hs: seq<Hunk>, lines: seq<Added>, i: nat, j: nat)
    requires i < |hs| && j < |hs[i].added|
  {
    Offset(hs, i) + j < |lines| && lines[Offset(hs, i) + j] == Added(hs[i].newStart + j, hs[i].added[j])
  }

  lemma {:induction false} AllAddedAt(hs: seq<Hunk>, i: nat, j: nat)
    requires i < |hs| && j < |hs[i].added|
    ensures IsPlaced(hs, AllAdded(hs), i, j)
    decreases |hs|
  {
    NumberedCount(hs[0].added, hs[0].newStart);
    if i == 0 {
      NumberedAt(hs[0].added, hs[0].newStart, j);
    } else {
      AllAddedAt(hs[1..], i - 1, j);
    }
  }

  // ------------------------------------------------------------------ numbers

  lemma {:induction false} DigitsAreDecimal(n: nat)
    ensures Digits(n) != "" && IsDigits(Digits(n)) && Decimal(Digits(n)) == n
    decreases n
  {
    var s := Digits(n);
    if n >= 10 {
      DigitsAreDecimal(n / 10);
      assert s[..|s| - 1] == Digits(n / 10);
    } else {
      assert s[..|s| - 1] == "";
    }
  }

  lemma {:induction false} DigitRunPast(s: string, rest: string)
    requires IsDigits(s) && (rest == "" || !IsDigit(rest[0]))
    ensures DigitRun(s + rest) == |s|
    decreases |s|
  {
    if s == "" {
      assert s + rest == rest;
    } else {
      DigitRunPast(s[1..], rest);
      assert (s + rest)[1..] == s[1..] + rest;
    }
  }

  function PrintedCount(count: nat): Option<string> {
    if count == 1 then None else Some(Digits(count))
  }

  lemma BareRange(d: string, rest: string)
    requires d != "" && IsDigits(d) && rest != "" && rest[0] == ' '
    ensures ParseRange(d + rest) == Some(Range(d, None, rest))
  {
    hide DigitRun;
    DigitRunPast(d, rest);
    assert (d + rest)[..|d|] == d && (d + rest)[|d|..] == rest;
  }

  lemma CountedRange(d: string, c: string, rest: string)
    requires d != "" && IsDigits(d) && c != "" && IsDigits(c) && rest != "" && rest[0] == ' '
    ensures ParseRange(d + "," + c + rest) == Some(Range(d, Some(c), rest))
  {
    hide DigitRun, IsDigits;
    var s := d + "," + c + rest;
    assert s == d + ("," + c + rest);
    DigitRunPast(d, "," + c + rest);
    DigitRunPast(c, rest);
    CountedSlices(d, c, rest);
  }

  lemma CountedSlices(d: string, c: string, rest: string)
    ensures var s := d + "," + c + rest;
      s[..|d|] == d && s[|d|] == ',' && s[|d| + 1..] == c + rest && (c + rest)[..|c|] == c && (c + rest)[|c|..] == rest
  {
    var s := d + "," + c + rest;
    assert s == d + ("," + (c + rest));
  }

  // ---------------------------------------------------------- which lines are headers

  predicate IsRange(start: string, count: Option<string>) {
    start != "" && IsDigits(start) && (count.Some? ==> count.value != "" && IsDigits(count.value))
  }

  function RangeText(start: string, count: Option<string>): string {
    if count.Some? then start + "," + count.value else start
  }

  lemma {:induction false} DigitRunIs(s: string)
    ensures IsDigits(s[..DigitRun(s)])
    decreases |s|
  {
    if DigitRun(s) > 0 {
      DigitRunIs(s[1..]);
      assert s[..DigitRun(s)] == [s[0]] + s[1..][..DigitRun(s[1..])];
    }
  }

  lemma RangeParts(s: string)
    requires ParseRange(s).Some?
    ensures var r := ParseRange(s).value; IsRange(r.start, r.count) && s == RangeText(r.start, r.count) + r.rest
  {
    hide DigitRun, IsDigits;
    var n := DigitRun(s);
    DigitRunIs(s);
    if n < |s| && s[n] == ',' && DigitRun(s[n + 1..]) > 0 {
      DigitRunIs(s[n + 1..]);
      CutTwice(s, n, DigitRun(s[n + 1..]));
    }
  }

  lemma CutTwice(s: string, n: nat, k: nat)
    requires n < |s| && s[n] == ',' && k <= |s[n + 1..]|
    ensures s == s[..n] + "," + s[n + 1..][..k] + s[n + 1..][k..]
  {
    var more := s[n + 1..];
    assert more == more[..k] + more[k..];
    assert s == s[..n] + "," + more;
  }

  /** A range in front of a blank is exactly digits, with an optional comma and more digits. */
  lemma RangeIff(s: string, r: Range)
    requires r.rest != "" && r.rest[0] == ' '
    ensures ParseRange(s) == Some(r) <==> IsRange(r.start, r.count) && s == RangeText(r.start, r.count) + r.rest
  {
    hide ParseRange;
    if ParseRange(s) == Some(r) {
      RangeParts(s);
    }
    if IsRange(r.start, r.count) && s == RangeText(r.start, r.count) + r.rest {
      if r.count.Some? {
        CountedRange(r.start, r.count.value, r.rest);
      } else {
        BareRange(r.start, r.rest);
      }
    }
  }

  /** The line reads `@@ -<first>[,<oldCount>] +<newStart>[,<newCount>] @@<rest>`. */
  predicate IsHeaderText(l: string, first: string, h: Header, rest: string) {
    && IsRange(first, h.oldCount) && IsRange(h.newStart, h.newCount)
    && l == "@@ -" + (RangeText(first, h.oldCount) + (" +" + (RangeText(h.newStart, h.newCount) + (" @@" + rest))))
  }

  /** A line is a hunk header exactly when it has that form, and the header holds its numbers. */
  lemma HeaderIff(l: string, h: Header)
    ensures ParseHeader(l) == Some(h) <==> exists first, rest :: IsHeaderText(l, first, h, rest)
  {
    if ParseHeader(l) == Some(h) {
      HeaderHasText(l, h);
    }
    if exists first, rest :: IsHeaderText(l, first, h, rest) {
      var first, rest :| IsHeaderText(l, first, h, rest);
      TextIsHeader(l, first, h, rest);
    }
  }

  lemma HeaderHasText(l: string, h: Header)
    requires ParseHeader(l) == Some(h)
    ensures exists first, rest :: IsHeaderText(l, first, h, rest)
  {
    hide ParseRange;
    var before := ParseRange(l[4..]).value;
    var after := ParseRange(before.rest[2..]).value;
    RangeParts(l[4..]);
    RangeParts(before.rest[2..]);
    var rest := after.rest[3..];
    assert after.rest == " @@" + rest;
    assert before.rest == " +" + before.rest[2..];
    assert l == "@@ -" + l[4..];
    assert IsHeaderText(l, before.start, h, rest);
  }

  lemma TextIsHeader(l: string, first: string, h: Header, rest: string)
    requires IsHeaderText(l, first, h, rest)
    ensures ParseHeader(l) == Some(h)
  {
    hide ParseRange, RangeText;
    var last := " @@" + rest;
    var middle := " +" + (RangeText(h.newStart, h.newCount) + last);
    assert l[..4] == "@@ -" && l[4..] == RangeText(first, h.oldCount) + middle;
    RangeIff(l[4..], Range(first, h.oldCount, middle));
    assert middle[..2] == " +" && middle[2..] == RangeText(h.newStart, h.newCount) + last;
    RangeIff(middle[2..], Range(h.newStart, h.newCount, last));
    assert last[..3] == " @@";
  }

  lemma RangeRoundTrip(start: nat, count: nat, rest: string)
    requires rest != "" && rest[0] == ' '
    ensures ParseRange(PrintRange(start, count) + rest) == Some(Range(Digits(start), PrintedCount(count), rest))
  {
    hide Digits, ParseRange;
    DigitsAreDecimal(start);
    DigitsAreDecimal(count);
    if count == 1 {
      BareRange(Digits(start), rest);
      assert PrintRange(start, count) == Digits(start);
    } else {
      CountedRange(Digits(start), Digits(count), rest);
      assert PrintRange(start, count) + rest == Digits(start) + "," + Digits(count) + rest;
    }
  }

  lemma HeaderRoundTrip(h: Hunk)
    ensures ParseHeader(HeaderLine(h))
         == Some(Header(PrintedCount(|h.removed|), Digits(h.newStart), PrintedCount(|h.added|)))
  {
    hide ParseRange, Digits, PrintRange;
    var l := HeaderLine(h);
    var last := " @@" + h.section;
    var middle := " +" + (PrintRange(h.newStart, |h.added|) + last);
    assert l == "@@ -" + (PrintRange(h.oldStart, |h.removed|) + middle);
    assert l[4..] == PrintRange(h.oldStart, |h.removed|) + middle;
    RangeRoundTrip(h.oldStart, |h.removed|, middle);
    assert middle[2..] == PrintRange(h.newStart, |h.added|) + last;
    RangeRoundTrip(h.newStart, |h.added|, last);
  }

  lemma CountRoundTrip(count: nat)
    requires count <= MAX_INT
    ensures PrintedCount(count).Some? ==> IsDigits(PrintedCount(count).value)
    ensures CountOf(PrintedCount(count)) == count
  {
    DigitsAreDecimal(count);
  }

  // ------------------------------------------------------------------- bodies

  lemma {:induction false} RemovedAreSkipped(texts: seq<string>, rest: seq<string>, newLeft: nat, next: int)
    ensures ReadBody(Marked('-', texts) + rest, |texts|, newLeft, next) == ReadBody(rest, 0, newLeft, next)
    decreases |texts|
  {
    var lines := Marked('-', texts) + rest;
    if texts == [] {
      assert lines == rest;
    } else {
      RemovedAreSkipped(texts[1..], rest, newLeft, next);
      assert lines[0] == ['-'] + texts[0] && lines[1..] == Marked('-', texts[1..]) + rest;
      assert StartsWith(lines[0], "-") && !IsMarker(lines[0]);
    }
  }

  lemma {:induction false} AddedAreRead(texts: seq<string>, rest: seq<string>, next: int)
    ensures ReadBody(Marked('+', texts) + rest, 0, |texts|, next) == Body(Numbered(texts, next), rest)
    decreases |texts|
  {
    var lines := Marked('+', texts) + rest;
    if texts == [] {
      assert lines == rest;
    } else {
      AddedAreRead(texts[1..], rest, next + 1);
      assert lines[0] == ['+'] + texts[0] && lines[1..] == Marked('+', texts[1..]) + rest;
      assert StartsWith(lines[0], "+") && !IsMarker(lines[0]) && !StartsWith(lines[0], "-");
      assert lines[0][1..] == texts[0];
    }
  }

  /** A marker inside a hunk is passed over; one behind its last line is left to the caller. */
  lemma MarkerInside(b: bool, rest: seq<string>, newLeft: nat, next: int)
    ensures newLeft > 0 ==> ReadBody(MarkerIf(b) + rest, 0, newLeft, next) == ReadBody(rest, 0, newLeft, next)
    ensures newLeft == 0 ==> ReadBody(MarkerIf(b) + rest, 0, newLeft, next) == Body([], MarkerIf(b) + rest)
  {
    assert MarkerIf(false) + rest == rest;
    assert ([MARKER] + rest)[1..] == rest;
  }

  lemma MarkersSkipped(a: bool, b: bool, rest: seq<string>)
    requires rest == [] || !IsMarker(rest[0])
    ensures SkipMarkers(MarkerIf(a) + rest) == rest
    ensures SkipMarkers(MarkerIf(a) + (MarkerIf(b) + rest)) == rest
  {
    OneMarkerSkipped(b, rest);
    OneMarkerSkipped(a, rest);
    OneMarkerSkipped(a, MarkerIf(b) + rest);
  }

  lemma OneMarkerSkipped(a: bool, rest: seq<string>)
    ensures SkipMarkers(MarkerIf(a) + rest) == SkipMarkers(rest)
  {
    if a {
      assert ([MARKER] + rest)[1..] == rest;
    } else {
      assert MarkerIf(a) + rest == rest;
    }
  }

  /** The body of a printed hunk gives its added lines, and its markers are passed over. */
  lemma BodyRoundTrip(h: Hunk, rest: seq<string>)
    requires rest == [] || !IsMarker(rest[0])
    ensures var lines := Marked('-', h.removed) + MarkerIf(h.oldUnended) + Marked('+', h.added)
      + MarkerIf(h.newUnended) + rest;
      var b := ReadBody(lines, |h.removed|, |h.added|, h.newStart);
      b.Body? && b.added == Numbered(h.added, h.newStart) && SkipMarkers(b.rest) == rest
  {
    hide ReadBody, SkipMarkers, MarkerIf;
    var afterAdded := MarkerIf(h.newUnended) + rest;
    var fromAdded := Marked('+', h.added) + afterAdded;
    var fromMarker := MarkerIf(h.oldUnended) + fromAdded;
    assert Marked('-', h.removed) + MarkerIf(h.oldUnended) + Marked('+', h.added) + MarkerIf(h.newUnended) + rest
        == Marked('-', h.removed) + fromMarker;
    RemovedAreSkipped(h.removed, fromMarker, |h.added|, h.newStart);
    MarkerInside(h.oldUnended, fromAdded, |h.added|, h.newStart);
    MarkersSkipped(h.oldUnended, h.newUnended, rest);
    MarkersSkipped(h.newUnended, false, rest);
    if h.added == [] {
      assert fromAdded == afterAdded;
    } else {
      AddedAreRead(h.added, afterAdded, h.newStart);
    }
  }

  // ------------------------------------------------------------- whole diffs

  predicate Fits(h: Hunk) {
    h.newStart <= MAX_INT && |h.removed| <= MAX_INT && |h.added| <= MAX_INT
  }

  lemma PrintedStart(hs: seq<Hunk>)
    ensures PrintHunks(hs) == [] || !IsMarker(PrintHunks(hs)[0])
  {
    hide HeaderLine;
    if hs != [] {
      HeaderStarts(hs[0]);
    }
  }

  lemma HeaderStarts(h: Hunk)
    ensures StartsWith(HeaderLine(h), "@@ -") && !IsMarker(HeaderLine(h))
  {
    hide PrintRange;
    assert HeaderLine(h)[0] == '@';
  }

  lemma HunkRoundTrip(h: Hunk, rest: seq<string>)
    requires Fits(h) && (rest == [] || !IsMarker(rest[0]))
    ensures ReadLines(PrintHunk(h) + rest) == Join(Numbered(h.added, h.newStart), ReadLines(rest))
  {
    hide ReadBody, SkipMarkers, HeaderLine, ParseHeader, Digits, CountOf, PrintedCount, MarkerIf, Decimal, Join,
      Marked, Numbered;
    var lines := PrintHunk(h) + rest;
    HeaderRoundTrip(h);
    CountRoundTrip(|h.removed|);
    CountRoundTrip(|h.added|);
    DigitsAreDecimal(h.newStart);
    BodyRoundTrip(h, rest);
    assert lines[0] == HeaderLine(h);
    assert lines[1..]
        == Marked('-', h.removed) + MarkerIf(h.oldUnended) + Marked('+', h.added) + MarkerIf(h.newUnended) + rest;
  }

  lemma {:induction false} HunksRoundTrip(hs: seq<Hunk>)
    requires forall i :: 0 <= i < |hs| ==> Fits(hs[i])
    ensures ReadLines(PrintHunks(hs)) == Some(AllAdded(hs))
    decreases |hs|
  {
    hide ReadLines, PrintHunk, Numbered;
    if hs != [] {
      HunksRoundTrip(hs[1..]);
      PrintedStart(hs[1..]);
      HunkRoundTrip(hs[0], PrintHunks(hs[1..]));
    } else {
      NothingToRead();
    }
  }

  lemma NothingToRead()
    ensures ReadLines([]) == Some([])
  {
  }

  /** Lines before the hunks, such as the file headers, are passed over. */
  lemma {:induction false} PreambleSkipped(pre: seq<string>, lines: seq<string>)
    requires forall i :: 0 <= i < |pre| ==> !StartsWith(pre[i], "@@ -")
    ensures ReadLines(pre + lines) == ReadLines(lines)
    decreases |pre|
  {
    hide ReadBody, SkipMarkers, Atoi, CountOf, Join;
    if pre == [] {
      assert pre + lines == lines;
    } else {
      PreambleSkipped(pre[1..], lines);
      assert (pre + lines)[1..] == pre[1..] + lines;
      assert ParseHeader(pre[0]) == None;
    }
  }

  predicate OneLine(s: string) {
    '\n' !in s
  }

  /** The lines with l appended to the last one. */
  function WithLast(r: seq<string>, l: string): seq<string>
    requires r != []
  {
    r[..|r| - 1] + [r[|r| - 1] + l]
  }

  lemma WithLastTwice(r: seq<string>, l: string, m: string)
    requires r != []
    ensures WithLast(WithLast(r, l), m) == WithLast(r, l + m)
    ensures WithLast(r, "") == r
  {
    assert (r[|r| - 1] + l) + m == r[|r| - 1] + (l + m);
    assert r[|r| - 1] + "" == r[|r| - 1];
  }

  lemma SplitOne(s: string, c: char)
    ensures Split(s + [c]) == if c == '\n' then Split(s) + [""] else WithLast(Split(s), [c])
  {
    assert (s + [c])[..|s|] == s;
  }

  lemma {:induction false} SplitAppend(s: string, l: string)
    requires OneLine(l)
    ensures Split(s + l) == WithLast(Split(s), l)
    decreases |l|
  {
    hide Split, WithLast;
    WithLastTwice(Split(s), "", "");
    if l == "" {
      assert s + l == s;
    } else {
      var front, c := l[..|l| - 1], l[|l| - 1];
      assert c in l;
      SplitAppend(s, front);
      SplitOne(s + front, c);
      assert s + l == (s + front) + [c] && l == front + [c];
      WithLastTwice(Split(s), front, [c]);
    }
  }

  lemma {:induction false} SplitText(lines: seq<string>)
    requires forall i :: 0 <= i < |lines| ==> OneLine(lines[i])
    ensures Split(Text(lines)) == lines + [""]
    decreases |lines|
  {
    hide Split, WithLast;
    if lines == [] {
      NothingToSplit();
    } else {
      var front, l := lines[..|lines| - 1], lines[|lines| - 1];
      SplitText(front);
      SplitAppend(Text(front), l);
      SplitOne(Text(front) + l, '\n');
      LastLine(front, l);
      assert lines == front + [l];
    }
  }

  lemma NothingToSplit()
    ensures Split("") == [""]
  {
  }

  lemma LastLine(front: seq<string>, l: string)
    ensures WithLast(front + [""], l) == front + [l]
  {
    var r := front + [""];
    assert r[..|r| - 1] == front;
    assert "" + l == l;
  }

  ghost predicate AllOneLine(lines: seq<string>) {
    forall i :: 0 <= i < |lines| ==> OneLine(lines[i])
  }

  /** No text of the hunk holds a newline; the texts are arbitrary otherwise. */
  ghost predicate OneLineTexts(h: Hunk) {
    AllOneLine(h.removed) && AllOneLine(h.added) && OneLine(h.section)
  }

  lemma {:induction false} DigitsOneLine(n: nat)
    ensures OneLine(Digits(n))
  {
    DigitsAreDecimal(n);
    assert forall i :: 0 <= i < |Digits(n)| ==> IsDigit(Digits(n)[i]);
  }

  lemma {:induction false} MarkedOneLine(c: char, texts: seq<string>)
    requires c != '\n' && AllOneLine(texts)
    ensures AllOneLine(Marked(c, texts))
    decreases |texts|
  {
    if texts != [] {
      MarkedOneLine(c, texts[1..]);
    }
  }

  lemma HeaderOneLine(h: Hunk)
    requires OneLine(h.section)
    ensures OneLine(HeaderLine(h))
  {
    hide Digits;
    DigitsOneLine(h.oldStart);
    DigitsOneLine(h.newStart);
    DigitsOneLine(|h.removed|);
    DigitsOneLine(|h.added|);
  }

  lemma {:induction false} PrintedOneLine(hs: seq<Hunk>)
    requires forall i :: 0 <= i < |hs| ==> OneLineTexts(hs[i])
    ensures AllOneLine(PrintHunks(hs))
    decreases |hs|
  {
    hide HeaderLine;
    if hs != [] {
      var h := hs[0];
      HeaderOneLine(h);
      MarkedOneLine('-', h.removed);
      MarkedOneLine('+', h.added);
      PrintedOneLine(hs[1..]);
      assert AllOneLine(PrintHunk(h));
    }
  }

  /**
    For every list of zero-context hunks with arbitrary one-line texts, whatever they look
    like, and optional no-newline markers: reading the printed diff returns exactly the added
    lines with their line numbers at the head.
   */
  lemma AddedLinesReadBack(pre: seq<string>, hs: seq<Hunk>)
    requires AllOneLine(pre) && forall i :: 0 <= i < |hs| ==> OneLineTexts(hs[i])
    requires forall i :: 0 <= i < |pre| ==> !StartsWith(pre[i], "@@ -")
    requires forall i :: 0 <= i < |hs| ==> Fits(hs[i])
    ensures ReadLines(LinesOf(Text(pre + PrintHunks(hs)))) == Some(AllAdded(hs))
    ensures |AllAdded(hs)| == Offset(hs, |hs|)
    ensures forall i, j :: 0 <= i < |hs| && 0 <= j < |hs[i].added| ==>
      IsPlaced(hs, AllAdded(hs), i, j)
  {
    hide ReadLines, Split, PrintHunks, AllAdded, Offset, IsPlaced;
    AllAddedCount(hs);
    forall i, j | 0 <= i < |hs| && 0 <= j < |hs[i].added|
      ensures IsPlaced(hs, AllAdded(hs), i, j)
    {
      AllAddedAt(hs, i, j);
    }
    var lines := pre + PrintHunks(hs);
    PrintedOneLine(hs);
    SplitText(lines);
    assert (lines + [""])[..|lines|] == lines;
    PreambleSkipped(pre, PrintHunks(hs));
    HunksRoundTrip(hs);
  }
}
