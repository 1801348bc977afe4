/**
  Reading the added lines of a zero-context diff, hunk by hunk
  (src/internal/verify/gitdiff.go, parseAddedLines).
 */
module AddedLines {

  import opened Wrappers

  datatype Added = Added(line: int, text: string)

  const MAX_INT: int := 0x7FFF_FFFF_FFFF_FFFF

  // ---------------------------------------------------------------- numbers

  predicate IsDigit(c: char) {
    '0' <= c <= '9'
  }

  /** The length of the leading run of digits. */
  function DigitRun(s: string): (n: nat)
    ensures n <= |s|
    ensures forall i :: 0 <= i < n ==> IsDigit(s[i])
    ensures n < |s| ==> !IsDigit(s[n])
  {
    if s != "" && IsDigit(s[0]) then 1 + DigitRun(s[1..]) else 0
  }

  function Decimal(s: string): int
    requires forall i :: 0 <= i < |s| ==> IsDigit(s[i])
  {
    if s == "" then 0 else Decimal(s[..|s| - 1]) * 10 + (s[|s| - 1] as int - '0' as int)
  }

  /** A run of digits as a 64-bit integer, or None when it does not fit. */
  function Atoi(s: string): Option<int>
    requires forall i :: 0 <= i < |s| ==> IsDigit(s[i])
  {
    if Decimal(s) <= MAX_INT then Some(Decimal(s)) else None
  }

  // ----------------------------------------------------------- hunk headers

  datatype Range = Range(start: string, count: Option<string>, rest: string)

  /** Digits, and optionally a comma and more digits. */
  function ParseRange(s: string): (r: Option<Range>)
    ensures r.Some? ==> forall i :: 0 <= i < |r.value.start| ==> IsDigit(r.value.start[i])
    ensures r.Some? && r.value.count.Some? ==>
      forall i :: 0 <= i < |r.value.count.value| ==> IsDigit(r.value.count.value[i])
  {
    var n := DigitRun(s);
    if n == 0 then None
    else if n < |s| && s[n] == ',' && DigitRun(s[n + 1..]) > 0 then
      var k := DigitRun(s[n + 1..]);
      Some(Range(s[..n], Some(s[n + 1..][..k]), s[n + 1..][k..]))
    else Some(Range(s[..n], None, s[n..]))
  }

  datatype Header = Header(oldCount: Option<string>, newStart: string, newCount: Option<string>)

  predicate IsDigits(s: string) {
    forall i :: 0 <= i < |s| ==> IsDigit(s[i])
  }

  predicate StartsWith(s: string, p: string) {
    |p| <= |s| && s[..|p|] == p
  }

  /** `@@ -a[,b] +c[,d] @@` at the start of a line. */
  function ParseHeader(l: string): (h: Option<Header>)
    ensures h.Some? ==> IsDigits(h.value.newStart)
    ensures h.Some? && h.value.oldCount.Some? ==> IsDigits(h.value.oldCount.value)
    ensures h.Some? && h.value.newCount.Some? ==> IsDigits(h.value.newCount.value)
  {
    if !StartsWith(l, "@@ -") then None
    else
      match ParseRange(l[4..])
      case None => None
      case Some(old') =>
        if !StartsWith(old'.rest, " +") then None
        else
          match ParseRange(old'.rest[2..])
          case None => None
          case Some(new') =>
            if !StartsWith(new'.rest, " @@") then None
            else Some(Header(old'.count, new'.start, new'.count))
  }

  /** A count: one when it is missing, -1 when it does not fit. */
  function CountOf(c: Option<string>): int
    requires c.Some? ==> IsDigits(c.value)
  {
    if c.None? then 1
    else match Atoi(c.value) case None => -1 case Some(n) => n
  }

  // ------------------------------------------------------------ hunk bodies

  datatype Body = Body(added: seq<Added>, rest: seq<string>) | Broken

  function Prepend(xs: seq<Added>, b: Body): Body {
    match b
    case Broken => Broken
    case Body(ys, rest) => Body(xs + ys, rest)
  }

  lemma PrependTwice(xs: seq<Added>, ys: seq<Added>, b: Body)
    ensures Prepend(xs, Prepend(ys, b)) == Prepend(xs + ys, b)
    ensures Prepend([], b) == b
  {
    if b.Body? {
      assert xs + (ys + b.added) == (xs + ys) + b.added;
      assert [] + b.added == b.added;
    }
  }

  predicate IsMarker(l: string) {
    StartsWith(l, "\\")
  }

  /** Reads lines until the hunk has given its removed and added lines. */
  function ReadBody(lines: seq<string>, oldLeft: int, newLeft: int, next: int): (b: Body)
    ensures b.Body? ==> |b.rest| <= |lines|
    decreases |lines|
  {
    if oldLeft <= 0 && newLeft <= 0 then Body([], lines)
    else if lines == [] then Broken
    else
      var l, tail := lines[0], lines[1..];
      if IsMarker(l) then ReadBody(tail, oldLeft, newLeft, next)
      else if StartsWith(l, "-") then
        if oldLeft < 1 || newLeft < 0 then Broken else ReadBody(tail, oldLeft - 1, newLeft, next)
      else if StartsWith(l, "+") then
        if oldLeft < 0 || newLeft < 1 then Broken
        else Prepend([Added(next, l[1..])], ReadBody(tail, oldLeft, newLeft - 1, next + 1))
      else if StartsWith(l, " ") then
        if oldLeft < 1 || newLeft < 1 then Broken else ReadBody(tail, oldLeft - 1, newLeft - 1, next + 1)
      else Broken
  }

  function SkipMarkers(lines: seq<string>): (r: seq<string>)
    ensures |r| <= |lines|
  {
    if lines != [] && IsMarker(lines[0]) then SkipMarkers(lines[1..]) else lines
  }

  /** The added lines of a diff, or None when it cannot be read. */
  function ReadLines(lines: seq<string>): Option<seq<Added>>
    decreases |lines|
  {
    if lines == [] then Some([])
    else
      match ParseHeader(lines[0])
      case None => ReadLines(lines[1..])
      case Some(h) =>
        match Atoi(h.newStart)
        case None => None
        case Some(next) =>
          match ReadBody(lines[1..], CountOf(h.oldCount), CountOf(h.newCount), next)
          case Broken => None
          case Body(added, rest) =>
            Join(added, ReadLines(SkipMarkers(rest)))
  }

  function Join(xs: seq<Added>, more: Option<seq<Added>>): Option<seq<Added>> {
    match more
    case None => None
    case Some(ys) => Some(xs + ys)
  }

  lemma JoinTwice(xs: seq<Added>, ys: seq<Added>, more: Option<seq<Added>>)
    ensures Join(xs, Join(ys, more)) == Join(xs + ys, more)
    ensures Join([], more) == more
  {
    if more.Some? {
      assert xs + (ys + more.value) == (xs + ys) + more.value;
      assert [] + more.value == more.value;
    }
  }

  function Split(s: string): (r: seq<string>)
    ensures |r| > 0
    decreases |s|
  {
    if s == "" then [""]
    else
      var r := Split(s[..|s| - 1]);
      var c := s[|s| - 1];
      if c == '\n' then r + [""] else r[..|r| - 1] + [r[|r| - 1] + [c]]
  }

  /** The lines of the output, without the empty one behind the last newline. */
  function LinesOf(out: string): seq<string> {
    var r := Split(out);
    if r[|r| - 1] == "" then r[..|r| - 1] else r
  }

  // -------------------------------------------------------------- the reader

  method ReadHunk(lines: seq<string>, start: nat, oldCount: int, newCount: int, first: int)
    returns (added: seq<Added>, i: nat, ok: bool)
    requires start <= |lines|
    ensures start <= i <= |lines|
    ensures ok ==> ReadBody(lines[start..], oldCount, newCount, first) == Body(added, lines[i..])
    ensures !ok ==> ReadBody(lines[start..], oldCount, newCount, first) == Broken
  {
    i, added := start, [];
    var oldRem, newRem, next := oldCount, newCount, first;
    PrependTwice([], [], ReadBody(lines[start..], oldCount, newCount, first));
    while oldRem > 0 || newRem > 0
      invariant start <= i <= |lines|
      invariant ReadBody(lines[start..], oldCount, newCount, first)
        == Prepend(added, ReadBody(lines[i..], oldRem, newRem, next))
      decreases |lines| - i
    {
      if i >= |lines| {
        return added, i, false;
      }
      var l := lines[i];
      assert lines[i..][1..] == lines[i + 1..];
      i := i + 1;
      if IsMarker(l) {
        continue;
      }
      if StartsWith(l, "-") {
        oldRem := oldRem - 1;
      } else if StartsWith(l, "+") {
        PrependTwice(added, [Added(next, l[1..])], ReadBody(lines[i..], oldRem, newRem - 1, next + 1));
        newRem := newRem - 1;
        added := added + [Added(next, l[1..])];
        next := next + 1;
      } else if StartsWith(l, " ") {
        oldRem, newRem, next := oldRem - 1, newRem - 1, next + 1;
      } else {
        return added, i, false;
      }
      if oldRem < 0 || newRem < 0 {
        return added, i, false;
      }
    }
    assert added + [] == added;
    ok := true;
  }

  method PassMarkers(lines: seq<string>, start: nat) returns (i: nat)
    requires start <= |lines|
    ensures start <= i <= |lines| && lines[i..] == SkipMarkers(lines[start..])
  {
    i := start;
    while i < |lines| && IsMarker(lines[i])
      invariant start <= i <= |lines|
      invariant SkipMarkers(lines[i..]) == SkipMarkers(lines[start..])
    {
      assert lines[i..][1..] == lines[i + 1..];
      i := i + 1;
    }
  }

  method ParseAddedLines(out: string) returns (r: Option<seq<Added>>)
    ensures r == ReadLines(LinesOf(out))
  {
    hide ReadBody, ParseHeader, LinesOf, Atoi, CountOf, SkipMarkers;
    var lines := LinesOf(out);
    var added: seq<Added> := [];
    var i := 0;
    JoinTwice([], [], ReadLines(lines));
    assert lines[0..] == lines;
    while i < |lines|
      invariant 0 <= i <= |lines|
      invariant ReadLines(lines) == Join(added, ReadLines(lines[i..]))
    {
      var h := ParseHeader(lines[i]);
      assert lines[i..][1..] == lines[i + 1..];
      if h.None? {
        i := i + 1;
        continue;
      }
      var next := Atoi(h.value.newStart);
      if next.None? {
        return None;
      }
      var more, j, ok := ReadHunk(lines, i + 1, CountOf(h.value.oldCount), CountOf(h.value.newCount), next.value);
      if !ok {
        return None;
      }
      i := PassMarkers(lines, j);
      JoinTwice(added, more, ReadLines(lines[i..]));
      added := added + more;
    }
    assert added + [] == added;
    r := Some(added);
  }
}
