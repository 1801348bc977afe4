/**
  The parser object: a position that every reader advances over the source
  (src/internal/verify/ingest_toml.go).
 */
module TomlParser {

  import opened Wrappers
  import opened Toml

  /** What was read so far, put in front of what the rest yields. */
  function After<T>(xs: seq<T>, bad: bool, k: Read<seq<T>>): Read<seq<T>> {
    match k
    case Fail => Fail
    case Ok(ys, rest, worse) => Ok(xs + ys, rest, bad || worse)
  }

  lemma AfterNothing<T>(k: Read<seq<T>>)
    ensures After([], false, k) == k
  {
    if k.Ok? {
      assert [] + k.value == k.value;
    }
  }

  function Worse(bad: bool, k: Read<map<Text, Value>>): Read<map<Text, Value>> {
    match k
    case Fail => Fail
    case Ok(m, rest, worse) => Ok(m, rest, bad || worse)
  }

  // ------------------------------------------- one round of each reading loop

  ghost function KeyAt(parts: seq<Text>, r: Text): Read<seq<Text>> {
    match KeyPart(SkipBlank(r))
    case Fail => Fail
    case Ok(part, rest, _) =>
      var after := SkipBlank(rest);
      if after == [] || after[0] != DOT then Ok(parts + [part], after, false)
      else After(parts + [part], false, Key(after[1..]))
  }

  lemma KeyRound(parts: seq<Text>, r: Text)
    ensures After(parts, false, Key(r)) == KeyAt(parts, r)
  {
    hide KeyPart, SkipBlank;
    var k := KeyPart(SkipBlank(r));
    if k.Ok? {
      var after := SkipBlank(k.rest);
      if after != [] && after[0] == DOT && Key(after[1..]).Ok? {
        var more := Key(after[1..]).value;
        assert parts + ([k.value] + more) == (parts + [k.value]) + more;
      }
    }
  }

  /** The piece of a string body that the next round reads. */
  function PieceAt(r: Text, multi: bool): Read<Text>
    requires r != []
  {
    if r[0] == BACKSLASH then EscapeAt(r, multi) else Ok([r[0]], r[1..], false)
  }

  predicate ClosesBody(r: Text, multi: bool)
    requires r != []
  {
    (r[0] == DQUOTE && !multi) || (StartsTriple(r, DQUOTE) && multi)
  }

  ghost function BodyAt(b: Text, r: Text, multi: bool): Read<Text>
    requires r != []
  {
    match PieceAt(r, multi)
    case Fail => Fail
    case Ok(s, after, _) => After(b + s, false, BasicBody(after, multi))
  }

  lemma BodyRound(b: Text, r: Text, multi: bool)
    requires r != [] && !ClosesBody(r, multi) && !(IsBreak(r[0]) && !multi)
    ensures After(b, false, BasicBody(r, multi)) == BodyAt(b, r, multi)
  {
    hide EscapeAt;
    var piece := PieceAt(r, multi);
    if piece.Ok? && BasicBody(piece.rest, multi).Ok? {
      var t := BasicBody(piece.rest, multi).value;
      assert b + (piece.value + t) == (b + piece.value) + t;
    }
  }

  lemma BodyEnds(b: Text, r: Text, multi: bool)
    requires r != [] && ClosesBody(r, multi)
    ensures After(b, false, BasicBody(r, multi)) ==
      if multi then Ok(b + Repeat(DQUOTE, ClosingQuotes(r, DQUOTE) - 3), r[ClosingQuotes(r, DQUOTE)..], false)
      else Ok(b, r[1..], false)
  {
    assert b + [] == b;
  }

  lemma BodyBreaks(r: Text)
    ensures r == [] || IsBreak(r[0]) ==> BasicBody(r, false).Fail?
    ensures r == [] ==> BasicBody(r, true).Fail?
  {
  }

  /** What the array loop yields, seen at the start of a round. */
  ghost function ItemsAt(arr: seq<Value>, bad: bool, r: Text): Read<seq<Value>> {
    var s := SkipSpace(r);
    if s.rest != [] && s.rest[0] == RBRACKET then Ok(arr, s.rest[1..], bad || s.bad)
    else
      match ReadValue(s.rest)
      case Fail => Fail
      case Ok(v, after, worse) =>
        var t := SkipSpace(after);
        if t.rest == [] || (t.rest[0] != COMMA && t.rest[0] != RBRACKET) then Fail
        else
          var next := if t.rest[0] == COMMA then t.rest[1..] else t.rest;
          After(arr + [v], bad || s.bad || worse || t.bad, ReadItems(next))
  }

  lemma ItemsRound(arr: seq<Value>, bad: bool, r: Text)
    ensures After(arr, bad, ReadItems(r)) == ItemsAt(arr, bad, r)
  {
    hide ReadValue, SkipSpace;
    var s := SkipSpace(r);
    assert arr + [] == arr;
    if !(s.rest != [] && s.rest[0] == RBRACKET) && ReadValue(s.rest).Ok? {
      var v, t := ReadValue(s.rest).value, SkipSpace(ReadValue(s.rest).rest);
      if t.rest != [] {
        var k := ReadItems(if t.rest[0] == COMMA then t.rest[1..] else t.rest);
        if k.Ok? {
          assert arr + ([v] + k.value) == (arr + [v]) + k.value;
        }
      }
    }
  }

  lemma ArrayDone(arr: seq<Value>, bad: bool, rest: Text, badBefore: bool, k: Read<seq<Value>>)
    requires Ok(arr, rest, bad) == After([], badBefore, k)
    ensures k.Ok? && k.value == arr && k.rest == rest && bad == (badBefore || k.bad)
  {
    assert k.Ok? ==> [] + k.value == k.value;
  }

  /** What the table loop yields, seen at the start of a round. */
  ghost function EntriesAt(bad: bool, r: Text, m: map<Text, Value>): Read<map<Text, Value>> {
    match Toml.Assignment(r, m)
    case Fail => Fail
    case Ok(m1, rest, worse) =>
      var after := SkipBlank(rest);
      if after == [] then Fail
      else if after[0] == RBRACE then Ok(m1, after[1..], bad || worse)
      else if after[0] != COMMA then Fail
      else Worse(bad || worse, ReadEntries(after[1..], m1))
  }

  lemma EntriesRound(bad: bool, r: Text, m: map<Text, Value>)
    ensures Worse(bad, ReadEntries(r, m)) == EntriesAt(bad, r, m)
  {
    hide Toml.Assignment, SkipBlank;
  }

  lemma ScalarStep(s: Text, n: nat)
    requires n < |s| && !EndsScalar(s[n])
    ensures ScalarLength(s[n..]) == 1 + ScalarLength(s[n + 1..])
  {
    assert s[n..][1..] == s[n + 1..];
  }

  lemma ScalarEnds(s: Text)
    requires s == [] || EndsScalar(s[0])
    ensures ScalarLength(s) == 0
  {
  }

  class Parser {
    const src: Text
    var pos: nat
    var bad: bool   // a comment with a control character was skipped

    constructor (src: Text)
      ensures this.src == src && pos == 0 && !bad && Valid()
    {
      this.src, pos, bad := src, 0, false;
    }

    /** The position is inside the source. */
    predicate Valid()
      reads this
    {
      pos <= |src|
    }

    function Rest(): Text
      requires Valid()
      reads this
    {
      src[pos..]
    }

    /** The reader stands right behind what it read, or failed. */
    ghost predicate Stands<T>(r: Option<T>, k: Read<T>, badBefore: bool)
      reads this
    {
      && Valid()
      && match k
         case Fail => r.None?
         case Ok(v, rest, worse) => r == Some(v) && Rest() == rest && bad == (badBefore || worse)
    }

    method SkipBlanks()
      requires Valid()
      modifies `pos
      ensures Valid() && Rest() == SkipBlank(old(Rest()))
    {
      while pos < |src| && IsBlank(src[pos])
        invariant Valid() && SkipBlank(Rest()) == SkipBlank(old(Rest()))
      {
        assert Rest()[1..] == src[pos + 1..];
        pos := pos + 1;
      }
    }

    method SkipCommentHere()
      requires Valid()
      modifies this
      ensures Valid() && Rest() == SkipComment(old(Rest())).rest
      ensures bad == (old(bad) || SkipComment(old(Rest())).bad)
    {
      if pos < |src| && src[pos] == HASH {
        while pos < |src| && src[pos] != LF
          invariant Valid() && SkipToNewline(Rest()).rest == SkipToNewline(old(Rest())).rest
          invariant (bad || SkipToNewline(Rest()).bad) == (old(bad) || SkipToNewline(old(Rest())).bad)
          decreases |src| - pos
        {
          var c := src[pos];
          assert Rest()[1..] == src[pos + 1..];
          var crlf := c == CR && pos + 1 < |src| && src[pos + 1] == LF;
          if (c < 0x20 && c != TAB && !crlf) || c == 0x7F {
            bad := true;
          }
          pos := pos + 1;
        }
      }
    }

    method SkipSpaces()
      requires Valid()
      modifies this
      ensures Valid() && Rest() == SkipSpace(old(Rest())).rest
      ensures bad == (old(bad) || SkipSpace(old(Rest())).bad)
    {
      while pos < |src|
        invariant Valid() && SkipSpace(Rest()).rest == SkipSpace(old(Rest())).rest
        invariant (bad || SkipSpace(Rest()).bad) == (old(bad) || SkipSpace(old(Rest())).bad)
        decreases |src| - pos
      {
        var c := src[pos];
        assert Rest()[1..] == src[pos + 1..];
        if IsBlank(c) || IsBreak(c) {
          pos := pos + 1;
        } else if c == HASH {
          ghost var before := |Rest()|;
          SkipCommentHere();
          assert |Rest()| < before;
        } else {
          return;
        }
      }
    }

    method ReadKeyPart() returns (r: Option<Text>)
      requires Valid()
      modifies `pos
      ensures Stands(r, KeyPart(old(Rest())), bad)
    {
      hide IndexOf, BareLength;
      if pos == |src| {
        return None;
      }
      var c := src[pos];
      if c == DQUOTE || c == SQUOTE {
        var tail := src[pos + 1..];
        assert Rest()[1..] == tail;
        var end := IndexOf(tail, c);
        if StartsTriple(src[pos..], c) || end < 0 {
          return None;
        }
        var k := src[pos + 1..pos + 1 + end];
        assert Rest()[1..end + 1] == k && Rest()[end + 2..] == src[pos + end + 2..];
        if !QuotedKeyAllowed(k) {
          return None;
        }
        pos := pos + end + 2;
        return Some(k);
      } else if IsBareKeyByte(c) {
        var k := ReadBare();
        return Some(k);
      }
      return None;
    }

    method ReadBare() returns (k: Text)
      requires Valid()
      modifies `pos
      ensures Valid() && k == old(Rest())[..BareLength(old(Rest()))] && Rest() == old(Rest())[BareLength(old(Rest()))..]
    {
      var start := pos;
      while pos < |src| && IsBareKeyByte(src[pos])
        invariant start <= pos <= |src|
        invariant pos - start + BareLength(src[pos..]) == BareLength(src[start..])
      {
        assert src[pos..][1..] == src[pos + 1..];
        pos := pos + 1;
      }
      k := src[start..pos];
      assert k == src[start..][..pos - start] && src[pos..] == src[start..][pos - start..];
    }

    method ReadKey() returns (r: Option<seq<Text>>)
      requires Valid()
      modifies `pos
      ensures Stands(r, Key(old(Rest())), bad)
    {
      hide Key, KeyPart, SkipBlank;
      var parts: seq<Text> := [];
      AfterNothing(Key(Rest()));
      while true
        invariant Valid() && After(parts, false, Key(Rest())) == Key(old(Rest()))
        decreases |src| - pos
      {
        ghost var here := Rest();
        KeyRound(parts, here);
        SkipBlanks();
        var k := ReadKeyPart();
        if k.None? {
          return None;
        }
        SkipBlanks();
        parts := parts + [k.value];
        if pos == |src| || src[pos] != DOT {
          return Some(parts);
        }
        assert Rest()[1..] == src[pos + 1..];
        pos := pos + 1;
      }
    }

    /** Moves over the blanks and line ends behind a backslash at the end of a line. */
    method SkipContinuation()
      requires Valid()
      modifies `pos
      ensures Valid() && Rest() == SkipBlankOrBreak(old(Rest()))
    {
      ghost var line := Rest();
      while pos < |src| && (IsBlank(src[pos]) || IsBreak(src[pos]))
        invariant Valid() && SkipBlankOrBreak(Rest()) == SkipBlankOrBreak(line)
      {
        assert Rest()[1..] == src[pos + 1..];
        pos := pos + 1;
      }
    }

    method ReadEscape(multi: bool) returns (r: Option<Text>)
      requires pos < |src| && src[pos] == BACKSLASH
      modifies `pos
      ensures Stands(r, EscapeAt(old(Rest()), multi), bad)
    {
      hide HexValue, IsRune, Utf8, Escape, SkipBlankOrBreak, IsBlank, IsBreak, SkipBlank;
      ghost var here := Rest();
      pos := pos + 1;
      assert here[1..] == Rest();
      if pos == |src| {
        return None;
      }
      var e := src[pos];
      if Escape(e) >= 0 {
        pos := pos + 1;
        assert here[2..] == Rest();
        return Some([Escape(e)]);
      }
      if e == 'u' as int || e == 'U' as int {
        var n := if e == 'U' as int then 8 else 4;
        if pos + 1 + n > |src| {
          return None;
        }
        var v := HexValue(src[pos + 1..pos + 1 + n]);
        assert here[2..2 + n] == src[pos + 1..pos + 1 + n] && here[2 + n..] == src[pos + 1 + n..];
        if !IsRune(v) {
          return None;
        }
        pos := pos + 1 + n;
        return Some(Utf8(v));
      }
      if (IsBlank(e) || IsBreak(e)) && multi {
        SkipBlanks();
        if pos == |src| || !IsBreak(src[pos]) {
          return None;
        }
        SkipContinuation();
        return Some([]);
      }
      return None;
    }

    method ReadBasic(multi: bool) returns (r: Option<Text>)
      requires Valid()
      modifies `pos
      ensures Stands(r, BasicBody(old(Rest()), multi), bad)
    {
      hide EscapeAt, BasicBody, ClosingQuotes, StartsTriple;
      var b: Text := [];
      AfterNothing(BasicBody(Rest(), multi));
      while pos < |src|
        invariant Valid() && After(b, false, BasicBody(Rest(), multi)) == BasicBody(old(Rest()), multi)
        decreases |src| - pos
      {
        var c := src[pos];
        ghost var here := Rest();
        assert here[1..] == src[pos + 1..];
        if c == DQUOTE && !multi {
          BodyEnds(b, here, multi);
          pos := pos + 1;
          return Some(b);
        }
        if multi && StartsTriple(src[pos..], DQUOTE) {
          BodyEnds(b, here, multi);
          var q := ClosingQuotes(src[pos..], DQUOTE);
          assert here[q..] == src[pos + q..];
          pos := pos + q;
          return Some(b + Repeat(DQUOTE, q - 3));
        }
        if IsBreak(c) && !multi {
          BodyBreaks(here);
          return None;
        }
        BodyRound(b, here, multi);
        if c == BACKSLASH {
          var e := ReadEscape(multi);
          if e.None? {
            return None;
          }
          b := b + e.value;
        } else {
          b := b + [c];
          pos := pos + 1;
        }
      }
      BodyBreaks(Rest());
      return None;
    }

    method ReadLiteral(multi: bool) returns (r: Option<Text>)
      requires Valid()
      modifies `pos
      ensures Stands(r, LiteralBody(old(Rest()), multi), bad)
    {
      hide IndexOf, IndexOfTriple, ClosingQuotes;
      var here := src[pos..];
      var taken, skip;
      if !multi {
        var end, line := IndexOf(here, SQUOTE), IndexOf(here, LF);
        if end < 0 || 0 <= line < end {
          return None;
        }
        taken, skip := end, 1;
      } else {
        var end := IndexOfTriple(here, SQUOTE);
        if end < 0 {
          return None;
        }
        taken, skip := end + ClosingQuotes(here[end..], SQUOTE) - 3, 3;
      }
      assert here[taken + skip..] == src[pos + taken + skip..];
      pos := pos + taken + skip;
      return Some(here[..taken]);
    }

    method ReadString() returns (r: Option<Value>)
      requires pos < |src| && (src[pos] == DQUOTE || src[pos] == SQUOTE)
      modifies `pos
      ensures Stands(r, StringValue(old(Rest())), bad)
    {
      hide BasicBody, LiteralBody;
      ghost var here := Rest();
      var c := src[pos];
      var s;
      if StartsTriple(src[pos..], c) {
        assert here[3..] == src[pos + 3..];
        pos := pos + 3;
        if c == DQUOTE {
          var trimmed := |src| - pos - |TrimFirstNewline(src[pos..])|;
          assert TrimFirstNewline(src[pos..]) == src[pos + trimmed..];
          pos := pos + trimmed;
          s := ReadBasic(true);
        } else {
          s := ReadLiteral(true);
          if s.Some? {
            s := Some(TrimFirstNewline(s.value));
          }
        }
      } else {
        assert here[1..] == src[pos + 1..];
        pos := pos + 1;
        if c == DQUOTE {
          s := ReadBasic(false);
        } else {
          s := ReadLiteral(false);
        }
      }
      r := if s.None? then None else Some(Str(s.value));
    }

    method ReadScalar() returns (r: Option<Value>)
      requires Valid()
      modifies `pos
      ensures Stands(r, Scalar(old(Rest())), bad)
    {
      hide ScalarLength, IsScalarByte;
      var start := pos;
      var ok := PassScalar();
      if !ok || pos == start {
        return None;
      }
      assert src[start..pos] == src[start..][..pos - start] && src[pos..] == src[start..][pos - start..];
      return Some(Raw(src[start..pos]));
    }

    /** Moves over the bytes of a scalar, up to the first that cannot be part of one. */
    method PassScalar() returns (ok: bool)
      requires Valid()
      modifies `pos
      ensures Valid() && old(pos) <= pos
      ensures ok ==> pos - old(pos) == ScalarLength(old(Rest()))
      ensures ok <==> forall i :: 0 <= i < ScalarLength(old(Rest())) ==> IsScalarByte(old(Rest())[i])
    {
      hide IsScalarByte, EndsScalar, ScalarLength;
      ghost var here := Rest();
      ghost var n := 0;
      assert here[0..] == here;
      while pos < |src| && !EndsScalar(src[pos])
        invariant Valid() && pos == old(pos) + n && n <= |here| && src[pos..] == here[n..]
        invariant n + ScalarLength(here[n..]) == ScalarLength(here)
        invariant forall i :: 0 <= i < n ==> IsScalarByte(here[i])
      {
        assert src[pos] == here[n];
        ScalarStep(here, n);
        if !IsScalarByte(src[pos]) {
          return false;
        }
        pos := pos + 1;
        n := n + 1;
      }
      ScalarEnds(here[n..]);
      ok := true;
    }

    /** Reads one value: on every input it stops inside the source, right behind the value. */
    method Read() returns (r: Option<Value>)
      requires Valid()
      modifies this
      ensures Stands(r, ReadValue(old(Rest())), old(bad))
      decreases |src| - pos, 3
    {
      hide ReadItems, ReadEntries, StringValue, Scalar;
      if pos == |src| {
        return None;
      }
      ghost var here := Rest();
      var c := src[pos];
      assert here[1..] == src[pos + 1..];
      if c == DQUOTE || c == SQUOTE {
        r := ReadString();
      } else if c == LBRACKET {
        pos := pos + 1;
        var items := ReadArray();
        r := if items.None? then None else Some(Arr(items.value));
      } else if c == LBRACE {
        pos := pos + 1;
        SkipBlanks();
        ghost var inner := Rest();
        if pos < |src| && src[pos] == RBRACE {
          assert inner[1..] == src[pos + 1..];
          pos := pos + 1;
          return Some(Table(map[]));
        }
        var m := ReadTable();
        r := if m.None? then None else Some(Table(m.value));
      } else {
        r := ReadScalar();
      }
    }

    method ReadArray() returns (r: Option<seq<Value>>)
      requires Valid()
      modifies this
      ensures Stands(r, ReadItems(old(Rest())), old(bad))
      decreases |src| - pos, 4
    {
      hide ReadValue, ReadItems, SkipSpace;
      var arr: seq<Value> := [];
      AfterNothing(ReadItems(Rest()));
      while true
        invariant Valid() && old(pos) <= pos
        invariant After(arr, bad, ReadItems(Rest())) == After([], old(bad), ReadItems(old(Rest())))
        decreases |src| - pos
      {
        ItemsRound(arr, bad, Rest());
        SkipSpaces();
        if pos < |src| && src[pos] == RBRACKET {
          assert Rest()[1..] == src[pos + 1..];
          pos := pos + 1;
          ArrayDone(arr, bad, Rest(), old(bad), ReadItems(old(Rest())));
          return Some(arr);
        }
        var v := Read();
        if v.None? {
          return None;
        }
        SkipSpaces();
        if pos == |src| || (src[pos] != COMMA && src[pos] != RBRACKET) {
          return None;
        }
        assert Rest()[1..] == src[pos + 1..];
        arr := arr + [v.value];
        if src[pos] == COMMA {
          pos := pos + 1;
        }
      }
    }

    method ReadTable() returns (r: Option<map<Text, Value>>)
      requires Valid()
      modifies this
      ensures Stands(r, ReadEntries(old(Rest()), map[]), old(bad))
      decreases |src| - pos, 5
    {
      hide Toml.Assignment, ReadEntries, SkipBlank;
      var m: map<Text, Value> := map[];
      while true
        invariant Valid() && old(pos) <= pos
        invariant Worse(bad, ReadEntries(Rest(), m)) == Worse(old(bad), ReadEntries(old(Rest()), map[]))
        decreases |src| - pos
      {
        EntriesRound(bad, Rest(), m);
        var m1 := Assign(m);
        if m1.None? {
          return None;
        }
        m := m1.value;
        SkipBlanks();
        if pos == |src| {
          return None;
        }
        assert Rest()[1..] == src[pos + 1..];
        if src[pos] == RBRACE {
          pos := pos + 1;
          return Some(m);
        }
        if src[pos] != COMMA {
          return None;
        }
        pos := pos + 1;
      }
    }

    method Assign(m: map<Text, Value>) returns (r: Option<map<Text, Value>>)
      requires Valid()
      modifies this
      ensures Stands(r, Toml.Assignment(old(Rest()), m), old(bad))
      decreases |src| - pos, 4
    {
      hide Key, ReadValue, Insert;
      var keys := ReadKey();
      if keys.None? {
        return None;
      }
      SkipBlanks();
      if pos == |src| || src[pos] != EQUALS {
        return None;
      }
      assert Rest()[1..] == src[pos + 1..];
      pos := pos + 1;
      SkipBlanks();
      var v := Read();
      if v.None? {
        return None;
      }
      var inserted := Insert(m, keys.value, v.value);
      r := if inserted.Clash? then None else Some(inserted.entries);
    }
  }
}
