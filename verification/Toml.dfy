/**
  The TOML value recogniser: what each reader consumes and yields
  (src/internal/verify/ingest_toml.go).

  Sources are byte strings; a reader takes the unread input and returns the
  value together with the input left.  `bad` reports a comment that contains a
  control character.
 */
module Toml {

  type Byte = x: int | 0 <= x < 256

  type Text = seq<Byte>

  const TAB: Byte := 0x09
  const LF: Byte := 0x0A
  const CR: Byte := 0x0D
  const SPACE: Byte := 0x20
  const DQUOTE: Byte := 0x22
  const HASH: Byte := 0x23
  const SQUOTE: Byte := 0x27
  const COMMA: Byte := 0x2C
  const DOT: Byte := 0x2E
  const EQUALS: Byte := 0x3D
  const LBRACKET: Byte := 0x5B
  const BACKSLASH: Byte := 0x5C
  const RBRACKET: Byte := 0x5D
  const LBRACE: Byte := 0x7B
  const RBRACE: Byte := 0x7D

  /** Strings are decoded; other scalars keep their source text. */
  datatype Value = Str(s: Text) | Raw(s: Text) | Arr(items: seq<Value>) | Table(entries: map<Text, Value>)

  datatype Read<+T> = Ok(value: T, rest: Text, bad: bool) | Fail

  // ------------------------------------------------------------ white space

  predicate IsBlank(c: Byte) {
    c == SPACE || c == TAB
  }

  predicate IsBreak(c: Byte) {
    c == LF || c == CR
  }

  function SkipBlank(r: Text): (s: Text)
    ensures |s| <= |r|
  {
    if r != [] && IsBlank(r[0]) then SkipBlank(r[1..]) else r
  }

  datatype Skipped = Skipped(rest: Text, bad: bool)

  /** A comment runs up to the newline; only a tab and a CRLF are allowed control characters. */
  function SkipToNewline(r: Text): (s: Skipped)
    ensures |s.rest| <= |r|
  {
    if r == [] || r[0] == LF then Skipped(r, false)
    else
      var crlf := r[0] == CR && |r| > 1 && r[1] == LF;
      var wrong := (r[0] < 0x20 && r[0] != TAB && !crlf) || r[0] == 0x7F;
      var s := SkipToNewline(r[1..]);
      Skipped(s.rest, wrong || s.bad)
  }

  function SkipComment(r: Text): (s: Skipped)
    ensures |s.rest| <= |r|
    ensures r != [] && r[0] == HASH ==> |s.rest| < |r|
  {
    if r != [] && r[0] == HASH then SkipToNewline(r) else Skipped(r, false)
  }

  function SkipSpace(r: Text): (s: Skipped)
    ensures |s.rest| <= |r|
    decreases |r|
  {
    if r == [] then Skipped(r, false)
    else if IsBlank(r[0]) || IsBreak(r[0]) then SkipSpace(r[1..])
    else if r[0] == HASH then
      var c := SkipComment(r);
      var s := SkipSpace(c.rest);
      Skipped(s.rest, c.bad || s.bad)
    else Skipped(r, false)
  }

  // ------------------------------------------------------------------- keys

  predicate IsBareKeyByte(c: Byte) {
    ('a' as int <= c <= 'z' as int) || ('A' as int <= c <= 'Z' as int) || ('0' as int <= c <= '9' as int)
    || c == '_' as int || c == '-' as int
  }

  predicate StartsTriple(r: Text, c: Byte) {
    |r| >= 3 && r[0] == c && r[1] == c && r[2] == c
  }

  /** The first position of c, or -1. */
  function IndexOf(r: Text, c: Byte): (i: int)
    ensures -1 <= i < |r|
    ensures i >= 0 ==> r[i] == c && c !in r[..i]
    ensures i < 0 <==> c !in r
  {
    if r == [] then -1
    else if r[0] == c then 0
    else
      var i := IndexOf(r[1..], c);
      if i < 0 then -1
      else
        assert r[..i + 1] == [r[0]] + r[1..][..i];
        i + 1
  }

  function BareLength(r: Text): (n: nat)
    ensures n <= |r|
    ensures forall i :: 0 <= i < n ==> IsBareKeyByte(r[i])
    ensures n < |r| ==> !IsBareKeyByte(r[n])
  {
    if r != [] && IsBareKeyByte(r[0]) then 1 + BareLength(r[1..]) else 0
  }

  predicate QuotedKeyAllowed(k: Text) {
    BACKSLASH !in k && LF !in k && CR !in k
  }

  function KeyPart(r: Text): (k: Read<Text>)
    ensures k.Ok? ==> |k.rest| < |r|
  {
    if r == [] then Fail
    else if r[0] == DQUOTE || r[0] == SQUOTE then
      var end := IndexOf(r[1..], r[0]);
      if StartsTriple(r, r[0]) || end < 0 || !QuotedKeyAllowed(r[1..end + 1]) then Fail
      else Ok(r[1..end + 1], r[end + 2..], false)
    else if IsBareKeyByte(r[0]) then Ok(r[..BareLength(r)], r[BareLength(r)..], false)
    else Fail
  }

  /** A dotted key. */
  function Key(r: Text): (k: Read<seq<Text>>)
    ensures k.Ok? ==> |k.rest| < |r| && |k.value| > 0
    decreases |r|
  {
    match KeyPart(SkipBlank(r))
    case Fail => Fail
    case Ok(part, rest, _) =>
      var after := SkipBlank(rest);
      if after == [] || after[0] != DOT then Ok([part], after, false)
      else
        match Key(after[1..])
        case Fail => Fail
        case Ok(parts, last, _) => Ok([part] + parts, last, false)
  }

  // ---------------------------------------------------------------- strings

  /** The byte a one-letter escape stands for, or -1. */
  function Escape(e: Byte): (c: int)
    ensures -1 <= c < 256
  {
    if e == 'b' as int then 0x08
    else if e == 't' as int then TAB
    else if e == 'n' as int then LF
    else if e == 'f' as int then 0x0C
    else if e == 'r' as int then CR
    else if e == DQUOTE then DQUOTE
    else if e == BACKSLASH then BACKSLASH
    else -1
  }

  function HexDigit(c: Byte): (v: int)
    ensures -1 <= v < 16
  {
    if '0' as int <= c <= '9' as int then c - '0' as int
    else if 'a' as int <= c <= 'f' as int then c - 'a' as int + 10
    else if 'A' as int <= c <= 'F' as int then c - 'A' as int + 10
    else -1
  }

  /** The number a run of hexadecimal digits denotes, or -1. */
  function HexValue(ds: Text): (v: int)
    ensures v >= -1
  {
    if ds == [] then 0
    else
      var high, low := HexValue(ds[..|ds| - 1]), HexDigit(ds[|ds| - 1]);
      if high < 0 || low < 0 then -1 else high * 16 + low
  }

  predicate IsRune(v: int) {
    0 <= v < 0xD800 || 0xDFFF < v <= 0x10FFFF
  }

  function Utf8(v: int): Text
    requires IsRune(v)
  {
    if v < 0x80 then [v]
    else if v < 0x800 then [0xC0 + v / 0x40, 0x80 + v % 0x40]
    else if v < 0x10000 then [0xE0 + v / 0x1000, 0x80 + v / 0x40 % 0x40, 0x80 + v % 0x40]
    else [0xF0 + v / 0x40000, 0x80 + v / 0x1000 % 0x40, 0x80 + v / 0x40 % 0x40, 0x80 + v % 0x40]
  }

  function SkipBlankOrBreak(r: Text): (s: Text)
    ensures |s| <= |r|
  {
    if r != [] && (IsBlank(r[0]) || IsBreak(r[0])) then SkipBlankOrBreak(r[1..]) else r
  }

  /** How many quotes close a multi-line string: three, plus up to two that belong to it. */
  function ClosingQuotes(r: Text, c: Byte): (q: nat)
    requires StartsTriple(r, c)
    ensures 3 <= q <= 5 && q <= |r|
  {
    if |r| > 3 && r[3] == c then if |r| > 4 && r[4] == c then 5 else 4 else 3
  }

  function Repeat(c: Byte, n: nat): Text {
    seq(n, _ => c)
  }

  /** The escape sequence at the start of the input: what it stands for and how much it takes. */
  function EscapeAt(r: Text, multi: bool): (k: Read<Text>)
    requires r != [] && r[0] == BACKSLASH
    ensures k.Ok? ==> |k.rest| < |r|
  {
    if |r| == 1 then Fail
    else
      var e := r[1];
      if Escape(e) >= 0 then Ok([Escape(e)], r[2..], false)
      else if e == 'u' as int || e == 'U' as int then
        var n := if e == 'U' as int then 8 else 4;
        if |r| < 2 + n || !IsRune(HexValue(r[2..2 + n])) then Fail
        else Ok(Utf8(HexValue(r[2..2 + n])), r[2 + n..], false)
      else if (IsBlank(e) || IsBreak(e)) && multi then
        var line := SkipBlank(r[1..]);
        if line == [] || !IsBreak(line[0]) then Fail
        else Ok([], SkipBlankOrBreak(line), false)
      else Fail
  }

  /** The body of a basic string, after its opening quotes. */
  function BasicBody(r: Text, multi: bool): (k: Read<Text>)
    ensures k.Ok? ==> |k.rest| < |r|
    decreases |r|
  {
    if r == [] then Fail
    else if r[0] == DQUOTE && !multi then Ok([], r[1..], false)
    else if StartsTriple(r, DQUOTE) && multi then
      var q := ClosingQuotes(r, DQUOTE);
      Ok(Repeat(DQUOTE, q - 3), r[q..], false)
    else if IsBreak(r[0]) && !multi then Fail
    else
      var piece := if r[0] == BACKSLASH then EscapeAt(r, multi) else Ok([r[0]], r[1..], false);
      match piece
      case Fail => Fail
      case Ok(s, after, _) =>
        match BasicBody(after, multi)
        case Fail => Fail
        case Ok(t, rest, _) => Ok(s + t, rest, false)
  }

  /** The first position of the closing triple quote, or -1. */
  function IndexOfTriple(r: Text, c: Byte): (i: int)
    ensures i >= 0 ==> i + 3 <= |r| && StartsTriple(r[i..], c)
    ensures i >= -1
  {
    if r == [] then -1
    else if StartsTriple(r, c) then 0
    else
      var i := IndexOfTriple(r[1..], c);
      if i < 0 then -1
      else
        assert r[1..][i..] == r[i + 1..];
        i + 1
  }

  /** The body of a literal string, after its opening quotes. */
  function LiteralBody(r: Text, multi: bool): (k: Read<Text>)
    ensures k.Ok? ==> |k.rest| < |r|
  {
    if multi then
      var end := IndexOfTriple(r, SQUOTE);
      if end < 0 then Fail
      else
        var q := ClosingQuotes(r[end..], SQUOTE) - 3;
        Ok(r[..end + q], r[end + 3 + q..], false)
    else
      var end, line := IndexOf(r, SQUOTE), IndexOf(r, LF);
      if end < 0 || 0 <= line < end then Fail else Ok(r[..end], r[end + 1..], false)
  }

  function TrimFirstNewline(s: Text): (r: Text)
    ensures |r| <= |s|
  {
    if |s| >= 2 && s[0] == CR && s[1] == LF then s[2..]
    else if s != [] && s[0] == LF then s[1..]
    else s
  }

  function StringValue(r: Text): (k: Read<Value>)
    requires r != [] && (r[0] == DQUOTE || r[0] == SQUOTE)
    ensures k.Ok? ==> |k.rest| < |r|
  {
    if StartsTriple(r, r[0]) then
      if r[0] == DQUOTE then
        match BasicBody(TrimFirstNewline(r[3..]), true)
        case Fail => Fail
        case Ok(s, rest, _) => Ok(Str(s), rest, false)
      else
        match LiteralBody(r[3..], true)
        case Fail => Fail
        case Ok(s, rest, _) => Ok(Str(TrimFirstNewline(s)), rest, false)
    else
      match if r[0] == DQUOTE then BasicBody(r[1..], false) else LiteralBody(r[1..], false)
      case Fail => Fail
      case Ok(s, rest, _) => Ok(Str(s), rest, false)
  }

  // ---------------------------------------------------------------- scalars

  predicate EndsScalar(c: Byte) {
    IsBlank(c) || IsBreak(c) || c == COMMA || c == RBRACKET || c == RBRACE || c == HASH
  }

  predicate IsScalarByte(c: Byte) {
    IsBareKeyByte(c) || c == '+' as int || c == DOT || c == ':' as int
  }

  function ScalarLength(r: Text): (n: nat)
    ensures n <= |r|
    ensures forall i :: 0 <= i < n ==> !EndsScalar(r[i])
    ensures n < |r| ==> EndsScalar(r[n])
  {
    if r != [] && !EndsScalar(r[0]) then 1 + ScalarLength(r[1..]) else 0
  }

  function Scalar(r: Text): (k: Read<Value>)
    ensures k.Ok? ==> |k.rest| < |r|
  {
    var n := ScalarLength(r);
    if n == 0 || exists i :: 0 <= i < n && !IsScalarByte(r[i]) then Fail
    else Ok(Raw(r[..n]), r[n..], false)
  }

  // ----------------------------------------------------------------- values

  datatype Inserted = Inserted(entries: map<Text, Value>) | Clash

  /** Enters the value under a dotted key; tables on the way are created or reused. */
  function Insert(m: map<Text, Value>, keys: seq<Text>, v: Value): Inserted
    requires keys != []
    decreases |keys|
  {
    var k := keys[0];
    if |keys| == 1 then if k in m then Clash else Inserted(m[k := v])
    else if k in m && !m[k].Table? then Clash
    else
      match Insert(if k in m then m[k].entries else map[], keys[1..], v)
      case Clash => Clash
      case Inserted(sub) => Inserted(m[k := Table(sub)])
  }

  function ReadValue(r: Text): (k: Read<Value>)
    ensures k.Ok? ==> |k.rest| < |r|
    decreases |r|, 3
  {
    if r == [] then Fail
    else if r[0] == DQUOTE || r[0] == SQUOTE then StringValue(r)
    else if r[0] == LBRACKET then
      match ReadItems(r[1..])
      case Fail => Fail
      case Ok(items, rest, bad) => Ok(Arr(items), rest, bad)
    else if r[0] == LBRACE then
      var inner := SkipBlank(r[1..]);
      if inner != [] && inner[0] == RBRACE then Ok(Table(map[]), inner[1..], false)
      else
        match ReadEntries(inner, map[])
        case Fail => Fail
        case Ok(m, rest, bad) => Ok(Table(m), rest, bad)
    else Scalar(r)
  }

  /** The items of an array up to and including its bracket. */
  function ReadItems(r: Text): (k: Read<seq<Value>>)
    ensures k.Ok? ==> |k.rest| < |r|
    decreases |r|, 4
  {
    var s := SkipSpace(r);
    if s.rest != [] && s.rest[0] == RBRACKET then Ok([], s.rest[1..], s.bad)
    else
      match ReadValue(s.rest)
      case Fail => Fail
      case Ok(v, after, bad) =>
        var t := SkipSpace(after);
        if t.rest == [] || (t.rest[0] != COMMA && t.rest[0] != RBRACKET) then Fail
        else
          match ReadItems(if t.rest[0] == COMMA then t.rest[1..] else t.rest)
          case Fail => Fail
          case Ok(vs, rest, worse) => Ok([v] + vs, rest, s.bad || bad || t.bad || worse)
  }

  /** The entries of an inline table up to and including its brace. */
  function ReadEntries(r: Text, m: map<Text, Value>): (k: Read<map<Text, Value>>)
    ensures k.Ok? ==> |k.rest| < |r|
    decreases |r|, 5
  {
    match Assignment(r, m)
    case Fail => Fail
    case Ok(m1, rest, bad) =>
      var after := SkipBlank(rest);
      if after == [] then Fail
      else if after[0] == RBRACE then Ok(m1, after[1..], bad)
      else if after[0] != COMMA then Fail
      else
        match ReadEntries(after[1..], m1)
        case Fail => Fail
        case Ok(m2, last, worse) => Ok(m2, last, bad || worse)
  }

  /** `dotted.key = value`, entered into the table. */
  function Assignment(r: Text, m: map<Text, Value>): (k: Read<map<Text, Value>>)
    ensures k.Ok? ==> |k.rest| < |r|
    decreases |r|, 4
  {
    match Key(r)
    case Fail => Fail
    case Ok(keys, rest, _) =>
      var after := SkipBlank(rest);
      if after == [] || after[0] != EQUALS then Fail
      else
        match ReadValue(SkipBlank(after[1..]))
        case Fail => Fail
        case Ok(v, last, bad) =>
          match Insert(m, keys, v)
          case Clash => Fail
          case Inserted(m1) => Ok(m1, last, bad)
  }
}
