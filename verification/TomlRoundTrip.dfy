/**
  Canonical renderings of value trees are read back to exactly the tree, and
  reading stops right behind them (src/internal/verify/ingest_toml.go).
 */
module TomlRoundTrip {
  import opened Toml

  /** A value as it is written: strings as basic or literal strings, tables with their entries in order. */
  datatype Tree =
    | Basic(s: Text)
    | Quoted(s: Text)
    | Plain(s: Text)
    | List(items: seq<Tree>)
    | Inline(entries: seq<Entry>)

  datatype Entry = Entry(key: Text, value: Tree)

  // ---------------------------------------------------------- what can be written

  predicate IsBareKey(k: Text) {
    k != [] && forall i :: 0 <= i < |k| ==> IsBareKeyByte(k[i])
  }

  /** Keys with both kinds of quote, or with a backslash or line break, cannot be written. */
  predicate IsWritableKey(k: Text) {
    IsBareKey(k) || (QuotedKeyAllowed(k) && (DQUOTE !in k || SQUOTE !in k))
  }

  predicate DistinctKeys(es: seq<Entry>) {
    forall i, j :: 0 <= i < j < |es| ==> es[i].key != es[j].key
  }

  predicate IsWritable(t: Tree) {
    match t
    case Basic(_) => true
    case Quoted(s) => SQUOTE !in s && LF !in s
    case Plain(s) => s != [] && forall i :: 0 <= i < |s| ==> IsScalarByte(s[i])
    case List(items) => forall i :: 0 <= i < |items| ==> IsWritable(items[i])
    case Inline(es) =>
      DistinctKeys(es) && forall i :: 0 <= i < |es| ==> IsWritableKey(es[i].key) && IsWritable(es[i].value)
  }

  // --------------------------------------------------------------- rendering

  function EscapeByte(c: Byte): Text {
    if c == DQUOTE then [BACKSLASH, DQUOTE]
    else if c == BACKSLASH then [BACKSLASH, BACKSLASH]
    else if c == LF then [BACKSLASH, 'n' as int]
    else if c == CR then [BACKSLASH, 'r' as int]
    else if c == TAB then [BACKSLASH, 't' as int]
    else if c == 0x08 then [BACKSLASH, 'b' as int]
    else if c == 0x0C then [BACKSLASH, 'f' as int]
    else [c]
  }

  function EscapeAll(s: Text): Text {
    if s == [] then [] else EscapeByte(s[0]) + EscapeAll(s[1..])
  }

  function RenderKey(k: Text): Text {
    if IsBareKey(k) then k
    else if DQUOTE !in k then [DQUOTE] + k + [DQUOTE]
    else [SQUOTE] + k + [SQUOTE]
  }

  function Render(t: Tree): Text
    decreases t, 0
  {
    match t
    case Basic(s) => [DQUOTE] + EscapeAll(s) + [DQUOTE]
    case Quoted(s) => [SQUOTE] + s + [SQUOTE]
    case Plain(s) => s
    case List(items) => [LBRACKET] + RenderItems(items)
    case Inline(es) => [LBRACE] + (if es == [] then [RBRACE] else RenderEntries(es))
  }

  /** The items, separated by a comma and a blank, and the closing bracket. */
  function RenderItems(items: seq<Tree>): Text
    decreases items, 1
  {
    if items == [] then [RBRACKET]
    else if |items| == 1 then Render(items[0]) + [RBRACKET]
    else Render(items[0]) + [COMMA, SPACE] + RenderItems(items[1..])
  }

  function RenderEntry(e: Entry): Text
    decreases e, 1
  {
    RenderKey(e.key) + [SPACE, EQUALS, SPACE] + Render(e.value)
  }

  function RenderEntries(es: seq<Entry>): Text
    requires es != []
    decreases es, 2
  {
    if |es| == 1 then RenderEntry(es[0]) + [RBRACE]
    else RenderEntry(es[0]) + [COMMA, SPACE] + RenderEntries(es[1..])
  }

  // ------------------------------------------------------------- the values

  function ValueOf(t: Tree): Value
    decreases t, 0
  {
    match t
    case Basic(s) => Str(s)
    case Quoted(s) => Str(s)
    case Plain(s) => Raw(s)
    case List(items) => Arr(ValuesOf(items))
    case Inline(es) => Table(TableOf(map[], es))
  }

  function ValuesOf(items: seq<Tree>): seq<Value>
    decreases items, 1
  {
    if items == [] then [] else [ValueOf(items[0])] + ValuesOf(items[1..])
  }

  function TableOf(m: map<Text, Value>, es: seq<Entry>): map<Text, Value>
    decreases es, 1
  {
    if es == [] then m else TableOf(m[es[0].key := ValueOf(es[0].value)], es[1..])
  }

  // -------------------------------------------------------------- strings

  lemma EscapeByteDecodes(c: Byte, post: Text)
    ensures var r := EscapeByte(c) + post;
      && r[0] != DQUOTE && !IsBreak(r[0])
      && (r[0] == BACKSLASH ==> EscapeAt(r, false) == Ok([c], post, false))
      && (r[0] != BACKSLASH ==> r[0] == c && r[1..] == post)
  {
    var r := EscapeByte(c) + post;
    if r[0] == BACKSLASH {
      assert r[2..] == post;
    }
  }

  lemma {:induction false} BasicDecodes(s: Text, post: Text)
    ensures BasicBody(EscapeAll(s) + [DQUOTE] + post, false) == Ok(s, post, false)
    decreases |s|
  {
    hide EscapeByte;
    var r := EscapeAll(s) + [DQUOTE] + post;
    if s == [] {
      assert r == [DQUOTE] + post;
      assert r[1..] == post;
    } else {
      var tail := EscapeAll(s[1..]) + [DQUOTE] + post;
      assert r == EscapeByte(s[0]) + tail;
      EscapeByteDecodes(s[0], tail);
      BasicDecodes(s[1..], post);
      assert [s[0]] + s[1..] == s;
    }
  }

  lemma {:induction false} IndexOfPast(s: Text, c: Byte, post: Text)
    requires c !in s
    ensures IndexOf(s + [c] + post, c) == |s|
    decreases |s|
  {
    var r := s + [c] + post;
    if s != [] {
      IndexOfPast(s[1..], c, post);
      assert r[1..] == s[1..] + [c] + post;
      assert s[0] in s;
    }
  }

  /** What may follow a value: nothing, or a byte that ends a scalar. */
  predicate Stops(post: Text) {
    post == [] || EndsScalar(post[0])
  }

  lemma BasicRoundTrip(s: Text, post: Text)
    requires Stops(post)
    ensures ReadValue([DQUOTE] + EscapeAll(s) + [DQUOTE] + post) == Ok(Str(s), post, false)
  {
    hide BasicBody, Scalar, LiteralBody;
    var r := [DQUOTE] + EscapeAll(s) + [DQUOTE] + post;
    assert r[1..] == EscapeAll(s) + [DQUOTE] + post;
    BasicDecodes(s, post);
    NoTripleQuote(s, post);
    assert !StartsTriple(r, DQUOTE);
  }

  lemma NoTripleQuote(s: Text, post: Text)
    requires Stops(post)
    ensures !StartsTriple([DQUOTE] + EscapeAll(s) + [DQUOTE] + post, DQUOTE)
  {
    var r := [DQUOTE] + EscapeAll(s) + [DQUOTE] + post;
    if s == [] {
      assert r == [DQUOTE, DQUOTE] + post;
    } else {
      EscapeByteDecodes(s[0], EscapeAll(s[1..]) + [DQUOTE] + post);
      assert r[1] == EscapeByte(s[0])[0];
    }
    assert !StartsTriple(r, DQUOTE);
  }

  lemma NoTriple(s: Text, c: Byte, post: Text)
    requires c !in s && (post == [] || post[0] != c)
    ensures !StartsTriple([c] + s + [c] + post, c)
  {
    var r := [c] + s + [c] + post;
    if s != [] {
      assert s[0] in s && r[1] == s[0];
    } else {
      assert r == [c, c] + post;
    }
  }

  lemma LiteralDecodes(s: Text, post: Text)
    requires SQUOTE !in s && LF !in s
    ensures LiteralBody(s + [SQUOTE] + post, false) == Ok(s, post, false)
  {
    var body := s + [SQUOTE] + post;
    IndexOfPast(s, SQUOTE, post);
    assert body[..|s|] == s && body[|s| + 1..] == post;
    assert forall i :: 0 <= i < |s| ==> body[i] == s[i] && s[i] in s;
    hide IndexOf;
  }

  lemma QuotedRoundTrip(s: Text, post: Text)
    requires SQUOTE !in s && LF !in s && Stops(post)
    ensures ReadValue([SQUOTE] + s + [SQUOTE] + post) == Ok(Str(s), post, false)
  {
    hide LiteralBody, BasicBody, ReadItems, ReadEntries, Scalar;
    var r := [SQUOTE] + s + [SQUOTE] + post;
    assert r[1..] == s + [SQUOTE] + post;
    LiteralDecodes(s, post);
    NoTriple(s, SQUOTE, post);
  }

  lemma {:induction false} ScalarLengthPast(s: Text, post: Text)
    requires Stops(post) && forall i :: 0 <= i < |s| ==> IsScalarByte(s[i])
    ensures ScalarLength(s + post) == |s|
    decreases |s|
  {
    if s != [] {
      ScalarLengthPast(s[1..], post);
      assert (s + post)[1..] == s[1..] + post;
    } else {
      assert s + post == post;
    }
  }

  lemma PlainRoundTrip(s: Text, post: Text)
    requires IsWritable(Plain(s)) && Stops(post)
    ensures ReadValue(s + post) == Ok(Raw(s), post, false)
  {
    var r := s + post;
    ScalarLengthPast(s, post);
    assert r[..|s|] == s && r[|s|..] == post;
    assert r[0] == s[0] && IsScalarByte(s[0]);
  }

  // ------------------------------------------------------------------ keys

  lemma {:induction false} BareLengthPast(k: Text, post: Text)
    requires (forall i :: 0 <= i < |k| ==> IsBareKeyByte(k[i])) && (post == [] || !IsBareKeyByte(post[0]))
    ensures BareLength(k + post) == |k|
    decreases |k|
  {
    if k != [] {
      BareLengthPast(k[1..], post);
      assert (k + post)[1..] == k[1..] + post;
    } else {
      assert k + post == post;
    }
  }

  lemma KeyPartRoundTrip(k: Text, post: Text)
    requires IsWritableKey(k) && post != [] && post[0] == SPACE
    ensures KeyPart(RenderKey(k) + post) == Ok(k, post, false)
    ensures RenderKey(k) != [] && !IsBlank(RenderKey(k)[0]) && RenderKey(k)[0] != RBRACE
  {
    if IsBareKey(k) {
      BareKeyPart(k, post);
    } else {
      QuotedKeyPart(k, if DQUOTE !in k then DQUOTE else SQUOTE, post);
    }
  }

  lemma BareKeyPart(k: Text, post: Text)
    requires IsBareKey(k) && post != [] && post[0] == SPACE
    ensures KeyPart(k + post) == Ok(k, post, false)
  {
    var r := k + post;
    BareLengthPast(k, post);
    assert r[..|k|] == k && r[|k|..] == post;
  }

  lemma QuotedKeyPart(k: Text, c: Byte, post: Text)
    requires (c == DQUOTE || c == SQUOTE) && c !in k && IsWritableKey(k) && !IsBareKey(k) && post != []
      && post[0] == SPACE
    requires c == if DQUOTE !in k then DQUOTE else SQUOTE
    ensures KeyPart([c] + k + [c] + post) == Ok(k, post, false)
  {
    var r := [c] + k + [c] + post;
    assert r[1..] == k + [c] + post;
    IndexOfPast(k, c, post);
    assert r[1..|k| + 1] == k && r[|k| + 2..] == post;
    assert !StartsTriple(r, c) by {
      NoTriple(k, c, post);
    }
  }

  lemma OneKey(r: Text, k: Text, tail: Text, after: Text)
    requires KeyPart(SkipBlank(r)) == Ok(k, tail, false) && SkipBlank(tail) == after && after != [] && after[0] != DOT
    ensures Key(r) == Ok([k], after, false)
  {
    hide KeyPart, SkipBlank;
  }

  lemma SkipOneBlank(r: Text)
    ensures SkipBlank([SPACE] + r) == SkipBlank(r)
  {
    assert ([SPACE] + r)[1..] == r;
  }

  lemma SkipBlankStays(r: Text)
    requires r != [] && !IsBlank(r[0])
    ensures SkipBlank(r) == r
  {
  }

  lemma KeyRoundTrip(k: Text, post: Text)
    requires IsWritableKey(k)
    ensures Key(RenderKey(k) + [SPACE, EQUALS, SPACE] + post) == Ok([k], [EQUALS, SPACE] + post, false)
    ensures Key([SPACE] + RenderKey(k) + [SPACE, EQUALS, SPACE] + post) == Ok([k], [EQUALS, SPACE] + post, false)
  {
    hide Key, KeyPart, SkipBlank, RenderKey, IsWritableKey;
    var after := [EQUALS, SPACE] + post;
    var tail := [SPACE, EQUALS, SPACE] + post;
    var r := RenderKey(k) + tail;
    assert tail == [SPACE] + after;
    SkipOneBlank(after);
    SkipBlankStays(after);
    KeyPartRoundTrip(k, tail);
    SkipBlankStays(r);
    SkipOneBlank(r);
    OneKey(r, k, tail, after);
    OneKey([SPACE] + r, k, tail, after);
    assert r == RenderKey(k) + [SPACE, EQUALS, SPACE] + post;
    assert [SPACE] + r == [SPACE] + RenderKey(k) + [SPACE, EQUALS, SPACE] + post;
  }

  /** A dotted key, with a blank on both sides of every dot. */
  function RenderDotted(ks: seq<Text>): Text
    requires ks != []
  {
    if |ks| == 1 then RenderKey(ks[0]) else RenderKey(ks[0]) + ([SPACE, DOT, SPACE] + RenderDotted(ks[1..]))
  }

  lemma MoreKeys(r: Text, k: Text, tail: Text, after: Text, ks: seq<Text>, rest: Text)
    requires KeyPart(SkipBlank(r)) == Ok(k, tail, false) && SkipBlank(tail) == after && after != [] && after[0] == DOT
    requires Key(after[1..]) == Ok(ks, rest, false)
    ensures Key(r) == Ok([k] + ks, rest, false)
  {
    hide KeyPart, SkipBlank;
  }

  /** A key of any number of parts is read back, behind a blank or not. */
  lemma {:induction false} DottedRoundTrip(ks: seq<Text>, post: Text)
    requires ks != [] && forall i :: 0 <= i < |ks| ==> IsWritableKey(ks[i])
    ensures Key(RenderDotted(ks) + [SPACE, EQUALS, SPACE] + post) == Ok(ks, [EQUALS, SPACE] + post, false)
    ensures Key([SPACE] + RenderDotted(ks) + [SPACE, EQUALS, SPACE] + post) == Ok(ks, [EQUALS, SPACE] + post, false)
    decreases |ks|
  {
    hide Key, KeyPart, SkipBlank, RenderKey, IsWritableKey;
    if |ks| == 1 {
      KeyRoundTrip(ks[0], post);
      assert ks == [ks[0]];
    } else {
      var more := [SPACE] + RenderDotted(ks[1..]) + [SPACE, EQUALS, SPACE] + post;
      DottedRoundTrip(ks[1..], post);
      DottedStep(ks[0], ks[1..], more, [EQUALS, SPACE] + post);
      assert RenderDotted(ks) + [SPACE, EQUALS, SPACE] + post == RenderKey(ks[0]) + ([SPACE, DOT] + more) by {
        DottedText(RenderKey(ks[0]), RenderDotted(ks[1..]), post);
      }
      assert [ks[0]] + ks[1..] == ks;
      var r := RenderKey(ks[0]) + ([SPACE, DOT] + more);
      assert [SPACE] + RenderDotted(ks) + [SPACE, EQUALS, SPACE] + post == [SPACE] + r;
    }
  }

  lemma DottedText(k: Text, rest: Text, post: Text)
    ensures k + ([SPACE, DOT, SPACE] + rest) + [SPACE, EQUALS, SPACE] + post
      == k + ([SPACE, DOT] + ([SPACE] + rest + [SPACE, EQUALS, SPACE] + post))
  {
    var end := [SPACE, EQUALS, SPACE] + post;
    assert [SPACE, DOT, SPACE] + rest + end == [SPACE, DOT] + ([SPACE] + rest + end);
  }

  lemma DottedStep(k: Text, ks: seq<Text>, more: Text, rest: Text)
    requires IsWritableKey(k) && Key(more) == Ok(ks, rest, false)
    ensures Key(RenderKey(k) + ([SPACE, DOT] + more)) == Ok([k] + ks, rest, false)
    ensures Key([SPACE] + (RenderKey(k) + ([SPACE, DOT] + more))) == Ok([k] + ks, rest, false)
  {
    hide Key, KeyPart, SkipBlank, RenderKey, IsWritableKey;
    var after := [DOT] + more;
    var tail := [SPACE, DOT] + more;
    var r := RenderKey(k) + tail;
    assert tail == [SPACE] + after && after[1..] == more;
    SkipOneBlank(after);
    SkipBlankStays(after);
    KeyPartRoundTrip(k, tail);
    SkipBlankStays(r);
    SkipOneBlank(r);
    MoreKeys(r, k, tail, after, ks, rest);
    MoreKeys([SPACE] + r, k, tail, after, ks, rest);
  }

  // ------------------------------------------------------------------ values

  /** A rendered value starts with neither blank, break, comment nor closing bracket or brace. */
  lemma RenderStarts(t: Tree)
    requires IsWritable(t)
    ensures Render(t) != [] && !EndsScalar(Render(t)[0])
  {
  }

  lemma ReadArray(r: Text, vs: seq<Value>, post: Text)
    requires r != [] && r[0] == LBRACKET && ReadItems(r[1..]) == Ok(vs, post, false)
    ensures ReadValue(r) == Ok(Arr(vs), post, false)
  {
    hide ReadItems, ReadEntries, StringValue, Scalar;
  }

  lemma ReadTable(r: Text, m: map<Text, Value>, post: Text)
    requires r != [] && r[0] == LBRACE && SkipBlank(r[1..]) == r[1..] && r[1..] != []
    requires if r[1] == RBRACE then m == map[] && post == r[2..] else ReadEntries(r[1..], map[]) == Ok(m, post, false)
    ensures ReadValue(r) == Ok(Table(m), post, false)
  {
    hide ReadItems, ReadEntries, StringValue, Scalar, SkipBlank;
    assert r[1..][1..] == r[2..];
  }

  /**
    Reading the canonical rendering of any writable tree yields exactly its value and stops
    right behind it.
   */
  lemma {:induction false} ValueRoundTrip(t: Tree, post: Text)
    requires IsWritable(t) && Stops(post)
    ensures ReadValue(Render(t) + post) == Ok(ValueOf(t), post, false)
    decreases t, 0
  {
    hide ReadValue, EscapeAll, RenderItems, RenderEntries, SkipBlank;
    var r := Render(t) + post;
    match t
    case Basic(s) =>
      BasicRoundTrip(s, post);
    case Quoted(s) =>
      QuotedRoundTrip(s, post);
    case Plain(s) =>
      PlainRoundTrip(s, post);
    case List(items) =>
      assert r[1..] == RenderItems(items) + post;
      ItemsRoundTrip(items, [], post);
      assert [] + RenderItems(items) + post == r[1..];
      ReadArray(r, ValuesOf(items), post);
    case Inline(es) =>
      if es == [] {
        assert r == [LBRACE, RBRACE] + post;
        assert r[1..] == [RBRACE] + post && r[2..] == post;
        SkipBlankStays(r[1..]);
      } else {
        assert r[1..] == RenderEntries(es) + post;
        EntriesStart(es, post);
        EntriesRoundTrip(map[], es, [], post);
        assert [] + RenderEntries(es) + post == r[1..];
      }
      ReadTable(r, TableOf(map[], es), post);
  }

  // ------------------------------------------------------------------ arrays

  lemma ItemsStep(r: Text, s: Text, v: Value, more: Text, vs: seq<Value>, post: Text)
    requires SkipSpace(r) == Skipped(s, false) && s != [] && s[0] != RBRACKET && ReadValue(s) == Ok(v, more, false)
    requires SkipSpace(more) == Skipped(more, false) && more != [] && (more[0] == COMMA || more[0] == RBRACKET)
    requires ReadItems(if more[0] == COMMA then more[1..] else more) == Ok(vs, post, false)
    ensures ReadItems(r) == Ok([v] + vs, post, false)
  {
    hide ReadValue, SkipSpace;
  }

  lemma NoItems(r: Text, s: Text)
    requires SkipSpace(r) == Skipped(s, false) && s != [] && s[0] == RBRACKET
    ensures ReadItems(r) == Ok([], s[1..], false)
  {
    hide ReadValue, SkipSpace;
  }

  lemma SkipSpaceAt(blank: Text, r: Text)
    requires (blank == [] || blank == [SPACE]) && r != [] && !IsBlank(r[0]) && !IsBreak(r[0]) && r[0] != HASH
    ensures SkipSpace(blank + r) == Skipped(r, false)
  {
    if blank == [SPACE] {
      assert (blank + r)[1..] == r;
    } else {
      assert blank + r == r;
    }
  }

  lemma {:induction false} ItemsRoundTrip(items: seq<Tree>, blank: Text, post: Text)
    requires (forall i :: 0 <= i < |items| ==> IsWritable(items[i])) && (blank == [] || blank == [SPACE])
    ensures ReadItems(blank + RenderItems(items) + post) == Ok(ValuesOf(items), post, false)
    decreases items, 1
  {
    hide ReadValue, SkipSpace, Render, ReadItems, ValueOf;
    var s := RenderItems(items) + post;
    var r := blank + RenderItems(items) + post;
    assert r == blank + s;
    if items == [] {
      assert s == [RBRACKET] + post;
      SkipSpaceAt(blank, s);
      NoItems(r, s);
      assert s[1..] == post;
    } else {
      var rest := items[1..];
      var more := if |items| == 1 then [RBRACKET] + post else [COMMA] + ([SPACE] + RenderItems(rest) + post);
      assert s == Render(items[0]) + more;
      ValueRoundTrip(items[0], more);
      RenderStarts(items[0]);
      SkipSpaceAt(blank, s);
      SkipSpaceAt([], more);
      assert [] + more == more;
      ItemsRoundTrip(rest, if |items| == 1 then [] else [SPACE], post);
      if |items| == 1 {
        assert [] + RenderItems(rest) + post == more;
      } else {
        assert more[1..] == [SPACE] + RenderItems(rest) + post;
      }
      ItemsStep(r, s, ValueOf(items[0]), more, ValuesOf(rest), post);
    }
  }

  // ----------------------------------------------------------- inline tables

  lemma EntriesStart(es: seq<Entry>, post: Text)
    requires es != [] && IsWritableKey(es[0].key)
    ensures var r := RenderEntries(es) + post; r != [] && r[0] != RBRACE && SkipBlank(r) == r
  {
    hide RenderKey, IsWritableKey, KeyPart, Render;
    KeyPartRoundTrip(es[0].key, [SPACE]);
    var k := RenderKey(es[0].key);
    assert RenderEntry(es[0])[0] == k[0];
    var r := RenderEntries(es) + post;
    assert r[0] == RenderEntry(es[0])[0];
  }

  lemma AssignmentStep(r: Text, k: Text, after: Text, v: Value, post: Text, m: map<Text, Value>)
    requires Key(r) == Ok([k], [EQUALS] + after, false) && ReadValue(SkipBlank(after)) == Ok(v, post, false) && k !in m
    ensures Assignment(r, m) == Ok(m[k := v], post, false)
  {
    hide Key, ReadValue, SkipBlank;
    var eq := [EQUALS] + after;
    SkipBlankStays(eq);
    assert eq[1..] == after;
  }

  lemma AssignmentRoundTrip(m: map<Text, Value>, e: Entry, blank: Text, post: Text)
    requires IsWritableKey(e.key) && IsWritable(e.value) && e.key !in m && (blank == [] || blank == [SPACE])
    requires ReadValue(Render(e.value) + post) == Ok(ValueOf(e.value), post, false)
    ensures Assignment(blank + RenderEntry(e) + post, m) == Ok(m[e.key := ValueOf(e.value)], post, false)
  {
    hide Key, ReadValue, SkipBlank, Render, RenderKey, ValueOf, Assignment, IsWritableKey, IsWritable;
    var v := Render(e.value) + post;
    var r := blank + RenderEntry(e) + post;
    KeyRoundTrip(e.key, v);
    if blank == [] {
      assert r == RenderKey(e.key) + [SPACE, EQUALS, SPACE] + v;
    } else {
      assert r == [SPACE] + RenderKey(e.key) + [SPACE, EQUALS, SPACE] + v;
    }
    assert [EQUALS, SPACE] + v == [EQUALS] + ([SPACE] + v);
    RenderStarts(e.value);
    SkipOneBlank(v);
    SkipBlankStays(v);
    AssignmentStep(r, e.key, [SPACE] + v, ValueOf(e.value), post, m);
  }

  lemma EntriesStep(r: Text, m: map<Text, Value>, m1: map<Text, Value>, more: Text, m2: map<Text, Value>, post: Text)
    requires Assignment(r, m) == Ok(m1, more, false) && more != []
    requires (more[0] == RBRACE && m2 == m1 && post == more[1..])
          || (more[0] == COMMA && ReadEntries(more[1..], m1) == Ok(m2, post, false))
    ensures ReadEntries(r, m) == Ok(m2, post, false)
  {
    hide Assignment, SkipBlank;
    SkipBlankStays(more);
  }

  /** What follows the first entry of an inline table. */
  function AfterEntry(es: seq<Entry>, post: Text): Text
    requires es != []
  {
    if |es| == 1 then [RBRACE] + post else [COMMA] + ([SPACE] + RenderEntries(es[1..]) + post)
  }

  lemma EntryText(es: seq<Entry>, blank: Text, post: Text)
    requires es != []
    ensures blank + RenderEntries(es) + post == blank + RenderEntry(es[0]) + AfterEntry(es, post)
  {
    hide RenderEntry, Render;
    if |es| > 1 {
      SpliceEntry(blank, RenderEntry(es[0]), RenderEntries(es[1..]), post);
    } else {
      SpliceLast(blank, RenderEntry(es[0]), post);
    }
  }

  lemma SpliceEntry(blank: Text, e: Text, rest: Text, post: Text)
    ensures blank + (e + [COMMA, SPACE] + rest) + post == blank + e + ([COMMA] + ([SPACE] + rest + post))
  {
    assert [COMMA, SPACE] + rest + post == [COMMA] + ([SPACE] + rest + post);
  }

  lemma SpliceLast(blank: Text, e: Text, post: Text)
    ensures blank + (e + [RBRACE]) + post == blank + e + ([RBRACE] + post)
  {
  }

  lemma {:induction false} EntriesRoundTrip(m: map<Text, Value>, es: seq<Entry>, blank: Text, post: Text)
    requires es != [] && DistinctKeys(es) && (blank == [] || blank == [SPACE])
    requires forall i :: 0 <= i < |es| ==> IsWritableKey(es[i].key) && IsWritable(es[i].value) && es[i].key !in m
    ensures ReadEntries(blank + RenderEntries(es) + post, m) == Ok(TableOf(m, es), post, false)
    decreases es, 1
  {
    hide Assignment, ReadEntries, RenderEntry, ReadValue, Render, ValueOf, IsWritableKey, IsWritable;
    var rest := es[1..];
    var more := AfterEntry(es, post);
    var r := blank + RenderEntries(es) + post;
    EntryText(es, blank, post);
    ValueRoundTrip(es[0].value, more);
    AssignmentRoundTrip(m, es[0], blank, more);
    var m1 := m[es[0].key := ValueOf(es[0].value)];
    if |es| == 1 {
      assert more[1..] == post;
      assert TableOf(m1, rest) == m1;
    } else {
      assert more[1..] == [SPACE] + RenderEntries(rest) + post;
      EntriesRoundTrip(m1, rest, [SPACE], post);
    }
    EntriesStep(r, m, m1, more, TableOf(m, es), post);
  }
}
