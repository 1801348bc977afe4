/**
  The structural comparison of Go test files: a head keeps its base when it
  only adds whole declarations and plain imports
  (src/internal/verify/generations_struct.go, structuralOK).
 */
module GoShape {

  datatype Import = Import(text: string, plain: bool)

  /** A top-level declaration; the key is empty for anything but a named function. */
  datatype Decl = Decl(key: string, text: string)

  datatype Shape = Shape(header: string, imports: seq<Import>, cgo: seq<string>, decls: seq<Decl>)

  // --------------------------------------------------------------- the views

  function Texts(imports: seq<Import>): set<string> {
    set i | 0 <= i < |imports| :: imports[i].text
  }

  /** The functions by key; a later declaration of the same key replaces an earlier one. */
  function Funcs(decls: seq<Decl>): map<string, string>
    decreases |decls|
  {
    if decls == [] then map[]
    else
      var d := decls[|decls| - 1];
      var before := Funcs(decls[..|decls| - 1]);
      if d.key == "" then before else before[d.key := d.text]
  }

  /** How often each declaration without a key occurs. */
  function Unkeyed(decls: seq<Decl>): multiset<string>
    decreases |decls|
  {
    if decls == [] then multiset{}
    else
      var d := decls[|decls| - 1];
      Unkeyed(decls[..|decls| - 1]) + if d.key == "" then multiset{d.text} else multiset{}
  }

  predicate KeepsFunction(d: Decl, head: map<string, string>, allowed: set<string>, allowRemoval: bool) {
    d.key != "" ==>
      if d.key in allowed then d.key in head || allowRemoval
      else d.key in head && head[d.key] == d.text
  }

  predicate KeepsAllImports(base: seq<Import>, head: seq<Import>) {
    && Texts(base) <= Texts(head)
    && (forall i :: 0 <= i < |head| && head[i].text !in Texts(base) ==> head[i].plain)
  }

  predicate KeepsFunctions(base: seq<Decl>, head: map<string, string>, allowed: set<string>, allowRemoval: bool) {
    forall i :: 0 <= i < |base| ==> KeepsFunction(base[i], head, allowed, allowRemoval)
  }

  /**
    The head is the base plus whole new declarations and new plain imports; the allowed
    functions may change and, with allowRemoval, disappear.
   */
  predicate Keeps(base: Shape, head: Shape, allowed: set<string>, allowRemoval: bool) {
    && base.header == head.header
    && multiset(base.cgo) == multiset(head.cgo)
    && KeepsAllImports(base.imports, head.imports)
    && Unkeyed(base.decls) <= Unkeyed(head.decls)
    && KeepsFunctions(base.decls, Funcs(head.decls), allowed, allowRemoval)
  }

  // ----------------------------------------------------------- the comparison

  lemma SameSizeIncluded(a: multiset<string>, b: multiset<string>)
    requires a <= b && |a| == |b|
    ensures a == b
  {
    assert b == a + (b - a);
    assert |b - a| == 0;
  }

  lemma OneTooMany(base: seq<string>, i: nat, head: multiset<string>)
    requires i < |base| && (head - multiset(base[..i]))[base[i]] == 0
    ensures !(multiset(base) <= head)
  {
    assert base == base[..i] + [base[i]] + base[i + 1..];
    assert multiset(base)[base[i]] >= multiset(base[..i])[base[i]] + 1;
  }

  method SameCgo(base: seq<string>, head: seq<string>) returns (same: bool)
    ensures same <==> multiset(base) == multiset(head)
  {
    if |base| != |head| {
      assert |multiset(base)| == |base| && |multiset(head)| == |head|;
      return false;
    }
    var left := CountTexts(head);
    same := TakesAll(base, left);
    if same {
      SameSizeIncluded(multiset(base), multiset(head));
    }
  }

  method CountTexts(texts: seq<string>) returns (counts: multiset<string>)
    ensures counts == multiset(texts)
  {
    counts := multiset{};
    for i := 0 to |texts|
      invariant counts == multiset(texts[..i])
    {
      assert texts[..i + 1] == texts[..i] + [texts[i]];
      counts := counts + multiset{texts[i]};
    }
    assert texts[..|texts|] == texts;
  }

  /** Whether every text can be taken from the counts. */
  method TakesAll(base: seq<string>, counts: multiset<string>) returns (all: bool)
    ensures all <==> multiset(base) <= counts
  {
    var left := counts;
    for i := 0 to |base|
      invariant multiset(base[..i]) <= counts && left == counts - multiset(base[..i])
    {
      assert base[..i + 1] == base[..i] + [base[i]];
      if left[base[i]] == 0 {
        OneTooMany(base, i, counts);
        return false;
      }
      left := left - multiset{base[i]};
    }
    assert base[..|base|] == base;
    all := true;
  }

  method ImportTexts(imports: seq<Import>) returns (texts: set<string>)
    ensures texts == Texts(imports)
  {
    texts := {};
    for i := 0 to |imports|
      invariant forall t :: t in texts <==> exists k :: 0 <= k < i && imports[k].text == t
    {
      texts := texts + {imports[i].text};
    }
  }

  method KeepsImports(base: seq<Import>, head: seq<Import>) returns (ok: bool)
    ensures ok <==> KeepsAllImports(base, head)
  {
    var baseTexts := ImportTexts(base);
    for i := 0 to |head|
      invariant forall k :: 0 <= k < i && head[k].text !in baseTexts ==> head[k].plain
    {
      if head[i].text !in baseTexts && !head[i].plain {
        return false;
      }
    }
    var headTexts := ImportTexts(head);
    for i := 0 to |base|
      invariant forall k :: 0 <= k < i ==> base[k].text in headTexts
    {
      if base[i].text !in headTexts {
        assert base[i].text in Texts(base);
        return false;
      }
    }
    ok := true;
  }

  method IndexDecls(decls: seq<Decl>) returns (funcs: map<string, string>, rest: multiset<string>)
    ensures funcs == Funcs(decls) && rest == Unkeyed(decls)
  {
    funcs, rest := map[], multiset{};
    for i := 0 to |decls|
      invariant funcs == Funcs(decls[..i]) && rest == Unkeyed(decls[..i])
    {
      assert decls[..i + 1][..i] == decls[..i];
      var d := decls[i];
      if d.key != "" {
        funcs := funcs[d.key := d.text];
      } else {
        rest := rest + multiset{d.text};
      }
    }
    assert decls[..|decls|] == decls;
  }

  lemma {:induction false} UnkeyedPrefix(decls: seq<Decl>, i: nat)
    requires i <= |decls|
    ensures Unkeyed(decls[..i]) <= Unkeyed(decls)
    decreases |decls|
  {
    if i < |decls| {
      assert decls[..|decls| - 1][..i] == decls[..i];
      UnkeyedPrefix(decls[..|decls| - 1], i);
    } else {
      assert decls[..i] == decls;
    }
  }

  /** One declaration less to look for, or the first one that is missing. */
  lemma TakeUnkeyed(base: seq<Decl>, i: nat, head: multiset<string>)
    requires i < |base| && Unkeyed(base[..i]) <= head
    ensures Unkeyed(base[..i + 1]) ==
      Unkeyed(base[..i]) + (if base[i].key == "" then multiset{base[i].text} else multiset{})
    ensures Unkeyed(base[..i + 1]) <= head <==>
      (base[i].key == "" ==> (head - Unkeyed(base[..i]))[base[i].text] != 0)
    ensures Unkeyed(base[..i + 1]) <= Unkeyed(base)
  {
    assert base[..i + 1][..i] == base[..i];
    UnkeyedPrefix(base, i + 1);
    var now := Unkeyed(base[..i + 1]);
    if base[i].key == "" {
      assert now[base[i].text] == Unkeyed(base[..i])[base[i].text] + 1;
    }
  }

  lemma UnkeyedIsKept(d: Decl, head: map<string, string>, allowed: set<string>, allowRemoval: bool)
    requires d.key == ""
    ensures KeepsFunction(d, head, allowed, allowRemoval)
  {
  }

  method KeepsOne(d: Decl, funcs: map<string, string>, allowed: set<string>, allowRemoval: bool) returns (kept: bool)
    requires d.key != ""
    ensures kept <==> KeepsFunction(d, funcs, allowed, allowRemoval)
  {
    if d.key in allowed {
      return d.key in funcs || allowRemoval;
    }
    kept := d.key in funcs && funcs[d.key] == d.text;
  }

  method KeepsDecls(base: seq<Decl>, head: seq<Decl>, allowed: set<string>, allowRemoval: bool) returns (ok: bool)
    ensures ok <==> Unkeyed(base) <= Unkeyed(head) && KeepsFunctions(base, Funcs(head), allowed, allowRemoval)
  {
    hide Unkeyed, Funcs, KeepsFunction;
    var funcs, rest := IndexDecls(head);
    ghost var all := rest;
    assert Unkeyed(base[..0]) == multiset{} by { NothingUnkeyed(base[..0]); }
    for i := 0 to |base|
      invariant Unkeyed(base[..i]) <= all && rest == all - Unkeyed(base[..i])
      invariant forall k :: 0 <= k < i ==> KeepsFunction(base[k], funcs, allowed, allowRemoval)
    {
      var d := base[i];
      TakeUnkeyed(base, i, all);
      if d.key == "" {
        if rest[d.text] == 0 {
          return false;
        }
        rest := rest - multiset{d.text};
        UnkeyedIsKept(d, funcs, allowed, allowRemoval);
        continue;
      }
      assert Unkeyed(base[..i + 1]) == Unkeyed(base[..i]);
      var kept := KeepsOne(d, funcs, allowed, allowRemoval);
      if !kept {
        return false;
      }
    }
    assert base[..|base|] == base;
    ok := true;
  }

  lemma NothingUnkeyed(decls: seq<Decl>)
    requires decls == []
    ensures Unkeyed(decls) == multiset{}
  {
  }

  method StructuralOk(base: Shape, head: Shape, allowed: set<string>, allowRemoval: bool) returns (ok: bool)
    ensures ok <==> Keeps(base, head, allowed, allowRemoval)
  {
    if base.header != head.header {
      return false;
    }
    var cgo := SameCgo(base.cgo, head.cgo);
    if !cgo {
      return false;
    }
    var imports := KeepsImports(base.imports, head.imports);
    if !imports {
      return false;
    }
    ok := KeepsDecls(base.decls, head.decls, allowed, allowRemoval);
  }

  // ---------------------------------------------------------- what it implies

  lemma {:induction false} FuncsComeFromDecls(decls: seq<Decl>, k: string)
    requires k in Funcs(decls)
    ensures exists i :: 0 <= i < |decls| && decls[i] == Decl(k, Funcs(decls)[k])
    ensures k != ""
    decreases |decls|
  {
    var front, d := decls[..|decls| - 1], decls[|decls| - 1];
    if d.key == "" || d.key != k {
      FuncsComeFromDecls(front, k);
      var i :| 0 <= i < |front| && front[i] == Decl(k, Funcs(front)[k]);
      assert decls[i] == front[i];
    }
  }

  lemma {:induction false} KeyedIsIndexed(decls: seq<Decl>, i: nat)
    requires i < |decls| && decls[i].key != ""
    ensures decls[i].key in Funcs(decls)
    decreases |decls|
  {
    if i < |decls| - 1 {
      assert decls[..|decls| - 1][i] == decls[i];
      KeyedIsIndexed(decls[..|decls| - 1], i);
    }
  }

  /** Widening the allowed set, or allowing removals, never turns a kept file into a changed one. */
  lemma KeepsIsMonotone(base: Shape, head: Shape, allowed: set<string>, more: set<string>, removal: bool)
    requires allowed <= more && Keeps(base, head, allowed, removal)
    ensures Keeps(base, head, more, removal) && Keeps(base, head, allowed, true)
  {
    forall i | 0 <= i < |base.decls|
      ensures KeepsFunction(base.decls[i], Funcs(head.decls), more, removal)
      ensures KeepsFunction(base.decls[i], Funcs(head.decls), allowed, true)
    {
      assert KeepsFunction(base.decls[i], Funcs(head.decls), allowed, removal);
    }
  }

  /** A file keeps itself exactly when functions with the same key have the same text. */
  lemma KeepsItselfIff(a: Shape, removal: bool)
    ensures Keeps(a, a, {}, removal) <==>
      forall i, j :: 0 <= i < j < |a.decls| && a.decls[i].key == a.decls[j].key != "" ==>
        a.decls[i].text == a.decls[j].text
  {
    var f := Funcs(a.decls);
    if Keeps(a, a, {}, removal) {
      forall i | 0 <= i < |a.decls| && a.decls[i].key != "" ensures f[a.decls[i].key] == a.decls[i].text {
        assert KeepsFunction(a.decls[i], f, {}, removal);
      }
    }
    if forall i, j :: 0 <= i < j < |a.decls| && a.decls[i].key == a.decls[j].key != "" ==>
      a.decls[i].text == a.decls[j].text {
      forall i | 0 <= i < |a.decls| ensures KeepsFunction(a.decls[i], f, {}, removal) {
        if a.decls[i].key != "" {
          KeyedIsIndexed(a.decls, i);
          FuncsComeFromDecls(a.decls, a.decls[i].key);
          var j :| 0 <= j < |a.decls| && a.decls[j] == Decl(a.decls[i].key, f[a.decls[i].key]);
        }
      }
    }
  }

  lemma FunctionsAreTransitive(a: Shape, b: Shape, c: Shape, removal: bool, d: Decl)
    requires KeepsFunction(d, Funcs(b.decls), {}, removal) && Keeps(b, c, {}, removal)
    ensures KeepsFunction(d, Funcs(c.decls), {}, removal)
  {
    if d.key != "" {
      FuncsComeFromDecls(b.decls, d.key);
      var i :| 0 <= i < |b.decls| && b.decls[i] == Decl(d.key, Funcs(b.decls)[d.key]);
      assert KeepsFunction(b.decls[i], Funcs(c.decls), {}, removal);
    }
  }

  /**
    Two kept steps make a kept step exactly when no import of the last file that is not
    plain was new in the middle one.
   */
  lemma KeepsComposesIff(a: Shape, b: Shape, c: Shape, removal: bool)
    requires Keeps(a, b, {}, removal) && Keeps(b, c, {}, removal)
    ensures Keeps(a, c, {}, removal) <==>
      forall i :: 0 <= i < |c.imports| && !c.imports[i].plain && c.imports[i].text in Texts(b.imports) ==>
        c.imports[i].text in Texts(a.imports)
  {
    hide Funcs, Unkeyed, Texts;
    forall i | 0 <= i < |a.decls| ensures KeepsFunction(a.decls[i], Funcs(c.decls), {}, removal) {
      FunctionsAreTransitive(a, b, c, removal, a.decls[i]);
    }
  }

  /** Whether an import is plain is written in its text. */
  predicate PlainByText(b: Shape, c: Shape) {
    forall i, j :: 0 <= i < |b.imports| && 0 <= j < |c.imports| && b.imports[i].text == c.imports[j].text ==>
      b.imports[i].plain == c.imports[j].plain
  }

  /** On files whose imports show in their text whether they are plain, keeping is transitive. */
  lemma KeepsIsTransitive(a: Shape, b: Shape, c: Shape, removal: bool)
    requires Keeps(a, b, {}, removal) && Keeps(b, c, {}, removal) && PlainByText(b, c)
    ensures Keeps(a, c, {}, removal)
  {
    hide Keeps;
    KeepsComposesIff(a, b, c, removal);
    NewImportsArePlain(a, b, removal);
  }

  lemma NewImportsArePlain(a: Shape, b: Shape, removal: bool)
    requires Keeps(a, b, {}, removal)
    ensures forall i :: 0 <= i < |b.imports| && b.imports[i].text !in Texts(a.imports) ==> b.imports[i].plain
  {
  }

  // ------------------------------------------------------ chains of generations

  /** The next version is the same file, or keeps the one before with no function allowed to change. */
  predicate Follows(a: Shape, b: Shape) {
    a == b || Keeps(a, b, {}, false)
  }

  predicate Chain(files: seq<Shape>) {
    && (forall k :: 0 <= k < |files| - 1 ==> Follows(files[k], files[k + 1]))
    && (forall j, k :: 0 <= j < k < |files| ==> PlainByText(files[j], files[k]))
  }

  /** Along a chain of strengthened generations the last file follows the first one. */
  lemma {:induction false} ChainFollowsFirst(files: seq<Shape>)
    requires |files| >= 1 && Chain(files)
    ensures Follows(files[0], files[|files| - 1])
    decreases |files|
  {
    hide Keeps, PlainByText;
    if |files| > 1 {
      var front := files[..|files| - 1];
      ChainFollowsFirst(front);
      var k := |files| - 2;
      assert Follows(files[k], files[k + 1]);
      assert PlainByText(files[k], files[k + 1]);
      if Keeps(files[0], files[k], {}, false) && Keeps(files[k], files[k + 1], {}, false) {
        KeepsIsTransitive(files[0], files[k], files[k + 1], false);
      }
    }
  }

  /** The header, cgo declarations, imports and declarations of the first file are those of the last, or more. */
  predicate LosesNothing(first: Shape, last: Shape) {
    && first.header == last.header && multiset(first.cgo) == multiset(last.cgo)
    && Texts(first.imports) <= Texts(last.imports)
    && (forall d :: d in first.decls && d.key != "" ==> d in last.decls)
    && Unkeyed(first.decls) <= Unkeyed(last.decls)
  }

  lemma KeepsLosesNothing(first: Shape, last: Shape)
    requires Keeps(first, last, {}, false)
    ensures LosesNothing(first, last)
  {
    forall d | d in first.decls && d.key != "" ensures d in last.decls {
      var i :| 0 <= i < |first.decls| && first.decls[i] == d;
      assert KeepsFunction(first.decls[i], Funcs(last.decls), {}, false);
      FuncsComeFromDecls(last.decls, d.key);
    }
  }

  /** Everything the first file declares and imports survives to the last one. */
  lemma ChainLosesNothing(files: seq<Shape>)
    requires |files| >= 1 && Chain(files)
    ensures LosesNothing(files[0], files[|files| - 1])
  {
    hide Chain, Keeps, LosesNothing;
    ChainFollowsFirst(files);
    if files[0] == files[|files| - 1] {
      LosesNothingItself(files[0]);
    } else {
      KeepsLosesNothing(files[0], files[|files| - 1]);
    }
  }

  lemma LosesNothingItself(a: Shape)
    ensures LosesNothing(a, a)
  {
  }
}
