/**
  The generation rules and the manifest builder as they run: lists and membership sets
  filled by loops (src/internal/verify/generations_rules.go, generations_struct.go and
  manifest.go).
 */
module GenerationRules {

  import opened Wrappers
  import opened GlobLanguage
  import opened Ordering
  import opened Evidence
  import opened Red
  import opened RedRules
  import opened RedMeaning
  import opened Generations
  import opened Manifests
  import GoShape

  // ------------------------------------------------------------- manifest item lists

  method FindAcs(r: RedInput, id: string) returns (acs: seq<string>)
    ensures acs == DeclaredAcs(r, id)
  {
    hide Names;
    acs := [];
    for i := 0 to |r.criteria|
      invariant acs == Unique(AcsNaming(r, i, id))
    {
      var names := Declared(r, r.criteria[i].id);
      var found := false;
      for k := 0 to |names|
        invariant found <==> exists j :: 0 <= j < k && Names(names[j], id)
      {
        found := found || Names(names[k], id);
      }
      assert found <==> NamedBy(names, id);
      acs := AppendUnique(acs, if found then [r.criteria[i].id] else [], AcsNaming(r, i, id));
    }
  }

  method RecordTest(r: RedInput, reported: map<string, Test>, id: string) returns (t: ManifestTest)
    requires forall x :: Report(r, x) == if x in reported then Some(reported[x]) else None
    ensures t == TestOf(r, id)
  {
    hide Find, DeclaredAcs;
    var acs := FindAcs(r, id);
    var suite, status, kind := "", Unknown, NewTest;
    if id in reported {
      suite, status := reported[id].suite, reported[id].head;
      if reported[id].base != Absent {
        kind := ModifiedTest;
      }
    }
    if suite == "" {
      suite := SuiteOf(id);
    }
    t := ManifestTest(id, suite, kind, acs, status);
  }

  method ScopedFiles(changed: seq<ChangedFile>, previous: seq<ManifestFile>)
    returns (out: seq<ManifestFile>, have: set<Text>)
    ensures out == ScopeFiles(changed, previous)
    ensures forall p :: p in have <==> HasPath(out, p)
  {
    out, have := [], {};
    var added := AddedPaths(previous);
    for i := 0 to |changed|
      invariant out == ScopeFiles(changed[..i], previous)
      invariant forall p :: p in have <==> HasPath(out, p)
    {
      assert changed[..i + 1][..i] == changed[..i];
      var c := changed[i];
      if IsProtectedFile(c) {
        var f := ManifestFile(c.path, c.blob, c.cls, if c.path in added then FileAdded else c.change);
        ghost var before := out;
        out := out + [f];
        have := have + {c.path};
        assert out[|before|] == f;
        assert forall k :: 0 <= k < |before| ==> out[k] == before[k];
      }
    }
    assert changed[..|changed|] == changed;
  }

  /** The paths whose last entry in the previous manifest is an addition. */
  method AddedPaths(previous: seq<ManifestFile>) returns (added: set<Text>)
    ensures forall p :: p in added <==> ListedAsAdded(previous, p)
  {
    added := {};
    for i := 0 to |previous|
      invariant forall p :: p in added <==> ListedAsAdded(previous[..i], p)
    {
      assert previous[..i + 1][..i] == previous[..i];
      if previous[i].change == FileAdded {
        added := added + {previous[i].path};
      } else {
        added := added - {previous[i].path};
      }
    }
    assert previous[..|previous|] == previous;
  }

  method ManifestFiles(changed: seq<ChangedFile>, previous: seq<ManifestFile>) returns (out: seq<ManifestFile>)
    ensures out == FilesOf(changed, previous)
  {
    hide ScopeFiles, HasPath;
    var have;
    out, have := ScopedFiles(changed, previous);
    ghost var scope := out;
    assert out == scope + OtherFiles(previous[..0], scope);
    for i := 0 to |previous|
      invariant out == scope + OtherFiles(previous[..i], scope)
    {
      assert previous[..i + 1][..i] == previous[..i];
      if previous[i].path !in have {
        out := out + [previous[i]];
      }
    }
    assert previous[..|previous|] == previous;
  }

  method MapCriteria(criteria: seq<Criterion>, tests: seq<ManifestTest>) returns (out: seq<AcMapping>)
    ensures out == MappingOf(criteria, tests)
  {
    out := [];
    for i := 0 to |criteria|
      invariant out == MappingOf(criteria[..i], tests)
    {
      assert criteria[..i + 1][..i] == criteria[..i];
      var ids: seq<string> := [];
      for k := 0 to |tests|
        invariant ids == Carrying(tests[..k], criteria[i].id)
      {
        assert tests[..k + 1][..k] == tests[..k];
        if criteria[i].id in tests[k].acs {
          ids := ids + [tests[k].id];
        }
      }
      assert tests[..|tests|] == tests;
      if |ids| > 0 {
        out := out + [AcMapping(criteria[i].id, criteria[i].kind, ids)];
      }
    }
    assert criteria[..|criteria|] == criteria;
  }

  method ListStubs(stubs: seq<StubFact>) returns (out: seq<ManifestStub>)
    ensures out == StubsOf(stubs)
  {
    out := [];
    for i := 0 to |stubs|
      invariant out == StubsOf(stubs)[..i]
    {
      var s := stubs[i];
      out := out + [ManifestStub(s.path, s.symbol, s.marker, s.shape, s.language, s.acs)];
    }
  }

  // -------------------------------------------------------------------------- R1b

  method TestFilesMissing(g: GenInput) returns (missing: bool)
    ensures missing == SomeTestFileMissing(g)
  {
    var contents := set i | 0 <= i < |g.testFiles| :: g.testFiles[i].path;
    for k := 0 to |g.red.changed|
      invariant forall m :: 0 <= m < k && IsTestSide(g.red.changed[m].cls) && g.red.changed[m].change == FileChanged ==>
        HasContent(g, g.red.changed[m].path) || !HoldsTest(g, g.red.changed[m].path)
    {
      var c := g.red.changed[k];
      if !IsTestSide(c.cls) || c.change != FileChanged || c.path in contents {
        continue;
      }
      for i := 0 to |g.red.observed.tests|
        invariant forall j :: 0 <= j < i ==> g.red.observed.tests[j].file != c.path
      {
        if g.red.observed.tests[i].file == c.path {
          assert HoldsTest(g, c.path);
          assert SomeTestFileMissing(g);
          return true;
        }
      }
    }
    missing := false;
  }

  method IsMapped(g: GenInput, id: string) returns (mapped: bool)
    ensures mapped == MappedToChange(g, id)
  {
    hide Names, Declared;
    for i := 0 to |g.red.criteria|
      invariant forall k :: 0 <= k < i && g.red.criteria[k].kind == ChangeKind ==>
        !NamedBy(Declared(g.red, g.red.criteria[k].id), id)
    {
      if g.red.criteria[i].kind != ChangeKind {
        continue;
      }
      var names := Declared(g.red, g.red.criteria[i].id);
      for k := 0 to |names|
        invariant forall j :: 0 <= j < k ==> !Names(names[j], id)
      {
        if Names(names[k], id) {
          assert NamedBy(names, id);
          assert MappedToChange(g, id);
          return true;
        }
      }
    }
    mapped := false;
  }

  /** The functions that hold a test of a change criterion, or None when one has no file. */
  method FindChangeFunctions(g: GenInput, reported: map<string, Test>, ids: set<string>)
    returns (refs: Option<set<FunctionRef>>)
    requires forall x :: Report(g.red, x) == if x in reported then Some(reported[x]) else None
    requires ids == HeadIds(g)
    ensures refs.None? <==> SomeMappedUnlocated(g)
    ensures refs.Some? ==> refs.value == ChangeFunctions(g)
  {
    hide HeadIds, MappedToChange, Find;
    var found: set<FunctionRef> := {};
    var left := ids;
    while left != {}
      invariant left <= ids
      invariant forall id :: id in ids && id !in left && MappedToChange(g, id) ==> HasFile(g, id)
      invariant forall x :: x in found <==> exists id ::
        (id in ids && id !in left && MappedToChange(g, id) && RefOf(g, id) == x)
      decreases |left|
    {
      var id :| id in left;
      ghost var before := left;
      left := left - {id};
      assert forall x :: x in ids && x !in left <==> (x in ids && x !in before) || x == id;
      var mapped := IsMapped(g, id);
      if mapped {
        if id !in reported || reported[id].file == [] {
          assert !HasFile(g, id);
          return None;
        }
        assert HasFile(g, id);
        found := found + {FunctionRef(reported[id].file, g.functionOf(id))};
      }
    }
    refs := Some(found);
  }

  method FindHeadIds(g: GenInput, present: set<string>) returns (ids: set<string>)
    requires present == HeadPresent(g.red)
    ensures ids == HeadIds(g)
  {
    hide HeadPresent;
    ids := present;
    for i := 0 to |g.red.observed.tests|
      invariant forall id :: id in ids <==>
        (id in present || exists k ::
           (0 <= k < i && g.red.observed.tests[k].head != Absent && g.red.observed.tests[k].id == id))
    {
      if g.red.observed.tests[i].head != Absent {
        ids := ids + {g.red.observed.tests[i].id};
      }
    }
  }

  method RuleR1b(g: GenInput, check: RedCheck) returns (gs: Option<seq<Group>>)
    requires check.r == g.red && check.TestsAreLoaded() && check.headPresent == HeadPresent(g.red)
    ensures gs == R1b(g)
  {
    hide SomeTestFileMissing, SomeMappedUnlocated, GoShape.Keeps, HeadIds, ChangeFunctions, Find, HeadPresent,
      PreviousPaths;
    var missing := TestFilesMissing(g);
    if missing {
      return None;
    }
    var ids := FindHeadIds(g, check.headPresent);
    var refs := FindChangeFunctions(g, check.reported, ids);
    if refs.None? {
      return None;
    }
    var weakened := false;
    for i := 0 to |g.testFiles|
      invariant forall k :: 0 <= k < i && JudgedEarly(g, g.testFiles[k]) ==> ShapesParse(g.testFiles[k])
      invariant weakened <==> exists k ::
        (0 <= k < i && JudgedEarly(g, g.testFiles[k]) && ShapesParse(g.testFiles[k]) && !KeepsTests(g, g.testFiles[k]))
    {
      var f := g.testFiles[i];
      if !JudgedEarly(g, f) {
        continue;
      }
      if !ShapesParse(f) {
        assert SomeEarlyUnparsed(g);
        return None;
      }
      var ok := GoShape.StructuralOk(f.base.value.shape.value, f.head.value.shape.value, NamesIn(refs.value, f.path),
        true);
      weakened := weakened || !ok;
    }
    assert weakened <==> SomeTestWeakened(g);
    assert !SomeEarlyUnparsed(g);
    gs := Some(Note(RedInvalid, If(weakened, ExistingTestWeakened)));
  }

  // --------------------------------------------------------------------- R12, R13

  method FileWeakened(l: Lenience, f: TestFile) returns (j: Judgment)
    ensures j == Unusable <==> Unparsed(l, f)
    ensures j == Objection <==> !Unparsed(l, f) && !KeepsFile(l, f)
  {
    hide GoShape.Keeps;
    if f.base.None? {
      return Clean;
    }
    if f.head.None? {
      return Objection;
    }
    if f.base.value.bytes == f.head.value.bytes {
      return Clean;
    }
    if !f.isGo || MustBeIdentical(l, f.path) {
      return Objection;
    }
    if f.base.value.shape.None? || f.head.value.shape.None? {
      return Unusable;
    }
    var ok := GoShape.StructuralOk(f.base.value.shape.value, f.head.value.shape.value, AllowedIn(l, f.path), false);
    j := if ok then Clean else Objection;
  }

  method JudgePreviousFiles(g: GenInput, l: Lenience) returns (j: Judgment)
    ensures j == Unusable <==> SomeContentMissing(g) || SomeUnparsed(g, l)
    ensures j == Objection <==>
      (!SomeContentMissing(g) && !SomeUnparsed(g, l) && (SomePreviousDeleted(g) || SomeFileWeakened(g, l)))
  {
    hide KeepsFile, Unparsed;
    var previous := PreviousPaths(g);
    var contents := set i | 0 <= i < |g.testFiles| :: g.testFiles[i].path;
    var bad := false;
    for k := 0 to |g.red.changed|
      invariant bad <==> exists m ::
        (0 <= m < k && g.red.changed[m].path in previous && g.red.changed[m].change == FileRemoved)
      invariant forall m | 0 <= m < k && g.red.changed[m].path in previous ::
        g.red.changed[m].change == FileChanged ==> HasContent(g, g.red.changed[m].path)
    {
      var c := g.red.changed[k];
      if c.path in previous {
        if c.change == FileRemoved {
          bad := true;
        } else if c.change == FileChanged && c.path !in contents {
          assert SomeContentMissing(g);
          return Unusable;
        }
      }
    }
    assert bad <==> SomePreviousDeleted(g);
    assert !SomeContentMissing(g);
    var weakened := false;
    for i := 0 to |g.testFiles|
      invariant forall m :: 0 <= m < i && g.testFiles[m].path in previous ==> !Unparsed(l, g.testFiles[m])
      invariant weakened <==> exists m :: 0 <= m < i && g.testFiles[m].path in previous && !KeepsFile(l, g.testFiles[m])
    {
      if g.testFiles[i].path in previous {
        var one := FileWeakened(l, g.testFiles[i]);
        if one == Unusable {
          assert SomeUnparsed(g, l);
          return Unusable;
        }
        weakened := weakened || one == Objection;
      }
    }
    j := if bad || weakened then Objection else Clean;
  }

  method RuleR12(g: GenInput, check: RedCheck) returns (gs: Option<seq<Group>>)
    requires check.r == g.red && check.TestsAreLoaded() && check.headPresent == HeadPresent(g.red)
    requires check.declaredResolved == DeclaredResolved(g.red)
    ensures gs == R12(g)
  {
    hide SomeContentMissing, SomeUnparsed, SomePreviousDeleted, SomeFileWeakened, Find, HeadPresent, DeclaredResolved;
    var bad := false;
    var ts := PreviousTests(g);
    for i := 0 to |ts|
      invariant forall k :: 0 <= k < i ==> !(Report(g.red, ts[k].id).Some? && Report(g.red, ts[k].id).value.file == [])
      invariant bad <==> exists k ::
        (0 <= k < i && (ts[k].id !in HeadPresent(g.red) || ts[k].id !in DeclaredResolved(g.red)))
    {
      var id := ts[i].id;
      if id in check.reported && check.reported[id].file == [] {
        assert SomeUnlocated(g);
        return None;
      }
      if id !in check.headPresent || id !in check.declaredResolved {
        bad := true;
      }
    }
    var files := JudgePreviousFiles(g, Strict);
    if files == Unusable {
      return None;
    }
    assert bad <==> SomeNotDeclared(g);
    assert !SomeUnlocated(g);
    gs := Some(Note(RedInvalid, If(bad || files == Objection, ManifestNotSuperset)));
  }

  method HasApproval(g: GenInput, t: ManifestTest) returns (approved: bool)
    ensures approved == IsApproved(g, t)
  {
    approved := false;
    for i := 0 to |t.acs|
      invariant approved <==> exists k :: 0 <= k < i && t.acs[k] in g.approvedAcs
    {
      approved := approved || t.acs[i] in g.approvedAcs;
    }
  }

  method RuleR13(g: GenInput, check: RedCheck) returns (gs: Option<seq<Group>>)
    requires check.r == g.red && check.TestsAreLoaded() && check.headPresent == HeadPresent(g.red)
    ensures gs == R13(g)
  {
    hide SomeContentMissing, SomeUnparsed, SomePreviousDeleted, SomeFileWeakened, Find, HeadPresent, IsApproved;
    var bad := false;
    var hasApproved: set<FunctionRef>, hasOther: set<FunctionRef> := {}, {};
    var ts := PreviousTests(g);
    for i := 0 to |ts|
      invariant forall k :: 0 <= k < i && StillThere(g, ts[k].id) ==> HasFile(g, ts[k].id)
      invariant bad <==> exists k :: 0 <= k < i && !IsApproved(g, ts[k]) && ts[k].id !in HeadPresent(g.red)
      invariant forall x :: x in hasApproved <==>
        exists k :: 0 <= k < i && StillThere(g, ts[k].id) && IsApproved(g, ts[k]) && RefOf(g, ts[k].id) == x
      invariant forall x :: x in hasOther <==>
        exists k :: 0 <= k < i && StillThere(g, ts[k].id) && !IsApproved(g, ts[k]) && RefOf(g, ts[k].id) == x
    {
      var t := ts[i];
      var approved := HasApproval(g, t);
      if !approved && t.id !in check.headPresent {
        bad := true;
      }
      if t.id !in check.reported && t.id !in check.headPresent {
        assert !StillThere(g, t.id);
        continue;
      }
      assert StillThere(g, t.id);
      if t.id !in check.reported || check.reported[t.id].file == [] {
        assert !HasFile(g, t.id);
        assert SomeThereUnlocated(g);
        return None;
      }
      var ref := FunctionRef(check.reported[t.id].file, g.functionOf(t.id));
      assert HasFile(g, t.id) && ref == RefOf(g, t.id);
      if approved {
        hasApproved := hasApproved + {ref};
      } else {
        hasOther := hasOther + {ref};
      }
    }
    assert hasApproved == PreviousFunctions(g, true) && hasOther == PreviousFunctions(g, false);
    var l := Approving(hasApproved - hasOther);
    var files := JudgePreviousFiles(g, l);
    if files == Unusable {
      return None;
    }
    assert bad <==> SomeUnapprovedGone(g);
    assert !SomeThereUnlocated(g);
    gs := Some(Note(RedInvalid, If(bad || files == Objection, UnapprovedTestChange)));
  }

  // -------------------------------------------------------------------------- R14

  method CarryOver(previous: seq<ManifestTest>, ids: set<string>, present: set<string>) returns (out: seq<ManifestTest>)
    ensures out == Carried(previous, ids, present)
  {
    out := [];
    var seen := ids;
    for i := 0 to |previous|
      invariant out == Carried(previous[..i], ids, present)
      invariant forall id :: id in seen <==> id in ids || HasId(out, id)
    {
      assert previous[..i + 1][..i] == previous[..i];
      var t := previous[i];
      if t.id !in seen && t.id in present {
        seen := seen + {t.id};
        ghost var before := out;
        out := out + [t];
        forall id ensures HasId(out, id) <==> HasId(before, id) || t.id == id {
          HasIdAppend(before, t, id);
        }
      }
    }
    assert previous[..|previous|] == previous;
  }

  method ListSize(tests: seq<ManifestTest>) returns (size: nat)
    ensures size == ListBytes(tests)
  {
    size := 0;
    for i := 0 to |tests|
      invariant size == ListBytes(tests[..i])
    {
      assert tests[..i + 1][..i] == tests[..i];
      var t := tests[i];
      size := size + (if t.kind == NewTest then 3 else if t.kind == ModifiedTest then 8 else 0) + |t.id| + 2;
    }
    assert tests[..|tests|] == tests;
  }

  method CountMapped(r: RedInput) returns (n: nat)
    ensures n == Mapped(r, |r.criteria|)
  {
    n := 0;
    for i := 0 to |r.criteria|
      invariant n == Mapped(r, i)
    {
      if |Declared(r, r.criteria[i].id)| > 0 {
        n := n + 1;
      }
    }
  }

  method ListTests(r: RedInput, reported: map<string, Test>, ids: seq<string>) returns (out: seq<ManifestTest>)
    requires forall x :: Report(r, x) == if x in reported then Some(reported[x]) else None
    ensures out == TestsOf(r, ids)
  {
    hide TestOf, Find;
    out := [];
    for i := 0 to |ids|
      invariant out == TestsOf(r, ids[..i])
    {
      assert ids[..i + 1][..i] == ids[..i];
      var t := RecordTest(r, reported, ids[i]);
      out := out + [t];
    }
    assert ids[..|ids|] == ids;
  }

  method RuleR14(g: GenInput, check: RedCheck) returns (gs: Option<seq<Group>>)
    requires check.r == g.red && check.TestsAreLoaded() && check.headPresent == HeadPresent(g.red)
    requires check.newTests == NewTests(g.red)
    ensures gs == R14(g)
  {
    hide TestsOf, Carried, NewTests, HeadPresent, FilesOf, MappingOf, StubsOf, ListBytes, Mapped, Find, FilesOk,
      TestsOk, MappingsOk, StubsOk, GlobsOk;
    if g.testPaths.None? {
      return None;
    }
    var ids := SortedKeys(check.newTests);
    var own := ListTests(g.red, check.reported, ids);
    var carried := CarryOver(PreviousTests(g), check.newTests, check.headPresent);
    var tests := own + carried;
    var size := ListSize(tests);
    var files := ManifestFiles(g.red.changed, PreviousFiles(g));
    var mapped := CountMapped(g.red);
    var mapping := MapCriteria(g.red.criteria, tests);
    var stubs := ListStubs(g.red.stubs);
    var ok := ItemsOk(g.limits, Items(files, tests, mapping, stubs, g.testPaths.value), false);
    var bad := !ok || size > MAX_LIST_BYTES || |tests| > MAX_TESTS || |files| > MAX_FILES || |g.red.stubs| > MAX_STUBS
      || mapped > MAX_MAPPING;
    gs := Some(Note(RedInvalid, If(bad, ManifestTooLarge)));
  }

  // ------------------------------------------------------------------ classification

  /** The rules up to R9, with the early generation groups at their place. */
  method EarlyRules(check: RedCheck, early: seq<Group>) returns (headOk: bool)
    requires PoliciesUsable(check.r) && check.Loaded() && check.Derived() && check.acResults == AcResults(check.r)
      && check.groups == []
    modifies check`groups
    ensures headOk == HeadOk(check.r)
    ensures check.groups == BeforeR10(check.r, early)
  {
    hide R0, R1, R2, R3Reasons, HeadGroups, PoliciesUsable, AcResults, check.TestsAreLoaded, check.SetsAreLoaded,
      check.ScopeIsLoaded, check.Derived;
    check.RuleR0();
    check.RuleR1();
    check.groups := check.groups + early;
    check.RuleR2();
    var reasons := check.RuleR3();
    headOk := |reasons| == 0;
    if headOk {
      check.HeadRules();
    }
  }

  method Decide(check: RedCheck, headOk: bool, hiddenDeclared: bool, at: nat, ghost late: seq<Group>)
    returns (v: Verdict)
    requires Usable(check.r) && at <= |check.groups| && headOk == HeadOk(check.r)
    requires headOk ==> (hiddenDeclared <==> check.r.observed.truncated && HiddenDeclared(check.r))
    requires check.acResults == AcResults(check.r) && check.newTests == NewTests(check.r)
    requires check.satisfied > 0 <==> SomeSatisfied(check.r)
    requires check.unsatisfied > 0 <==> SomeUnsatisfied(check.r)
    ensures check.groups[at..] == AfterR10(check.r, late) ==>
              forall early :: check.groups[..at] == BeforeR10(check.r, early) ==>
                v == VerdictOf(check.r, Some(early), Some(late))
  {
    hide Usable, AcResults, NewTests, BeforeR10, AfterR10, HeadOk, HiddenDeclared, SomeSatisfied, SomeUnsatisfied,
      Unique, AllReasons;
    assert check.groups == check.groups[..at] + check.groups[at..];
    var newTests := SortedKeys(check.newTests);
    if |check.groups| > 0 {
      var r10 := headOk && check.unsatisfied > 0 && !hiddenDeclared;
      var reasons := Collect(check.groups, r10, at);
      return Verdict(check.groups[0].outcome, reasons, check.acResults, newTests);
    }
    if check.unsatisfied == 0 {
      return Verdict(RedValid, [], check.acResults, newTests);
    }
    var outcome := if check.satisfied == 0 then AlreadySatisfied else PartiallySatisfied;
    v := Verdict(outcome, [ChangeNotFailing], check.acResults, newTests);
  }

  method LoadFacts(r: RedInput) returns (check: RedCheck, ok: bool)
    ensures fresh(check) && check.r == r && check.groups == []
    ensures ok <==> Usable(r)
    ensures ok ==> check.Loaded() && check.Derived() && check.acResults == AcResults(r)
    ensures ok ==> (check.satisfied > 0 <==> SomeSatisfied(r)) && (check.unsatisfied > 0 <==> SomeUnsatisfied(r))
  {
    check := new RedCheck(r);
    hide CriteriaUsable, SetsUsable, TestsUsable, ScopeUsable, PoliciesUsable, RunsUsable, NewTestsUsable, AcResults,
      SomeSatisfied, SomeUnsatisfied, check.Loaded, check.Derived;
    if !r.identityPassed {
      return check, false;
    }
    ok := check.Load();
    if !ok {
      return;
    }
    ok := check.Derive();
    if !ok {
      return;
    }
    check.JudgeCriteria();
  }

  /** RED without the generation rules. */
  method ClassifyRed(r: RedInput) returns (v: Verdict)
    ensures v == VerdictOf(r, Some([]), Some([]))
  {
    hide VerdictOf, BeforeR10, R11, HeadOk, HiddenDeclared, SomeSatisfied, SomeUnsatisfied, AcResults;
    var check, ok := LoadFacts(r);
    if !ok {
      UnusableIsNotClassified(r, Some([]), Some([]));
      return NotClassified;
    }
    var headOk := EarlyRules(check, []);
    var at := |check.groups|;
    var hidden := false;
    if headOk {
      hidden := check.RuleR11();
    }
    assert check.groups[..at] == BeforeR10(r, []) && check.groups[at..] == AfterR10(r, []);
    v := Decide(check, headOk, hidden, at, []);
  }

  lemma UnusableIsNotClassified(r: RedInput, early: Option<seq<Group>>, late: Option<seq<Group>>)
    requires !Usable(r) || early.None? || late.None?
    ensures VerdictOf(r, early, late) == NotClassified
  {
  }

  method LateRules(g: GenInput, check: RedCheck, headOk: bool) returns (gs: Option<seq<Group>>)
    requires check.r == g.red && check.Loaded() && check.Derived() && headOk == HeadOk(g.red)
    ensures gs == Late(g)
  {
    hide R11b, R12, R13, R14, HeadOk, HeadPresent, NewTests, DeclaredResolved, Modified, SomeNotDiscovered, Resolved;
    var repeats: Option<seq<Group>> := Some([]);
    if headOk {
      repeats := R11b(g);
    }
    var opening: Option<seq<Group>> := Some([]);
    if g.opening == Strengthened {
      opening := RuleR12(g, check);
    } else if g.opening == TestChangeApproved {
      opening := RuleR13(g, check);
    }
    if !headOk {
      return opening;
    }
    var sizes := RuleR14(g, check);
    gs := Both(Both(repeats, opening), sizes);
  }

  /** RED with the generation rules, each at its place in the order. */
  method ClassifyRedGen(g: GenInput) returns (v: Verdict)
    ensures v == GenVerdictOf(g)
  {
    hide VerdictOf, BeforeR10, R11, HeadOk, HiddenDeclared, SomeSatisfied, SomeUnsatisfied, AcResults, Late, Early,
      GenUsable, R1b;
    var facts := CheckGeneration(g);
    if !facts {
      return NotClassified;
    }
    var check, ok := LoadFacts(g.red);
    if !ok {
      UnusableIsNotClassified(g.red, Early(g), Late(g));
      return NotClassified;
    }
    var early := RuleR1b(g, check);
    EarlyIs(g);
    if early.None? {
      UnusableIsNotClassified(g.red, Early(g), Late(g));
      return NotClassified;
    }
    var headOk := EarlyRules(check, early.value);
    var at := |check.groups|;
    var hidden := false;
    if headOk {
      hidden := check.RuleR11();
    }
    var late := LateRules(g, check, headOk);
    if late.None? {
      UnusableIsNotClassified(g.red, Early(g), Late(g));
      return NotClassified;
    }
    check.groups := check.groups + late.value;
    assert check.groups[..at] == BeforeR10(g.red, early.value);
    assert check.groups[at..] == AfterR10(g.red, late.value);
    v := Decide(check, headOk, hidden, at, late.value);
  }

  lemma EarlyIs(g: GenInput)
    ensures Early(g) == R1b(g)
  {
  }

  method CheckGeneration(g: GenInput) returns (ok: bool)
    ensures ok <==> GenUsable(g)
  {
    if g.opening == OtherOpening || (g.opening == FirstGeneration && g.previous.Some?)
      || (g.opening != FirstGeneration && g.previous.None?) {
      return false;
    }
    if (g.opening == TestChangeApproved && g.approvedAcs == []) || g.repeatNewTests.None?
      || g.repeatNewTests.value < 1 {
      return false;
    }
    var paths: set<Text> := {};
    for i := 0 to |g.testFiles|
      invariant forall k :: 0 <= k < i ==> (g.testFiles[k].goSuffix ==> g.testFiles[k].isGo)
      invariant forall j, k :: 0 <= j < k < i ==> g.testFiles[j].path != g.testFiles[k].path
      invariant forall p :: p in paths <==> exists k :: 0 <= k < i && g.testFiles[k].path == p
    {
      if (g.testFiles[i].goSuffix && !g.testFiles[i].isGo) || g.testFiles[i].path in paths {
        return false;
      }
      paths := paths + {g.testFiles[i].path};
    }
    for i := 0 to |g.testFiles|
      invariant forall j, k | 0 <= j < i && 0 <= k < |g.red.changed| ::
        g.testFiles[j].path == g.red.changed[k].path ==> !Contradicts(g.testFiles[j], g.red.changed[k].change)
    {
      for m := 0 to |g.red.changed|
        invariant forall k :: 0 <= k < m && g.testFiles[i].path == g.red.changed[k].path ==>
          !Contradicts(g.testFiles[i], g.red.changed[k].change)
      {
        if g.testFiles[i].path == g.red.changed[m].path && Contradicts(g.testFiles[i], g.red.changed[m].change) {
          return false;
        }
      }
    }
    ok := true;
  }

  // ------------------------------------------------------------------ the manifest

  method ReportMap(r: RedInput) returns (reported: map<string, Test>)
    ensures forall id :: Report(r, id) == if id in reported then Some(reported[id]) else None
  {
    reported := map[];
    var tests := r.observed.tests;
    for i := 0 to |tests|
      invariant forall id :: Find(tests[..i], id) == if id in reported then Some(reported[id]) else None
    {
      assert tests[..i + 1][..i] == tests[..i];
      reported := reported[tests[i].id := tests[i]];
    }
    assert tests[..|tests|] == tests;
  }

  method ProtectedIds(r: RedInput, newTests: seq<string>, present: set<string>) returns (ids: set<string>)
    requires present == HeadPresent(r)
    ensures ids == Protected(r, Elements(newTests))
  {
    hide HeadPresent;
    ids := {};
    for i := 0 to |newTests|
      invariant forall id :: id in ids <==> exists k :: 0 <= k < i && newTests[k] == id
    {
      ids := ids + {newTests[i]};
    }
    assert ids == Elements(newTests);
    var absent: set<string> := {};
    for i := 0 to |r.observed.tests|
      invariant forall id :: id in absent <==>
        exists k :: 0 <= k < i && ReportedNew(r, r.observed.tests[k]) && r.observed.tests[k].id == id
    {
      var t := r.observed.tests[i];
      if t.base == Absent && t.head != Absent && t.id in present {
        absent := absent + {t.id};
      }
    }
    assert absent == AbsentAtBase(r);
    var declared := DeclaredIds(r, present);
    ids := ids + absent + declared;
  }

  method DeclaredIds(r: RedInput, present: set<string>) returns (ids: set<string>)
    requires present == HeadPresent(r)
    ensures ids == DeclaredAnywhere(r)
  {
    hide HeadPresent, Names;
    ids := {};
    var left := present;
    while left != {}
      invariant left <= present
      invariant forall id :: id in ids <==> id in present && id !in left && NamedAnywhere(r, id)
      decreases |left|
    {
      var id :| id in left;
      left := left - {id};
      var named := IsNamed(r, id);
      if named {
        ids := ids + {id};
      }
    }
  }

  method IsNamed(r: RedInput, id: string) returns (named: bool)
    ensures named <==> NamedAnywhere(r, id)
  {
    hide Names;
    var left := r.declared.Keys;
    while left != {}
      invariant left <= r.declared.Keys
      invariant forall ac :: ac in r.declared && ac !in left ==> !NamedBy(r.declared[ac], id)
      decreases |left|
    {
      var ac :| ac in left;
      left := left - {ac};
      var names := r.declared[ac];
      for k := 0 to |names|
        invariant forall j :: 0 <= j < k ==> !Names(names[j], id)
      {
        if Names(names[k], id) {
          assert NamedBy(r.declared[ac], id);
          return true;
        }
      }
    }
    named := false;
  }

  /** Places every id the name stands for and notes the criterion for it. */
  method PlaceNamed(ac: string, name: string, ids: seq<string>, start: seq<string>, acs0: AcMap, ghost xs: seq<string>)
    returns (order: seq<string>, acs: AcMap)
    requires start == Unique(xs)
    ensures order == Unique(xs + NamedIds(name, ids)) && acs == NoteName(acs0, ac, name, ids)
  {
    hide Names, Unique;
    order, acs := start, acs0;
    assert xs + NamedIds(name, ids[..0]) == xs;
    for i := 0 to |ids|
      invariant order == Unique(xs + NamedIds(name, ids[..i])) && acs == NoteName(acs0, ac, name, ids[..i])
    {
      assert ids[..i + 1][..i] == ids[..i];
      var id := ids[i];
      if Names(name, id) {
        assert xs + NamedIds(name, ids[..i + 1]) == xs + NamedIds(name, ids[..i]) + [id];
        order := AppendUnique(order, [id], xs + NamedIds(name, ids[..i]));
        var noted := if id in acs then acs[id] else [];
        acs := acs[id := if ac in noted then noted else noted + [ac]];
      } else {
        assert NamedIds(name, ids[..i + 1]) == NamedIds(name, ids[..i]);
      }
    }
    assert ids[..|ids|] == ids;
  }

  method PlaceNames(
    ac: string, names: seq<string>, ids: seq<string>, start: seq<string>, acs0: AcMap, ghost xs: seq<string>)
    returns (order: seq<string>, acs: AcMap)
    requires start == Unique(xs)
    ensures order == Unique(xs + NamedByAll(names, ids)) && acs == NoteNames(acs0, ac, names, ids)
  {
    hide Unique, NamedIds, NoteName;
    order, acs := start, acs0;
    assert xs + NamedByAll(names[..0], ids) == xs;
    for k := 0 to |names|
      invariant order == Unique(xs + NamedByAll(names[..k], ids)) && acs == NoteNames(acs0, ac, names[..k], ids)
    {
      assert names[..k + 1][..k] == names[..k];
      order, acs := PlaceNamed(ac, names[k], ids, order, acs, xs + NamedByAll(names[..k], ids));
      assert xs + NamedByAll(names[..k + 1], ids) == xs + NamedByAll(names[..k], ids) + NamedIds(names[k], ids);
    }
    assert names[..|names|] == names;
  }

  method PlaceTests(r: RedInput, ids: seq<string>) returns (order: seq<string>, acs: AcMap)
    ensures order == Order(r, ids) && acs == NoteCriteria(r, |r.criteria|, ids)
  {
    hide NamedByAll, Unique, Declared, NoteNames;
    order, acs := [], map[];
    NothingPlaced();
    for i := 0 to |r.criteria|
      invariant order == Unique(Placed(r, i, ids)) && acs == NoteCriteria(r, i, ids)
    {
      var c := r.criteria[i];
      order, acs := PlaceNames(c.id, Declared(r, c.id), ids, order, acs, Placed(r, i, ids));
    }
    order := AppendUnique(order, ids, Placed(r, |r.criteria|, ids));
  }

  lemma NothingPlaced()
    ensures Unique<string>([]) == []
  {
  }

  method ManifestTests(r: RedInput, newTests: seq<string>, previous: seq<ManifestTest>)
    returns (tests: Option<seq<ManifestTest>>)
    ensures tests == ManifestTestsOf(r, Elements(newTests), previous)
  {
    hide Order, Protected, BuiltTests, NoteCriteria, Decoded, Find;
    if r.observed.sets.None? {
      NoSetsNoTests(r, newTests, previous);
      return None;
    }
    var present := DecodeIdSet(r.observed.sets.value.headPresent);
    if present.None? {
      return None;
    }
    var reported := ReportMap(r);
    var protectedIds := ProtectedIds(r, newTests, present.value);
    var ids := SortedKeys(protectedIds);
    var order, acs := PlaceTests(r, ids);
    var own := BuildTests(r, reported, acs, order);
    if own.None? {
      return None;
    }
    var kept := KeepPrevious(previous, order, present.value);
    tests := Some(own.value + kept);
  }

  /** The placed tests with their noted criteria, or None when one is not reported or has another status. */
  method BuildTests(r: RedInput, reported: map<string, Test>, acs: AcMap, order: seq<string>)
    returns (out: Option<seq<ManifestTest>>)
    requires forall x :: Report(r, x) == if x in reported then Some(reported[x]) else None
    ensures out.Some? <==> AllRecordable(r, order)
    ensures out.Some? ==> out.value == BuiltTests(r, acs, order)
  {
    hide Find, SuiteOf;
    var tests: seq<ManifestTest> := [];
    for i := 0 to |order|
      invariant forall k :: 0 <= k < i ==> CanRecord(r, order[k])
      invariant tests == BuiltTests(r, acs, order[..i])
    {
      assert order[..i + 1][..i] == order[..i];
      var id := order[i];
      if id !in reported || !Recordable(reported[id].head) {
        assert !CanRecord(r, id);
        return None;
      }
      var t := reported[id];
      var suite := t.suite;
      if suite == "" {
        suite := SuiteOf(id);
      }
      var kind := if t.base != Absent then ModifiedTest else NewTest;
      tests := tests + [ManifestTest(id, suite, kind, if id in acs then acs[id] else [], t.head)];
    }
    assert order[..|order|] == order;
    out := Some(tests);
  }

  lemma NoSetsNoTests(r: RedInput, newTests: seq<string>, previous: seq<ManifestTest>)
    requires r.observed.sets.None?
    ensures ManifestTestsOf(r, Elements(newTests), previous) == None
  {
  }

  method KeepPrevious(previous: seq<ManifestTest>, order: seq<string>, present: set<string>)
    returns (out: seq<ManifestTest>)
    ensures out == Kept(previous, Elements(order), present)
  {
    out := [];
    var have := Elements(order);
    for i := 0 to |previous|
      invariant out == Kept(previous[..i], have, present)
    {
      assert previous[..i + 1][..i] == previous[..i];
      if previous[i].id !in have && previous[i].id in present {
        out := out + [previous[i]];
      }
    }
    assert previous[..|previous|] == previous;
  }

  /** The manifest items of a red_valid classification, or None when one cannot be recorded. */
  method BuildManifest(b: BuildInput) returns (m: Option<Items>)
    ensures m == BuildOf(b)
  {
    hide ManifestTestsOf, FilesOf, MappingOf, FilesOk, TestsOk, MappingsOk, GlobsOk, Elements;
    if !b.verdict.Verdict? || b.verdict.outcome != RedValid {
      return None;
    }
    var files := ManifestFiles(b.red.changed, FilesOfPrevious(b.previous));
    var tests := ManifestTests(b.red, b.verdict.newTests, TestsOfPrevious(b.previous));
    if tests.None? {
      return None;
    }
    var mapping := MapCriteria(b.red.criteria, tests.value);
    var stubs := ListStubs(b.red.stubs);
    for i := 0 to |stubs|
      invariant forall k :: 0 <= k < i ==> |stubs[k].acs| > 0
    {
      if |stubs[i].acs| == 0 {
        assert !StubOk(b.limits, stubs[i]);
        return None;
      }
    }
    if b.testPaths.None? || (b.previous.Some? && !b.supersedesOk) {
      return None;
    }
    var items := Items(files, tests.value, mapping, stubs, b.testPaths.value);
    if |files| == 0 || |tests.value| == 0 || |mapping| == 0 {
      return None;
    }
    if !b.headerOk || !SizesOk(items) || !ItemsOk(b.limits, items, true) {
      return None;
    }
    m := Some(items);
  }
}
