/**
  Building the test manifest of a red_valid classification
  (src/internal/verify/manifest.go): what it derives, and its agreement with the R14 check
  that ran before it.
 */
module Manifests {

  import opened Wrappers
  import opened Ordering
  import opened Evidence
  import opened Red
  import opened RedMeaning
  import opened Generations

  /** `supersedesOk` and `headerOk` say that the reason and the other schema fields are acceptable. */
  datatype BuildInput = BuildInput(
    red: RedInput, verdict: Verdict, previous: Option<Manifest>, testPaths: Option<seq<string>>, limits: Limits,
    supersedesOk: bool, headerOk: bool)

  // ------------------------------------------------------------------- the tests

  predicate ReportedNew(r: RedInput, t: Test) {
    t.base == Absent && t.head != Absent && t.id in HeadPresent(r)
  }

  function AbsentAtBase(r: RedInput): set<string> {
    set i | 0 <= i < |r.observed.tests| && ReportedNew(r, r.observed.tests[i]) :: r.observed.tests[i].id
  }

  predicate NamedAnywhere(r: RedInput, id: string) {
    exists ac :: ac in r.declared && NamedBy(r.declared[ac], id)
  }

  function DeclaredAnywhere(r: RedInput): set<string> {
    set id | id in HeadPresent(r) && NamedAnywhere(r, id)
  }

  /** The tests of this generation: the classified ones, and those the observation itself shows. */
  function Protected(r: RedInput, newTests: set<string>): set<string> {
    newTests + AbsentAtBase(r) + DeclaredAnywhere(r)
  }

  function NamedIds(name: string, ids: seq<string>): seq<string>
    decreases |ids|
  {
    if ids == [] then []
    else NamedIds(name, ids[..|ids| - 1]) + if Names(name, ids[|ids| - 1]) then [ids[|ids| - 1]] else []
  }

  function NamedByAll(names: seq<string>, ids: seq<string>): seq<string>
    decreases |names|
  {
    if names == [] then [] else NamedByAll(names[..|names| - 1], ids) + NamedIds(names[|names| - 1], ids)
  }

  function Placed(r: RedInput, n: nat, ids: seq<string>): seq<string>
    requires n <= |r.criteria|
  {
    if n == 0 then [] else Placed(r, n - 1, ids) + NamedByAll(Declared(r, r.criteria[n - 1].id), ids)
  }

  /** Criteria order, then declaration order, then the undeclared ids; each id at its first place. */
  function Order(r: RedInput, ids: seq<string>): seq<string> {
    Unique(Placed(r, |r.criteria|, ids) + ids)
  }

  // The criteria map the placing loop fills beside the order.

  type AcMap = map<string, seq<string>>

  function AcsIn(acs: AcMap, id: string): seq<string> {
    if id in acs then acs[id] else []
  }

  function WithAc(acs: AcMap, id: string, ac: string): AcMap {
    var noted := AcsIn(acs, id);
    acs[id := if ac in noted then noted else noted + [ac]]
  }

  /** Every id the name stands for gets the criterion, unless it has it already. */
  function NoteName(acs: AcMap, ac: string, name: string, ids: seq<string>): AcMap
    decreases |ids|
  {
    if ids == [] then acs
    else
      var before, id := NoteName(acs, ac, name, ids[..|ids| - 1]), ids[|ids| - 1];
      if Names(name, id) then WithAc(before, id, ac) else before
  }

  function NoteNames(acs: AcMap, ac: string, names: seq<string>, ids: seq<string>): AcMap
    decreases |names|
  {
    if names == [] then acs
    else NoteName(NoteNames(acs, ac, names[..|names| - 1], ids), ac, names[|names| - 1], ids)
  }

  function NoteCriteria(r: RedInput, n: nat, ids: seq<string>): AcMap
    requires n <= |r.criteria|
  {
    if n == 0 then map[]
    else NoteNames(NoteCriteria(r, n - 1, ids), r.criteria[n - 1].id, Declared(r, r.criteria[n - 1].id), ids)
  }

  /** What the builder records of a reported test, with the criteria its map holds. */
  function BuiltTest(r: RedInput, acs: AcMap, id: string): ManifestTest {
    var t := Report(r, id);
    ManifestTest(
      id, if t.Some? && t.value.suite != "" then t.value.suite else SuiteOf(id), KindOf(r, id), AcsIn(acs, id),
      if t.Some? then t.value.head else Unknown)
  }

  function BuiltTests(r: RedInput, acs: AcMap, ids: seq<string>): seq<ManifestTest>
    decreases |ids|
  {
    if ids == [] then [] else BuiltTests(r, acs, ids[..|ids| - 1]) + [BuiltTest(r, acs, ids[|ids| - 1])]
  }

  /** The previous tests that are still present and not among the ids. */
  function Kept(previous: seq<ManifestTest>, ids: set<string>, present: set<string>): seq<ManifestTest>
    decreases |previous|
  {
    if previous == [] then []
    else
      var t := previous[|previous| - 1];
      Kept(previous[..|previous| - 1], ids, present) + if t.id !in ids && t.id in present then [t] else []
  }

  predicate CanRecord(r: RedInput, id: string) {
    Report(r, id).Some? && Recordable(Report(r, id).value.head)
  }

  predicate AllRecordable(r: RedInput, ids: seq<string>) {
    forall i :: 0 <= i < |ids| ==> CanRecord(r, ids[i])
  }

  ghost function ManifestTestsOf(
    r: RedInput, newTests: set<string>, previous: seq<ManifestTest>): Option<seq<ManifestTest>>
  {
    var ids := Sorted(Protected(r, newTests));
    var order, acs := Order(r, ids), NoteCriteria(r, |r.criteria|, ids);
    if Decoded(SetsOf(r.observed).headPresent).None? || !AllRecordable(r, order) then None
    else Some(BuiltTests(r, acs, order) + Kept(previous, Elements(order), HeadPresent(r)))
  }

  // ----------------------------------------------------------------- the manifest

  function TestsOfPrevious(previous: Option<Manifest>): seq<ManifestTest> {
    if previous.Some? then previous.value.tests else []
  }

  function FilesOfPrevious(previous: Option<Manifest>): seq<ManifestFile> {
    if previous.Some? then previous.value.files else []
  }

  predicate SizesOk(m: Items) {
    && 1 <= |m.files| <= MAX_FILES && 1 <= |m.tests| <= MAX_TESTS && 1 <= |m.mapping| <= MAX_MAPPING
    && |m.stubs| <= MAX_STUBS
  }

  ghost function BuildOf(b: BuildInput): Option<Items> {
    if !IsValid(b.verdict) || b.testPaths.None? then None
    else
      var tests := ManifestTestsOf(b.red, Elements(b.verdict.newTests), TestsOfPrevious(b.previous));
      if tests.None? then None
      else
        var m := Items(FilesOf(b.red.changed, FilesOfPrevious(b.previous)), tests.value,
          MappingOf(b.red.criteria, tests.value),
                       StubsOf(b.red.stubs), b.testPaths.value);
        if (b.previous.Some? && !b.supersedesOk) || !b.headerOk || !SizesOk(m)
          || !ItemsOk(b.limits, m, true) then None else Some(m)
  }

  // --------------------------------------------------------------- what red_valid gives

  lemma GenGroupsAreInvalid(g: GenInput)
    ensures Early(g).Some? ==> NoneValid(Early(g).value)
    ensures Late(g).Some? ==> NoneValid(Late(g).value)
  {
    hide FitsManifest, SomeUnlocated, SomeContentMissing, SomeUnparsed, SomeNotDeclared, SomePreviousDeleted,
      SomeFileWeakened, HeadOk, SomeTestFileMissing, SomeMappedUnlocated, SomeEarlyUnparsed, SomeTestWeakened,
      SomeThereUnlocated, SomeUnapprovedGone, ApprovedFunctions;
  }

  lemma ValidGeneration(g: GenInput)
    requires IsValid(GenVerdictOf(g))
    ensures GenUsable(g) && Usable(g.red) && RedIsSound(g.red)
    ensures R14(g) == Some([]) && OpeningRule(g) == Some([]) && Early(g) == Some([])
    ensures Elements(GenVerdictOf(g).newTests) == NewTests(g.red)
  {
    hide VerdictOf, Early, R14, R11b, OpeningRule, RedIsSound, Usable, GenUsable, HeadOk, NewTests;
    GenGroupsAreInvalid(g);
    RedValidIff(g.red, Early(g), Late(g));
    SoundHasHead(g.red);
    VerdictLists(g);
  }

  lemma SoundHasHead(r: RedInput)
    requires RedIsSound(r)
    ensures HeadOk(r)
  {
    hide HeadOk, HeadRan;
    HeadRules(r);
  }

  lemma VerdictLists(g: GenInput)
    requires GenVerdictOf(g).Verdict?
    ensures Elements(GenVerdictOf(g).newTests) == NewTests(g.red)
  {
    hide BeforeR10, AfterR10, AcResults, NewTests, Unique, AllReasons, ListsR10, SomeUnsatisfied, SomeSatisfied,
      Usable, GenUsable, Late, Early;
  }

  // ------------------------------------------------------------ the same set of tests

  /** No test reported absent at the base, and there at the head, is in a base set unless it is a modified one. */
  predicate BaseIsConsistent(r: RedInput) {
    forall i :: 0 <= i < |r.observed.tests| && ReportedNew(r, r.observed.tests[i]) ==>
      (r.observed.tests[i].id !in BasePassing(r) && r.observed.tests[i].id !in BaseSkipped(r))
      || r.observed.tests[i].id in Modified(r)
  }

  lemma DeclaredAnywhereIsResolved(r: RedInput)
    requires CriteriaUsable(r)
    ensures DeclaredAnywhere(r) == DeclaredResolved(r)
  {
    hide Names, HeadPresent;
    forall id | id in DeclaredAnywhere(r) ensures id in DeclaredResolved(r) {
      var ac :| ac in r.declared && NamedBy(r.declared[ac], id);
      assert IsCriterion(r, ac);
      var i :| 0 <= i < |r.criteria| && r.criteria[i].id == ac;
      assert id in Resolved(r, r.criteria[i].id);
    }
    forall id | id in DeclaredResolved(r) ensures id in DeclaredAnywhere(r) {
      var i :| 0 <= i < |r.criteria| && id in Resolved(r, r.criteria[i].id);
      assert NamedBy(Declared(r, r.criteria[i].id), id);
      assert r.criteria[i].id in r.declared;
    }
  }

  lemma AbsentIsFresh(r: RedInput)
    requires TestsUsable(r)
    ensures AbsentAtBase(r) <= NewTests(r) <==> BaseIsConsistent(r)
  {
    hide HeadPresent, BasePassing, BaseSkipped, Modified, Find;
    forall i | 0 <= i < |r.observed.tests| && ReportedNew(r, r.observed.tests[i])
      ensures r.observed.tests[i].id in NewTests(r) <==>
        ((r.observed.tests[i].id !in BasePassing(r) && r.observed.tests[i].id !in BaseSkipped(r))
         || r.observed.tests[i].id in Modified(r))
      ensures r.observed.tests[i].id in AbsentAtBase(r)
    {
      FindUnique(r.observed.tests, i);
    }
  }

  /** The builder protects exactly the classified new tests if and only if the base facts are consistent. */
  lemma ProtectedIsNewIff(r: RedInput)
    requires CriteriaUsable(r) && TestsUsable(r) && DeclaredAreNew(r)
    ensures Protected(r, NewTests(r)) == NewTests(r) <==> BaseIsConsistent(r)
  {
    hide CriteriaUsable, TestsUsable, NewTests, DeclaredResolved, BaseIsConsistent, AbsentAtBase, DeclaredAnywhere,
      Find;
    DeclaredAnywhereIsResolved(r);
    AbsentIsFresh(r);
    assert DeclaredAnywhere(r) <= NewTests(r);
  }

  lemma {:induction false} NamedIdsAreIds(name: string, ids: seq<string>)
    ensures forall id :: id in NamedIds(name, ids) ==> id in ids
    decreases |ids|
  {
    if ids != [] {
      NamedIdsAreIds(name, ids[..|ids| - 1]);
    }
  }

  lemma {:induction false} NamedByAllAreIds(names: seq<string>, ids: seq<string>)
    ensures forall id :: id in NamedByAll(names, ids) ==> id in ids
    decreases |names|
  {
    if names != [] {
      NamedByAllAreIds(names[..|names| - 1], ids);
      NamedIdsAreIds(names[|names| - 1], ids);
    }
  }

  lemma {:induction false} PlacedAreIds(r: RedInput, n: nat, ids: seq<string>)
    requires n <= |r.criteria|
    ensures forall id :: id in Placed(r, n, ids) ==> id in ids
    decreases n
  {
    if n > 0 {
      PlacedAreIds(r, n - 1, ids);
      NamedByAllAreIds(Declared(r, r.criteria[n - 1].id), ids);
    }
  }

  /** Ordering the tests neither loses nor repeats one. */
  lemma OrderIsPermutation(r: RedInput, s: set<string>)
    ensures var order := Order(r, Sorted(s));
      && Elements(order) == s && |order| == |Sorted(s)|
      && (forall i, j :: 0 <= i < j < |order| ==> order[i] != order[j])
  {
    hide Placed, Unique;
    var ids := Sorted(s);
    PlacedAreIds(r, |r.criteria|, ids);
    UniqueElements(Placed(r, |r.criteria|, ids) + ids);
    SortedIsDistinct(s);
    var order := Order(r, ids);
    assert Elements(order) == s by {
      forall id ensures id in Elements(order) <==> id in s {
        assert id in Elements(order) <==> id in order;
      }
    }
    DistinctCount(order);
    DistinctCount(ids);
  }

  lemma {:induction false} TestsOfElements(r: RedInput, ids: seq<string>)
    ensures |TestsOf(r, ids)| == |ids|
    ensures forall i :: 0 <= i < |ids| ==> TestsOf(r, ids)[i] == TestOf(r, ids[i])
    decreases |ids|
  {
    hide TestOf;
    if ids != [] {
      TestsOfElements(r, ids[..|ids| - 1]);
    }
  }

  lemma SameTests(r: RedInput, a: seq<string>, b: seq<string>)
    requires Elements(a) == Elements(b)
    ensures forall t :: t in TestsOf(r, a) <==> t in TestsOf(r, b)
  {
    hide TestOf, TestsOf;
    TestsOfElements(r, a);
    TestsOfElements(r, b);
    forall t | t in TestsOf(r, a) ensures t in TestsOf(r, b) {
      SameTest(r, a, b, t);
    }
    forall t | t in TestsOf(r, b) ensures t in TestsOf(r, a) {
      SameTest(r, b, a, t);
    }
  }

  lemma SameTest(r: RedInput, a: seq<string>, b: seq<string>, t: ManifestTest)
    requires Elements(a) == Elements(b) && t in TestsOf(r, a)
    ensures t in TestsOf(r, b)
  {
    hide TestOf, TestsOf;
    TestsOfElements(r, a);
    TestsOfElements(r, b);
    var i :| 0 <= i < |a| && TestsOf(r, a)[i] == t;
    assert a[i] in Elements(a);
    var j :| 0 <= j < |b| && b[j] == a[i];
    assert TestsOf(r, b)[j] == t;
  }

  // ------------------------------------------------- the criteria of the two lists

  function WithOne(acs: seq<string>, ac: string, has: bool): seq<string> {
    if !has || ac in acs then acs else acs + [ac]
  }

  lemma {:induction false} NoteNameAt(acs: AcMap, ac: string, name: string, ids: seq<string>, id: string)
    ensures AcsIn(NoteName(acs, ac, name, ids), id) == WithOne(AcsIn(acs, id), ac, id in ids && Names(name, id))
    decreases |ids|
  {
    hide Names;
    if ids != [] {
      NoteNameAt(acs, ac, name, ids[..|ids| - 1], id);
      assert ids == ids[..|ids| - 1] + [ids[|ids| - 1]];
    }
  }

  lemma {:induction false} NoteNamesAt(acs: AcMap, ac: string, names: seq<string>, ids: seq<string>, id: string)
    ensures AcsIn(NoteNames(acs, ac, names, ids), id) == WithOne(AcsIn(acs, id), ac, id in ids && NamedBy(names, id))
    decreases |names|
  {
    hide Names, NoteName;
    if names != [] {
      var front, last := names[..|names| - 1], names[|names| - 1];
      NoteNamesAt(acs, ac, front, ids, id);
      NoteNameAt(NoteNames(acs, ac, front, ids), ac, last, ids, id);
      assert NamedBy(names, id) <==> NamedBy(front, id) || Names(last, id) by {
        assert forall k :: 0 <= k < |front| ==> front[k] == names[k];
      }
    }
  }

  /** The map the placing loop fills holds, for every placed id, the criteria the size check finds for it. */
  lemma {:induction false} NotedAreDeclared(r: RedInput, n: nat, ids: seq<string>, id: string)
    requires n <= |r.criteria| && id in ids
    ensures AcsIn(NoteCriteria(r, n, ids), id) == Unique(AcsNaming(r, n, id))
    decreases n
  {
    hide NamedBy, NoteNames, Declared;
    if n > 0 {
      var c := r.criteria[n - 1];
      NotedAreDeclared(r, n - 1, ids, id);
      NoteNamesAt(NoteCriteria(r, n - 1, ids), c.id, Declared(r, c.id), ids, id);
      UniqueOneMore(AcsNaming(r, n - 1, id), c.id);
    }
  }

  lemma UniqueOneMore(xs: seq<string>, x: string)
    ensures Unique(xs + [x]) == WithOne(Unique(xs), x, true) && xs + [] == xs
  {
    assert (xs + [x])[..|xs|] == xs;
  }

  /** So the builder, with its own map, records the tests the size check recorded. */
  lemma {:induction false} BuiltIsChecked(r: RedInput, ids: seq<string>, order: seq<string>)
    requires forall i :: 0 <= i < |order| ==> order[i] in ids
    ensures BuiltTests(r, NoteCriteria(r, |r.criteria|, ids), order) == TestsOf(r, order)
    decreases |order|
  {
    hide NoteCriteria, AcsNaming, Unique, KindOf, SuiteOf, Find;
    if order != [] {
      BuiltIsChecked(r, ids, order[..|order| - 1]);
      NotedAreDeclared(r, |r.criteria|, ids, order[|order| - 1]);
    }
  }

  predicate UniqueTests(tests: seq<ManifestTest>) {
    forall i, j :: 0 <= i < j < |tests| ==> tests[i].id != tests[j].id
  }

  lemma {:induction false} CarriedIds(previous: seq<ManifestTest>, ids: set<string>, present: set<string>, id: string)
    ensures HasId(Carried(previous, ids, present), id) ==> HasId(previous, id)
    decreases |previous|
  {
    if previous != [] {
      var front := previous[..|previous| - 1];
      CarriedIds(front, ids, present, id);
      assert previous == front + [previous[|previous| - 1]];
      HasIdAppend(front, previous[|previous| - 1], id);
      HasIdAppend(Carried(front, ids, present), previous[|previous| - 1], id);
    }
  }

  lemma HasIdAppend(tests: seq<ManifestTest>, t: ManifestTest, id: string)
    ensures HasId(tests + [t], id) <==> HasId(tests, id) || t.id == id
  {
    var all := tests + [t];
    assert all[|tests|] == t;
    assert forall i :: 0 <= i < |tests| ==> all[i] == tests[i];
  }

  lemma LastIdIsNew(tests: seq<ManifestTest>)
    requires UniqueTests(tests) && tests != []
    ensures !HasId(tests[..|tests| - 1], tests[|tests| - 1].id)
  {
  }

  /** Without a repeated id in the previous manifest, R14 and the builder carry the same tests over. */
  lemma {:induction false} CarriedIsKept(previous: seq<ManifestTest>, ids: set<string>, present: set<string>)
    requires UniqueTests(previous)
    ensures Carried(previous, ids, present) == Kept(previous, ids, present)
    decreases |previous|
  {
    if previous != [] {
      var front, t := previous[..|previous| - 1], previous[|previous| - 1];
      CarriedIsKept(front, ids, present);
      CarriedIds(front, ids, present, t.id);
      LastIdIsNew(previous);
    }
  }

  lemma R14Recordable(g: GenInput)
    requires TestsOk(g.limits, R14Tests(g)) && NewAreJudged(g.red)
    ensures forall id :: id in NewTests(g.red) ==> CanRecord(g.red, id)
  {
    hide NewTests, TestsOf, Carried, DeclaredAcs, KindOf, SuiteOf, Find;
    var ids := Sorted(NewTests(g.red));
    TestsOfElements(g.red, ids);
    SortedIsDistinct(NewTests(g.red));
    forall id | id in NewTests(g.red) ensures CanRecord(g.red, id) {
      assert id in ids;
      var i :| 0 <= i < |ids| && ids[i] == id;
      assert R14Tests(g)[i] == TestOf(g.red, id);
      assert TestOk(g.limits, R14Tests(g)[i]);
    }
  }

  ghost predicate SameElements(a: seq<ManifestTest>, b: seq<ManifestTest>) {
    |a| == |b| && forall t :: t in a <==> t in b
  }

  lemma ConcatSame(a: seq<ManifestTest>, b: seq<ManifestTest>, c: seq<ManifestTest>)
    requires SameElements(a, b)
    ensures SameElements(a + c, b + c)
  {
    forall t ensures t in a + c <==> t in b + c {
      assert t in a <==> t in b;
    }
  }

  /**
    After red_valid the builder derives the tests R14 checked, with the same criteria, kinds, suites and
    statuses, provided the base facts are consistent and the previous manifest repeats no id.
   */
  lemma ManifestAgreesWithR14(g: GenInput)
    requires IsValid(GenVerdictOf(g)) && BaseIsConsistent(g.red) && UniqueTests(PreviousTests(g))
    ensures var built := ManifestTestsOf(g.red, Elements(GenVerdictOf(g).newTests), PreviousTests(g));
      built.Some? && SameElements(built.value, R14Tests(g))
  {
    hide GenVerdictOf, IsValid, GenUsable, Order, TestsOf, BuiltTests, NoteCriteria, Carried, Kept, NewTests,
      BaseIsConsistent, CriteriaUsable, TestsUsable, DeclaredAreNew, NewAreJudged, Protected, CanRecord, Decoded,
      ScopeUsable, PoliciesUsable, RunsUsable, NewTestsUsable, ScopeIsClean, BaseIsClean, HeadRan, NamesResolve,
      BaseIsKept, CriteriaHold, TestsOk, FilesOk, MappingsOk, StubsOk, GlobsOk, SameElements, FilesOf, MappingOf,
      StubsOf, ListBytes, Mapped, OpeningRule, Early, HeadPresent;
    ValidGeneration(g);
    var r := g.red;
    ProtectedIsNewIff(r);
    var ids, order := Sorted(NewTests(r)), Order(r, Sorted(NewTests(r)));
    OrderIsPermutation(r, NewTests(r));
    R14Recordable(g);
    forall i | 0 <= i < |order| ensures CanRecord(r, order[i]) {
      assert order[i] in Elements(order);
    }
    assert Elements(order) == Elements(ids);
    OrderedAreIds(order, ids);
    BuiltIsChecked(r, ids, order);
    NewTestsAgree(r, order, ids);
    CarriedIsKept(PreviousTests(g), NewTests(r), HeadPresent(r));
    ConcatSame(TestsOf(r, order), TestsOf(r, ids), Kept(PreviousTests(g), NewTests(r), HeadPresent(r)));
  }

  lemma OrderedAreIds(order: seq<string>, ids: seq<string>)
    requires Elements(order) <= Elements(ids)
    ensures forall i :: 0 <= i < |order| ==> order[i] in ids
  {
    forall i | 0 <= i < |order| ensures order[i] in ids {
      assert order[i] in Elements(order);
    }
  }

  lemma NewTestsAgree(r: RedInput, a: seq<string>, b: seq<string>)
    requires Elements(a) == Elements(b) && |a| == |b|
    ensures SameElements(TestsOf(r, a), TestsOf(r, b))
  {
    hide TestsOf;
    SameTests(r, a, b);
    TestsOfElements(r, a);
    TestsOfElements(r, b);
  }

  // -------------------------------------------------------------- the item checks pass

  lemma {:induction false} CarryingIff(tests: seq<ManifestTest>, ac: string)
    ensures forall id :: id in Carrying(tests, ac) <==> exists i ::
      (0 <= i < |tests| && ac in tests[i].acs && tests[i].id == id)
    decreases |tests|
  {
    if tests != [] {
      var front := tests[..|tests| - 1];
      CarryingIff(front, ac);
      assert forall i :: 0 <= i < |front| ==> front[i] == tests[i];
    }
  }

  lemma SameCarrying(a: seq<ManifestTest>, b: seq<ManifestTest>, ac: string)
    requires SameElements(a, b)
    ensures forall id :: id in Carrying(a, ac) ==> id in Carrying(b, ac)
  {
    hide Carrying;
    CarryingIff(a, ac);
    CarryingIff(b, ac);
    forall id | id in Carrying(a, ac) ensures id in Carrying(b, ac) {
      var i :| 0 <= i < |a| && ac in a[i].acs && a[i].id == id;
      assert a[i] in b;
    }
  }

  predicate CriterionOk(l: Limits, c: Criterion, tests: seq<ManifestTest>) {
    Carrying(tests, c.id) != [] ==> MappingOk(l, AcMapping(c.id, c.kind, Carrying(tests, c.id)))
  }

  lemma {:induction false} MappingsOkIff(l: Limits, criteria: seq<Criterion>, tests: seq<ManifestTest>)
    ensures MappingsOk(l, MappingOf(criteria, tests)) <==> forall i :: 0 <= i < |criteria| ==>
      CriterionOk(l, criteria[i], tests)
    decreases |criteria|
  {
    hide MappingOk, Carrying;
    if criteria != [] {
      var front, c := criteria[..|criteria| - 1], criteria[|criteria| - 1];
      MappingsOkIff(l, front, tests);
      var before, all := MappingOf(front, tests), MappingOf(criteria, tests);
      assert forall i :: 0 <= i < |before| ==> before[i] == all[i];
      assert forall i :: 0 <= i < |front| ==> front[i] == criteria[i];
      assert Carrying(tests, c.id) != [] ==> all[|before|] == AcMapping(c.id, c.kind, Carrying(tests, c.id));
    }
  }

  lemma CriterionOkTransfers(l: Limits, c: Criterion, a: seq<ManifestTest>, b: seq<ManifestTest>)
    requires SameElements(a, b) && CriterionOk(l, c, b)
    ensures CriterionOk(l, c, a)
  {
    hide Carrying;
    SameCarrying(a, b, c.id);
    var ids, others := Carrying(a, c.id), Carrying(b, c.id);
    if ids != [] {
      assert ids[0] in others;
      forall i | 0 <= i < |ids| ensures l.testId(ids[i]) {
        assert ids[i] in others;
      }
    }
  }

  /** The checks of tests and mapping do not depend on the order of the tests. */
  lemma ItemChecksTransfer(l: Limits, criteria: seq<Criterion>, a: seq<ManifestTest>, b: seq<ManifestTest>)
    requires SameElements(a, b) && TestsOk(l, b) && MappingsOk(l, MappingOf(criteria, b))
    ensures TestsOk(l, a) && MappingsOk(l, MappingOf(criteria, a))
  {
    hide MappingsOk, MappingOf, CriterionOk, TestOk;
    forall i | 0 <= i < |a| ensures TestOk(l, a[i]) {
      assert a[i] in b;
    }
    MappingsOkIff(l, criteria, a);
    MappingsOkIff(l, criteria, b);
    forall i | 0 <= i < |criteria| ensures CriterionOk(l, criteria[i], a) {
      CriterionOkTransfers(l, criteria[i], a, b);
    }
  }

  lemma {:induction false} MappingSize(criteria: seq<Criterion>, tests: seq<ManifestTest>, i: nat)
    requires i < |criteria| && Carrying(tests, criteria[i].id) != []
    ensures 1 <= |MappingOf(criteria, tests)| <= |criteria|
    decreases |criteria|
  {
    MappingAtMost(criteria, tests);
    if i < |criteria| - 1 {
      MappingSize(criteria[..|criteria| - 1], tests, i);
    }
  }

  lemma {:induction false} MappingAtMost(criteria: seq<Criterion>, tests: seq<ManifestTest>)
    ensures |MappingOf(criteria, tests)| <= |criteria|
    decreases |criteria|
  {
    if criteria != [] {
      MappingAtMost(criteria[..|criteria| - 1], tests);
    }
  }

  lemma {:induction false} AllMapped(r: RedInput, n: nat)
    requires n <= |r.criteria| && NamesResolve(r)
    ensures Mapped(r, n) == n
    decreases n
  {
    hide Discovered, Declared;
    if n > 0 {
      AllMapped(r, n - 1);
    }
  }

  lemma {:induction false} AcsNamingHas(r: RedInput, n: nat, id: string, i: nat)
    requires i < n <= |r.criteria| && NamedBy(Declared(r, r.criteria[i].id), id)
    ensures r.criteria[i].id in AcsNaming(r, n, id)
    decreases n
  {
    hide NamedBy;
    if i < n - 1 {
      AcsNamingHas(r, n - 1, id, i);
    }
  }

  /** Some criterion is carried by a test of the list: a change criterion has a failing new test. */
  lemma SomeCriterionCarried(g: GenInput, tests: seq<ManifestTest>) returns (i: nat)
    requires CriteriaUsable(g.red) && CriteriaHold(g.red) && DeclaredAreNew(g.red) && SameElements(tests, R14Tests(g))
    ensures i < |g.red.criteria| && Carrying(tests, g.red.criteria[i].id) != []
  {
    hide NamedBy, HeadPresent, NewTests, FailsAsReported, Find, KindOf, SuiteOf, Carried, TestsOf, Unique, AcsNaming;
    var r := g.red;
    i :| 0 <= i < |r.criteria| && r.criteria[i].kind == ChangeKind;
    assert HasFailing(r, r.criteria[i].id);
    var id :| id in Resolved(r, r.criteria[i].id) && FailsAsReported(r, id);
    ResolvedIsDeclared(r, i);
    var ids := Sorted(NewTests(r));
    SortedIsDistinct(NewTests(r));
    assert id in ids;
    var k :| 0 <= k < |ids| && ids[k] == id;
    TestsOfElements(r, ids);
    var t := TestOf(r, id);
    assert R14Tests(g)[k] == t;
    AcsNamingHas(r, |r.criteria|, id, i);
    UniqueElements(AcsNaming(r, |r.criteria|, id));
    assert t in tests;
    var j :| 0 <= j < |tests| && tests[j] == t;
    CarryingIff(tests, r.criteria[i].id);
    assert t.id in Carrying(tests, r.criteria[i].id);
  }

  lemma FilesOkIff(l: Limits, files: seq<ManifestFile>)
    requires FilesOk(l, files, false)
    ensures FilesOk(l, files, true) <==> forall i :: 0 <= i < |files| ==> l.objectId(files[i].blob)
  {
    forall i | 0 <= i < |files| ensures FileOk(l, files[i], true) <==> l.objectId(files[i].blob) {
      assert FileOk(l, files[i], false);
    }
  }

  /** The builder works on the generation that was classified. */
  ghost predicate BuildsFor(b: BuildInput, g: GenInput) {
    b.red == g.red && b.verdict == GenVerdictOf(g) && b.previous == g.previous && b.testPaths == g.testPaths
      && b.limits == g.limits
  }

  lemma BuiltItemsFit(g: GenInput, tests: seq<ManifestTest>)
    requires Usable(g.red) && RedIsSound(g.red) && R14(g) == Some([])
    requires SameElements(tests, R14Tests(g))
    ensures g.testPaths.Some? && GlobsOk(g.limits, g.testPaths.value)
    ensures FilesOk(g.limits, FilesOf(g.red.changed, PreviousFiles(g)), false)
    ensures |FilesOf(g.red.changed, PreviousFiles(g))| <= MAX_FILES
    ensures TestsOk(g.limits, tests) && MappingsOk(g.limits, MappingOf(g.red.criteria, tests))
      && StubsOk(g.limits, StubsOf(g.red.stubs))
    ensures 1 <= |tests| <= MAX_TESTS && 1 <= |MappingOf(g.red.criteria, tests)| <= MAX_MAPPING
    ensures |StubsOf(g.red.stubs)| <= MAX_STUBS
  {
    hide CriteriaUsable, CriteriaHold, DeclaredAreNew, SameElements, TestsOk, FilesOk, MappingsOk, StubsOk, GlobsOk,
      MappingOf, FilesOf, R14Tests, ListBytes, NamesResolve, NewAreJudged, Carrying, ScopeIsClean, BaseIsClean,
      HeadRan, BaseIsKept, SetsUsable, TestsUsable, ScopeUsable, RunsUsable, NewTestsUsable, PoliciesUsable;
    ItemChecksTransfer(g.limits, g.red.criteria, tests, R14Tests(g));
    var i := SomeCriterionCarried(g, tests);
    MappingSize(g.red.criteria, tests, i);
    AllMapped(g.red, |g.red.criteria|);
    CarriedMeansTests(tests, g.red.criteria[i].id);
    SameLength(tests, R14Tests(g));
  }

  lemma CarriedMeansTests(tests: seq<ManifestTest>, ac: string)
    requires Carrying(tests, ac) != []
    ensures tests != []
  {
  }

  lemma SameLength(a: seq<ManifestTest>, b: seq<ManifestTest>)
    requires SameElements(a, b)
    ensures |a| == |b|
  {
  }

  /**
    After red_valid no test, mapping, stub or path item can make the builder fail: it succeeds exactly when the
    supersedes reason and the other fields are acceptable, there is at least one file, and every file has a blob id.
   */
  lemma BuildSucceedsIff(g: GenInput, b: BuildInput)
    requires IsValid(GenVerdictOf(g)) && BaseIsConsistent(g.red) && UniqueTests(PreviousTests(g)) && BuildsFor(b, g)
    ensures var files := FilesOf(g.red.changed, PreviousFiles(g));
      BuildOf(b).Some? <==>
        ((b.previous.Some? ==> b.supersedesOk) && b.headerOk && files != []
         && forall i :: 0 <= i < |files| ==> b.limits.objectId(files[i].blob))
  {
    hide GenVerdictOf, ManifestTestsOf, BaseIsConsistent, SameElements, FilesOf, MappingOf, StubsOf, TestsOk,
      MappingsOk, StubsOk, GlobsOk, FilesOk, R14, Usable, RedIsSound, GenUsable, OpeningRule, Early, R14Tests,
      NewTests, UniqueTests;
    ValidGeneration(g);
    ManifestAgreesWithR14(g);
    var built := ManifestTestsOf(g.red, Elements(b.verdict.newTests), PreviousTests(g));
    BuiltItemsFit(g, built.value);
    FilesOkIff(g.limits, FilesOf(g.red.changed, PreviousFiles(g)));
  }

  // -------------------------------------------------------------- strengthened files

  /** Corollary of R12: a valid strengthened generation keeps every previous test and the previous files. */
  lemma StrengthenedKeepsPrevious(g: GenInput)
    requires IsValid(GenVerdictOf(g)) && g.opening == Strengthened
    ensures forall i :: 0 <= i < |PreviousTests(g)| ==>
      PreviousTests(g)[i].id in HeadPresent(g.red) && PreviousTests(g)[i].id in DeclaredResolved(g.red)
    ensures forall i :: 0 <= i < |g.testFiles| && g.testFiles[i].path in PreviousPaths(g) ==>
      KeepsFile(Strict, g.testFiles[i])
    ensures forall k :: 0 <= k < |g.red.changed| && g.red.changed[k].path in PreviousPaths(g) ==>
      g.red.changed[k].change != FileRemoved
        && (g.red.changed[k].change == FileChanged ==> HasContent(g, g.red.changed[k].path))
  {
    hide GenVerdictOf, IsValid, Usable, RedIsSound, GenUsable, Early, R14, KeepsFile, HasContent, DeclaredResolved,
      HeadPresent, PreviousPaths, Unparsed, Find;
    ValidGeneration(g);
  }

  /**
    A valid generation with approved changes keeps every previous test that is not approved and, in every
    previous file it has the contents of, everything but the functions whose every previous test is approved; a
    file without such a function stays as it was.
   */
  lemma ApprovedKeepsTheRest(g: GenInput)
    requires IsValid(GenVerdictOf(g)) && g.opening == TestChangeApproved
    ensures forall i :: 0 <= i < |PreviousTests(g)| && !IsApproved(g, PreviousTests(g)[i]) ==>
      PreviousTests(g)[i].id in HeadPresent(g.red)
    ensures forall i :: 0 <= i < |g.testFiles| && g.testFiles[i].path in PreviousPaths(g) ==>
      KeepsFile(Approving(ApprovedFunctions(g)), g.testFiles[i])
    ensures forall i :: 0 <= i < |PreviousTests(g)| && !IsApproved(g, PreviousTests(g)[i]) ==>
      RefOf(g, PreviousTests(g)[i].id) !in ApprovedFunctions(g)
  {
    hide GenVerdictOf, IsValid, Usable, RedIsSound, GenUsable, Early, R14, KeepsFile, HasContent, HeadPresent,
      PreviousPaths, Unparsed, Find, RefOf, IsApproved, DeclaredResolved, HasFile;
    ValidGeneration(g);
    forall i | 0 <= i < |PreviousTests(g)| && !IsApproved(g, PreviousTests(g)[i])
      ensures RefOf(g, PreviousTests(g)[i].id) !in ApprovedFunctions(g)
    {
      assert StillThere(g, PreviousTests(g)[i].id);
      assert RefOf(g, PreviousTests(g)[i].id) in PreviousFunctions(g, false);
    }
  }

  /** Corollary of R1b: in an existing Go test file only functions with a test of a change criterion change. */
  lemma ExistingTestsAreKept(g: GenInput, i: nat)
    requires IsValid(GenVerdictOf(g)) && i < |g.testFiles| && JudgedEarly(g, g.testFiles[i])
    ensures ShapesParse(g.testFiles[i]) && KeepsTests(g, g.testFiles[i])
    ensures forall id :: id in HeadIds(g) && MappedToChange(g, id) ==> HasFile(g, id)
  {
    hide GenVerdictOf, IsValid, Usable, RedIsSound, GenUsable, R14, OpeningRule, JudgedEarly, ShapesParse,
      KeepsTests, HeadIds, MappedToChange, HasFile, SomeTestFileMissing;
    ValidGeneration(g);
  }
}
