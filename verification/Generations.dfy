/**
  The generation rules of the RED classification and the item lists of a test manifest
  (src/internal/verify/generations_rules.go, generations_struct.go, manifest.go and
  manifest_limits.go).

  The parsed shape of a Go file, the function a test id belongs to, and the schema limits of
  strings are part of the input.
 */
module Generations {

  import opened Wrappers
  import opened GlobLanguage
  import opened Ordering
  import opened Evidence
  import opened Red
  import GoShape

  /** The bytes of a file and its shape, if they parse as Go. */
  datatype Content = Content(bytes: string, shape: Option<GoShape.Shape>)

  datatype TestFile = TestFile(path: Text, goSuffix: bool, isGo: bool, base: Option<Content>, head: Option<Content>)

  datatype Opening = FirstGeneration | Strengthened | TestChangeApproved | OtherOpening

  datatype Judgment = Clean | Objection | Unusable

  /** A test function: the file and the name of the function. */
  datatype FunctionRef = FunctionRef(file: Text, name: string)

  datatype Repeats = Repeats(runs: int, inconsistent: seq<string>, markerSensitive: seq<string>)

  /** The string limits of the manifest schema. */
  datatype Limits = Limits(
    path: Text -> bool, objectId: string -> bool, testId: string -> bool, suite: string -> bool, ac: string -> bool,
    symbol: string -> bool, marker: string -> bool, language: string -> bool, glob: string -> bool)

  datatype GenInput = GenInput(
    red: RedInput, opening: Opening, approvedAcs: seq<string>, previous: Option<Manifest>, testFiles: seq<TestFile>,
    repeats: Option<Repeats>, repeatNewTests: Option<int>, functionOf: string -> string,
    testPaths: Option<seq<string>>, limits: Limits)

  const MAX_LIST_BYTES := 60 * 1024
  const MAX_TESTS := 1000
  const MAX_FILES := 500
  const MAX_STUBS := 100
  const MAX_MAPPING := 50

  // ------------------------------------------------------------------ usable facts

  predicate Contradicts(f: TestFile, change: FileChange) {
    match change
    case FileChanged => f.base.None? || f.head.None?
    case FileAdded => f.base.Some? || f.head.None?
    case FileRemoved => f.base.None? || f.head.Some?
    case _ => false
  }

  predicate FilesUsable(g: GenInput) {
    && (forall i :: 0 <= i < |g.testFiles| ==> (g.testFiles[i].goSuffix ==> g.testFiles[i].isGo))
    && (forall i, j :: 0 <= i < j < |g.testFiles| ==> g.testFiles[i].path != g.testFiles[j].path)
    && (forall i, k | 0 <= i < |g.testFiles| && 0 <= k < |g.red.changed| ::
          g.testFiles[i].path == g.red.changed[k].path ==> !Contradicts(g.testFiles[i], g.red.changed[k].change))
  }

  predicate GenUsable(g: GenInput) {
    && g.opening != OtherOpening
    && (g.opening == FirstGeneration <==> g.previous.None?)
    && FilesUsable(g)
    && (g.opening == TestChangeApproved ==> g.approvedAcs != [])
    && g.repeatNewTests.Some? && g.repeatNewTests.value >= 1
  }

  // ------------------------------------------------------------------------- R11b

  function R11b(g: GenInput): Option<seq<Group>> {
    if g.repeats.None? || g.repeatNewTests.None? || g.repeats.value.runs < g.repeatNewTests.value then None
    else Some(Note(Inconclusive, If(g.repeats.value.inconsistent != [], NondeterministicTest))
              + Note(RedInvalid, If(g.repeats.value.markerSensitive != [], MarkerConditional)))
  }

  // -------------------------------------------------------------------------- R1b

  predicate HoldsTest(g: GenInput, p: Text) {
    exists i :: 0 <= i < |g.red.observed.tests| && g.red.observed.tests[i].file == p
  }

  /** A modified protected file holds tests and its contents are not given. */
  predicate SomeTestFileMissing(g: GenInput) {
    exists k :: 0 <= k < |g.red.changed| && IsTestSide(g.red.changed[k].cls) && g.red.changed[k].change == FileChanged
      && !HasContent(g, g.red.changed[k].path) && HoldsTest(g, g.red.changed[k].path)
  }

  /** The ids at the head, by the report or by the id set. */
  function HeadIds(g: GenInput): set<string> {
    HeadPresent(g.red)
    + set i | 0 <= i < |g.red.observed.tests| && g.red.observed.tests[i].head != Absent :: g.red.observed.tests[i].id
  }

  /** The id is declared for a change criterion. */
  predicate MappedToChange(g: GenInput, id: string) {
    exists i :: 0 <= i < |g.red.criteria| && g.red.criteria[i].kind == ChangeKind
      && NamedBy(Declared(g.red, g.red.criteria[i].id), id)
  }

  predicate HasFile(g: GenInput, id: string) {
    Report(g.red, id).Some? && Report(g.red, id).value.file != []
  }

  predicate SomeMappedUnlocated(g: GenInput) {
    exists id :: id in HeadIds(g) && MappedToChange(g, id) && !HasFile(g, id)
  }

  function RefOf(g: GenInput, id: string): FunctionRef {
    FunctionRef(if HasFile(g, id) then Report(g.red, id).value.file else [], g.functionOf(id))
  }

  /** The functions that hold a test of a change criterion. */
  function ChangeFunctions(g: GenInput): set<FunctionRef> {
    set id | id in HeadIds(g) && MappedToChange(g, id) :: RefOf(g, id)
  }

  function NamesIn(refs: set<FunctionRef>, p: Text): set<string> {
    set x | x in refs && x.file == p :: x.name
  }

  /** An existing Go file that no later rule judges. */
  predicate JudgedEarly(g: GenInput, f: TestFile) {
    f.isGo && f.base.Some? && f.head.Some? && f.path !in PreviousPaths(g)
  }

  predicate ShapesParse(f: TestFile) {
    f.base.Some? && f.head.Some? && f.base.value.shape.Some? && f.head.value.shape.Some?
  }

  predicate SomeEarlyUnparsed(g: GenInput) {
    exists i :: 0 <= i < |g.testFiles| && JudgedEarly(g, g.testFiles[i]) && !ShapesParse(g.testFiles[i])
  }

  predicate KeepsTests(g: GenInput, f: TestFile)
    requires ShapesParse(f)
  {
    GoShape.Keeps(f.base.value.shape.value, f.head.value.shape.value, NamesIn(ChangeFunctions(g), f.path), true)
  }

  predicate SomeTestWeakened(g: GenInput) {
    exists i :: 0 <= i < |g.testFiles| && JudgedEarly(g, g.testFiles[i]) && ShapesParse(g.testFiles[i])
      && !KeepsTests(g, g.testFiles[i])
  }

  function R1b(g: GenInput): Option<seq<Group>> {
    if SomeTestFileMissing(g) || SomeMappedUnlocated(g) || SomeEarlyUnparsed(g) then None
    else Some(Note(RedInvalid, If(SomeTestWeakened(g), ExistingTestWeakened)))
  }

  // ------------------------------------------------------- R12, R13: previous files

  /** How previous files are judged: nothing may change, or the functions given may. */
  datatype Lenience = Strict | Approving(refs: set<FunctionRef>)

  function AllowedIn(l: Lenience, p: Text): set<string> {
    if l.Strict? then {} else NamesIn(l.refs, p)
  }

  predicate MustBeIdentical(l: Lenience, p: Text) {
    l.Approving? && NamesIn(l.refs, p) == {}
  }

  function PreviousPaths(g: GenInput): set<Text> {
    if g.previous.Some? then set i | 0 <= i < |g.previous.value.files| :: g.previous.value.files[i].path else {}
  }

  predicate HasContent(g: GenInput, p: Text) {
    exists i :: 0 <= i < |g.testFiles| && g.testFiles[i].path == p
  }

  /** A previous manifest file is deleted in the red range. */
  predicate SomePreviousDeleted(g: GenInput) {
    exists k :: 0 <= k < |g.red.changed| && g.red.changed[k].path in PreviousPaths(g)
      && g.red.changed[k].change == FileRemoved
  }

  /** A previous manifest file is modified and its contents are not given. */
  predicate SomeContentMissing(g: GenInput) {
    exists k :: 0 <= k < |g.red.changed| && g.red.changed[k].path in PreviousPaths(g)
      && g.red.changed[k].change == FileChanged
      && !HasContent(g, g.red.changed[k].path)
  }

  /**
    A previous file stays as it was, or is Go and, apart from the allowed functions, only gains whole
    declarations and plain imports.
   */
  predicate KeepsFile(l: Lenience, f: TestFile) {
    f.base.Some? ==>
      f.head.Some?
      && (f.base.value.bytes == f.head.value.bytes
          || (f.isGo && !MustBeIdentical(l, f.path) && ShapesParse(f)
              && GoShape.Keeps(f.base.value.shape.value, f.head.value.shape.value, AllowedIn(l, f.path), false)))
  }

  /** The comparison needs a shape that does not parse. */
  predicate Unparsed(l: Lenience, f: TestFile) {
    && f.base.Some? && f.head.Some? && f.base.value.bytes != f.head.value.bytes && f.isGo && !MustBeIdentical(l, f.path)
    && !ShapesParse(f)
  }

  predicate SomeUnparsed(g: GenInput, l: Lenience) {
    exists i :: 0 <= i < |g.testFiles| && g.testFiles[i].path in PreviousPaths(g) && Unparsed(l, g.testFiles[i])
  }

  predicate SomeFileWeakened(g: GenInput, l: Lenience) {
    exists i :: 0 <= i < |g.testFiles| && g.testFiles[i].path in PreviousPaths(g) && !KeepsFile(l, g.testFiles[i])
  }

  function PreviousTests(g: GenInput): seq<ManifestTest> {
    if g.previous.Some? then g.previous.value.tests else []
  }

  predicate SomeUnlocated(g: GenInput) {
    exists i :: 0 <= i < |PreviousTests(g)|
      && Report(g.red, PreviousTests(g)[i].id).Some? && Report(g.red, PreviousTests(g)[i].id).value.file == []
  }

  predicate SomeNotDeclared(g: GenInput) {
    exists i :: 0 <= i < |PreviousTests(g)| &&
      (PreviousTests(g)[i].id !in HeadPresent(g.red) || PreviousTests(g)[i].id !in DeclaredResolved(g.red))
  }

  function R12(g: GenInput): Option<seq<Group>> {
    if SomeUnlocated(g) || SomeContentMissing(g) || SomeUnparsed(g, Strict) then None
    else Some(Note(RedInvalid,
      If(SomeNotDeclared(g) || SomePreviousDeleted(g) || SomeFileWeakened(g, Strict), ManifestNotSuperset)))
  }

  // -------------------------------------------------------------------------- R13

  predicate IsApproved(g: GenInput, t: ManifestTest) {
    exists i :: 0 <= i < |t.acs| && t.acs[i] in g.approvedAcs
  }

  /** The test is reported or present, so its function must be known. */
  predicate StillThere(g: GenInput, id: string) {
    Report(g.red, id).Some? || id in HeadPresent(g.red)
  }

  predicate SomeThereUnlocated(g: GenInput) {
    exists i :: 0 <= i < |PreviousTests(g)| && StillThere(g, PreviousTests(g)[i].id)
      && !HasFile(g, PreviousTests(g)[i].id)
  }

  /** The functions that hold a previous test that is approved, or one that is not. */
  function PreviousFunctions(g: GenInput, approved: bool): set<FunctionRef> {
    set i | 0 <= i < |PreviousTests(g)| && StillThere(g, PreviousTests(g)[i].id)
      && IsApproved(g, PreviousTests(g)[i]) == approved :: RefOf(g, PreviousTests(g)[i].id)
  }

  /** The functions whose every previous test is approved. */
  function ApprovedFunctions(g: GenInput): set<FunctionRef> {
    PreviousFunctions(g, true) - PreviousFunctions(g, false)
  }

  predicate SomeUnapprovedGone(g: GenInput) {
    exists i :: 0 <= i < |PreviousTests(g)| && !IsApproved(g, PreviousTests(g)[i])
      && PreviousTests(g)[i].id !in HeadPresent(g.red)
  }

  function R13(g: GenInput): Option<seq<Group>> {
    var l := Approving(ApprovedFunctions(g));
    if SomeThereUnlocated(g) || SomeContentMissing(g) || SomeUnparsed(g, l) then None
    else Some(Note(RedInvalid,
      If(SomeUnapprovedGone(g) || SomePreviousDeleted(g) || SomeFileWeakened(g, l), UnapprovedTestChange)))
  }

  // ------------------------------------------------------------------ manifest items

  /** A new test when the base did not report it, a modified one otherwise. */
  function KindOf(r: RedInput, id: string): TestKind {
    if Report(r, id).Some? && Report(r, id).value.base != Absent then ModifiedTest else NewTest
  }

  function AcsNaming(r: RedInput, n: nat, id: string): seq<string>
    requires n <= |r.criteria|
  {
    if n == 0 then []
    else
      var c := r.criteria[n - 1];
      AcsNaming(r, n - 1, id) + if NamedBy(Declared(r, c.id), id) then [c.id] else []
  }

  /** The criteria, in their order, whose declared names stand for the id. */
  function DeclaredAcs(r: RedInput, id: string): seq<string> {
    Unique(AcsNaming(r, |r.criteria|, id))
  }

  /** What the manifest records of a test of this generation. */
  function TestOf(r: RedInput, id: string): ManifestTest {
    var t := Report(r, id);
    ManifestTest(id, if t.Some? && t.value.suite != "" then t.value.suite else SuiteOf(id),
                 KindOf(r, id), DeclaredAcs(r, id),
                 if t.Some? then t.value.head else Unknown)
  }

  function TestsOf(r: RedInput, ids: seq<string>): seq<ManifestTest>
    decreases |ids|
  {
    if ids == [] then [] else TestsOf(r, ids[..|ids| - 1]) + [TestOf(r, ids[|ids| - 1])]
  }

  predicate HasId(tests: seq<ManifestTest>, id: string) {
    exists i :: 0 <= i < |tests| && tests[i].id == id
  }

  /** The previous tests still present at the head that are not among the ids, each id once. */
  function Carried(previous: seq<ManifestTest>, ids: set<string>, present: set<string>): seq<ManifestTest>
    decreases |previous|
  {
    if previous == [] then []
    else
      var before, t := Carried(previous[..|previous| - 1], ids, present), previous[|previous| - 1];
      if t.id !in ids && t.id in present && !HasId(before, t.id) then before + [t] else before
  }

  predicate IsProtectedFile(f: ChangedFile) {
    IsTestSide(f.cls) && (f.change == FileAdded || f.change == FileChanged)
  }

  predicate ListedAsAdded(previous: seq<ManifestFile>, p: Text)
    decreases |previous|
  {
    previous != [] &&
      if previous[|previous| - 1].path == p then previous[|previous| - 1].change == FileAdded
      else ListedAsAdded(previous[..|previous| - 1], p)
  }

  function ScopeFiles(changed: seq<ChangedFile>, previous: seq<ManifestFile>): seq<ManifestFile>
    decreases |changed|
  {
    if changed == [] then []
    else
      var c := changed[|changed| - 1];
      ScopeFiles(changed[..|changed| - 1], previous)
      + if IsProtectedFile(c)
        then [ManifestFile(c.path, c.blob, c.cls, if ListedAsAdded(previous, c.path) then FileAdded else c.change)]
        else []
  }

  predicate HasPath(files: seq<ManifestFile>, p: Text) {
    exists i :: 0 <= i < |files| && files[i].path == p
  }

  function OtherFiles(previous: seq<ManifestFile>, scope: seq<ManifestFile>): seq<ManifestFile>
    decreases |previous|
  {
    if previous == [] then []
    else
      var f := previous[|previous| - 1];
      OtherFiles(previous[..|previous| - 1], scope) + if HasPath(scope, f.path) then [] else [f]
  }

  /** The protected files of the scope, then the previous files it does not touch. */
  function FilesOf(changed: seq<ChangedFile>, previous: seq<ManifestFile>): seq<ManifestFile> {
    ScopeFiles(changed, previous) + OtherFiles(previous, ScopeFiles(changed, previous))
  }

  function Carrying(tests: seq<ManifestTest>, ac: string): seq<string>
    decreases |tests|
  {
    if tests == [] then []
    else
      var t := tests[|tests| - 1];
      Carrying(tests[..|tests| - 1], ac) + if ac in t.acs then [t.id] else []
  }

  /** Every criterion that some test carries, with the tests that carry it. */
  function MappingOf(criteria: seq<Criterion>, tests: seq<ManifestTest>): seq<AcMapping>
    decreases |criteria|
  {
    if criteria == [] then []
    else
      var c := criteria[|criteria| - 1];
      MappingOf(criteria[..|criteria| - 1], tests)
      + if Carrying(tests, c.id) != [] then [AcMapping(c.id, c.kind, Carrying(tests, c.id))] else []
  }

  function StubsOf(stubs: seq<StubFact>): seq<ManifestStub> {
    seq(|stubs|, i requires 0 <= i < |stubs| =>
      ManifestStub(stubs[i].path, stubs[i].symbol, stubs[i].marker, stubs[i].shape, stubs[i].language, stubs[i].acs))
  }

  // --------------------------------------------------------------------- item checks

  predicate FileOk(l: Limits, f: ManifestFile, withGit: bool) {
    && l.path(f.path) && (withGit ==> l.objectId(f.blob))
    && (IsTestSide(f.cls) || f.cls == JudgeClass)
    && (f.change == FileAdded || f.change == FileChanged)
  }

  predicate AcsOk(l: Limits, acs: seq<string>) {
    forall i :: 0 <= i < |acs| ==> l.ac(acs[i])
  }

  predicate Recordable(s: Status) {
    s == FailedAssertion || s == Stub || s == Passed
  }

  predicate TestOk(l: Limits, t: ManifestTest) {
    l.testId(t.id) && l.suite(t.suite) && t.kind != OtherTestKind && AcsOk(l, t.acs) && Recordable(t.redStatus)
  }

  predicate MappingOk(l: Limits, m: AcMapping) {
    && l.ac(m.ac) && m.kind != OtherCriterionKind && |m.tests| >= 1
    && (forall i :: 0 <= i < |m.tests| ==> l.testId(m.tests[i]))
  }

  predicate StubOk(l: Limits, s: ManifestStub) {
    && l.path(s.path) && l.symbol(s.symbol) && l.marker(s.marker) && s.shape != OtherShape
    && (s.language == "" || l.language(s.language)) && |s.acs| >= 1 && AcsOk(l, s.acs)
  }

  predicate FilesOk(l: Limits, files: seq<ManifestFile>, withGit: bool) {
    forall i :: 0 <= i < |files| ==> FileOk(l, files[i], withGit)
  }

  predicate TestsOk(l: Limits, tests: seq<ManifestTest>) {
    forall i :: 0 <= i < |tests| ==> TestOk(l, tests[i])
  }

  predicate MappingsOk(l: Limits, mapping: seq<AcMapping>) {
    forall i :: 0 <= i < |mapping| ==> MappingOk(l, mapping[i])
  }

  predicate StubsOk(l: Limits, stubs: seq<ManifestStub>) {
    forall i :: 0 <= i < |stubs| ==> StubOk(l, stubs[i])
  }

  predicate GlobsOk(l: Limits, globs: seq<string>) {
    forall i :: 0 <= i < |globs| ==> l.glob(globs[i])
  }

  datatype Items = Items(
    files: seq<ManifestFile>, tests: seq<ManifestTest>, mapping: seq<AcMapping>, stubs: seq<ManifestStub>,
      paths: seq<string>)

  predicate ItemsOk(l: Limits, m: Items, withGit: bool) {
    FilesOk(l, m.files, withGit) && TestsOk(l, m.tests) && MappingsOk(l, m.mapping) && StubsOk(l, m.stubs)
      && GlobsOk(l, m.paths)
  }

  // -------------------------------------------------------------------------- R14

  function PreviousFiles(g: GenInput): seq<ManifestFile> {
    if g.previous.Some? then g.previous.value.files else []
  }

  ghost function R14Tests(g: GenInput): seq<ManifestTest> {
    TestsOf(g.red, Sorted(NewTests(g.red))) + Carried(PreviousTests(g), NewTests(g.red), HeadPresent(g.red))
  }

  /** The bytes of the protected-test list: a line per test with its kind and its id. */
  function ListBytes(tests: seq<ManifestTest>): nat
    decreases |tests|
  {
    if tests == [] then 0
    else
      var t := tests[|tests| - 1];
      ListBytes(tests[..|tests| - 1]) + (if t.kind == NewTest then 3 else if t.kind == ModifiedTest then 8 else 0)
        + |t.id| + 2
  }

  function Mapped(r: RedInput, n: nat): nat
    requires n <= |r.criteria|
  {
    if n == 0 then 0 else Mapped(r, n - 1) + if Declared(r, r.criteria[n - 1].id) != [] then 1 else 0
  }

  ghost function R14Items(g: GenInput): Items {
    Items(FilesOf(g.red.changed, PreviousFiles(g)), R14Tests(g), MappingOf(g.red.criteria, R14Tests(g)),
      StubsOf(g.red.stubs),
          if g.testPaths.Some? then g.testPaths.value else [])
  }

  ghost predicate FitsManifest(g: GenInput) {
    && ItemsOk(g.limits, R14Items(g), false)
    && ListBytes(R14Tests(g)) <= MAX_LIST_BYTES
    && |R14Tests(g)| <= MAX_TESTS && |R14Items(g).files| <= MAX_FILES
    && |g.red.stubs| <= MAX_STUBS && Mapped(g.red, |g.red.criteria|) <= MAX_MAPPING
  }

  ghost function R14(g: GenInput): Option<seq<Group>> {
    if g.testPaths.None? then None else Some(Note(RedInvalid, If(!FitsManifest(g), ManifestTooLarge)))
  }

  // -------------------------------------------------------------------- the verdict

  function Both(a: Option<seq<Group>>, b: Option<seq<Group>>): Option<seq<Group>> {
    if a.None? || b.None? then None else Some(a.value + b.value)
  }

  function Early(g: GenInput): Option<seq<Group>> {
    R1b(g)
  }

  function OpeningRule(g: GenInput): Option<seq<Group>> {
    match g.opening
    case Strengthened => R12(g)
    case TestChangeApproved => R13(g)
    case _ => Some([])
  }

  ghost function Late(g: GenInput): Option<seq<Group>> {
    if HeadOk(g.red) then Both(Both(R11b(g), OpeningRule(g)), R14(g)) else OpeningRule(g)
  }

  ghost function GenVerdictOf(g: GenInput): Verdict {
    if !GenUsable(g) then NotClassified else VerdictOf(g.red, Early(g), Late(g))
  }
}
