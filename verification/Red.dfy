/**
  What each rule of the RED classification finds in its input, and the verdict they give
  together (src/internal/verify/red.go).

  The decoded id sets, the policy values and the language of a stub's path are part of the
  input; an unusable one is `None`.
 */
module Red {

  import opened Wrappers
  import opened GlobLanguage
  import opened Ordering
  import opened Evidence
  import Ingest

  datatype Outcome = RedValid | RedInvalid | AlreadySatisfied | PartiallySatisfied | BaselineFailing | Inconclusive

  datatype Reason =
    | ConfigMismatch | ScopeViolation | TesterDeletion | StubMalformed | PanicStubNotAllowed | ExistingTestWeakened
    | BaselineFails | FlakyBaseline | BuildFailed | ReportMissing | SuiteTimedOut | NoNewTests | DeclaredNotDiscovered
    | DeclaredNotNew | NewTestSkipped | AcNotCovered | ErrorClassFailure | PreexistingBroken | PreexistingRemoved
    | PreservationNotPassing | ChangeNotFailing | TestsTruncated | NondeterministicTest | MarkerConditional
    | ManifestNotSuperset | UnapprovedTestChange | ManifestTooLarge

  datatype Group = Group(outcome: Outcome, reasons: seq<Reason>)

  datatype Criterion = Criterion(id: string, kind: CriterionKind)

  datatype ChangedFile = ChangedFile(path: Text, change: FileChange, cls: FileClass, blob: string)

  /** A stub of the red range; `acs` are the criteria its marker names. */
  datatype StubFact = StubFact(
    path: Text, symbol: string, marker: string, shape: Shape, wellFormed: bool, language: string, acs: seq<string>)

  datatype RedInput = RedInput(
    identityPassed: bool, baseValidationBlob: string, observed: Observation, changed: seq<ChangedFile>,
      stubs: seq<StubFact>,
    declared: map<string, seq<string>>, criteria: seq<Criterion>, suiteLanguages: map<string, string>,
    headScope: map<string, seq<string>>, panicLanguages: Option<set<string>>, maxStubs: Option<int>,
    protectedGlobs: Option<seq<Text>>)

  datatype AcOutcome = AcMissing | AcFailing | AcPassing | AcError

  datatype AcResult = AcResult(id: string, kind: CriterionKind, tests: seq<string>, outcome: AcOutcome)

  datatype Verdict =
    | Verdict(outcome: Outcome, reasons: seq<Reason>, acs: seq<AcResult>, newTests: seq<string>)
    | NotClassified

  // ------------------------------------------------------------------ usable facts

  predicate CriteriaUsable(r: RedInput) {
    && (forall i :: 0 <= i < |r.criteria| ==> r.criteria[i].kind != OtherCriterionKind && r.criteria[i].id != "")
    && (forall i, j :: 0 <= i < j < |r.criteria| ==> r.criteria[i].id != r.criteria[j].id)
    && (exists i :: 0 <= i < |r.criteria| && r.criteria[i].kind == ChangeKind)
    && (forall ac :: ac in r.declared ==> IsCriterion(r, ac))
  }

  predicate IsCriterion(r: RedInput, ac: string) {
    exists i :: 0 <= i < |r.criteria| && r.criteria[i].id == ac
  }

  function BasePassing(r: RedInput): set<string> {
    IdsOf(SetsOf(r.observed).basePassing)
  }

  function BaseSkipped(r: RedInput): set<string> {
    IdsOf(SetsOf(r.observed).baseSkipped)
  }

  function HeadPresent(r: RedInput): set<string> {
    IdsOf(SetsOf(r.observed).headPresent)
  }

  predicate SetsUsable(r: RedInput) {
    && Decoded(SetsOf(r.observed).basePassing).Some? && Decoded(SetsOf(r.observed).baseSkipped).Some?
    && Decoded(SetsOf(r.observed).headPresent).Some?
  }

  predicate TestsUsable(r: RedInput) {
    && UniqueIds(r.observed.tests)
    && (forall i :: 0 <= i < |r.observed.tests| ==>
          r.observed.tests[i].head != Unknown && r.observed.tests[i].base != Unknown)
  }

  predicate ScopeUsable(r: RedInput) {
    forall i :: 0 <= i < |r.changed| ==> r.changed[i].change != UnknownChange && r.changed[i].cls != UnknownClass
  }

  predicate PoliciesUsable(r: RedInput) {
    r.panicLanguages.Some? && r.maxStubs.Some? && r.protectedGlobs.Some?
  }

  predicate RunOf(r: RedInput, side: Side, i: int) {
    0 <= i < |r.observed.runs| && r.observed.runs[i].side == side
  }

  predicate RunsUsable(r: RedInput) {
    && (forall i :: 0 <= i < |r.observed.runs| ==> r.observed.runs[i].side != OtherTree)
    && (exists i :: 0 <= i < |r.observed.runs| && RunOf(r, BaseTree, i))
  }

  // ----------------------------------------------------------------- derived facts

  function Report(r: RedInput, id: string): Option<Test> {
    Find(r.observed.tests, id)
  }

  function Declared(r: RedInput, ac: string): seq<string> {
    if ac in r.declared then r.declared[ac] else []
  }

  predicate NamedBy(names: seq<string>, id: string) {
    exists k :: 0 <= k < |names| && Names(names[k], id)
  }

  /** The ids at the head that the declared names of a criterion stand for. */
  function Resolved(r: RedInput, ac: string): set<string> {
    set id | id in HeadPresent(r) && NamedBy(Declared(r, ac), id)
  }

  predicate ResolvedBySome(r: RedInput, id: string) {
    exists i :: 0 <= i < |r.criteria| && id in Resolved(r, r.criteria[i].id)
  }

  function DeclaredResolved(r: RedInput): set<string> {
    set id | id in HeadPresent(r) && ResolvedBySome(r, id)
  }

  predicate Discovered(r: RedInput, name: string) {
    exists id :: id in HeadPresent(r) && Names(name, id)
  }

  predicate SomeNotDiscovered(r: RedInput) {
    exists i, k :: 0 <= i < |r.criteria| && 0 <= k < |Declared(r, r.criteria[i].id)|
      && !Discovered(r, Declared(r, r.criteria[i].id)[k])
  }

  predicate BaseSeen(r: RedInput, id: string) {
    id in BasePassing(r) || id in BaseSkipped(r) || (Report(r, id).Some? && Report(r, id).value.base != Absent)
  }

  predicate ChangedPath(r: RedInput, p: Text) {
    exists i :: 0 <= i < |r.changed| && r.changed[i].path == p
  }

  predicate InChangedFile(r: RedInput, id: string) {
    Report(r, id).Some? && Report(r, id).value.file != [] && ChangedPath(r, Report(r, id).value.file)
  }

  /** N: present at the head and not seen at the base. */
  function Fresh(r: RedInput): set<string> {
    set id | id in HeadPresent(r) && !BaseSeen(r, id)
  }

  /** M: declared, passing at the base, and in a file the red range changes. */
  function Modified(r: RedInput): set<string> {
    set id | id in DeclaredResolved(r) && id in BasePassing(r) && InChangedFile(r, id)
  }

  function NewTests(r: RedInput): set<string> {
    Fresh(r) + Modified(r)
  }

  /** A complete document reports every new test. */
  predicate NewTestsUsable(r: RedInput) {
    r.observed.truncated || forall id :: id in NewTests(r) ==> Report(r, id).Some?
  }

  predicate Usable(r: RedInput) {
    && r.identityPassed && CriteriaUsable(r) && SetsUsable(r) && TestsUsable(r) && ScopeUsable(r) && PoliciesUsable(r)
    && RunsUsable(r) && NewTestsUsable(r)
  }

  /** The status at the head; an unreported test that passed at the base and is present counts as passed. */
  function HeadStatus(r: RedInput, id: string): Status {
    if Report(r, id).Some? then Report(r, id).value.head
    else if id !in HeadPresent(r) then Absent
    else if id in BasePassing(r) then Passed
    else Unknown
  }

  function LanguageOf(r: RedInput, id: string): string {
    if SuiteOf(id) in r.suiteLanguages then r.suiteLanguages[SuiteOf(id)] else ""
  }

  predicate PanicAllowed(r: RedInput, language: string) {
    r.panicLanguages.Some? && language in r.panicLanguages.value
  }

  /** The test fails in a way that is RED evidence. */
  predicate Fails(r: RedInput, id: string) {
    HeadStatus(r, id) == FailedAssertion || (HeadStatus(r, id) == Stub && PanicAllowed(r, LanguageOf(r, id)))
  }

  predicate Errs(r: RedInput, id: string) {
    HeadStatus(r, id) == FailedError || (HeadStatus(r, id) == Stub && !Fails(r, id))
  }

  predicate SomeFails(r: RedInput, ids: set<string>) {
    exists id :: id in ids && Fails(r, id)
  }

  predicate SomePasses(r: RedInput, ids: set<string>) {
    exists id :: id in ids && HeadStatus(r, id) == Passed
  }

  predicate SomeErrs(r: RedInput, ids: set<string>) {
    exists id :: id in ids && Errs(r, id)
  }

  function AcOutcomeOf(kind: CriterionKind, failing: bool, passed: bool, errored: bool): AcOutcome {
    if kind == ChangeKind && failing then AcFailing
    else if kind == PreservationKind && passed then AcPassing
    else if kind == PreservationKind && failing then AcFailing
    else if errored then AcError
    else if passed then AcPassing
    else AcMissing
  }

  function OutcomeOf(r: RedInput, c: Criterion): AcOutcome {
    var ids := Resolved(r, c.id);
    AcOutcomeOf(c.kind, SomeFails(r, ids), SomePasses(r, ids), SomeErrs(r, ids))
  }

  ghost function AcResultOf(r: RedInput, c: Criterion): AcResult {
    AcResult(c.id, c.kind, Sorted(Resolved(r, c.id)), OutcomeOf(r, c))
  }

  ghost function AcResults(r: RedInput): seq<AcResult> {
    seq(|r.criteria|, i requires 0 <= i < |r.criteria| => AcResultOf(r, r.criteria[i]))
  }

  predicate Satisfied(r: RedInput, i: int)
    requires 0 <= i < |r.criteria|
  {
    r.criteria[i].kind == ChangeKind && OutcomeOf(r, r.criteria[i]) == AcFailing
  }

  predicate Unsatisfied(r: RedInput, i: int)
    requires 0 <= i < |r.criteria|
  {
    r.criteria[i].kind == ChangeKind && OutcomeOf(r, r.criteria[i]) != AcFailing
  }

  predicate SomeSatisfied(r: RedInput) {
    exists i :: 0 <= i < |r.criteria| && Satisfied(r, i)
  }

  predicate SomeUnsatisfied(r: RedInput) {
    exists i :: 0 <= i < |r.criteria| && Unsatisfied(r, i)
  }

  // -------------------------------------------------------------------- the rules

  function Note(outcome: Outcome, reasons: seq<Reason>): seq<Group> {
    if reasons == [] then [] else [Group(outcome, reasons)]
  }

  function If(c: bool, reason: Reason): seq<Reason> {
    if c then [reason] else []
  }

  function R0(r: RedInput): seq<Group> {
    Note(RedInvalid,
      If(r.observed.validationBlob == "" || r.observed.validationBlob != r.baseValidationBlob, ConfigMismatch))
  }

  // R1: scope, deletions, stubs

  predicate IsTestSide(c: FileClass) {
    c == TestClass || c == FixtureClass || c == TestInfraClass
  }

  ghost predicate OutOfScope(r: RedInput, f: ChangedFile) {
    || f.cls == OtherClass || (f.change == FileRemoved && !IsTestSide(f.cls))
    || (r.protectedGlobs.Some? && Ingest.MatchesAny(r.protectedGlobs.value, f.path))
  }

  ghost predicate SomeOutOfScope(r: RedInput) {
    exists i :: 0 <= i < |r.changed| && OutOfScope(r, r.changed[i])
  }

  predicate SomeDeletion(r: RedInput) {
    exists i :: 0 <= i < |r.changed| && (r.changed[i].change == FileRemoved || r.changed[i].change == FileMoved)
  }

  predicate IsStubFile(r: RedInput, p: Text) {
    exists i :: 0 <= i < |r.changed| && r.changed[i].cls == StubClass && r.changed[i].path == p
  }

  predicate HasStub(r: RedInput, p: Text) {
    exists i :: 0 <= i < |r.stubs| && r.stubs[i].path == p
  }

  predicate BadStub(r: RedInput, s: StubFact) {
    !IsStubFile(r, s.path) || !s.wellFormed || s.shape == OtherShape
  }

  predicate SomeMalformed(r: RedInput) {
    || (r.maxStubs.Some? && |r.stubs| > r.maxStubs.value)
    || (exists i :: 0 <= i < |r.stubs| && BadStub(r, r.stubs[i]))
    || (exists i :: 0 <= i < |r.changed| && r.changed[i].cls == StubClass && !HasStub(r, r.changed[i].path))
  }

  predicate SomePanicStub(r: RedInput) {
    exists i :: 0 <= i < |r.stubs| && r.stubs[i].shape == Panic && !PanicAllowed(r, r.stubs[i].language)
  }

  ghost function R1(r: RedInput): seq<Group> {
    Note(RedInvalid, If(SomeOutOfScope(r), ScopeViolation) + If(SomeDeletion(r), TesterDeletion)
      + If(SomeMalformed(r), StubMalformed) + If(SomePanicStub(r), PanicStubNotAllowed))
  }

  // R2, R3: the runs

  predicate SuiteRan(r: RedInput, side: Side, suite: string) {
    exists i :: 0 <= i < |r.observed.runs| && RunOf(r, side, i) && r.observed.runs[i].suite == suite
  }

  predicate SomeSuiteMissing(r: RedInput, side: Side) {
    exists s :: s in r.suiteLanguages && !SuiteRan(r, side, s)
  }

  predicate BrokenRun(run: Run) {
    run.buildFailed || !run.reportFound || run.timedOut
  }

  /** A failure at the base that passes at the head although its file did not change. */
  predicate Flaky(r: RedInput, t: Test) {
    IsFailure(t.base) && t.head == Passed && t.file != [] && !ChangedPath(r, t.file)
  }

  predicate SomeFlaky(r: RedInput) {
    exists i :: 0 <= i < |r.observed.tests| && Flaky(r, r.observed.tests[i])
  }

  predicate BaseBroken(r: RedInput) {
    || (exists i :: 0 <= i < |r.observed.runs| && RunOf(r, BaseTree, i) && BrokenRun(r.observed.runs[i]))
    || SomeSuiteMissing(r, BaseTree)
    || (exists i ::
          (0 <= i < |r.observed.tests| && IsFailure(r.observed.tests[i].base) && !Flaky(r, r.observed.tests[i])))
  }

  function R2(r: RedInput): seq<Group> {
    Note(BaselineFailing, If(BaseBroken(r), BaselineFails))
    + Note(if BaseBroken(r) then BaselineFailing else Inconclusive, If(SomeFlaky(r), FlakyBaseline))
  }

  predicate SomeHeadBuildFailed(r: RedInput) {
    exists i :: 0 <= i < |r.observed.runs| && RunOf(r, HeadTree, i) && r.observed.runs[i].buildFailed
  }

  predicate SomeHeadReportMissing(r: RedInput) {
    || (exists i :: 0 <= i < |r.observed.runs| && RunOf(r, HeadTree, i) && !r.observed.runs[i].reportFound)
    || SomeSuiteMissing(r, HeadTree)
    || !(exists i :: 0 <= i < |r.observed.runs| && RunOf(r, HeadTree, i))
  }

  predicate SomeHeadTimedOut(r: RedInput) {
    exists i :: 0 <= i < |r.observed.runs| && RunOf(r, HeadTree, i) && r.observed.runs[i].timedOut
  }

  function R3Reasons(r: RedInput): seq<Reason> {
    If(SomeHeadBuildFailed(r), BuildFailed) + If(SomeHeadReportMissing(r), ReportMissing)
      + If(SomeHeadTimedOut(r), SuiteTimedOut)
  }

  predicate HeadOk(r: RedInput) {
    R3Reasons(r) == []
  }

  // R4 to R7: the new and declared tests

  predicate SomeDeclaredNotNew(r: RedInput) {
    exists id :: id in DeclaredResolved(r) && id !in NewTests(r)
  }

  predicate SomeNewSkipped(r: RedInput) {
    exists id :: id in DeclaredResolved(r) && id in NewTests(r) && HeadStatus(r, id) == Skipped
  }

  function R5(r: RedInput): seq<Group> {
    Note(RedInvalid, If(SomeNotDiscovered(r), DeclaredNotDiscovered) + If(SomeDeclaredNotNew(r), DeclaredNotNew)
      + If(SomeNewSkipped(r), NewTestSkipped))
  }

  predicate SomeNotCovered(r: RedInput) {
    exists i :: 0 <= i < |r.criteria| && Declared(r, r.criteria[i].id) == []
  }

  predicate SomeNewError(r: RedInput) {
    exists id :: id in NewTests(r) && HeadStatus(r, id) == FailedError
  }

  predicate SomeNewPanic(r: RedInput) {
    exists id :: id in NewTests(r) && HeadStatus(r, id) == Stub && !PanicAllowed(r, LanguageOf(r, id))
  }

  function R7(r: RedInput): seq<Group> {
    Note(RedInvalid, If(SomeNewError(r), ErrorClassFailure) + If(SomeNewPanic(r), PanicStubNotAllowed))
  }

  // R8: the tests that passed at the base

  predicate StartsWith(s: string, p: string) {
    |p| <= |s| && s[..|p|] == p
  }

  /** The name behind the package and a dot is the name of a Go test function. */
  predicate IsGoTest(name: string) {
    StartsWith(name, "Test") || StartsWith(name, "Example") || StartsWith(name, "Fuzz") || StartsWith(name, "Benchmark")
  }

  function BehindSuite(id: string): string {
    var i := SeparatorAt(id, 0);
    if StartsSeparator(id, i) then id[i + 2..] else id
  }

  predicate InPackage(id: string, pkg: string) {
    StartsWith(BehindSuite(id), pkg + ".") && IsGoTest(BehindSuite(id)[|pkg| + 1..])
  }

  /** What the head run executed: everything, or the tests of the listed Go packages. */
  predicate InHeadScope(r: RedInput, id: string) {
    var suite := SuiteOf(id);
    var pkgs := if suite in r.headScope then r.headScope[suite] else [];
    pkgs == [] || LanguageOf(r, id) != "go" || exists k :: 0 <= k < |pkgs| && InPackage(id, pkgs[k])
  }

  predicate Judged(r: RedInput, id: string) {
    id in BasePassing(r) && id !in Modified(r) && InHeadScope(r, id)
  }

  predicate Removed(r: RedInput, id: string) {
    Judged(r, id) && (id !in HeadPresent(r) || HeadStatus(r, id) == Absent)
  }

  predicate Broken(r: RedInput, id: string) {
    Judged(r, id) && !Removed(r, id) && HeadStatus(r, id) != Passed && HeadStatus(r, id) != Unknown
  }

  predicate SomeRemoved(r: RedInput) {
    exists id :: id in BasePassing(r) && Removed(r, id)
  }

  predicate SomeBroken(r: RedInput) {
    exists id :: id in BasePassing(r) && Broken(r, id)
  }

  function R8(r: RedInput): seq<Group> {
    Note(RedInvalid, If(SomeBroken(r), PreexistingBroken) + If(SomeRemoved(r), PreexistingRemoved))
  }

  // R9, R11

  predicate SomeNotPreserved(r: RedInput) {
    exists i :: 0 <= i < |r.criteria| && r.criteria[i].kind == PreservationKind
      && OutcomeOf(r, r.criteria[i]) != AcPassing
  }

  predicate HiddenDeclared(r: RedInput) {
    exists id :: id in DeclaredResolved(r) && Report(r, id).None?
  }

  predicate HiddenNew(r: RedInput) {
    exists id :: id in NewTests(r) && Report(r, id).None?
  }

  /** The rules that need a head run, up to R9. */
  function HeadGroups(r: RedInput): seq<Group> {
    Note(RedInvalid, If(NewTests(r) == {}, NoNewTests)) + R5(r) + Note(RedInvalid, If(SomeNotCovered(r), AcNotCovered))
    + R7(r) + R8(r) + Note(RedInvalid, If(SomeNotPreserved(r), PreservationNotPassing))
  }

  function R11(r: RedInput): seq<Group> {
    Note(Inconclusive, If(r.observed.truncated && (HiddenNew(r) || HiddenDeclared(r)), TestsTruncated))
  }

  // ------------------------------------------------------------------- the verdict

  /** The groups before R10's place, with the early generation rules at theirs. */
  ghost function BeforeR10(r: RedInput, early: seq<Group>): seq<Group> {
    R0(r) + R1(r) + early + R2(r) + Note(RedInvalid, R3Reasons(r)) + (if HeadOk(r) then HeadGroups(r) else [])
  }

  function AfterR10(r: RedInput, late: seq<Group>): seq<Group> {
    (if HeadOk(r) then R11(r) else []) + late
  }

  function AllReasons(groups: seq<Group>): seq<Reason>
    decreases |groups|
  {
    if groups == [] then [] else AllReasons(groups[..|groups| - 1]) + groups[|groups| - 1].reasons
  }

  /** R10's reason is listed at its place unless truncation hides a declared test. */
  predicate ListsR10(r: RedInput) {
    HeadOk(r) && SomeUnsatisfied(r) && !(r.observed.truncated && HiddenDeclared(r))
  }

  /**
    The first failing rule decides the outcome; R10 (the change criteria) decides only when no other rule fails.
    `None` is a generation rule that could not be judged.
   */
  ghost function VerdictOf(r: RedInput, early: Option<seq<Group>>, late: Option<seq<Group>>): Verdict {
    if !Usable(r) || early.None? || late.None? then NotClassified
    else
      var before, after := BeforeR10(r, early.value), AfterR10(r, late.value);
      var groups := before + after;
      var acs, new_ := AcResults(r), Sorted(NewTests(r));
      if groups != [] then
        Verdict(groups[0].outcome, Unique(AllReasons(before) + If(ListsR10(r), ChangeNotFailing) + AllReasons(after)),
          acs, new_)
      else if !SomeUnsatisfied(r) then Verdict(RedValid, [], acs, new_)
      else Verdict(if SomeSatisfied(r) then PartiallySatisfied else AlreadySatisfied, [ChangeNotFailing], acs, new_)
  }
}
