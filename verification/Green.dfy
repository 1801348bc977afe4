/**
  What each rule of the GREEN classification finds in its input, and the verdict they
  give together (src/internal/verify/green_classify.go).

  Digests, policy values and the decoded id sets are part of the input; an unusable one is
  `None`.
 */
module Green {

  import opened Wrappers
  import opened GlobLanguage
  import opened Evidence
  import opened Integrity
  import Ingest

  datatype Outcome = GreenPass | GreenFail | TamperDetected

  datatype Reason =
    | ConfigMismatch | NotDescendant | ManifestChanged | DiscoveryChanged | SkipMarker | EnvDetection | TestDeleted
    | ExistingModified | DependencyChanged | ForeignCommit | BuildFailed | ReportMissing | SuiteTimedOut
    | ProtectedMissing | ProtectedSkipped | ProtectedFailing | DependsOnNewFiles | Nondeterministic | NewSkip
    | ExistingFailing | PreexistingRemoved | CheckFailed | StubNotReplaced | TestsTruncated | RedNotReproducible

  datatype Group = Group(outcome: Outcome, reasons: seq<Reason>)

  datatype ReplayTest = ReplayTest(id: string, status: Status)

  datatype IsolationRun = IsolationRun(removedFiles: int, removedSha: string, tests: seq<ReplayTest>)

  datatype RedReplay = RedReplay(redCommit: string, tests: seq<ReplayTest>)

  datatype Repeats = Repeats(runs: int, inconsistent: seq<string>)

  datatype Check = Check(name: string, exitCode: int, timedOut: bool, required: bool)

  /** The files an isolation run must remove, with the recorded count and digest and the recomputed digest. */
  datatype IsolationFacts = IsolationFacts(files: seq<Text>, count: int, sha: string, recomputedSha: string)

  datatype IntegrityRecord = IntegrityRecord(
    generation: int, redCommit: string, headDescends: bool, manifestDigest: string, facts: Facts,
    protectedMissing: seq<string>, stubsRemaining: seq<string>, foreignCommits: seq<string>)

  datatype GreenInput = GreenInput(
    identityPassed: bool, baseValidationBlob: string, observed: Observation, checks: seq<Check>,
    isolation: Option<IsolationRun>, redReplay: Option<RedReplay>, repeats: Option<Repeats>,
    integrity: IntegrityRecord, manifest: Manifest, recomputedDigest: Option<string>, baseline: Observation,
    derived: IsolationFacts, protectedIds: seq<string>, requiredChecks: seq<string>, approvedRemoved: seq<string>,
    repeatProtected: Option<int>)

  datatype Verdict = Verdict(outcome: Outcome, reasons: seq<Reason>, warnings: seq<Finding>) | NotClassified

  // ------------------------------------------------------------------ usable facts

  predicate HeadRun(g: GreenInput, i: int) {
    0 <= i < |g.observed.runs| && g.observed.runs[i].side == HeadTree
  }

  predicate DocumentUsable(g: GreenInput) {
    && g.observed.phase == GreenPhase && g.observed.subject == Tests
    && g.observed.taskId == g.manifest.taskId && g.observed.repository == g.manifest.repository
    && IsObjectId(g.observed.headSha)
    && g.recomputedDigest == Some(g.manifest.digest)
    && g.integrity.redCommit == g.manifest.testCommit && g.integrity.manifestDigest == g.manifest.digest
    && g.integrity.generation == g.manifest.generation
    && g.baseline.phase == RedPhase && g.baseline.taskId == g.manifest.taskId
    && g.baseline.headSha == g.manifest.testCommit && g.baseline.baseSha == g.manifest.baseCommit
    && g.baseline.repository == g.manifest.repository
    && g.observed.baseSha == g.manifest.baseCommit
  }

  predicate RunsUsable(g: GreenInput) {
    && (forall i :: 0 <= i < |g.observed.runs| ==>
          g.observed.runs[i].side != OtherTree && (HeadRun(g, i) ==> g.observed.runs[i].commit == g.observed.headSha))
    && (exists i :: 0 <= i < |g.observed.runs| && HeadRun(g, i))
  }

  function Failing(c: Counts): int {
    c.failedAssertion + c.failedError + c.stub
  }

  /** How many tests of the suite the report lists as failing. */
  function FailingReports(tests: seq<Test>, suite: string): nat
    decreases |tests|
  {
    if tests == [] then 0
    else
      var t := tests[|tests| - 1];
      FailingReports(tests[..|tests| - 1], suite) + if t.suite == suite && IsFailure(t.head) then 1 else 0
  }

  /** The run counts more failing tests than the report lists. */
  predicate Drops(g: GreenInput, r: Run) {
    Failing(r.counts) > FailingReports(g.observed.tests, r.suite)
  }

  predicate RunUsable(g: GreenInput, r: Run) {
    && (Drops(g, r) ==> g.observed.truncated)
    && (Failing(r.counts) > 0 ==> r.exitCode != 0)
    && (Failing(r.counts) == 0 && r.reportFound && !r.buildFailed && !r.timedOut ==> r.exitCode == 0)
  }

  predicate CountsUsable(g: GreenInput) {
    forall i :: 0 <= i < |g.observed.runs| && HeadRun(g, i) ==> RunUsable(g, g.observed.runs[i])
  }

  predicate TestsUsable(g: GreenInput) {
    UniqueIds(g.observed.tests) && forall i :: 0 <= i < |g.observed.tests| ==> g.observed.tests[i].head != Unknown
  }

  function HeadPresent(g: GreenInput): set<string> {
    IdsOf(SetsOf(g.observed).headPresent)
  }

  function HeadSkipped(g: GreenInput): set<string> {
    IdsOf(SetsOf(g.observed).headSkipped)
  }

  function BasePassing(g: GreenInput): set<string> {
    IdsOf(SetsOf(g.baseline).basePassing)
  }

  predicate SetsUsable(g: GreenInput) {
    && Decoded(SetsOf(g.observed).headPresent).Some? && Decoded(SetsOf(g.observed).headSkipped).Some?
    && Decoded(SetsOf(g.baseline).basePassing).Some? && Decoded(SetsOf(g.baseline).baseSkipped).Some?
    && BasePassing(g) !! IdsOf(SetsOf(g.baseline).baseSkipped)
    && HeadSkipped(g) <= HeadPresent(g)
  }

  function ManifestIds(ts: seq<ManifestTest>): set<string> {
    set i | 0 <= i < |ts| :: ts[i].id
  }

  function Report(g: GreenInput, id: string): Option<Test> {
    Find(g.observed.tests, id)
  }

  predicate Contradicted(g: GreenInput, id: string) {
    Report(g, id).Some? && id !in HeadPresent(g) && Report(g, id).value.head != Absent
  }

  predicate ManifestUsable(g: GreenInput) {
    && (forall i, j :: 0 <= i < j < |g.manifest.tests| ==> g.manifest.tests[i].id != g.manifest.tests[j].id)
    && (forall i :: 0 <= i < |g.manifest.tests| ==> !Contradicted(g, g.manifest.tests[i].id))
    && (forall i :: 0 <= i < |g.protectedIds| ==> !Contradicted(g, g.protectedIds[i]))
  }

  predicate FactsUsable(g: GreenInput) {
    DocumentUsable(g) && RunsUsable(g) && CountsUsable(g) && TestsUsable(g) && SetsUsable(g) && ManifestUsable(g)
  }

  // -------------------------------------------------------------------- the rules

  function Note(outcome: Outcome, reasons: seq<Reason>): seq<Group> {
    if reasons == [] then [] else [Group(outcome, reasons)]
  }

  function If(c: bool, r: Reason): seq<Reason> {
    if c then [r] else []
  }

  function G0(g: GreenInput): seq<Group> {
    Note(GreenFail,
      If(g.observed.validationBlob == "" || g.observed.validationBlob != g.baseValidationBlob, ConfigMismatch))
  }

  function G1(g: GreenInput): seq<Group> {
    Note(TamperDetected, If(!g.integrity.headDescends, NotDescendant))
  }

  // G2: integrity

  predicate ListsFile(files: seq<IntegrityFile>, p: Text) {
    exists i :: 0 <= i < |files| && files[i].path == p
  }

  predicate Expected(m: Manifest, f: IntegrityFile) {
    forall k :: 0 <= k < |m.files| && m.files[k].path == f.path ==> m.files[k].blob == f.expected
  }

  predicate FilesUsable(m: Manifest, files: seq<IntegrityFile>) {
    && (forall i :: 0 <= i < |files| ==>
          files[i].status != UnknownStatus && files[i].path in Ingest.Paths(m.files) && Expected(m, files[i]))
    && (forall i, j :: 0 <= i < j < |files| ==> files[i].path != files[j].path)
    && (forall p :: p in Ingest.Paths(m.files) ==> ListsFile(files, p))
  }

  /** The status a file really has: a recorded "intact" needs the expected blob. */
  predicate ReallyIntact(f: IntegrityFile) {
    f.status == Intact && f.actual == Some(f.expected)
  }

  predicate SomeFileChanged(files: seq<IntegrityFile>) {
    exists i :: 0 <= i < |files| && !ReallyIntact(files[i])
  }

  /** The tamper reason of a finding; None for a code that has none. */
  function ReasonOf(code: FindingCode): Option<Reason> {
    match code
    case Sub(s) =>
      (match s
       case SkipMarkerAdded => Some(SkipMarker)
       case TestEnvDetection => Some(EnvDetection)
       case TestFileDeleted => Some(TestDeleted)
       case ExistingTestModified => Some(ExistingModified)
       case TestDependencyChanged => Some(DependencyChanged)
       case ProtectedPathChanged => Some(DiscoveryChanged)
       case _ => None)
    case TestFileRenamed => Some(TestDeleted)
    case NewDiscoveryFile => Some(DiscoveryChanged)
    case _ => None
  }

  /** A code of the ingestion rules, which no warning may carry. */
  predicate IngestionCode(code: FindingCode) {
    code == ForeignCommitCode
    || (code.Sub? && code.sub != Ingest.NoSubCode && code.sub != Ingest.ProtectedPathChanged)
  }

  predicate FindingUsable(f: Finding) {
    match f.severity
    case WarningSeverity => !IngestionCode(f.code)
    case ViolationSeverity => ReasonOf(f.code).Some?
    case OtherSeverity => false
  }

  predicate IntegrityUsable(facts: Facts, foreign: seq<string>) {
    && (forall i :: 0 <= i < |facts.discovery| ==> facts.discovery[i].kind != OtherChangeKind)
    && (forall i :: 0 <= i < |facts.findings| ==> FindingUsable(facts.findings[i]))
    && (forall i :: 0 <= i < |foreign| ==> IsObjectId(foreign[i]))
  }

  predicate Found(findings: seq<Finding>, r: Reason) {
    exists i :: 0 <= i < |findings| && findings[i].severity == ViolationSeverity
      && ReasonOf(findings[i].code) == Some(r)
  }

  predicate G2Has(g: GreenInput, r: Reason) {
    match r
    case ManifestChanged => SomeFileChanged(g.integrity.facts.files)
    case DiscoveryChanged => g.integrity.facts.discovery != [] || Found(g.integrity.facts.findings, DiscoveryChanged)
    case ForeignCommit => g.integrity.foreignCommits != []
    case _ => Found(g.integrity.facts.findings, r)
  }

  predicate G2Usable(g: GreenInput) {
    && FilesUsable(g.manifest, g.integrity.facts.files)
    && IntegrityUsable(g.integrity.facts, g.integrity.foreignCommits)
  }

  const G2_ORDER: seq<Reason> :=
    [ManifestChanged, DiscoveryChanged, SkipMarker, EnvDetection, TestDeleted, ExistingModified, DependencyChanged,
      ForeignCommit]

  function G2Reasons(g: GreenInput, n: nat): seq<Reason>
    requires n <= |G2_ORDER|
  {
    if n == 0 then [] else G2Reasons(g, n - 1) + If(G2Has(g, G2_ORDER[n - 1]), G2_ORDER[n - 1])
  }

  function G2(g: GreenInput): seq<Group> {
    Note(TamperDetected, G2Reasons(g, |G2_ORDER|))
  }

  function Warnings(findings: seq<Finding>): seq<Finding>
    decreases |findings|
  {
    if findings == [] then []
    else
      var f := findings[|findings| - 1];
      Warnings(findings[..|findings| - 1]) + if f.severity == WarningSeverity then [f] else []
  }

  // G3: the suites

  predicate SomeBuildFailed(g: GreenInput) {
    exists i :: 0 <= i < |g.observed.runs| && HeadRun(g, i) && g.observed.runs[i].buildFailed
  }

  predicate SomeTimedOut(g: GreenInput) {
    exists i :: 0 <= i < |g.observed.runs| && HeadRun(g, i) && g.observed.runs[i].timedOut
  }

  predicate Ran(g: GreenInput, suite: string) {
    exists i :: 0 <= i < |g.observed.runs| && HeadRun(g, i) && g.observed.runs[i].suite == suite
  }

  predicate SomeReportMissing(g: GreenInput) {
    || (exists i | 0 <= i < |g.observed.runs| ::
          HeadRun(g, i) && !g.observed.runs[i].buildFailed && !g.observed.runs[i].reportFound)
    || (exists i :: 0 <= i < |g.manifest.tests| && !Ran(g, SuiteOf(g.manifest.tests[i].id)))
  }

  function G3(g: GreenInput): seq<Group> {
    Note(GreenFail, If(SomeBuildFailed(g), BuildFailed) + If(SomeReportMissing(g), ReportMissing)
      + If(SomeTimedOut(g), SuiteTimedOut))
  }

  // G4: the manifest tests

  predicate Missing(g: GreenInput, id: string) {
    || id in g.integrity.protectedMissing
    || (if Report(g, id).Some? then Report(g, id).value.head == Absent else id !in HeadPresent(g))
  }

  predicate SkippedHere(g: GreenInput, id: string) {
    !Missing(g, id) && Report(g, id).Some? && (Report(g, id).value.head == Skipped || id in HeadSkipped(g))
  }

  predicate FailingHere(g: GreenInput, id: string) {
    !Missing(g, id) && Report(g, id).Some? && !SkippedHere(g, id) && Report(g, id).value.head != Passed
  }

  predicate G4Usable(g: GreenInput) {
    && (forall i :: 0 <= i < |g.integrity.protectedMissing| ==>
          g.integrity.protectedMissing[i] in ManifestIds(g.manifest.tests))
    && (forall i :: 0 <= i < |g.manifest.tests| ==>
          Missing(g, g.manifest.tests[i].id) || Report(g, g.manifest.tests[i].id).Some? || g.observed.truncated)
  }

  predicate SomeMissing(g: GreenInput) {
    exists i :: 0 <= i < |g.manifest.tests| && Missing(g, g.manifest.tests[i].id)
  }

  predicate SomeSkipped(g: GreenInput) {
    exists i :: 0 <= i < |g.manifest.tests| && SkippedHere(g, g.manifest.tests[i].id)
  }

  predicate SomeFailing(g: GreenInput) {
    exists i :: 0 <= i < |g.manifest.tests| && FailingHere(g, g.manifest.tests[i].id)
  }

  function G4(g: GreenInput): seq<Group> {
    Note(TamperDetected, If(SomeMissing(g), ProtectedMissing) + If(SomeSkipped(g), ProtectedSkipped))
    + Note(GreenFail, If(SomeFailing(g), ProtectedFailing))
  }

  // G4b, G4c, G9: the isolation, repeat and replay runs

  function Replayed(tests: seq<ReplayTest>, id: string): Option<Status>
    decreases |tests|
  {
    if tests == [] then None
    else if tests[|tests| - 1].id == id then Some(tests[|tests| - 1].status)
    else Replayed(tests[..|tests| - 1], id)
  }

  predicate ReplayUsable(tests: seq<ReplayTest>) {
    && (forall i :: 0 <= i < |tests| ==> tests[i].status != Unknown)
    && (forall i, j :: 0 <= i < j < |tests| ==> tests[i].id != tests[j].id)
  }

  predicate G4bUsable(g: GreenInput) {
    && g.isolation.Some?
    && |g.derived.files| == g.derived.count && g.derived.recomputedSha == g.derived.sha
    && g.isolation.value.removedFiles == g.derived.count && g.isolation.value.removedSha == g.derived.sha
    && ReplayUsable(g.isolation.value.tests)
  }

  function IsolationTests(g: GreenInput): seq<ReplayTest> {
    if g.isolation.Some? then g.isolation.value.tests else []
  }

  predicate SomeNotIsolated(g: GreenInput) {
    exists i :: 0 <= i < |g.manifest.tests| && Replayed(IsolationTests(g), g.manifest.tests[i].id) != Some(Passed)
  }

  function G4b(g: GreenInput): seq<Group> {
    Note(TamperDetected, If(SomeNotIsolated(g), DependsOnNewFiles))
  }

  predicate G4cUsable(g: GreenInput) {
    && g.repeats.Some? && g.repeatProtected.Some?
    && 1 <= g.repeatProtected.value <= g.repeats.value.runs
  }

  function Inconsistent(g: GreenInput): seq<string> {
    if g.repeats.Some? then g.repeats.value.inconsistent else []
  }

  predicate SomeInconsistent(g: GreenInput) {
    exists i :: 0 <= i < |g.manifest.tests| && g.manifest.tests[i].id in Inconsistent(g)
  }

  function G4c(g: GreenInput): seq<Group> {
    Note(GreenFail, If(SomeInconsistent(g), Nondeterministic))
  }

  predicate G9Usable(g: GreenInput) {
    && g.redReplay.Some?
    && g.redReplay.value.redCommit == g.manifest.testCommit
    && ReplayUsable(g.redReplay.value.tests)
  }

  function ReplayTests(g: GreenInput): seq<ReplayTest> {
    if g.redReplay.Some? then g.redReplay.value.tests else []
  }

  /** The test failed by assertion or as a stub when the red commit was replayed. */
  predicate Reproduced(g: GreenInput, id: string) {
    Replayed(ReplayTests(g), id) in {Some(FailedAssertion), Some(Stub)}
  }

  predicate SomeNotReproduced(g: GreenInput) {
    exists i, j :: 0 <= i < |g.manifest.mapping| && g.manifest.mapping[i].kind == ChangeKind
      && 0 <= j < |g.manifest.mapping[i].tests| && !Reproduced(g, g.manifest.mapping[i].tests[j])
  }

  function G9(g: GreenInput): seq<Group> {
    Note(TamperDetected, If(SomeNotReproduced(g), RedNotReproducible))
  }

  // G5, G5b: the other tests

  predicate SomeDropped(g: GreenInput) {
    exists i :: 0 <= i < |g.observed.runs| && HeadRun(g, i) && Drops(g, g.observed.runs[i])
  }

  predicate SomeOtherFailing(g: GreenInput) {
    exists i :: 0 <= i < |g.observed.tests| && g.observed.tests[i].id !in ManifestIds(g.manifest.tests)
      && (IsFailure(g.observed.tests[i].head) || g.observed.tests[i].head == Absent)
  }

  predicate NotPassing(g: GreenInput, id: string) {
    if Report(g, id).Some? then Report(g, id).value.head != Passed || id in HeadSkipped(g)
    else id !in HeadPresent(g)
  }

  predicate SomeProtectedNotPassing(g: GreenInput) {
    exists i :: 0 <= i < |g.protectedIds| && NotPassing(g, g.protectedIds[i])
  }

  predicate NewlySkipped(g: GreenInput, id: string) {
    (Report(g, id).Some? && Report(g, id).value.head == Skipped) || id in HeadSkipped(g)
  }

  predicate SomeNewlySkipped(g: GreenInput) {
    exists id :: id in BasePassing(g) && NewlySkipped(g, id)
  }

  predicate G5Usable(g: GreenInput) {
    forall i :: 0 <= i < |g.protectedIds| ==>
      Report(g, g.protectedIds[i]).Some? || g.protectedIds[i] !in HeadPresent(g) || g.observed.truncated
  }

  function G5(g: GreenInput): seq<Group> {
    Note(TamperDetected, If(SomeNewlySkipped(g), NewSkip))
    + Note(GreenFail, If(SomeDropped(g) || SomeOtherFailing(g) || SomeProtectedNotPassing(g), ExistingFailing))
  }

  predicate Vanished(g: GreenInput, id: string) {
    (id !in HeadPresent(g) && id !in g.approvedRemoved) || id in HeadSkipped(g)
  }

  predicate SomeVanished(g: GreenInput) {
    exists id :: id in BasePassing(g) && Vanished(g, id)
  }

  function G5b(g: GreenInput): seq<Group> {
    Note(TamperDetected, If(SomeVanished(g), PreexistingRemoved))
  }

  // G6, G7, G8: checks, stubs, truncation

  predicate G6Usable(g: GreenInput) {
    forall i, j :: 0 <= i < j < |g.checks| ==> g.checks[i].name != g.checks[j].name
  }

  predicate CheckRan(g: GreenInput, name: string) {
    exists i :: 0 <= i < |g.checks| && g.checks[i].name == name
  }

  predicate CheckBroken(g: GreenInput, c: Check) {
    (c.required || c.name in g.requiredChecks) && (c.exitCode != 0 || c.timedOut)
  }

  predicate SomeCheckFailed(g: GreenInput) {
    || (exists i :: 0 <= i < |g.checks| && CheckBroken(g, g.checks[i]))
    || (exists i :: 0 <= i < |g.requiredChecks| && !CheckRan(g, g.requiredChecks[i]))
  }

  function G6(g: GreenInput): seq<Group> {
    Note(GreenFail, If(SomeCheckFailed(g), CheckFailed))
  }

  function G7(g: GreenInput): seq<Group> {
    Note(GreenFail, If(g.integrity.stubsRemaining != [], StubNotReplaced))
  }

  predicate SomeUnreported(g: GreenInput) {
    || (exists i :: 0 <= i < |g.manifest.tests| && Report(g, g.manifest.tests[i].id).None?)
    || (exists i :: 0 <= i < |g.protectedIds| && Report(g, g.protectedIds[i]).None?)
  }

  function G8(g: GreenInput): seq<Group> {
    Note(GreenFail, If(g.observed.truncated && SomeUnreported(g), TestsTruncated))
  }

  // ------------------------------------------------------------------- the verdict

  predicate RulesUsable(g: GreenInput) {
    G2Usable(g) && G4Usable(g) && G4bUsable(g) && G4cUsable(g) && G5Usable(g) && G6Usable(g) && G9Usable(g)
  }

  predicate Usable(g: GreenInput) {
    g.identityPassed && FactsUsable(g) && RulesUsable(g)
  }

  function Groups(g: GreenInput): seq<Group> {
    G0(g) + G1(g) + G2(g) + G3(g) + G4(g) + G4b(g) + G4c(g) + G5(g) + G5b(g) + G6(g) + G7(g) + G8(g) + G9(g)
  }

  function AllReasons(groups: seq<Group>): seq<Reason>
    decreases |groups|
  {
    if groups == [] then [] else AllReasons(groups[..|groups| - 1]) + groups[|groups| - 1].reasons
  }

  /** The first failing rule decides the outcome; every failing rule gives its reasons, in rule order. */
  function VerdictOf(g: GreenInput): Verdict {
    if !Usable(g) then NotClassified
    else
      var groups := Groups(g);
      Verdict(if groups == [] then GreenPass else groups[0].outcome, Unique(AllReasons(groups)),
              Warnings(g.integrity.facts.findings))
  }
}
