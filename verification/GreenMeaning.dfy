/**
  What a passing GREEN verdict guarantees once all rules are combined
  (src/internal/verify/green_classify.go).
 */
module GreenMeaning {

  import opened Wrappers
  import opened Trees
  import opened Evidence
  import opened Integrity
  import opened Green
  import Ingest

  predicate Passes(v: Verdict) {
    v.Verdict? && v.outcome == GreenPass
  }

  // ----------------------------------------------------------- a flawless input

  predicate PassedAtHead(g: GreenInput, id: string) {
    Report(g, id).Some? && Report(g, id).value.head == Passed && id in HeadPresent(g) && id !in HeadSkipped(g)
  }

  /** Nothing between the red commit and the head touched what the manifest protects. */
  predicate Untouched(g: GreenInput) {
    && g.integrity.headDescends
    && (forall i :: 0 <= i < |g.integrity.facts.files| ==> ReallyIntact(g.integrity.facts.files[i]))
    && g.integrity.facts.discovery == []
    && (forall i :: 0 <= i < |g.integrity.facts.findings| ==> g.integrity.facts.findings[i].severity == WarningSeverity)
    && g.integrity.foreignCommits == []
  }

  predicate SuitesRan(g: GreenInput) {
    && (forall i :: 0 <= i < |g.observed.runs| && HeadRun(g, i) ==>
          !g.observed.runs[i].buildFailed && g.observed.runs[i].reportFound && !g.observed.runs[i].timedOut)
    && (forall i :: 0 <= i < |g.manifest.tests| ==> Ran(g, SuiteOf(g.manifest.tests[i].id)))
  }

  predicate ProtectedTestsPass(g: GreenInput) {
    && (forall i :: 0 <= i < |g.manifest.tests| ==>
          PassedAtHead(g, g.manifest.tests[i].id) && g.manifest.tests[i].id !in g.integrity.protectedMissing)
    && (forall i :: 0 <= i < |g.protectedIds| ==> PassedAtHead(g, g.protectedIds[i]))
  }

  /** The manifest tests pass without the new test files and in every repetition. */
  predicate ManifestTestsAreSound(g: GreenInput) {
    forall i :: 0 <= i < |g.manifest.tests| ==>
      Replayed(IsolationTests(g), g.manifest.tests[i].id) == Some(Passed)
      && g.manifest.tests[i].id !in Inconsistent(g)
  }

  /** Every test of a change criterion failed when the red commit was replayed. */
  predicate RedIsReproduced(g: GreenInput) {
    forall i, j :: 0 <= i < |g.manifest.mapping| && 0 <= j < |g.manifest.mapping[i].tests| ==>
      g.manifest.mapping[i].kind == ChangeKind ==> Reproduced(g, g.manifest.mapping[i].tests[j])
  }

  /** No run counts a failure the report does not list, and every other reported test passes or is skipped. */
  predicate OtherTestsPass(g: GreenInput) {
    && (forall i :: 0 <= i < |g.observed.runs| && HeadRun(g, i) ==> !Drops(g, g.observed.runs[i]))
    && (forall i :: 0 <= i < |g.observed.tests| && g.observed.tests[i].id !in ManifestIds(g.manifest.tests) ==>
          g.observed.tests[i].head == Passed || g.observed.tests[i].head == Skipped)
  }

  /** What passed at the base is still there and still runs, unless its removal was approved. */
  predicate BaselineKept(g: GreenInput) {
    forall id :: id in BasePassing(g) ==>
      (id in HeadPresent(g) || id in g.approvedRemoved) && id !in HeadSkipped(g)
      && (Report(g, id).Some? ==> Report(g, id).value.head != Skipped)
  }

  predicate ChecksPass(g: GreenInput) {
    && (forall i :: 0 <= i < |g.checks| && (g.checks[i].required || g.checks[i].name in g.requiredChecks) ==>
          g.checks[i].exitCode == 0 && !g.checks[i].timedOut)
    && (forall i :: 0 <= i < |g.requiredChecks| ==> CheckRan(g, g.requiredChecks[i]))
  }

  predicate Flawless(g: GreenInput) {
    && g.observed.validationBlob == g.baseValidationBlob != ""
    && Untouched(g) && SuitesRan(g) && ProtectedTestsPass(g) && ManifestTestsAreSound(g) && RedIsReproduced(g)
    && OtherTestsPass(g) && BaselineKept(g) && ChecksPass(g)
    && g.integrity.stubsRemaining == []
  }

  // -------------------------------------------------------------- rule by rule

  lemma IntegrityRules(g: GreenInput)
    requires G2Usable(g)
    ensures G1(g) + G2(g) == [] <==> Untouched(g)
  {
    assert G2Reasons(g, 8) == [] <==>
      !(G2Has(g, ManifestChanged) || G2Has(g, DiscoveryChanged) || G2Has(g, ForeignCommit)
        || G2Has(g, SkipMarker) || G2Has(g, EnvDetection) || G2Has(g, TestDeleted)
        || G2Has(g, ExistingModified) || G2Has(g, DependencyChanged)) by
    {
      G2Unfolds(g);
    }
    var findings := g.integrity.facts.findings;
    forall i | 0 <= i < |findings| ensures findings[i].severity == WarningSeverity
      || (ReasonOf(findings[i].code).Some? && Found(findings, ReasonOf(findings[i].code).value)) {
      assert FindingUsable(findings[i]);
    }
    FoundReasons(findings);
  }

  lemma G2Unfolds(g: GreenInput)
    ensures G2Reasons(g, 8) ==
      If(G2Has(g, ManifestChanged), ManifestChanged) + If(G2Has(g, DiscoveryChanged), DiscoveryChanged)
      + If(G2Has(g, SkipMarker), SkipMarker) + If(G2Has(g, EnvDetection), EnvDetection)
      + If(G2Has(g, TestDeleted), TestDeleted) + If(G2Has(g, ExistingModified), ExistingModified)
      + If(G2Has(g, DependencyChanged), DependencyChanged) + If(G2Has(g, ForeignCommit), ForeignCommit)
  {
    hide G2Has, If;
    assert G2Reasons(g, 0) == [];
    assert G2Reasons(g, 1) == If(G2Has(g, ManifestChanged), ManifestChanged);
    assert G2Reasons(g, 2) == G2Reasons(g, 1) + If(G2Has(g, DiscoveryChanged), DiscoveryChanged);
    assert G2Reasons(g, 3) == G2Reasons(g, 2) + If(G2Has(g, SkipMarker), SkipMarker);
    assert G2Reasons(g, 4) == G2Reasons(g, 3) + If(G2Has(g, EnvDetection), EnvDetection);
    assert G2Reasons(g, 5) == G2Reasons(g, 4) + If(G2Has(g, TestDeleted), TestDeleted);
    assert G2Reasons(g, 6) == G2Reasons(g, 5) + If(G2Has(g, ExistingModified), ExistingModified);
    assert G2Reasons(g, 7) == G2Reasons(g, 6) + If(G2Has(g, DependencyChanged), DependencyChanged);
    assert G2Reasons(g, 8) == G2Reasons(g, 7) + If(G2Has(g, ForeignCommit), ForeignCommit);
  }

  lemma FoundReasons(findings: seq<Finding>)
    ensures forall r :: Found(findings, r) ==>
      r in {DiscoveryChanged, SkipMarker, EnvDetection, TestDeleted, ExistingModified, DependencyChanged}
  {
  }

  lemma SuiteRules(g: GreenInput)
    ensures G3(g) == [] <==> SuitesRan(g)
  {
    hide SuiteOf, Ran;
  }

  lemma ProtectedRules(g: GreenInput)
    requires FactsUsable(g) && G4Usable(g) && G5Usable(g)
    ensures G4(g) == [] && G8(g) == [] && !SomeProtectedNotPassing(g) <==> ProtectedTestsPass(g)
  {
    hide DocumentUsable, CountsUsable, RunsUsable, HeadPresent, HeadSkipped, TestsUsable, Find;
    ManifestRules(g);
    ProtectedIdRules(g);
  }

  lemma ManifestRules(g: GreenInput)
    requires ManifestUsable(g) && SetsUsable(g) && G4Usable(g)
    ensures G4(g) == [] <==> !SomeMissing(g) && !SomeSkipped(g) && !SomeFailing(g)
    ensures (!SomeMissing(g) && !SomeSkipped(g) && !SomeFailing(g)
             && !(g.observed.truncated
                  && exists i :: 0 <= i < |g.manifest.tests| && Report(g, g.manifest.tests[i].id).None?))
      <==> forall i :: 0 <= i < |g.manifest.tests| ==>
        PassedAtHead(g, g.manifest.tests[i].id) && g.manifest.tests[i].id !in g.integrity.protectedMissing
  {
    hide HeadPresent, HeadSkipped, Find, SetsUsable;
    forall i | 0 <= i < |g.manifest.tests|
      ensures (PassedAtHead(g, g.manifest.tests[i].id) && g.manifest.tests[i].id !in g.integrity.protectedMissing) <==>
        !Missing(g, g.manifest.tests[i].id) && !SkippedHere(g, g.manifest.tests[i].id)
          && !FailingHere(g, g.manifest.tests[i].id)
        && !(g.observed.truncated && Report(g, g.manifest.tests[i].id).None?)
    {
      assert !Contradicted(g, g.manifest.tests[i].id);
    }
  }

  lemma ProtectedIdRules(g: GreenInput)
    requires ManifestUsable(g) && G5Usable(g)
    ensures (!SomeProtectedNotPassing(g)
             && !(g.observed.truncated && exists i :: 0 <= i < |g.protectedIds| && Report(g, g.protectedIds[i]).None?))
      <==> forall i :: 0 <= i < |g.protectedIds| ==> PassedAtHead(g, g.protectedIds[i])
  {
    hide HeadPresent, HeadSkipped, Find;
    forall i | 0 <= i < |g.protectedIds|
      ensures PassedAtHead(g, g.protectedIds[i]) <==>
        !NotPassing(g, g.protectedIds[i]) && !(g.observed.truncated && Report(g, g.protectedIds[i]).None?)
    {
      assert !Contradicted(g, g.protectedIds[i]);
    }
  }

  lemma ReplayRules(g: GreenInput)
    ensures G4b(g) == [] && G4c(g) == [] <==> ManifestTestsAreSound(g)
    ensures G9(g) == [] <==> RedIsReproduced(g)
  {
    hide Replayed;
  }

  lemma OtherRules(g: GreenInput)
    requires TestsUsable(g)
    ensures !SomeDropped(g) && !SomeOtherFailing(g) <==> OtherTestsPass(g)
    ensures !SomeNewlySkipped(g) && !SomeVanished(g) <==> BaselineKept(g)
  {
    hide Drops, HeadPresent, HeadSkipped, BasePassing, Find;
    OtherFailing(g);
    forall id ensures (NewlySkipped(g, id) || Vanished(g, id)) <==>
      !((id in HeadPresent(g) || id in g.approvedRemoved) && id !in HeadSkipped(g)
        && (Report(g, id).Some? ==> Report(g, id).value.head != Skipped)) {
    }
  }

  lemma OtherFailing(g: GreenInput)
    requires TestsUsable(g)
    ensures !SomeOtherFailing(g) <==>
      forall i :: 0 <= i < |g.observed.tests| && g.observed.tests[i].id !in ManifestIds(g.manifest.tests) ==>
        g.observed.tests[i].head == Passed || g.observed.tests[i].head == Skipped
  {
    hide ManifestIds;
  }

  lemma CheckRules(g: GreenInput)
    ensures G6(g) == [] <==> ChecksPass(g)
  {
    hide CheckRan;
  }

  // --------------------------------------------------------------- the theorems

  lemma NoGroups(g: GreenInput)
    ensures Groups(g) == [] <==>
      (G0(g) == [] && G1(g) + G2(g) == [] && G3(g) == [] && G4(g) == [] && G4b(g) == [] && G4c(g) == [] && G5(g) == []
       && G5b(g) == [] && G6(g) == [] && G7(g) == [] && G8(g) == [] && G9(g) == [])
  {
    hide G0, G1, G2, G3, G4, G4b, G4c, G5, G5b, G6, G7, G8, G9;
    assert |Groups(g)| == |G0(g)| + |G1(g)| + |G2(g)| + |G3(g)| + |G4(g)| + |G4b(g)| + |G4c(g)| + |G5(g)| + |G5b(g)|
      + |G6(g)| + |G7(g)| + |G8(g)| + |G9(g)|;
  }

  predicate Failures(groups: seq<Group>) {
    forall i :: 0 <= i < |groups| ==> groups[i].outcome != GreenPass
  }

  lemma FailuresConcat(a: seq<Group>, b: seq<Group>)
    requires Failures(a) && Failures(b)
    ensures Failures(a + b)
  {
  }

  lemma RulesFail(g: GreenInput)
    ensures Failures(G0(g)) && Failures(G1(g)) && Failures(G2(g)) && Failures(G3(g)) && Failures(G4(g))
    ensures Failures(G4b(g)) && Failures(G4c(g)) && Failures(G5(g)) && Failures(G5b(g)) && Failures(G6(g))
    ensures Failures(G7(g)) && Failures(G8(g)) && Failures(G9(g))
  {
    hide SomeMissing, SomeSkipped, SomeFailing, SomeNotIsolated, SomeInconsistent, SomeNewlySkipped, SomeDropped,
      SomeOtherFailing, SomeProtectedNotPassing, SomeVanished, SomeCheckFailed, SomeUnreported, SomeNotReproduced,
      SomeBuildFailed, SomeReportMissing, SomeTimedOut, G2Reasons, If;
  }

  lemma GroupsAreFailures(g: GreenInput)
    ensures Failures(Groups(g))
  {
    hide Failures, G0, G1, G2, G3, G4, G4b, G4c, G5, G5b, G6, G7, G8, G9;
    RulesFail(g);
    FailuresConcat(G0(g), G1(g));
    var a := G0(g) + G1(g);
    FailuresConcat(a, G2(g));
    FailuresConcat(a + G2(g), G3(g));
    var b := a + G2(g) + G3(g);
    FailuresConcat(b, G4(g));
    FailuresConcat(b + G4(g), G4b(g));
    var c := b + G4(g) + G4b(g);
    FailuresConcat(c, G4c(g));
    FailuresConcat(c + G4c(g), G5(g));
    var d := c + G4c(g) + G5(g);
    FailuresConcat(d, G5b(g));
    FailuresConcat(d + G5b(g), G6(g));
    var e := d + G5b(g) + G6(g);
    FailuresConcat(e, G7(g));
    FailuresConcat(e + G7(g), G8(g));
    FailuresConcat(e + G7(g) + G8(g), G9(g));
  }

  lemma G5Parts(g: GreenInput)
    ensures G5(g) == [] <==>
      !SomeNewlySkipped(g) && !SomeDropped(g) && !SomeOtherFailing(g) && !SomeProtectedNotPassing(g)
    ensures G5b(g) == [] <==> !SomeVanished(g)
  {
    hide SomeNewlySkipped, SomeDropped, SomeOtherFailing, SomeProtectedNotPassing, SomeVanished;
  }

  /** The verdict is green_pass exactly on usable facts that are flawless. */
  lemma GreenPassIff(g: GreenInput)
    ensures Passes(VerdictOf(g)) <==> Usable(g) && Flawless(g)
  {
    hide FactsUsable, G1, G2, G3, G4, G4b, G4c, G5, G5b, G6, G8, G9, Untouched, SuitesRan, ProtectedTestsPass,
      ManifestTestsAreSound, RedIsReproduced, OtherTestsPass, BaselineKept, ChecksPass, Groups, Unique, AllReasons,
      Warnings, G2Usable, G4Usable, G4bUsable, G4cUsable, G5Usable, G6Usable, G9Usable, SomeNewlySkipped,
      SomeDropped, SomeOtherFailing, SomeProtectedNotPassing, SomeVanished;
    if Usable(g) {
      FactsHaveTests(g);
      NoGroups(g);
      GroupsAreFailures(g);
      IntegrityRules(g);
      SuiteRules(g);
      ProtectedRules(g);
      ReplayRules(g);
      OtherRules(g);
      CheckRules(g);
      G5Parts(g);
    }
  }

  lemma FactsHaveTests(g: GreenInput)
    requires FactsUsable(g)
    ensures TestsUsable(g) && CountsUsable(g) && ManifestUsable(g)
  {
  }

  /** A listed failure is some reported test that failed. */
  lemma {:induction false} FailureIsListed(tests: seq<Test>, suite: string)
    requires FailingReports(tests, suite) > 0
    ensures exists i :: 0 <= i < |tests| && IsFailure(tests[i].head)
    decreases |tests|
  {
    var front := tests[..|tests| - 1];
    if !IsFailure(tests[|tests| - 1].head) {
      FailureIsListed(front, suite);
      var i :| 0 <= i < |front| && IsFailure(front[i].head);
      assert tests[i] == front[i];
    }
  }

  lemma NoReportedFailure(g: GreenInput, i: nat)
    requires TestsUsable(g) && ProtectedTestsPass(g) && OtherTestsPass(g) && i < |g.observed.tests|
    ensures !IsFailure(g.observed.tests[i].head)
  {
    var t := g.observed.tests[i];
    FindUnique(g.observed.tests, i);
    if t.id in ManifestIds(g.manifest.tests) {
      var k :| 0 <= k < |g.manifest.tests| && g.manifest.tests[k].id == t.id;
      assert PassedAtHead(g, g.manifest.tests[k].id);
    }
  }

  /**
    In a passing verdict no head run counts a failure, and every run whose counts add up to zero, so every run
    with non-negative counts, exited 0: no single rule checks that.
   */
  lemma GreenPassRunsSucceeded(g: GreenInput, i: nat)
    requires Passes(VerdictOf(g)) && HeadRun(g, i)
    ensures var r := g.observed.runs[i];
      && Failing(r.counts) <= 0
      && (Failing(r.counts) == 0 ==> r.exitCode == 0)
      && (r.counts.failedAssertion >= 0 && r.counts.failedError >= 0 && r.counts.stub >= 0 ==> r.exitCode == 0)
  {
    hide VerdictOf, RulesUsable, Untouched, ManifestTestsAreSound, RedIsReproduced, BaselineKept, ChecksPass,
      FactsUsable, TestsUsable, ManifestUsable, ProtectedTestsPass, FailingReports;
    GreenPassIff(g);
    FactsHaveTests(g);
    var r := g.observed.runs[i];
    assert RunUsable(g, r) && !Drops(g, r);
    if FailingReports(g.observed.tests, r.suite) > 0 {
      FailureIsListed(g.observed.tests, r.suite);
      var k :| 0 <= k < |g.observed.tests| && IsFailure(g.observed.tests[k].head);
      NoReportedFailure(g, k);
    }
  }

  // ---------------------------------------------------- integrity from derived facts

  /** The facts are the ones derived from the violations of the range from the red commit to the head. */
  ghost predicate DerivedOver(g: GreenInput, repo: Repo, req: Ingest.Request, vs: seq<Ingest.Violation>) {
    && Ingest.Judged(repo, req, vs) && req.manifest == g.manifest && req.start == g.manifest.testCommit
    && Readable(repo, req.start) && Readable(repo, req.head)
    && |g.integrity.facts.files| == |g.manifest.files|
    && (forall i :: 0 <= i < |g.manifest.files| ==>
          IsStatus(repo.trees[req.start], repo.trees[req.head], vs, g.manifest.files[i], g.integrity.facts.files[i]))
    && g.integrity.facts.findings == FindingsOf(vs) && g.integrity.facts.discovery == ChangesOf(vs)
  }

  predicate HoldsManifest(red: Tree, f: ManifestFile) {
    f.path in red && red[f.path].blob == f.blob
  }

  lemma DerivedFilesAreUsable(g: GreenInput, repo: Repo, req: Ingest.Request, vs: seq<Ingest.Violation>)
    requires DerivedOver(g, repo, req, vs)
    requires forall i, j :: 0 <= i < j < |g.manifest.files| ==> g.manifest.files[i].path != g.manifest.files[j].path
    ensures FilesUsable(g.manifest, g.integrity.facts.files)
  {
    hide Ingest.Judged, Flagged;
    var files := g.integrity.facts.files;
    forall i | 0 <= i < |files| ensures files[i].path == g.manifest.files[i].path && files[i].status != UnknownStatus
      && files[i].expected == g.manifest.files[i].blob {
      assert IsStatus(repo.trees[req.start], repo.trees[req.head], vs, g.manifest.files[i], files[i]);
    }
    forall p | p in Ingest.Paths(g.manifest.files) ensures ListsFile(files, p) {
      var i :| 0 <= i < |g.manifest.files| && g.manifest.files[i].path == p;
      assert files[i].path == p;
    }
  }

  lemma {:induction false} DerivedFindingsAreUsable(vs: seq<Ingest.Violation>)
    requires forall i :: 0 <= i < |vs| ==> KnownCode(vs[i])
    ensures forall i :: 0 <= i < |FindingsOf(vs)| ==>
      FindingsOf(vs)[i].severity == ViolationSeverity && FindingUsable(FindingsOf(vs)[i])
    ensures forall i :: 0 <= i < |ChangesOf(vs)| ==> ChangesOf(vs)[i].kind != OtherChangeKind
    decreases |vs|
  {
    if vs != [] {
      DerivedFindingsAreUsable(vs[..|vs| - 1]);
      assert KnownCode(vs[|vs| - 1]);
    }
  }

  lemma DerivedFileIsIntact(g: GreenInput, repo: Repo, req: Ingest.Request, vs: seq<Ingest.Violation>, i: nat)
    requires DerivedOver(g, repo, req, vs) && i < |g.manifest.files|
    ensures ReallyIntact(g.integrity.facts.files[i]) <==>
      HoldsManifest(repo.trees[req.start], g.manifest.files[i]) && !Flagged(vs, g.manifest.files[i].path)
  {
    hide Ingest.Judged, Flagged;
    var f := g.manifest.files[i];
    IntactIff(repo, req, vs, f, g.integrity.facts.files[i]);
    FlagsChangedManifestFiles(repo, req, vs, f.path);
    assert f.path in Ingest.Paths(g.manifest.files);
    assert IsStatus(repo.trees[req.start], repo.trees[req.head], vs, f, g.integrity.facts.files[i]);
  }

  /**
    G2 can use what the derivation makes of a judged range, and finds no tampering in it exactly when the range
    has no violation, the red commit holds every manifest file with its blob, the head descends from it, and no
    commit is foreign.
   */
  lemma DerivedFactsAreUntouchedIff(g: GreenInput, repo: Repo, req: Ingest.Request, vs: seq<Ingest.Violation>)
    requires DerivedOver(g, repo, req, vs)
    requires forall i, j :: 0 <= i < j < |g.manifest.files| ==> g.manifest.files[i].path != g.manifest.files[j].path
    requires forall i :: 0 <= i < |g.integrity.foreignCommits| ==> IsObjectId(g.integrity.foreignCommits[i])
    ensures G2Usable(g)
    ensures Untouched(g) <==>
      (&& vs == []
        && (forall i :: 0 <= i < |g.manifest.files| ==> HoldsManifest(repo.trees[req.start], g.manifest.files[i]))
       && g.integrity.headDescends && g.integrity.foreignCommits == [])
  {
    hide FilesUsable, Flagged, ReallyIntact, HoldsManifest, Ingest.Judged, IsStatus, FindingUsable, IsObjectId;
    DerivedFilesAreUsable(g, repo, req, vs);
    JudgedCodesAreKnown(repo, req, vs);
    DerivedFindingsAreUsable(vs);
    forall i | 0 <= i < |g.manifest.files| ensures ReallyIntact(g.integrity.facts.files[i]) <==>
      HoldsManifest(repo.trees[req.start], g.manifest.files[i]) && !Flagged(vs, g.manifest.files[i].path) {
      DerivedFileIsIntact(g, repo, req, vs, i);
    }
    NothingIsLost(vs);
    forall p | Flagged(vs, p) ensures exists i :: 0 <= i < |g.manifest.files| && g.manifest.files[i].path == p {
      FlagsChangedManifestFiles(repo, req, vs, p);
    }
    assert FindingsOf(vs) == [] <==> forall i :: 0 <= i < |FindingsOf(vs)| ==>
      FindingsOf(vs)[i].severity == WarningSeverity by {
      assert FindingsOf(vs) != [] ==> FindingsOf(vs)[0].severity == ViolationSeverity;
    }
  }
}
