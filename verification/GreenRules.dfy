/**
  The GREEN classifier as it runs: facts loaded into maps and sets once, then the rules in
  order, each adding its group of reasons (src/internal/verify/green_classify.go).
 */
module GreenRules {

  import opened Wrappers
  import opened GlobLanguage
  import opened Evidence
  import opened Integrity
  import opened Green
  import Ingest

  ghost predicate IsHead(g: GreenInput, r: Run) {
    exists i :: 0 <= i < |g.observed.runs| && HeadRun(g, i) && g.observed.runs[i] == r
  }

  method ReplayStatuses(tests: seq<ReplayTest>) returns (r: Option<map<string, Status>>)
    ensures r.Some? <==> ReplayUsable(tests)
    ensures r.Some? ==> forall id :: Replayed(tests, id) == if id in r.value then Some(r.value[id]) else None
  {
    var out: map<string, Status> := map[];
    for i := 0 to |tests|
      invariant forall k :: 0 <= k < i ==> tests[k].status != Unknown
      invariant forall j, k :: 0 <= j < k < i ==> tests[j].id != tests[k].id
      invariant forall id :: id in out <==> exists k :: 0 <= k < i && tests[k].id == id
      invariant forall id :: Replayed(tests[..i], id) == if id in out then Some(out[id]) else None
    {
      assert tests[..i + 1][..i] == tests[..i];
      if tests[i].status == Unknown || tests[i].id in out {
        return None;
      }
      out := out[tests[i].id := tests[i].status];
    }
    assert tests[..|tests|] == tests;
    r := Some(out);
  }

  class GreenCheck {
    const g: GreenInput
    var reported: map<string, Test>
    var headPresent: set<string>
    var headSkipped: set<string>
    var basePassing: set<string>
    var manifestIds: set<string>
    var headRuns: seq<Run>
    var droppedFailure: bool
    var warnings: seq<Finding>
    var groups: seq<Group>

    ghost predicate ReportedIsLoaded()
      reads `reported
    {
      forall id :: Report(g, id) == if id in reported then Some(reported[id]) else None
    }

    ghost predicate RunsAreLoaded()
      reads `headRuns
    {
      forall r :: r in headRuns <==> IsHead(g, r)
    }

    ghost predicate Valid()
      reads `reported, `headPresent, `headSkipped, `basePassing, `manifestIds, `headRuns, `droppedFailure
    {
      && ReportedIsLoaded() && RunsAreLoaded()
      && headPresent == HeadPresent(g) && headSkipped == HeadSkipped(g) && basePassing == BasePassing(g)
      && manifestIds == ManifestIds(g.manifest.tests)
      && droppedFailure == SomeDropped(g)
    }

    constructor (g: GreenInput)
      ensures this.g == g && groups == [] && warnings == []
    {
      this.g := g;
      reported, headPresent, headSkipped, basePassing, manifestIds := map[], {}, {}, {}, {};
      headRuns, droppedFailure, warnings, groups := [], false, [], [];
    }

    // ------------------------------------------------------------------ the facts

    method LoadRuns() returns (ok: bool)
      modifies `headRuns
      ensures ok <==> RunsUsable(g)
      ensures ok ==> RunsAreLoaded()
    {
      headRuns := [];
      for i := 0 to |g.observed.runs|
        invariant forall k :: 0 <= k < i ==>
          (g.observed.runs[k].side != OtherTree && (HeadRun(g, k) ==> g.observed.runs[k].commit == g.observed.headSha))
        invariant forall r :: r in headRuns <==> exists k :: 0 <= k < i && HeadRun(g, k) && g.observed.runs[k] == r
        invariant |headRuns| > 0 <==> exists k :: 0 <= k < i && HeadRun(g, k)
      {
        var r := g.observed.runs[i];
        match r.side {
          case BaseTree =>
          case HeadTree =>
            assert HeadRun(g, i);
            if r.commit != g.observed.headSha {
              return false;
            }
            headRuns := headRuns + [r];
          case OtherTree =>
            return false;
        }
      }
      ok := |headRuns| > 0;
    }

    method CountFailing(suite: string) returns (n: nat)
      ensures n == FailingReports(g.observed.tests, suite)
    {
      n := 0;
      var tests := g.observed.tests;
      for i := 0 to |tests|
        invariant n == FailingReports(tests[..i], suite)
      {
        assert tests[..i + 1][..i] == tests[..i];
        if tests[i].suite == suite && IsFailure(tests[i].head) {
          n := n + 1;
        }
      }
      assert tests[..|tests|] == tests;
    }

    lemma HeadRunsCover(i: int)
      requires RunsAreLoaded() && HeadRun(g, i)
      ensures g.observed.runs[i] in headRuns
    {
      assert IsHead(g, g.observed.runs[i]);
    }

    method CheckCounts() returns (ok: bool)
      requires RunsAreLoaded()
      modifies `droppedFailure
      ensures ok <==> CountsUsable(g)
      ensures ok ==> droppedFailure == SomeDropped(g)
    {
      hide FailingReports, Failing;
      droppedFailure := false;
      for i := 0 to |headRuns|
        invariant forall k :: 0 <= k < i ==> RunUsable(g, headRuns[k])
        invariant droppedFailure <==> exists k :: 0 <= k < i && Drops(g, headRuns[k])
      {
        var r := headRuns[i];
        assert r in headRuns;
        var failing := Failing(r.counts);
        var listed := CountFailing(r.suite);
        if failing > listed {
          if !g.observed.truncated {
            assert !RunUsable(g, r);
            return false;
          }
          droppedFailure := true;
        }
        if failing > 0 && r.exitCode == 0 {
          assert !RunUsable(g, r);
          return false;
        }
        if failing == 0 && r.exitCode != 0 && r.reportFound && !r.buildFailed && !r.timedOut {
          assert !RunUsable(g, r);
          return false;
        }
        assert RunUsable(g, r);
      }
      ok := true;
      forall i | 0 <= i < |g.observed.runs| && HeadRun(g, i) ensures RunUsable(g, g.observed.runs[i]) {
        HeadRunsCover(i);
      }
      if SomeDropped(g) {
        ghost var i :| 0 <= i < |g.observed.runs| && HeadRun(g, i) && Drops(g, g.observed.runs[i]);
        HeadRunsCover(i);
      }
      if droppedFailure {
        ghost var k :| 0 <= k < |headRuns| && Drops(g, headRuns[k]);
        assert headRuns[k] in headRuns;
      }
    }

    method LoadTests() returns (ok: bool)
      modifies `reported
      ensures ok <==> TestsUsable(g)
      ensures ok ==> ReportedIsLoaded()
    {
      hide Find;
      reported := map[];
      var tests := g.observed.tests;
      NothingFound();
      for i := 0 to |tests|
        invariant forall k :: 0 <= k < i ==> tests[k].head != Unknown
        invariant forall j, k :: 0 <= j < k < i ==> tests[j].id != tests[k].id
        invariant forall id :: id in reported <==> exists k :: 0 <= k < i && tests[k].id == id
        invariant forall id :: Find(tests[..i], id) == if id in reported then Some(reported[id]) else None
      {
        forall id ensures Find(tests[..i + 1], id) == if tests[i].id == id then Some(tests[i])
          else Find(tests[..i], id) {
          FindStep(tests, i, id);
        }
        if tests[i].head == Unknown || tests[i].id in reported {
          return false;
        }
        reported := reported[tests[i].id := tests[i]];
      }
      assert tests[..|tests|] == tests;
      ok := true;
    }

    method LoadSets() returns (ok: bool)
      modifies `headPresent, `headSkipped, `basePassing
      ensures ok <==> SetsUsable(g)
      ensures ok ==> headPresent == HeadPresent(g) && headSkipped == HeadSkipped(g) && basePassing == BasePassing(g)
    {
      hide Decoded;
      if g.observed.sets.None? || g.baseline.sets.None? {
        NothingDecodes();
        return false;
      }
      var present := DecodeIdSet(g.observed.sets.value.headPresent);
      var skipped := DecodeIdSet(g.observed.sets.value.headSkipped);
      var passing := DecodeIdSet(g.baseline.sets.value.basePassing);
      var baseSkipped := DecodeIdSet(g.baseline.sets.value.baseSkipped);
      if present.None? || skipped.None? || passing.None? || baseSkipped.None? {
        return false;
      }
      headPresent, headSkipped, basePassing := present.value, skipped.value, passing.value;
      var left := passing.value;
      while left != {}
        invariant left <= basePassing && forall id :: id in basePassing && id !in left ==> id !in baseSkipped.value
        decreases |left|
      {
        var id :| id in left;
        if id in baseSkipped.value {
          return false;
        }
        left := left - {id};
      }
      left := skipped.value;
      while left != {}
        invariant left <= headSkipped && forall id :: id in headSkipped && id !in left ==> id in headPresent
        decreases |left|
      {
        var id :| id in left;
        if id !in headPresent {
          return false;
        }
        left := left - {id};
      }
      ok := true;
    }

    lemma NothingDecodes()
      ensures Decoded(None).None?
    {
    }

    method LoadManifest() returns (ok: bool)
      requires ReportedIsLoaded() && headPresent == HeadPresent(g)
      modifies `manifestIds
      ensures ok <==> ManifestUsable(g)
      ensures ok ==> manifestIds == ManifestIds(g.manifest.tests)
    {
      hide Find, HeadPresent;
      manifestIds := {};
      var ts := g.manifest.tests;
      for i := 0 to |ts|
        invariant forall id :: id in manifestIds <==> exists k :: 0 <= k < i && ts[k].id == id
        invariant forall j, k :: 0 <= j < k < i ==> ts[j].id != ts[k].id
      {
        if ts[i].id in manifestIds {
          return false;
        }
        manifestIds := manifestIds + {ts[i].id};
      }
      for i := 0 to |ts|
        invariant forall k :: 0 <= k < i ==> !Contradicted(g, ts[k].id)
      {
        var id := ts[i].id;
        if id in reported && id !in headPresent && reported[id].head != Absent {
          assert Contradicted(g, id);
          return false;
        }
      }
      for i := 0 to |g.protectedIds|
        invariant forall k :: 0 <= k < i ==> !Contradicted(g, g.protectedIds[k])
      {
        var id := g.protectedIds[i];
        if id in reported && id !in headPresent && reported[id].head != Absent {
          assert Contradicted(g, id);
          return false;
        }
      }
      ok := true;
    }

    method Load() returns (ok: bool)
      modifies this
      ensures ok <==> FactsUsable(g)
      ensures ok ==> Valid()
      ensures groups == old(groups) && warnings == old(warnings)
    {
      hide RunsUsable, CountsUsable, TestsUsable, SetsUsable, ManifestUsable, ManifestIds, HeadPresent, HeadSkipped,
        BasePassing, SomeDropped, IsHead, Find;
      if !DocumentUsable(g) {
        return false;
      }
      ok := LoadRuns();
      if !ok {
        return;
      }
      ok := CheckCounts();
      if !ok {
        return;
      }
      ok := LoadTests();
      if !ok {
        return;
      }
      ok := LoadSets();
      if !ok {
        return;
      }
      ok := LoadManifest();
    }

    // ------------------------------------------------------------------ the rules

    method Add(outcome: Outcome, reasons: seq<Reason>)
      modifies `groups
      ensures groups == old(groups) + Note(outcome, reasons)
    {
      if |reasons| > 0 {
        groups := groups + [Group(outcome, reasons)];
      }
    }

    method RuleG0()
      modifies `groups
      ensures groups == old(groups) + G0(g)
    {
      if g.observed.validationBlob == "" || g.observed.validationBlob != g.baseValidationBlob {
        Add(GreenFail, [ConfigMismatch]);
      }
    }

    method RuleG1()
      modifies `groups
      ensures groups == old(groups) + G1(g)
    {
      if !g.integrity.headDescends {
        Add(TamperDetected, [NotDescendant]);
      }
    }

    method CheckFiles(m: Manifest, files: seq<IntegrityFile>) returns (ok: bool, changed: bool)
      ensures ok <==> FilesUsable(m, files)
      ensures ok ==> (changed <==> SomeFileChanged(files))
    {
      changed := false;
      var paths := ManifestPaths(m.files);
      var seen: set<Text> := {};
      for i := 0 to |files|
        invariant forall k :: 0 <= k < i ==>
          (files[k].status != UnknownStatus && files[k].path in paths && Expected(m, files[k]))
        invariant forall j, k :: 0 <= j < k < i ==> files[j].path != files[k].path
        invariant forall p :: p in seen <==> exists k :: 0 <= k < i && files[k].path == p
        invariant changed <==> exists k :: 0 <= k < i && !ReallyIntact(files[k])
      {
        var e := files[i];
        if e.status == UnknownStatus || e.path !in paths || e.path in seen {
          return false, false;
        }
        seen := seen + {e.path};
        for k := 0 to |m.files|
          invariant forall j :: 0 <= j < k && m.files[j].path == e.path ==> m.files[j].blob == e.expected
        {
          if m.files[k].path == e.path && m.files[k].blob != e.expected {
            return false, false;
          }
        }
        if e.status != Intact || e.actual.None? || e.actual.value != e.expected {
          changed := true;
        }
      }
      ok := paths <= seen;
      assert ok <==> forall p :: p in paths ==> ListsFile(files, p);
    }

    method ManifestPaths(files: seq<ManifestFile>) returns (paths: set<Text>)
      ensures paths == Ingest.Paths(files)
    {
      paths := {};
      for i := 0 to |files|
        invariant forall p :: p in paths <==> exists k :: 0 <= k < i && files[k].path == p
      {
        paths := paths + {files[i].path};
      }
    }

    /** The reasons the discovery changes, findings and foreign commits give, whatever the manifest. */
    method G2Facts(facts: Facts, foreign: seq<string>) returns (ok: bool, got: set<Reason>)
      modifies `warnings
      ensures ok <==> IntegrityUsable(facts, foreign)
      ensures ok ==> warnings == old(warnings) + Warnings(facts.findings)
      ensures ok ==> forall r :: r in got <==>
        ((r == DiscoveryChanged && facts.discovery != []) || Found(facts.findings, r)
          || (r == ForeignCommit && foreign != []))
    {
      got := {};
      for i := 0 to |facts.discovery|
        invariant forall k :: 0 <= k < i ==> facts.discovery[k].kind != OtherChangeKind
        invariant got == if i > 0 then {DiscoveryChanged} else {}
      {
        if facts.discovery[i].kind == OtherChangeKind {
          return false, {};
        }
        got := got + {DiscoveryChanged};
      }
      ok, got := G2Findings(facts, got);
      if !ok {
        return false, {};
      }
      ghost var before := got;
      for i := 0 to |foreign|
        invariant forall k :: 0 <= k < i ==> IsObjectId(foreign[k])
        invariant got == if i > 0 then before + {ForeignCommit} else before
      {
        if !IsObjectId(foreign[i]) {
          return false, {};
        }
        got := got + {ForeignCommit};
      }
    }

    method G2Findings(facts: Facts, start: set<Reason>) returns (ok: bool, got: set<Reason>)
      modifies `warnings
      ensures ok <==> forall i :: 0 <= i < |facts.findings| ==> FindingUsable(facts.findings[i])
      ensures ok ==> warnings == old(warnings) + Warnings(facts.findings)
      ensures ok ==> forall r :: r in got <==> r in start || Found(facts.findings, r)
    {
      hide ReasonOf;
      got := start;
      var fs := facts.findings;
      for i := 0 to |fs|
        invariant forall k :: 0 <= k < i ==> FindingUsable(fs[k])
        invariant warnings == old(warnings) + Warnings(fs[..i])
        invariant forall r :: r in got <==> r in start || Found(fs[..i], r)
      {
        assert fs[..i + 1][..i] == fs[..i];
        FoundStep(fs, i);
        var s := fs[i];
        match s.severity {
          case WarningSeverity =>
            if IngestionCode(s.code) {
              assert !FindingUsable(s);
              return false, {};
            }
            warnings := warnings + [s];
          case ViolationSeverity =>
            var r := ReasonOf(s.code);
            if r.None? {
              assert !FindingUsable(s);
              return false, {};
            }
            got := got + {r.value};
          case OtherSeverity =>
            assert !FindingUsable(s);
            return false, {};
        }
      }
      assert fs[..|fs|] == fs;
      ok := true;
    }

    lemma FoundStep(fs: seq<Finding>, i: nat)
      requires i < |fs|
      ensures forall r :: Found(fs[..i + 1], r) <==>
        Found(fs[..i], r) || (fs[i].severity == ViolationSeverity && ReasonOf(fs[i].code) == Some(r))
    {
      hide ReasonOf;
      var now, before := fs[..i + 1], fs[..i];
      assert now[i] == fs[i];
      assert forall k :: 0 <= k < i ==> now[k] == before[k];
    }

    lemma FoundReasons(fs: seq<Finding>)
      ensures !Found(fs, ManifestChanged) && !Found(fs, ForeignCommit)
    {
    }

    method RuleG2() returns (ok: bool)
      modifies `groups, `warnings
      ensures ok <==> G2Usable(g)
      ensures ok ==> groups == old(groups) + G2(g) && warnings == old(warnings) + Warnings(g.integrity.facts.findings)
    {
      hide Found, FilesUsable, IntegrityUsable, SomeFileChanged, Warnings;
      var changed;
      ok, changed := CheckFiles(g.manifest, g.integrity.facts.files);
      if !ok {
        return;
      }
      var got;
      ok, got := G2Facts(g.integrity.facts, g.integrity.foreignCommits);
      if !ok {
        return;
      }
      FoundReasons(g.integrity.facts.findings);
      if changed {
        got := got + {ManifestChanged};
      }
      var reasons: seq<Reason> := [];
      for i := 0 to |G2_ORDER|
        invariant reasons == G2Reasons(g, i)
      {
        assert G2_ORDER[i] in got <==> G2Has(g, G2_ORDER[i]);
        if G2_ORDER[i] in got {
          reasons := reasons + [G2_ORDER[i]];
        }
      }
      Add(TamperDetected, reasons);
    }

    method SuiteFlags() returns (ran: set<string>, build: bool, report: bool, timeout: bool)
      requires RunsAreLoaded()
      ensures forall s :: s in ran <==> Ran(g, s)
      ensures build <==> SomeBuildFailed(g)
      ensures timeout <==> SomeTimedOut(g)
      ensures report <==> exists i ::
        (0 <= i < |g.observed.runs| && HeadRun(g, i) && !g.observed.runs[i].buildFailed
          && !g.observed.runs[i].reportFound)
    {
      ran, build, report, timeout := {}, false, false, false;
      for i := 0 to |headRuns|
        invariant forall s :: s in ran <==> exists k :: 0 <= k < i && headRuns[k].suite == s
        invariant build <==> exists k :: 0 <= k < i && headRuns[k].buildFailed
        invariant report <==> exists k :: 0 <= k < i && !headRuns[k].buildFailed && !headRuns[k].reportFound
        invariant timeout <==> exists k :: 0 <= k < i && headRuns[k].timedOut
      {
        var r := headRuns[i];
        ran := ran + {r.suite};
        if r.buildFailed {
          build := true;
        } else if !r.reportFound {
          report := true;
        }
        timeout := timeout || r.timedOut;
      }
      forall k | 0 <= k < |headRuns| ensures IsHead(g, headRuns[k]) {
        assert headRuns[k] in headRuns;
      }
      forall i | 0 <= i < |g.observed.runs| && HeadRun(g, i) ensures g.observed.runs[i] in headRuns {
        HeadRunsCover(i);
      }
    }

    method RuleG3()
      requires Valid()
      modifies `groups
      ensures groups == old(groups) + G3(g)
    {
      hide Ran, SomeBuildFailed, SomeTimedOut, SuiteOf, IsHead, Find, HeadPresent, HeadSkipped, BasePassing,
        SomeDropped;
      var ran, build, report, timeout := SuiteFlags();
      ghost var reportRun := report;
      for i := 0 to |g.manifest.tests|
        invariant report <==> reportRun || exists k :: 0 <= k < i && !Ran(g, SuiteOf(g.manifest.tests[k].id))
      {
        if SuiteOf(g.manifest.tests[i].id) !in ran {
          report := true;
        }
      }
      var reasons: seq<Reason> := [];
      if build {
        reasons := reasons + [BuildFailed];
      }
      if report {
        reasons := reasons + [ReportMissing];
      }
      if timeout {
        reasons := reasons + [SuiteTimedOut];
      }
      assert report <==> SomeReportMissing(g);
      assert reasons == If(build, BuildFailed) + If(report, ReportMissing) + If(timeout, SuiteTimedOut);
      Add(GreenFail, reasons);
    }

    method LoadMissing() returns (ok: bool, recorded: set<string>)
      requires manifestIds == ManifestIds(g.manifest.tests)
      ensures ok <==>
        forall i :: 0 <= i < |g.integrity.protectedMissing| ==>
          g.integrity.protectedMissing[i] in ManifestIds(g.manifest.tests)
      ensures ok ==> forall id :: id in recorded <==> id in g.integrity.protectedMissing
    {
      hide ManifestIds;
      recorded := {};
      var lost := g.integrity.protectedMissing;
      for i := 0 to |lost|
        invariant forall k :: 0 <= k < i ==> lost[k] in manifestIds
        invariant forall id :: id in recorded <==> id in lost[..i]
      {
        if lost[i] !in manifestIds {
          return false, {};
        }
        recorded := recorded + {lost[i]};
      }
      assert lost[..|lost|] == lost;
      ok := true;
    }

    method RuleG4() returns (ok: bool)
      requires Valid()
      modifies `groups
      ensures ok <==> G4Usable(g)
      ensures ok ==> groups == old(groups) + G4(g)
    {
      hide Find, HeadPresent, HeadSkipped, BasePassing, SomeDropped, IsHead, ManifestIds;
      var recorded;
      ok, recorded := LoadMissing();
      if !ok {
        return;
      }
      var missing, skipped, failing := false, false, false;
      var ts := g.manifest.tests;
      for i := 0 to |ts|
        invariant forall k :: 0 <= k < i ==> Missing(g, ts[k].id) || Report(g, ts[k].id).Some? || g.observed.truncated
        invariant missing <==> exists k :: 0 <= k < i && Missing(g, ts[k].id)
        invariant skipped <==> exists k :: 0 <= k < i && SkippedHere(g, ts[k].id)
        invariant failing <==> exists k :: 0 <= k < i && FailingHere(g, ts[k].id)
      {
        var id := ts[i].id;
        var rep := id in reported;
        if id in recorded || (!rep && id !in headPresent) || (rep && reported[id].head == Absent) {
          missing := true;
        } else if !rep {
          if !g.observed.truncated {
            return false;
          }
        } else if reported[id].head == Skipped || id in headSkipped {
          skipped := true;
        } else if reported[id].head != Passed {
          failing := true;
        }
      }
      ok := true;
      var tamper: seq<Reason> := [];
      if missing {
        tamper := tamper + [ProtectedMissing];
      }
      if skipped {
        tamper := tamper + [ProtectedSkipped];
      }
      assert (missing <==> SomeMissing(g)) && (skipped <==> SomeSkipped(g)) && (failing <==> SomeFailing(g));
      assert tamper == If(missing, ProtectedMissing) + If(skipped, ProtectedSkipped);
      Add(TamperDetected, tamper);
      Add(GreenFail, If(failing, ProtectedFailing));
      assert groups == old(groups) + (Note(TamperDetected, tamper) + Note(GreenFail, If(failing, ProtectedFailing)));
    }

    method RuleG4b() returns (ok: bool)
      modifies `groups
      ensures ok <==> G4bUsable(g)
      ensures ok ==> groups == old(groups) + G4b(g)
    {
      if g.isolation.None? {
        return false;
      }
      var iso, want := g.isolation.value, g.derived;
      if |want.files| != want.count || want.recomputedSha != want.sha {
        return false;
      }
      if iso.removedFiles != want.count || iso.removedSha != want.sha {
        return false;
      }
      var status := ReplayStatuses(iso.tests);
      if status.None? {
        return false;
      }
      ok := true;
      for i := 0 to |g.manifest.tests|
        invariant forall k :: 0 <= k < i ==> Replayed(iso.tests, g.manifest.tests[k].id) == Some(Passed)
        invariant groups == old(groups)
      {
        var id := g.manifest.tests[i].id;
        if id !in status.value || status.value[id] != Passed {
          assert SomeNotIsolated(g);
          Add(TamperDetected, [DependsOnNewFiles]);
          return;
        }
      }
    }

    method RuleG4c() returns (ok: bool)
      modifies `groups
      ensures ok <==> G4cUsable(g)
      ensures ok ==> groups == old(groups) + G4c(g)
    {
      if g.repeats.None? || g.repeatProtected.None? || g.repeatProtected.value < 1 {
        return false;
      }
      if g.repeats.value.runs < g.repeatProtected.value {
        return false;
      }
      ok := true;
      var bad := set i | 0 <= i < |g.repeats.value.inconsistent| :: g.repeats.value.inconsistent[i];
      for i := 0 to |g.manifest.tests|
        invariant forall k :: 0 <= k < i ==> g.manifest.tests[k].id !in Inconsistent(g)
        invariant groups == old(groups)
      {
        if g.manifest.tests[i].id in bad {
          assert SomeInconsistent(g);
          Add(GreenFail, [Nondeterministic]);
          return;
        }
      }
    }

    method OtherFails() returns (failing: bool)
      requires Valid()
      ensures failing <==> SomeDropped(g) || SomeOtherFailing(g)
    {
      hide SomeDropped, Find, HeadPresent, HeadSkipped, BasePassing, IsHead;
      failing := droppedFailure;
      var tests := g.observed.tests;
      for i := 0 to |tests|
        invariant failing <==> droppedFailure || exists k ::
          (0 <= k < i && tests[k].id !in manifestIds && (IsFailure(tests[k].head) || tests[k].head == Absent))
      {
        if tests[i].id in manifestIds {
          continue;
        }
        if IsFailure(tests[i].head) || tests[i].head == Absent {
          failing := true;
        }
      }
    }

    method BaselineSkips() returns (newSkip: bool)
      requires Valid()
      ensures newSkip <==> SomeNewlySkipped(g)
    {
      hide SomeDropped, Find, HeadPresent, HeadSkipped, BasePassing, IsHead;
      newSkip := false;
      var left := basePassing;
      while left != {}
        invariant left <= basePassing
        invariant newSkip <==> exists id :: id in basePassing && id !in left && NewlySkipped(g, id)
        decreases |left|
      {
        var id :| id in left;
        ghost var before := left;
        left := left - {id};
        if (id in reported && reported[id].head == Skipped) || id in headSkipped {
          newSkip := true;
        }
        assert forall x :: x in basePassing && x !in left && NewlySkipped(g, x) <==>
          (x in basePassing && x !in before && NewlySkipped(g, x)) || (x == id && NewlySkipped(g, id));
      }
    }

    method RuleG5() returns (ok: bool)
      requires Valid()
      modifies `groups
      ensures ok <==> G5Usable(g)
      ensures ok ==> groups == old(groups) + G5(g)
    {
      hide SomeDropped, SomeOtherFailing, SomeNewlySkipped, Find, HeadPresent, HeadSkipped, BasePassing, IsHead;
      var failing := OtherFails();
      var newSkip := BaselineSkips();
      ghost var others := failing;
      var ps := g.protectedIds;
      for i := 0 to |ps|
        invariant forall k :: 0 <= k < i ==> Report(g, ps[k]).Some? || ps[k] !in headPresent || g.observed.truncated
        invariant failing <==> others || exists k :: 0 <= k < i && NotPassing(g, ps[k])
      {
        var id := ps[i];
        if id in reported {
          if reported[id].head != Passed || id in headSkipped {
            failing := true;
          }
        } else if id in headPresent {
          if !g.observed.truncated {
            return false;
          }
        } else {
          failing := true;
        }
      }
      ok := true;
      if newSkip {
        Add(TamperDetected, [NewSkip]);
      }
      if failing {
        Add(GreenFail, [ExistingFailing]);
      }
    }

    method RuleG5b()
      requires Valid()
      modifies `groups
      ensures groups == old(groups) + G5b(g)
    {
      hide SomeDropped, Find, HeadPresent, HeadSkipped, BasePassing, IsHead;
      var approved := set i | 0 <= i < |g.approvedRemoved| :: g.approvedRemoved[i];
      var left := basePassing;
      while left != {}
        invariant left <= basePassing && groups == old(groups)
        invariant forall id :: id in basePassing && id !in left ==> !Vanished(g, id)
        decreases |left|
      {
        var id :| id in left;
        left := left - {id};
        if (id !in headPresent && id !in approved) || id in headSkipped {
          assert Vanished(g, id);
          Add(TamperDetected, [PreexistingRemoved]);
          return;
        }
      }
    }

    method RuleG6() returns (ok: bool)
      modifies `groups
      ensures ok <==> G6Usable(g)
      ensures ok ==> groups == old(groups) + G6(g)
    {
      var required := set i | 0 <= i < |g.requiredChecks| :: g.requiredChecks[i];
      var ran: set<string> := {};
      var failed := false;
      for i := 0 to |g.checks|
        invariant forall j, k :: 0 <= j < k < i ==> g.checks[j].name != g.checks[k].name
        invariant forall n :: n in ran <==> exists k :: 0 <= k < i && g.checks[k].name == n
        invariant failed <==> exists k :: 0 <= k < i && CheckBroken(g, g.checks[k])
      {
        var c := g.checks[i];
        if c.name in ran {
          return false;
        }
        ran := ran + {c.name};
        if (c.required || c.name in required) && (c.exitCode != 0 || c.timedOut) {
          failed := true;
        }
      }
      ok := true;
      ghost var broken := failed;
      for i := 0 to |g.requiredChecks|
        invariant failed <==> broken || exists k :: 0 <= k < i && !CheckRan(g, g.requiredChecks[k])
      {
        if g.requiredChecks[i] !in ran {
          failed := true;
        }
      }
      if failed {
        Add(GreenFail, [CheckFailed]);
      }
    }

    method RuleG7()
      modifies `groups
      ensures groups == old(groups) + G7(g)
    {
      if |g.integrity.stubsRemaining| > 0 {
        Add(GreenFail, [StubNotReplaced]);
      }
    }

    method RuleG8()
      requires Valid()
      modifies `groups
      ensures groups == old(groups) + G8(g)
    {
      hide SomeDropped, Find, HeadPresent, HeadSkipped, BasePassing, IsHead, ManifestIds;
      if !g.observed.truncated {
        return;
      }
      for i := 0 to |g.manifest.tests|
        invariant groups == old(groups) && forall k :: 0 <= k < i ==> Report(g, g.manifest.tests[k].id).Some?
      {
        if g.manifest.tests[i].id !in reported {
          Add(GreenFail, [TestsTruncated]);
          return;
        }
      }
      for i := 0 to |g.protectedIds|
        invariant groups == old(groups) && forall k :: 0 <= k < i ==> Report(g, g.protectedIds[k]).Some?
      {
        if g.protectedIds[i] !in reported {
          Add(GreenFail, [TestsTruncated]);
          return;
        }
      }
    }

    method RuleG9() returns (ok: bool)
      modifies `groups
      ensures ok <==> G9Usable(g)
      ensures ok ==> groups == old(groups) + G9(g)
    {
      hide Replayed, ReplayUsable;
      if g.redReplay.None? || g.redReplay.value.redCommit != g.manifest.testCommit {
        return false;
      }
      var status := ReplayStatuses(g.redReplay.value.tests);
      if status.None? {
        return false;
      }
      ok := true;
      var ms := g.manifest.mapping;
      for i := 0 to |ms|
        invariant groups == old(groups)
        invariant forall m, j :: 0 <= m < i && 0 <= j < |ms[m].tests| && ms[m].kind == ChangeKind ==>
          Reproduced(g, ms[m].tests[j])
      {
        if ms[i].kind != ChangeKind {
          continue;
        }
        for j := 0 to |ms[i].tests|
          invariant groups == old(groups)
          invariant forall k :: 0 <= k < j ==> Reproduced(g, ms[i].tests[k])
        {
          var id := ms[i].tests[j];
          if id !in status.value || (status.value[id] != FailedAssertion && status.value[id] != Stub) {
            assert !Reproduced(g, id);
            assert SomeNotReproduced(g);
            Add(TamperDetected, [RedNotReproducible]);
            return;
          }
        }
      }
    }

    // ----------------------------------------------------------------- in order

    method FirstRules() returns (ok: bool)
      requires Valid()
      modifies `groups, `warnings
      ensures ok <==> G2Usable(g) && G4Usable(g)
      ensures ok ==> groups == old(groups) + G0(g) + G1(g) + G2(g) + G3(g) + G4(g)
      ensures ok ==> warnings == old(warnings) + Warnings(g.integrity.facts.findings)
    {
      hide *;
      RuleG0();
      RuleG1();
      ok := RuleG2();
      if !ok {
        return;
      }
      RuleG3();
      ok := RuleG4();
    }

    method MiddleRules() returns (ok: bool)
      requires Valid()
      modifies `groups
      ensures ok <==> G4bUsable(g) && G4cUsable(g) && G5Usable(g)
      ensures ok ==> groups == old(groups) + G4b(g) + G4c(g) + G5(g) + G5b(g)
    {
      hide *;
      ok := RuleG4b();
      if !ok {
        return;
      }
      ok := RuleG4c();
      if !ok {
        return;
      }
      ok := RuleG5();
      if !ok {
        return;
      }
      RuleG5b();
    }

    method LastRules() returns (ok: bool)
      requires Valid()
      modifies `groups
      ensures ok <==> G6Usable(g) && G9Usable(g)
      ensures ok ==> groups == old(groups) + G6(g) + G7(g) + G8(g) + G9(g)
    {
      hide *;
      ok := RuleG6();
      if !ok {
        return;
      }
      RuleG7();
      RuleG8();
      ok := RuleG9();
    }

    method Rules() returns (ok: bool)
      requires Valid() && groups == [] && warnings == []
      modifies `groups, `warnings
      ensures ok <==> RulesUsable(g)
      ensures ok ==> groups == Groups(g) && warnings == Warnings(g.integrity.facts.findings)
    {
      hide G0, G1, G2, G3, G4, G4b, G4c, G5, G5b, G6, G7, G8, G9, G2Usable, G4Usable, G4bUsable, G4cUsable, G5Usable,
        G6Usable, G9Usable, Valid, Warnings;
      ok := FirstRules();
      if !ok {
        return;
      }
      ok := MiddleRules();
      if !ok {
        return;
      }
      ok := LastRules();
    }
  }

  method Collect(groups: seq<Group>) returns (reasons: seq<Reason>)
    ensures reasons == Unique(AllReasons(groups))
  {
    reasons := [];
    for i := 0 to |groups|
      invariant reasons == Unique(AllReasons(groups[..i]))
    {
      assert groups[..i + 1][..i] == groups[..i];
      reasons := AppendUnique(reasons, groups[i].reasons, AllReasons(groups[..i]));
    }
    assert groups[..|groups|] == groups;
  }

  method ClassifyGreen(g: GreenInput) returns (v: Verdict)
    ensures v == VerdictOf(g)
  {
    hide FactsUsable, RulesUsable, Groups, Warnings, Unique, AllReasons;
    if !g.identityPassed {
      return NotClassified;
    }
    var check := new GreenCheck(g);
    var ok := check.Load();
    if !ok {
      return NotClassified;
    }
    ok := check.Rules();
    if !ok {
      return NotClassified;
    }
    var reasons := Collect(check.groups);
    v := Verdict(if check.groups == [] then GreenPass else check.groups[0].outcome, reasons, check.warnings);
  }
}
