/**
  A concrete passing green in which a head run exited with a failure: its counts add up to a
  negative number (src/internal/verify/green_classify.go).
 */
module GreenWitness {

  import opened Wrappers
  import opened GlobLanguage
  import opened Evidence
  import opened Integrity
  import opened Green
  import opened GreenMeaning
  import Ingest

  const TEST := "s::T"
  const FILE: Text := [116]
  const HEAD: string := seq(40, i => 'a')

  /** Exit code 1 with a count of minus one failing test. */
  const FAILED_RUN := Run(HeadTree, HEAD, "s", 1, false, false, true, Counts(-1, 0, 0))
  const REPORT := Test(TEST, "s", FILE, Absent, Passed)

  const HEAD_SETS := IdSets(None, None, Some(IdSet(1, Some([TEST]))), Some(IdSet(0, Some([]))))
  const BASE_SETS := IdSets(Some(IdSet(0, Some([]))), Some(IdSet(0, Some([]))), None, None)

  const OBSERVED := Observation(
    "task", "repo", GreenPhase, Tests, "base", HEAD, "v", [FAILED_RUN], [REPORT], false, Some(HEAD_SETS))
  const BASELINE := Observation("task", "repo", RedPhase, Tests, "base", "red", "v", [], [], false, Some(BASE_SETS))

  const MANIFEST := Manifest(
    "task", "repo", 1, "base", "red", "digest", [ManifestFile(FILE, "blob", TestClass, FileAdded)],
    [ManifestTest(TEST, "s", NewTest, ["AC-1"], FailedAssertion)], [AcMapping("AC-1", ChangeKind, [TEST])], [], [])

  const INTEGRITY := IntegrityRecord(
    1, "red", true, "digest", Facts([IntegrityFile(FILE, "blob", Some("blob"), Intact)], [], []), [], [], [])

  const GREEN := GreenInput(
    true, "v", OBSERVED, [], Some(IsolationRun(0, "sum", [ReplayTest(TEST, Passed)])),
    Some(RedReplay("red", [ReplayTest(TEST, FailedAssertion)])), Some(Repeats(1, [])), INTEGRITY, MANIFEST,
      Some("digest"),
    BASELINE, IsolationFacts([], 0, "sum", "sum"), [], [], [], Some(1))

  lemma Sets()
    ensures SetsUsable(GREEN) && HeadPresent(GREEN) == {TEST} && HeadSkipped(GREEN) == {} && BasePassing(GREEN) == {}
  {
    assert [TEST][0] == TEST;
  }

  lemma Reports()
    ensures Report(GREEN, TEST) == Some(REPORT)
  {
  }

  lemma SuiteIs()
    ensures SuiteOf(TEST) == "s"
  {
    assert !StartsSeparator(TEST, 0) && StartsSeparator(TEST, 1);
    assert SeparatorAt(TEST, 1) == 1;
    assert SeparatorAt(TEST, 0) == 1;
    assert TEST[..1] == "s";
  }

  lemma FactsAreUsable()
    ensures FactsUsable(GREEN)
  {
    hide HeadPresent, HeadSkipped, BasePassing, Find, SetsUsable;
    Sets();
    Reports();
    assert GREEN.observed.runs[0] == FAILED_RUN && HeadRun(GREEN, 0);
    assert GREEN.manifest.tests[0].id == TEST;
    assert RunUsable(GREEN, FAILED_RUN);
  }

  lemma RulesAreUsable()
    ensures RulesUsable(GREEN)
  {
    hide HeadPresent, HeadSkipped, Find;
    Sets();
    Reports();
    assert MANIFEST.files[0].path == FILE && INTEGRITY.facts.files[0].path == FILE;
    assert Ingest.Paths(MANIFEST.files) == {FILE};
    assert ListsFile(INTEGRITY.facts.files, FILE);
    assert GREEN.manifest.tests[0].id == TEST;
  }

  lemma NothingIsWrong()
    ensures Flawless(GREEN)
  {
    hide HeadPresent, HeadSkipped, BasePassing, Find, SuiteOf;
    Sets();
    Reports();
    SuiteIs();
    assert GREEN.observed.runs[0] == FAILED_RUN && HeadRun(GREEN, 0);
    assert Ran(GREEN, "s");
    assert GREEN.manifest.tests[0].id == TEST && GREEN.observed.tests[0].id == TEST;
    assert TEST in ManifestIds(GREEN.manifest.tests);
    assert Replayed(IsolationTests(GREEN), TEST) == Some(Passed);
    assert Reproduced(GREEN, TEST);
    assert !Drops(GREEN, FAILED_RUN);
  }

  /** The verdict is green_pass although the head run exited with code 1. */
  lemma FailedRunInGreenPass()
    ensures Passes(VerdictOf(GREEN))
    ensures HeadRun(GREEN, 0) && GREEN.observed.runs[0].exitCode == 1 && Failing(GREEN.observed.runs[0].counts) == -1
  {
    hide VerdictOf, FactsUsable, RulesUsable, Flawless;
    FactsAreUsable();
    RulesAreUsable();
    NothingIsWrong();
    GreenPassIff(GREEN);
  }
}
