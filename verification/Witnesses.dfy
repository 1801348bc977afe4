/**
  Concrete documents: a valid red with an unreported test, a valid strengthened generation with
  the manifest built from it, and a passing green with a head run that failed
  (src/internal/verify/red.go, generations_rules.go, manifest.go and green_classify.go).
 */
module Witnesses {

  import opened Wrappers
  import opened GlobLanguage
  import opened Ordering
  import opened Evidence
  import opened Red
  import opened RedMeaning
  import opened Generations
  import opened Manifests
  import opened Successions
  import GoShape

  const AC := "AC-1"
  const OLD_TEST := "a"
  const NEW_TEST := "s::T"
  const FILE: Text := [116]

  // ------------------------------------------------------------------- a valid red

  const BASE_RUN := Run(BaseTree, "b", "s", 0, false, false, true, Counts(0, 0, 0))
  const HEAD_RUN := Run(HeadTree, "h", "s", 1, false, false, true, Counts(1, 0, 0))
  const REPORT := Test(NEW_TEST, "s", FILE, Absent, FailedAssertion)

  const SETS := IdSets(
    Some(IdSet(1, Some([OLD_TEST]))), Some(IdSet(0, Some([]))), Some(IdSet(2, Some([OLD_TEST, NEW_TEST]))), None)

  /** Only the new test is reported, and the report is complete. */
  const OBSERVED := Observation("task", "repo", RedPhase, Tests, "b", "h", "v", [BASE_RUN, HEAD_RUN], [REPORT], false,
    Some(SETS))

  const CHANGED := ChangedFile(FILE, FileChanged, TestClass, "blob")

  const RED := RedInput(
    true, "v", OBSERVED, [CHANGED], [], map[AC := [NEW_TEST]], [Criterion(AC, ChangeKind)], map[], map[], Some({}),
      Some(0), Some([]))

  lemma TestsDiffer()
    ensures OLD_TEST != NEW_TEST && Less(OLD_TEST, NEW_TEST)
  {
    assert OLD_TEST[0] < NEW_TEST[0];
  }

  lemma RedSets()
    ensures SetsUsable(RED)
    ensures BasePassing(RED) == {OLD_TEST} && BaseSkipped(RED) == {} && HeadPresent(RED) == {OLD_TEST, NEW_TEST}
  {
    hide Less;
    TestsDiffer();
    var ids := [OLD_TEST, NEW_TEST];
    assert ids[0] == OLD_TEST && ids[1] == NEW_TEST;
    assert Elements(ids) == {OLD_TEST, NEW_TEST};
    assert Elements([OLD_TEST]) == {OLD_TEST};
  }

  lemma RedReports()
    ensures Report(RED, NEW_TEST) == Some(REPORT) && Report(RED, OLD_TEST) == None
  {
    TestsDiffer();
    assert RED.observed.tests[..0] == [];
    assert Find(RED.observed.tests[..0], OLD_TEST) == None;
  }

  lemma RedResolves()
    ensures Declared(RED, AC) == [NEW_TEST] && Resolved(RED, AC) == {NEW_TEST} && DeclaredResolved(RED) == {NEW_TEST}
    ensures Discovered(RED, NEW_TEST)
  {
    hide HeadPresent;
    RedSets();
    TestsDiffer();
    assert Names(NEW_TEST, NEW_TEST) && !Names(NEW_TEST, OLD_TEST);
    assert NamedBy([NEW_TEST], NEW_TEST) by {
      assert [NEW_TEST][0] == NEW_TEST;
    }
    assert !NamedBy([NEW_TEST], OLD_TEST);
    assert RED.criteria[0].id == AC;
    assert ResolvedBySome(RED, NEW_TEST);
  }

  lemma RedNewTests()
    ensures Modified(RED) == {} && NewTests(RED) == {NEW_TEST}
  {
    hide HeadPresent, BasePassing, BaseSkipped, DeclaredResolved, Find;
    RedSets();
    RedReports();
    RedResolves();
    TestsDiffer();
  }

  lemma RedIsUsable()
    ensures Usable(RED)
  {
    hide NewTests, Find, SetsUsable;
    RedSets();
    RedReports();
    RedNewTests();
    assert RED.criteria[0] == Criterion(AC, ChangeKind);
    assert RED.observed.runs[0].side == BaseTree && RED.observed.runs[1].side == HeadTree;
    assert RunOf(RED, BaseTree, 0);
    assert IsCriterion(RED, AC);
  }

  lemma RedRuns()
    ensures BaseIsClean(RED) && HeadRan(RED) && ScopeIsClean(RED)
  {
    assert RED.observed.runs[0] == BASE_RUN && RED.observed.runs[1] == HEAD_RUN;
    assert RunOf(RED, HeadTree, 1);
  }

  lemma RedIsValidSound()
    ensures RedIsSound(RED)
  {
    hide NewTests, Find, BasePassing, HeadPresent, Resolved, DeclaredResolved, Discovered, ScopeIsClean, BaseIsClean,
      HeadRan, Modified;
    RedRuns();
    RedSets();
    RedReports();
    RedResolves();
    RedNewTests();
    TestsDiffer();
    assert HasFailing(RED, AC) by {
      assert FailsAsReported(RED, NEW_TEST);
    }
  }

  /** A complete report leaves out a test that passed at the base and is present, and the red is valid. */
  lemma UnreportedTestInValidRed()
    ensures IsValid(VerdictOf(RED, Some([]), Some([])))
    ensures !RED.observed.truncated && OLD_TEST in BasePassing(RED) && OLD_TEST !in Modified(RED)
    ensures Report(RED, OLD_TEST).None? && HeadStatus(RED, OLD_TEST) == Passed
  {
    hide VerdictOf, Usable, RedIsSound, BasePassing, HeadPresent, Find, Modified;
    RedIsUsable();
    RedIsValidSound();
    RedValidIff(RED, Some([]), Some([]));
    RedSets();
    RedReports();
    RedNewTests();
    TestsDiffer();
  }

  // ------------------------------------------------------- a strengthened generation

  const TEST_DECL := GoShape.Decl("T", "func T")
  const MORE_DECL := GoShape.Decl("U", "func U")
  const BEFORE := GoShape.Shape("package p", [], [], [TEST_DECL])
  const AFTER := GoShape.Shape("package p", [], [], [TEST_DECL, MORE_DECL])

  const CONTENT := TestFile(FILE, true, true, Some(Content("1", Some(BEFORE))), Some(Content("2", Some(AFTER))))

  const RECORDED := ManifestTest(NEW_TEST, "s", NewTest, [AC], FailedAssertion)

  const PREVIOUS := Manifest(
    "task", "repo", 1, "b", "h", "d", [ManifestFile(FILE, "old", TestClass, FileAdded)], [RECORDED],
      [AcMapping(AC, ChangeKind, [NEW_TEST])],
    [], [])

  const LIMITS := Limits(
    (p: Text) => true, (s: string) => true, (s: string) => true, (s: string) => true, (s: string) => true,
      (s: string) => true,
    (s: string) => true, (s: string) => true, (s: string) => true)

  /** The file of the previous manifest gains a function. */
  const GEN := GenInput(
    RED, Strengthened, [], Some(PREVIOUS), [CONTENT], Some(Generations.Repeats(1, [], [])), Some(1),
      (id: string) => id, Some([]), LIMITS)

  lemma AddedFunctionKeeps()
    ensures GoShape.Keeps(BEFORE, AFTER, {}, false)
  {
    assert AFTER.decls[..1] == [TEST_DECL] && BEFORE.decls[..0] == [] && [TEST_DECL][..0] == [];
    assert TEST_DECL.key != MORE_DECL.key by {
      assert "T"[0] != "U"[0];
    }
    assert GoShape.Funcs([TEST_DECL]) == map["T" := "func T"];
    assert GoShape.Funcs(AFTER.decls) == map["T" := "func T", "U" := "func U"];
    assert GoShape.Unkeyed([TEST_DECL]) == multiset{};
  }

  lemma GenIsUsable()
    ensures GenUsable(GEN)
  {
    assert GEN.testFiles[0] == CONTENT && GEN.red.changed[0] == CHANGED;
  }

  lemma PreviousPathsAre()
    ensures PreviousPaths(GEN) == {FILE} && PreviousTests(GEN) == [RECORDED] && PreviousFiles(GEN) == PREVIOUS.files
  {
    assert PREVIOUS.files[0].path == FILE;
  }

  lemma EarlyIsClean()
    ensures Early(GEN) == Some([])
  {
    hide GoShape.Keeps, Find, HeadPresent;
    PreviousPathsAre();
    RedReports();
    RedSets();
    assert GEN.testFiles[0] == CONTENT && HasContent(GEN, FILE);
    assert !SomeTestFileMissing(GEN);
    assert forall id :: id in HeadIds(GEN) ==> id == OLD_TEST || id == NEW_TEST;
    assert HasFile(GEN, NEW_TEST);
    assert !MappedToChange(GEN, OLD_TEST) by {
      TestsDiffer();
      assert GEN.red.criteria[0].id == AC && Declared(RED, AC) == [NEW_TEST];
      assert !Names(NEW_TEST, OLD_TEST);
    }
  }

  lemma OpeningIsClean()
    ensures OpeningRule(GEN) == Some([])
  {
    hide GoShape.Keeps, Find, HeadPresent, DeclaredResolved, PreviousPaths;
    PreviousPathsAre();
    RedReports();
    RedResolves();
    RedSets();
    AddedFunctionKeeps();
    assert GEN.testFiles[0] == CONTENT && HasContent(GEN, FILE);
    assert KeepsFile(Strict, CONTENT);
  }

  lemma NewTestIs()
    ensures Sorted(NewTests(RED)) == [NEW_TEST] && TestOf(RED, NEW_TEST) == RECORDED
  {
    hide NewTests, Find, HeadPresent;
    RedNewTests();
    RedReports();
    assert Elements([NEW_TEST]) == {NEW_TEST} by {
      assert [NEW_TEST][0] == NEW_TEST;
    }
    AscendingIsUnique(Sorted({NEW_TEST}), [NEW_TEST]);
    assert DeclaredAcs(RED, NEW_TEST) == [AC] by {
      assert RED.criteria[0].id == AC;
      assert NamedBy(Declared(RED, AC), NEW_TEST) by {
        assert Declared(RED, AC)[0] == NEW_TEST;
        assert Names(NEW_TEST, NEW_TEST);
      }
      assert AcsNaming(RED, 0, NEW_TEST) == [];
      assert AcsNaming(RED, 1, NEW_TEST) == [AC];
      assert [AC][..0] == [] && Unique([AC][..0]) == [];
    }
  }

  lemma CheckedTestsAre()
    ensures R14Tests(GEN) == [RECORDED]
  {
    hide NewTests, TestOf, HeadPresent;
    NewTestIs();
    RedNewTests();
    PreviousPathsAre();
    assert [NEW_TEST][..0] == [] && [RECORDED][..0] == [];
    assert TestsOf(RED, [NEW_TEST]) == [RECORDED];
    assert Carried([RECORDED], {NEW_TEST}, HeadPresent(RED)) == [];
  }

  lemma CheckedFilesAre()
    ensures FilesOf([CHANGED], PREVIOUS.files) == [ManifestFile(FILE, "blob", TestClass, FileAdded)]
  {
    var file := ManifestFile(FILE, "blob", TestClass, FileAdded);
    assert [CHANGED][..0] == [] && PREVIOUS.files[..0] == [];
    assert ScopeFiles([CHANGED], PREVIOUS.files) == [file];
    assert [file][0] == file;
    assert HasPath([file], FILE);
    assert OtherFiles(PREVIOUS.files, [file]) == [];
  }

  lemma SizesAreClean()
    ensures R14(GEN) == Some([])
  {
    hide R14Tests, FilesOf;
    CheckedTestsAre();
    CheckedFilesAre();
    PreviousPathsAre();
    assert [RECORDED][..0] == [] && RED.criteria[..0] == [];
    assert Carrying([RECORDED], AC) == [NEW_TEST];
    assert MappingOf(RED.criteria, [RECORDED]) == [AcMapping(AC, ChangeKind, [NEW_TEST])];
    assert ListBytes([RECORDED]) == 9;
    assert Mapped(RED, 1) == 1 by {
      assert Mapped(RED, 0) == 0;
      assert Declared(RED, RED.criteria[0].id) == [NEW_TEST];
    }
  }

  /** The generation is valid and meets the conditions of the agreement between R14 and the builder. */
  lemma GenerationIsValid()
    ensures IsValid(GenVerdictOf(GEN)) && BaseIsConsistent(GEN.red) && UniqueTests(PreviousTests(GEN))
    ensures GEN.opening == Strengthened
  {
    hide VerdictOf, Usable, RedIsSound, Early, OpeningRule, R14, GenUsable, HeadPresent, BasePassing, BaseSkipped,
      Modified, HeadOk;
    GenIsUsable();
    RedIsUsable();
    RedIsValidSound();
    EarlyIsClean();
    OpeningIsClean();
    SizesAreClean();
    SoundHasHead(RED);
    assert R11b(GEN).Some? && R11b(GEN).value == [];
    assert Both(Both(R11b(GEN), OpeningRule(GEN)), R14(GEN)).value == [];
    assert Late(GEN) == Some([]);
    RedValidIff(RED, Some([]), Some([]));
    RedSets();
    TestsDiffer();
    PreviousPathsAre();
  }

  ghost function BuildInputFor(g: GenInput): BuildInput {
    BuildInput(g.red, GenVerdictOf(g), g.previous, g.testPaths, g.limits, true, true)
  }

  /** And its manifest can be built. */
  lemma ManifestIsBuilt()
    ensures IsValid(GenVerdictOf(GEN)) && BuildsFor(BuildInputFor(GEN), GEN) && BuildOf(BuildInputFor(GEN)).Some?
  {
    hide GenVerdictOf, IsValid, BuildOf, FilesOf, BaseIsConsistent;
    GenerationIsValid();
    BuildSucceedsIff(GEN, BuildInputFor(GEN));
    CheckedFilesAre();
    PreviousPathsAre();
  }

  /** So the conditions on successions of generations can be met. */
  lemma SuccessionExists()
    ensures Succession([GEN], [BuildInputFor(GEN)]) && HasPath(PreviousFiles(GEN), FILE)
    ensures Versions([GEN], FILE, [CONTENT.base.value, CONTENT.head.value])
  {
    hide GenVerdictOf, IsValid, BuildOf, BuildsFor;
    ManifestIsBuilt();
    GenerationIsValid();
    PreviousPathsAre();
    PathIsPrevious(GEN, FILE);
    assert GEN.testFiles[0] == CONTENT && GEN.red.changed[0] == CHANGED;
    assert HasContent(GEN, FILE);
  }
}
