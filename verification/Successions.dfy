/**
  Strengthened generations, each with the manifest built from the one before: protected files
  and tests stay in every manifest, and the files lose nothing
  (src/internal/verify/generations_struct.go, generations_rules.go and manifest.go).
 */
module Successions {

  import opened Wrappers
  import opened GlobLanguage
  import opened Ordering
  import opened Evidence
  import opened Red
  import opened RedMeaning
  import opened Generations
  import opened Manifests
  import GoShape

  // ---------------------------------------------------- what a built manifest holds

  lemma {:induction false} OtherFilesHold(previous: seq<ManifestFile>, scope: seq<ManifestFile>, p: Text)
    requires HasPath(previous, p) && !HasPath(scope, p)
    ensures HasPath(OtherFiles(previous, scope), p)
    decreases |previous|
  {
    var front, f := previous[..|previous| - 1], previous[|previous| - 1];
    var before, all := OtherFiles(front, scope), OtherFiles(previous, scope);
    if f.path == p {
      assert all[|before|] == f;
    } else {
      var i :| 0 <= i < |previous| && previous[i].path == p;
      assert front[i].path == p;
      OtherFilesHold(front, scope, p);
      var k :| 0 <= k < |before| && before[k].path == p;
      assert all[k] == before[k];
    }
  }

  /** The files of a manifest hold every path of the previous one. */
  lemma FilesHoldPrevious(changed: seq<ChangedFile>, previous: seq<ManifestFile>, p: Text)
    requires HasPath(previous, p)
    ensures HasPath(FilesOf(changed, previous), p)
  {
    hide ScopeFiles, OtherFiles;
    var scope, all := ScopeFiles(changed, previous), FilesOf(changed, previous);
    var others := OtherFiles(previous, scope);
    if HasPath(scope, p) {
      var i :| 0 <= i < |scope| && scope[i].path == p;
      assert all[i] == scope[i];
    } else {
      OtherFilesHold(previous, scope, p);
      var i :| 0 <= i < |others| && others[i].path == p;
      assert all[|scope| + i] == others[i];
    }
  }

  lemma {:induction false} KeptHolds(previous: seq<ManifestTest>, ids: set<string>, present: set<string>, id: string)
    requires HasId(previous, id) && id !in ids && id in present
    ensures HasId(Kept(previous, ids, present), id)
    decreases |previous|
  {
    var front, t := previous[..|previous| - 1], previous[|previous| - 1];
    assert previous == front + [t];
    HasIdAppend(front, t, id);
    HasIdAppend(Kept(front, ids, present), t, id);
    assert Kept(front, ids, present) + [] == Kept(front, ids, present);
    if HasId(front, id) {
      KeptHolds(front, ids, present, id);
    }
  }

  lemma {:induction false} BuiltTestsHold(r: RedInput, acs: AcMap, order: seq<string>, id: string)
    requires id in order
    ensures HasId(BuiltTests(r, acs, order), id)
    decreases |order|
  {
    hide BuiltTest;
    var front, last := order[..|order| - 1], order[|order| - 1];
    assert order == front + [last];
    HasIdAppend(BuiltTests(r, acs, front), BuiltTest(r, acs, last), id);
    BuiltTestId(r, acs, last);
    if id != last {
      BuiltTestsHold(r, acs, front, id);
    }
  }

  lemma BuiltTestId(r: RedInput, acs: AcMap, id: string)
    ensures BuiltTest(r, acs, id).id == id
  {
  }

  lemma HasIdConcat(a: seq<ManifestTest>, b: seq<ManifestTest>, id: string)
    requires HasId(a, id) || HasId(b, id)
    ensures HasId(a + b, id)
  {
    if HasId(a, id) {
      var i :| 0 <= i < |a| && a[i].id == id;
      assert (a + b)[i] == a[i];
    } else {
      var i :| 0 <= i < |b| && b[i].id == id;
      assert (a + b)[|a| + i] == b[i];
    }
  }

  /** The built tests hold every previous test that is still present. */
  lemma TestsHoldPrevious(r: RedInput, newTests: set<string>, previous: seq<ManifestTest>, id: string)
    requires ManifestTestsOf(r, newTests, previous).Some? && HasId(previous, id) && id in HeadPresent(r)
    ensures HasId(ManifestTestsOf(r, newTests, previous).value, id)
  {
    hide BuiltTests, Kept, Order, NoteCriteria, Protected, HeadPresent, AllRecordable, Decoded;
    var ids := Sorted(Protected(r, newTests));
    var order, acs := Order(r, ids), NoteCriteria(r, |r.criteria|, ids);
    if id in Elements(order) {
      BuiltTestsHold(r, acs, order, id);
    } else {
      KeptHolds(previous, Elements(order), HeadPresent(r), id);
    }
    HasIdConcat(BuiltTests(r, acs, order), Kept(previous, Elements(order), HeadPresent(r)), id);
  }

  /** A manifest built for a valid strengthened generation holds every path and every test of the previous one. */
  lemma BuiltHoldsPrevious(g: GenInput, b: BuildInput)
    requires IsValid(GenVerdictOf(g)) && g.opening == Strengthened && BuildsFor(b, g) && BuildOf(b).Some?
    ensures forall p :: HasPath(PreviousFiles(g), p) ==> HasPath(BuildOf(b).value.files, p)
    ensures forall id :: HasId(PreviousTests(g), id) ==> HasId(BuildOf(b).value.tests, id)
  {
    hide GenVerdictOf, ManifestTestsOf, FilesOf, HeadPresent, DeclaredResolved, KeepsFile, HasContent, ItemsOk,
      SizesOk, MappingOf, StubsOf, HasPath, PreviousPaths;
    StrengthenedKeepsPrevious(g);
    forall p | HasPath(PreviousFiles(g), p) ensures HasPath(BuildOf(b).value.files, p) {
      FilesHoldPrevious(g.red.changed, PreviousFiles(g), p);
    }
    forall id | HasId(PreviousTests(g), id) ensures HasId(BuildOf(b).value.tests, id) {
      TestsHoldPrevious(g.red, Elements(b.verdict.newTests), PreviousTests(g), id);
    }
  }

  // -------------------------------------------------------------------- successions

  /** The previous manifest holds the files and tests of the built one. */
  predicate TakesOver(previous: Option<Manifest>, m: Items) {
    previous.Some? && previous.value.files == m.files && previous.value.tests == m.tests
  }

  /** Valid strengthened generations, each judged against the manifest built from the one before. */
  ghost predicate Succession(gs: seq<GenInput>, bs: seq<BuildInput>) {
    && |gs| == |bs| >= 1
    && (forall k :: 0 <= k < |gs| ==>
          IsValid(GenVerdictOf(gs[k])) && gs[k].opening == Strengthened && BuildsFor(bs[k], gs[k])
            && BuildOf(bs[k]).Some?)
    && (forall k :: 0 < k < |gs| ==> TakesOver(gs[k].previous, BuildOf(bs[k - 1]).value))
  }

  /** Every path and test of the first previous manifest is in every later one. */
  lemma {:induction false} PreviousStays(gs: seq<GenInput>, bs: seq<BuildInput>, k: nat)
    requires Succession(gs, bs) && k < |gs|
    ensures forall p :: HasPath(PreviousFiles(gs[0]), p) ==> HasPath(PreviousFiles(gs[k]), p)
    ensures forall id :: HasId(PreviousTests(gs[0]), id) ==> HasId(PreviousTests(gs[k]), id)
    decreases k
  {
    hide GenVerdictOf, IsValid, BuildOf, HasPath, HasId, BuildsFor;
    if k > 0 {
      PreviousStays(gs, bs, k - 1);
      BuiltHoldsPrevious(gs[k - 1], bs[k - 1]);
      assert TakesOver(gs[k].previous, BuildOf(bs[k - 1]).value);
    }
  }

  /** The manifest built last holds every path and every test the first generation already protected. */
  lemma SuccessionKeepsManifest(gs: seq<GenInput>, bs: seq<BuildInput>)
    requires Succession(gs, bs)
    ensures var last := BuildOf(bs[|bs| - 1]).value;
      && (forall p :: HasPath(PreviousFiles(gs[0]), p) ==> HasPath(last.files, p))
      && (forall id :: HasId(PreviousTests(gs[0]), id) ==> HasId(last.tests, id))
  {
    hide GenVerdictOf, IsValid, BuildOf, HasPath, HasId, BuildsFor;
    var n := |gs| - 1;
    PreviousStays(gs, bs, n);
    BuiltHoldsPrevious(gs[n], bs[n]);
  }

  // ------------------------------------------------------------------- the contents

  /**
    The generation sees the file at its start and at its red commit: its content entry holds both versions, the
    change list does not call it added, and without an entry in either list it is unchanged.
   */
  predicate Sees(g: GenInput, p: Text, before: Content, after: Content) {
    && (forall i :: 0 <= i < |g.testFiles| && g.testFiles[i].path == p ==>
          g.testFiles[i].base == Some(before) && (g.testFiles[i].head.Some? ==> g.testFiles[i].head == Some(after)))
    && (forall k :: 0 <= k < |g.red.changed| && g.red.changed[k].path == p ==> g.red.changed[k].change != FileAdded)
    && (!HasContent(g, p) && !ChangedPath(g.red, p) ==> before == after)
  }

  /** Both versions parse, and equal bytes parse to the same shape. */
  predicate Parses(before: Content, after: Content) {
    before.shape.Some? && after.shape.Some? && (before.bytes == after.bytes ==> before.shape == after.shape)
  }

  lemma ProtectedPathIsNotMoved(g: GenInput, k: nat)
    requires IsValid(GenVerdictOf(g)) && k < |g.red.changed|
    ensures g.red.changed[k].change == FileAdded || g.red.changed[k].change == FileChanged
  {
    hide GenVerdictOf, IsValid, GenUsable, R14, OpeningRule, Early, OutOfScope, BaseIsClean, HeadRan, NamesResolve,
      DeclaredAreNew, NewAreJudged, BaseIsKept, CriteriaHold, CriteriaUsable, SetsUsable, TestsUsable, RunsUsable,
      NewTestsUsable, NewTests;
    ValidGeneration(g);
  }

  /** A valid strengthened generation leaves a protected file as it was or adds to it. */
  lemma StepFollows(g: GenInput, p: Text, before: Content, after: Content)
    requires IsValid(GenVerdictOf(g)) && g.opening == Strengthened && p in PreviousPaths(g)
    requires Sees(g, p, before, after) && Parses(before, after)
    ensures GoShape.Follows(before.shape.value, after.shape.value)
  {
    hide GenVerdictOf, IsValid, GoShape.Keeps, HeadPresent, DeclaredResolved, PreviousPaths;
    StrengthenedKeepsPrevious(g);
    if HasContent(g, p) {
      var i :| 0 <= i < |g.testFiles| && g.testFiles[i].path == p;
      assert KeepsFile(Strict, g.testFiles[i]);
    } else {
      forall k | 0 <= k < |g.red.changed| ensures g.red.changed[k].path != p {
        ProtectedPathIsNotMoved(g, k);
      }
    }
  }

  lemma PathIsPrevious(g: GenInput, p: Text)
    ensures p in PreviousPaths(g) <==> HasPath(PreviousFiles(g), p)
  {
  }

  /** The versions of the file, one more than generations. */
  ghost predicate Versions(gs: seq<GenInput>, p: Text, contents: seq<Content>) {
    && |contents| == |gs| + 1
    && (forall k :: 0 <= k < |gs| ==>
          Sees(gs[k], p, contents[k], contents[k + 1]) && Parses(contents[k], contents[k + 1]))
    && (forall j, k :: 0 <= j < k < |contents| ==>
          contents[j].shape.Some? && contents[k].shape.Some?
          && GoShape.PlainByText(contents[j].shape.value, contents[k].shape.value))
  }

  /**
    Along any succession of strengthened generations, every declaration, import and header that a file of the first
    manifest has at the start survives to the last red commit.
   */
  lemma StrengthenedGenerationsLoseNothing(gs: seq<GenInput>, bs: seq<BuildInput>, p: Text, contents: seq<Content>)
    requires Succession(gs, bs) && HasPath(PreviousFiles(gs[0]), p) && Versions(gs, p, contents)
    ensures contents[0].shape.Some? && contents[|gs|].shape.Some?
    ensures GoShape.LosesNothing(contents[0].shape.value, contents[|gs|].shape.value)
  {
    hide GenVerdictOf, IsValid, BuildOf, BuildsFor, HasPath, HasId, GoShape.LosesNothing, GoShape.PlainByText,
      GoShape.Follows, Sees, TakesOver, PreviousPaths;
    var shapes := seq(|contents|, i requires 0 <= i < |contents| => Shape(contents[i]));
    forall k | 0 <= k < |shapes| ensures contents[k].shape == Some(shapes[k]) {
      if k < |gs| {
        assert Parses(contents[k], contents[k + 1]);
      } else {
        assert Parses(contents[k - 1], contents[k - 1 + 1]);
      }
    }
    forall k | 0 <= k < |shapes| - 1 ensures GoShape.Follows(shapes[k], shapes[k + 1]) {
      PreviousStays(gs, bs, k);
      PathIsPrevious(gs[k], p);
      StepFollows(gs[k], p, contents[k], contents[k + 1]);
    }
    GoShape.ChainLosesNothing(shapes);
  }

  function Shape(c: Content): GoShape.Shape {
    if c.shape.Some? then c.shape.value else GoShape.Shape("", [], [], [])
  }
}
