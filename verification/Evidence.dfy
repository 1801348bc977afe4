/**
  The documents the verifier judges: observed runs and tests, id sets, manifests
  (src/internal/verify/redtypes.go, green.go, generations.go and red.go).

  Text carried by the documents is a sequence of characters; the values the library itself
  interprets are constructors, with one more for a value it does not know.
 */
module Evidence {

  import opened Wrappers
  import opened GlobLanguage
  import opened Ordering

  datatype Status = Passed | FailedAssertion | FailedError | Stub | Skipped | Absent | Unknown

  predicate IsFailure(s: Status) {
    s == FailedAssertion || s == FailedError || s == Stub
  }

  datatype Side = BaseTree | HeadTree | OtherTree

  datatype Counts = Counts(failedAssertion: int, failedError: int, stub: int)

  datatype Run = Run(
    side: Side, commit: string, suite: string, exitCode: int, timedOut: bool, buildFailed: bool, reportFound: bool,
    counts: Counts)

  datatype Test = Test(id: string, suite: string, file: Text, base: Status, head: Status)

  datatype Phase = RedPhase | GreenPhase | OtherPhase

  datatype Subject = Tests | OtherSubject

  /** A recorded id set: its declared count and the decoded lines, if the payload decodes and matches its digest. */
  datatype IdSet = IdSet(count: int, lines: Option<seq<string>>)

  datatype IdSets = IdSets(
    basePassing: Option<IdSet>, baseSkipped: Option<IdSet>, headPresent: Option<IdSet>, headSkipped: Option<IdSet>)

  datatype Observation = Observation(
    taskId: string, repository: string, phase: Phase, subject: Subject, baseSha: string, headSha: string,
    validationBlob: string, runs: seq<Run>, tests: seq<Test>, truncated: bool, sets: Option<IdSets>)

  datatype CriterionKind = ChangeKind | PreservationKind | OtherCriterionKind

  datatype FileClass = TestClass | FixtureClass | TestInfraClass | StubClass | JudgeClass | OtherClass | UnknownClass

  datatype FileChange = FileAdded | FileChanged | FileRemoved | FileMoved | UnknownChange

  datatype ManifestFile = ManifestFile(path: Text, blob: string, cls: FileClass, change: FileChange)

  datatype TestKind = NewTest | ModifiedTest | OtherTestKind

  datatype ManifestTest = ManifestTest(id: string, suite: string, kind: TestKind, acs: seq<string>, redStatus: Status)

  datatype AcMapping = AcMapping(ac: string, kind: CriterionKind, tests: seq<string>)

  datatype Shape = ZeroValue | Panic | OtherShape

  datatype ManifestStub = ManifestStub(path: Text, symbol: string, marker: string, shape: Shape, language: string,
    acs: seq<string>)

  datatype Manifest = Manifest(
    taskId: string, repository: string, generation: int, baseCommit: string, testCommit: string, digest: string,
    files: seq<ManifestFile>, tests: seq<ManifestTest>, mapping: seq<AcMapping>, stubs: seq<ManifestStub>,
    wholeFiles: seq<Text>)

  // ---------------------------------------------------------------------- test ids

  predicate StartsSeparator(id: string, i: nat) {
    i + 1 < |id| && id[i] == ':' && id[i + 1] == ':'
  }

  /** The position of the first `::`, or the length of the id. */
  function SeparatorAt(id: string, from: nat): (i: nat)
    requires from <= |id|
    ensures from <= i <= |id|
    decreases |id| - from
  {
    if from == |id| || StartsSeparator(id, from) then from else SeparatorAt(id, from + 1)
  }

  /** The part before the first `::`; empty when there is none. */
  function SuiteOf(id: string): string {
    var i := SeparatorAt(id, 0);
    if i == |id| then "" else id[..i]
  }

  /** A declared name stands for an id that is the name, or ends with it behind `::`. */
  predicate Names(name: string, id: string) {
    id == name || (|id| >= |name| + 2 && id[|id| - |name| - 2..] == "::" + name)
  }

  // ------------------------------------------------------------- reports and id sets

  /** The last report of the id. */
  function Find(tests: seq<Test>, id: string): Option<Test>
    decreases |tests|
  {
    if tests == [] then None
    else if tests[|tests| - 1].id == id then Some(tests[|tests| - 1])
    else Find(tests[..|tests| - 1], id)
  }

  lemma {:induction false} FindIsThere(tests: seq<Test>, id: string)
    ensures Find(tests, id).Some? ==> Find(tests, id).value in tests && Find(tests, id).value.id == id
    decreases |tests|
  {
    if tests != [] && tests[|tests| - 1].id != id {
      FindIsThere(tests[..|tests| - 1], id);
    }
  }

  lemma NothingFound()
    ensures forall id :: Find([], id) == None
  {
  }

  lemma FindStep(tests: seq<Test>, i: nat, id: string)
    requires i < |tests|
    ensures Find(tests[..i + 1], id) == if tests[i].id == id then Some(tests[i]) else Find(tests[..i], id)
  {
    assert tests[..i + 1][..i] == tests[..i];
  }

  predicate UniqueIds(tests: seq<Test>) {
    forall i, j :: 0 <= i < j < |tests| ==> tests[i].id != tests[j].id
  }

  lemma {:induction false} FindUnique(tests: seq<Test>, i: nat)
    requires UniqueIds(tests) && i < |tests|
    ensures Find(tests, tests[i].id) == Some(tests[i])
    decreases |tests|
  {
    if i < |tests| - 1 {
      var front := tests[..|tests| - 1];
      assert front[i] == tests[i];
      FindUnique(front, i);
    }
  }

  /** The ids of a recorded set, or None when it cannot be used. */
  function Decoded(s: Option<IdSet>): Option<set<string>> {
    if s.None? || s.value.lines.None? then None
    else if |s.value.lines.value| != s.value.count || !Ascending(s.value.lines.value) then None
    else Some(Elements(s.value.lines.value))
  }

  function IdsOf(s: Option<IdSet>): set<string> {
    if Decoded(s).Some? then Decoded(s).value else {}
  }

  function SetsOf(o: Observation): IdSets {
    if o.sets.Some? then o.sets.value else IdSets(None, None, None, None)
  }

  /** A usable set holds as many different ids as its count says. */
  lemma DecodedCount(s: Option<IdSet>)
    requires Decoded(s).Some?
    ensures |Decoded(s).value| == s.value.count
  {
    var ids := s.value.lines.value;
    forall i, j | 0 <= i < j < |ids| ensures ids[i] != ids[j] {
      AscendingOrder(ids, i, j);
      LessIsStrict(ids[i]);
    }
    DistinctCount(ids);
  }

  method DecodeIdSet(s: Option<IdSet>) returns (r: Option<set<string>>)
    ensures r == Decoded(s)
    ensures r.Some? ==> |r.value| == s.value.count
  {
    if s.None? || s.value.lines.None? || |s.value.lines.value| != s.value.count {
      return None;
    }
    var ids := s.value.lines.value;
    var out: set<string> := {};
    for i := 0 to |ids|
      invariant forall k :: 0 < k < i ==> Less(ids[k - 1], ids[k])
      invariant out == Elements(ids[..i])
    {
      if i > 0 && !Less(ids[i - 1], ids[i]) {
        return None;
      }
      out := out + {ids[i]};
      assert ids[..i + 1] == ids[..i] + [ids[i]];
      ElementsAppend(ids[..i], ids[i]);
    }
    assert ids[..|ids|] == ids;
    r := Some(out);
    DecodedCount(s);
  }

  // ------------------------------------------------------------------ commit ids

  predicate IsObjectId(s: string) {
    |s| == 40 && forall i :: 0 <= i < |s| ==> '0' <= s[i] <= '9' || 'a' <= s[i] <= 'f'
  }

  // ----------------------------------------------------------------- reason lists

  /** Each element once, at its first place. */
  function Unique<T(==)>(xs: seq<T>): seq<T>
    decreases |xs|
  {
    if xs == [] then []
    else
      var before, x := Unique(xs[..|xs| - 1]), xs[|xs| - 1];
      if x in before then before else before + [x]
  }

  method AppendUnique<T(==)>(dst: seq<T>, more: seq<T>, ghost xs: seq<T>) returns (r: seq<T>)
    requires dst == Unique(xs)
    ensures r == Unique(xs + more)
  {
    r := dst;
    assert xs + more[..0] == xs;
    for i := 0 to |more|
      invariant r == Unique(xs + more[..i])
    {
      assert (xs + more[..i + 1])[..|xs| + i] == xs + more[..i];
      if more[i] !in r {
        r := r + [more[i]];
      }
    }
    assert more[..|more|] == more;
  }

  /** The same elements, none of them twice. */
  lemma {:induction false} UniqueElements<T>(xs: seq<T>)
    ensures forall x :: x in Unique(xs) <==> x in xs
    ensures forall i, j :: 0 <= i < j < |Unique(xs)| ==> Unique(xs)[i] != Unique(xs)[j]
    decreases |xs|
  {
    if xs != [] {
      UniqueElements(xs[..|xs| - 1]);
      assert xs == xs[..|xs| - 1] + [xs[|xs| - 1]];
    }
  }
}
