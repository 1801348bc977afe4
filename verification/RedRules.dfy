/**
  The RED classifier as it runs: facts loaded into maps and sets, declared names resolved,
  then the rules in order (src/internal/verify/red.go).
 */
module RedRules {

  import opened Wrappers
  import opened GlobLanguage
  import opened Ordering
  import opened Evidence
  import opened Red
  import Ingest

  class RedCheck {
    const r: RedInput
    var reported: map<string, Test>
    var basePassing: set<string>
    var baseSkipped: set<string>
    var headPresent: set<string>
    var changedPaths: set<Text>
    var baseRuns: seq<Run>
    var headRuns: seq<Run>
    var resolved: map<string, set<string>>
    var declaredResolved: set<string>
    var notDiscovered: bool
    var modified: set<string>
    var newTests: set<string>
    var acResults: seq<AcResult>
    var satisfied: nat
    var unsatisfied: nat
    var groups: seq<Group>

    constructor (r: RedInput)
      ensures this.r == r && groups == []
    {
      this.r := r;
      reported, basePassing, baseSkipped, headPresent, changedPaths := map[], {}, {}, {}, {};
      baseRuns, headRuns, resolved, declaredResolved, notDiscovered := [], [], map[], {}, false;
      modified, newTests, acResults, satisfied, unsatisfied, groups := {}, {}, [], 0, 0, [];
    }

    // -------------------------------------------------------------- what is loaded

    ghost predicate SetsAreLoaded()
      reads `basePassing, `baseSkipped, `headPresent
    {
      basePassing == BasePassing(r) && baseSkipped == BaseSkipped(r) && headPresent == HeadPresent(r)
    }

    ghost predicate TestsAreLoaded()
      reads `reported
    {
      forall id :: Report(r, id) == if id in reported then Some(reported[id]) else None
    }

    ghost predicate ScopeIsLoaded()
      reads `changedPaths
    {
      forall p :: p in changedPaths <==> ChangedPath(r, p)
    }

    ghost predicate IsRun(side: Side, run: Run) {
      exists i :: 0 <= i < |r.observed.runs| && RunOf(r, side, i) && r.observed.runs[i] == run
    }

    ghost predicate RunsAreLoaded()
      reads `baseRuns, `headRuns
    {
      (forall run :: run in baseRuns <==> IsRun(BaseTree, run))
        && (forall run :: run in headRuns <==> IsRun(HeadTree, run))
    }

    ghost predicate Loaded()
      reads `basePassing, `baseSkipped, `headPresent, `reported, `changedPaths, `baseRuns, `headRuns
    {
      SetsAreLoaded() && TestsAreLoaded() && ScopeIsLoaded() && RunsAreLoaded()
    }

    ghost predicate Derived()
      reads `declaredResolved, `notDiscovered, `modified, `newTests, `resolved
    {
      && declaredResolved == DeclaredResolved(r) && notDiscovered == SomeNotDiscovered(r)
      && modified == Modified(r) && newTests == NewTests(r)
      && (forall i :: 0 <= i < |r.criteria| ==>
            r.criteria[i].id in resolved && resolved[r.criteria[i].id] == Resolved(r, r.criteria[i].id))
    }

    // --------------------------------------------------------------------- loading

    method CheckCriteria() returns (ok: bool)
      ensures ok <==> CriteriaUsable(r)
    {
      var kinds: set<string> := {};
      var hasChange := false;
      for i := 0 to |r.criteria|
        invariant forall k :: 0 <= k < i ==> r.criteria[k].kind != OtherCriterionKind && r.criteria[k].id != ""
        invariant forall j, k :: 0 <= j < k < i ==> r.criteria[j].id != r.criteria[k].id
        invariant forall ac :: ac in kinds <==> exists k :: 0 <= k < i && r.criteria[k].id == ac
        invariant hasChange <==> exists k :: 0 <= k < i && r.criteria[k].kind == ChangeKind
      {
        var c := r.criteria[i];
        if c.kind == OtherCriterionKind || c.id in kinds || c.id == "" {
          return false;
        }
        kinds := kinds + {c.id};
        hasChange := hasChange || c.kind == ChangeKind;
      }
      if !hasChange {
        return false;
      }
      ok := r.declared.Keys <= kinds;
      assert ok <==> forall ac :: ac in r.declared ==> IsCriterion(r, ac);
    }

    method LoadSets() returns (ok: bool)
      modifies `basePassing, `baseSkipped, `headPresent
      ensures ok <==> SetsUsable(r)
      ensures ok ==> SetsAreLoaded()
    {
      if r.observed.sets.None? {
        return false;
      }
      hide Decoded;
      var passing := DecodeIdSet(r.observed.sets.value.basePassing);
      var skipped := DecodeIdSet(r.observed.sets.value.baseSkipped);
      var present := DecodeIdSet(r.observed.sets.value.headPresent);
      if passing.None? || skipped.None? || present.None? {
        return false;
      }
      basePassing, baseSkipped, headPresent := passing.value, skipped.value, present.value;
      ok := true;
    }

    method LoadTests() returns (ok: bool)
      modifies `reported
      ensures ok <==> TestsUsable(r)
      ensures ok ==> TestsAreLoaded()
    {
      hide Find;
      reported := map[];
      var tests := r.observed.tests;
      NothingFound();
      for i := 0 to |tests|
        invariant forall k :: 0 <= k < i ==> tests[k].head != Unknown && tests[k].base != Unknown
        invariant forall j, k :: 0 <= j < k < i ==> tests[j].id != tests[k].id
        invariant forall id :: id in reported <==> exists k :: 0 <= k < i && tests[k].id == id
        invariant forall id :: Find(tests[..i], id) == if id in reported then Some(reported[id]) else None
      {
        forall id ensures Find(tests[..i + 1], id) == if tests[i].id == id then Some(tests[i])
          else Find(tests[..i], id) {
          FindStep(tests, i, id);
        }
        if tests[i].head == Unknown || tests[i].base == Unknown || tests[i].id in reported {
          return false;
        }
        reported := reported[tests[i].id := tests[i]];
      }
      assert tests[..|tests|] == tests;
      ok := true;
    }

    method LoadScope() returns (ok: bool)
      modifies `changedPaths
      ensures ok <==> ScopeUsable(r)
      ensures ok ==> ScopeIsLoaded()
    {
      changedPaths := {};
      for i := 0 to |r.changed|
        invariant forall k :: 0 <= k < i ==> r.changed[k].change != UnknownChange && r.changed[k].cls != UnknownClass
        invariant forall p :: p in changedPaths <==> exists k :: 0 <= k < i && r.changed[k].path == p
      {
        if r.changed[i].change == UnknownChange || r.changed[i].cls == UnknownClass {
          return false;
        }
        changedPaths := changedPaths + {r.changed[i].path};
      }
      ok := true;
    }

    method LoadRuns() returns (ok: bool)
      modifies `baseRuns, `headRuns
      ensures ok <==> RunsUsable(r)
      ensures ok ==> RunsAreLoaded()
    {
      baseRuns, headRuns := [], [];
      for i := 0 to |r.observed.runs|
        invariant forall k :: 0 <= k < i ==> r.observed.runs[k].side != OtherTree
        invariant forall run :: run in baseRuns <==> exists k ::
          (0 <= k < i && RunOf(r, BaseTree, k) && r.observed.runs[k] == run)
        invariant forall run :: run in headRuns <==> exists k ::
          (0 <= k < i && RunOf(r, HeadTree, k) && r.observed.runs[k] == run)
        invariant |baseRuns| > 0 <==> exists k :: 0 <= k < i && RunOf(r, BaseTree, k)
      {
        var run := r.observed.runs[i];
        match run.side {
          case BaseTree =>
            assert RunOf(r, BaseTree, i);
            baseRuns := baseRuns + [run];
          case HeadTree =>
            assert RunOf(r, HeadTree, i);
            headRuns := headRuns + [run];
          case OtherTree =>
            return false;
        }
      }
      ok := |baseRuns| > 0;
    }

    method Load() returns (ok: bool)
      modifies this
      ensures ok <==>
        CriteriaUsable(r) && SetsUsable(r) && TestsUsable(r) && ScopeUsable(r) && PoliciesUsable(r) && RunsUsable(r)
      ensures ok ==> Loaded()
      ensures groups == old(groups)
    {
      hide CriteriaUsable, SetsUsable, TestsUsable, ScopeUsable, RunsUsable, SetsAreLoaded, TestsAreLoaded,
        ScopeIsLoaded, RunsAreLoaded;
      ok := CheckCriteria();
      if !ok {
        return;
      }
      ok := LoadSets();
      if !ok {
        return;
      }
      ok := LoadTests();
      if !ok {
        return;
      }
      ok := LoadScope();
      if !ok || !PoliciesUsable(r) {
        return false;
      }
      ok := LoadRuns();
    }

    // ------------------------------------------------------------------- resolving

    /** The ids the names stand for, and whether every name stands for one. */
    method ResolveNames(names: seq<string>, headIds: seq<string>) returns (ids: set<string>, all: bool)
      requires Elements(headIds) == HeadPresent(r)
      ensures ids == set id | id in HeadPresent(r) && NamedBy(names, id)
      ensures all <==> forall k :: 0 <= k < |names| ==> Discovered(r, names[k])
    {
      hide Names, HeadPresent;
      ids, all := {}, true;
      for k := 0 to |names|
        invariant forall id :: id in ids <==> id in HeadPresent(r) && NamedBy(names[..k], id)
        invariant all <==> forall j :: 0 <= j < k ==> Discovered(r, names[j])
      {
        ghost var before := ids;
        var found := false;
        for j := 0 to |headIds|
          invariant forall id :: id in ids <==> id in before || exists i ::
            (0 <= i < j && headIds[i] == id && Names(names[k], id))
          invariant found <==> exists i :: 0 <= i < j && Names(names[k], headIds[i])
        {
          if Names(names[k], headIds[j]) {
            ids := ids + {headIds[j]};
            found := true;
          }
        }
        NamedStep(names, k);
        assert found <==> Discovered(r, names[k]) by {
          InHeadIds(headIds);
        }
        InHeadIds(headIds);
        if !found {
          all := false;
        }
      }
      assert names[..|names|] == names;
    }

    lemma InHeadIds(headIds: seq<string>)
      requires Elements(headIds) == HeadPresent(r)
      ensures forall i :: 0 <= i < |headIds| ==> headIds[i] in HeadPresent(r)
      ensures forall id :: id in HeadPresent(r) ==> exists i :: 0 <= i < |headIds| && headIds[i] == id
    {
      hide HeadPresent;
      forall i | 0 <= i < |headIds| ensures headIds[i] in HeadPresent(r) {
        assert headIds[i] in Elements(headIds);
      }
    }

    lemma NamedStep(names: seq<string>, k: nat)
      requires k < |names|
      ensures forall id :: NamedBy(names[..k + 1], id) <==> NamedBy(names[..k], id) || Names(names[k], id)
    {
      hide Names;
      var now, before := names[..k + 1], names[..k];
      assert now[k] == names[k];
      assert forall i :: 0 <= i < k ==> now[i] == before[i];
    }

    ghost predicate ResolvedUpTo(n: nat)
      requires n <= |r.criteria|
      reads `resolved
    {
      forall i :: 0 <= i < n ==>
        r.criteria[i].id in resolved && resolved[r.criteria[i].id] == Resolved(r, r.criteria[i].id)
    }

    ghost predicate Undiscovered(ac: string) {
      exists k :: 0 <= k < |Declared(r, ac)| && !Discovered(r, Declared(r, ac)[k])
    }

    method ResolveCriterion(ac: string, headIds: seq<string>) returns (ids: set<string>, all: bool)
      requires Elements(headIds) == HeadPresent(r)
      ensures ids == Resolved(r, ac)
      ensures all <==> !Undiscovered(ac)
    {
      hide HeadPresent, NamedBy, Discovered;
      ids, all := ResolveNames(Declared(r, ac), headIds);
    }

    lemma DeclaredIff()
      ensures forall id :: id in DeclaredResolved(r) <==> exists j ::
        (0 <= j < |r.criteria| && id in Resolved(r, r.criteria[j].id))
      ensures SomeNotDiscovered(r) <==> exists j :: 0 <= j < |r.criteria| && Undiscovered(r.criteria[j].id)
    {
      hide HeadPresent, NamedBy, Discovered;
    }

    method Resolve()
      requires headPresent == HeadPresent(r)
      modifies `resolved, `declaredResolved, `notDiscovered
      ensures declaredResolved == DeclaredResolved(r) && notDiscovered == SomeNotDiscovered(r)
        && ResolvedUpTo(|r.criteria|)
    {
      hide HeadPresent, Resolved, Undiscovered, DeclaredResolved, SomeNotDiscovered;
      resolved, declaredResolved, notDiscovered := map[], {}, false;
      var headIds := SortedKeys(headPresent);
      for i := 0 to |r.criteria|
        invariant ResolvedUpTo(i)
        invariant forall id :: id in declaredResolved <==> exists j :: 0 <= j < i && id in Resolved(r, r.criteria[j].id)
        invariant notDiscovered <==> exists j :: 0 <= j < i && Undiscovered(r.criteria[j].id)
      {
        var ac := r.criteria[i].id;
        var ids, all := ResolveCriterion(ac, headIds);
        resolved := resolved[ac := ids];
        declaredResolved := declaredResolved + ids;
        notDiscovered := notDiscovered || !all;
      }
      DeclaredIff();
    }

    method IsSeen(id: string) returns (seen: bool)
      requires SetsAreLoaded() && TestsAreLoaded()
      ensures seen <==> BaseSeen(r, id)
    {
      seen := id in basePassing || id in baseSkipped || (id in reported && reported[id].base != Absent);
    }

    method FindFresh() returns (found: set<string>)
      requires SetsAreLoaded() && TestsAreLoaded()
      ensures found == Fresh(r)
    {
      hide BaseSeen, TestsAreLoaded, HeadPresent, BasePassing, BaseSkipped;
      found := {};
      var left := headPresent;
      while left != {}
        invariant left <= headPresent
        invariant forall id :: id in found <==> id in headPresent && id !in left && !BaseSeen(r, id)
        decreases |left|
      {
        var id :| id in left;
        left := left - {id};
        var seen := IsSeen(id);
        if !seen {
          found := found + {id};
        }
      }
    }

    method IsInChangedFile(id: string) returns (changed: bool)
      requires TestsAreLoaded() && ScopeIsLoaded()
      ensures changed <==> InChangedFile(r, id)
    {
      hide Find, ChangedPath;
      changed := id in reported && reported[id].file != [] && reported[id].file in changedPaths;
    }

    method FindModified() returns (found: set<string>)
      requires SetsAreLoaded() && TestsAreLoaded() && ScopeIsLoaded() && declaredResolved == DeclaredResolved(r)
      ensures found == Modified(r)
    {
      hide InChangedFile, TestsAreLoaded, ScopeIsLoaded, DeclaredResolved, BasePassing;
      found := {};
      var left := declaredResolved;
      while left != {}
        invariant left <= declaredResolved
        invariant forall id :: id in found <==>
          (id in declaredResolved && id !in left && id in BasePassing(r) && InChangedFile(r, id))
        decreases |left|
      {
        var id :| id in left;
        left := left - {id};
        var changed := IsInChangedFile(id);
        if id in basePassing && changed {
          found := found + {id};
        }
      }
    }

    method FindNew()
      requires SetsAreLoaded() && TestsAreLoaded() && ScopeIsLoaded() && declaredResolved == DeclaredResolved(r)
      modifies `modified, `newTests
      ensures modified == Modified(r) && newTests == NewTests(r)
    {
      hide Fresh, Modified, TestsAreLoaded, ScopeIsLoaded, SetsAreLoaded;
      var unseen := FindFresh();
      modified := FindModified();
      newTests := unseen + modified;
    }

    method CheckNew() returns (ok: bool)
      requires TestsAreLoaded() && newTests == NewTests(r)
      ensures ok <==> NewTestsUsable(r)
    {
      hide NewTests, Find;
      if r.observed.truncated {
        return true;
      }
      var left := newTests;
      while left != {}
        invariant left <= newTests && forall id :: id in newTests && id !in left ==> Report(r, id).Some?
        decreases |left|
      {
        var id :| id in left;
        if id !in reported {
          return false;
        }
        left := left - {id};
      }
      ok := true;
    }

    method Derive() returns (ok: bool)
      requires Loaded()
      modifies `resolved, `declaredResolved, `notDiscovered, `modified, `newTests
      ensures ok <==> NewTestsUsable(r)
      ensures Derived()
    {
      hide NewTestsUsable, TestsAreLoaded, ScopeIsLoaded, RunsAreLoaded, DeclaredResolved, SomeNotDiscovered,
        Modified, NewTests, Resolved, BasePassing, BaseSkipped, HeadPresent;
      Resolve();
      FindNew();
      ok := CheckNew();
    }

    // ------------------------------------------------------------------- statuses

    method StatusOf(id: string) returns (s: Status)
      requires SetsAreLoaded() && TestsAreLoaded()
      ensures s == HeadStatus(r, id)
    {
      if id in reported {
        return reported[id].head;
      }
      if id !in headPresent {
        return Absent;
      }
      s := if id in basePassing then Passed else Unknown;
    }

    method Judge(ids: set<string>) returns (failing: bool, passed: bool, errored: bool)
      requires SetsAreLoaded() && TestsAreLoaded()
      ensures failing == SomeFails(r, ids) && passed == SomePasses(r, ids) && errored == SomeErrs(r, ids)
    {
      hide HeadStatus, LanguageOf, PanicAllowed, SetsAreLoaded, TestsAreLoaded;
      failing, passed, errored := false, false, false;
      var left := ids;
      while left != {}
        invariant left <= ids
        invariant failing <==> exists id :: id in ids && id !in left && Fails(r, id)
        invariant passed <==> exists id :: id in ids && id !in left && HeadStatus(r, id) == Passed
        invariant errored <==> exists id :: id in ids && id !in left && Errs(r, id)
        decreases |left|
      {
        var id :| id in left;
        ghost var before := left;
        left := left - {id};
        var s := StatusOf(id);
        var fails := s == FailedAssertion || (s == Stub && PanicAllowed(r, LanguageOf(r, id)));
        failing := failing || fails;
        passed := passed || s == Passed;
        errored := errored || s == FailedError || (s == Stub && !fails);
        assert forall x :: x in ids && x !in left <==> (x in ids && x !in before) || x == id;
        assert (fails <==> Fails(r, id)) && (s == Passed <==> HeadStatus(r, id) == Passed);
        assert s == FailedError || (s == Stub && !fails) <==> Errs(r, id);
      }
    }

    method JudgeCriterion(i: int) returns (one: AcResult)
      requires Loaded() && Derived() && 0 <= i < |r.criteria|
      ensures one == AcResultOf(r, r.criteria[i])
    {
      hide TestsAreLoaded, ScopeIsLoaded, RunsAreLoaded, SetsAreLoaded, SomeFails, SomePasses, SomeErrs, Resolved,
        DeclaredResolved, Modified, NewTests, SomeNotDiscovered;
      var c := r.criteria[i];
      assert r.criteria[i].id in resolved && resolved[c.id] == Resolved(r, c.id);
      var ids := SortedKeys(resolved[c.id]);
      var failing, passed, errored := Judge(resolved[c.id]);
      one := AcResult(c.id, c.kind, ids, AcOutcomeOf(c.kind, failing, passed, errored));
    }

    method JudgeCriteria()
      requires Loaded() && Derived()
      modifies `acResults, `satisfied, `unsatisfied
      ensures acResults == AcResults(r)
      ensures satisfied > 0 <==> SomeSatisfied(r)
      ensures unsatisfied > 0 <==> SomeUnsatisfied(r)
    {
      hide Loaded, Derived, OutcomeOf;
      acResults, satisfied, unsatisfied := [], 0, 0;
      for i := 0 to |r.criteria|
        invariant |acResults| == i && forall k :: 0 <= k < i ==> acResults[k] == AcResultOf(r, r.criteria[k])
        invariant satisfied > 0 <==> exists k :: 0 <= k < i && Satisfied(r, k)
        invariant unsatisfied > 0 <==> exists k :: 0 <= k < i && Unsatisfied(r, k)
      {
        var one := JudgeCriterion(i);
        acResults := acResults + [one];
        if r.criteria[i].kind == ChangeKind {
          if one.outcome == AcFailing {
            assert Satisfied(r, i);
            satisfied := satisfied + 1;
          } else {
            assert Unsatisfied(r, i);
            unsatisfied := unsatisfied + 1;
          }
        }
      }
      assert acResults == AcResults(r);
    }

    // ------------------------------------------------------------------ R0, R1

    method Add(outcome: Outcome, reasons: seq<Reason>)
      modifies `groups
      ensures groups == old(groups) + Note(outcome, reasons)
    {
      if |reasons| > 0 {
        groups := groups + [Group(outcome, reasons)];
      }
    }

    method RuleR0()
      modifies `groups
      ensures groups == old(groups) + R0(r)
    {
      if r.observed.validationBlob == "" || r.observed.validationBlob != r.baseValidationBlob {
        Add(RedInvalid, [ConfigMismatch]);
      }
    }

    method ScopeBroken() returns (broken: bool)
      requires PoliciesUsable(r)
      ensures broken <==> SomeOutOfScope(r)
    {
      hide Ingest.MatchesAny;
      broken := false;
      for i := 0 to |r.changed|
        invariant broken <==> exists k :: 0 <= k < i && OutOfScope(r, r.changed[k])
      {
        var f := r.changed[i];
        var matched := Ingest.MatchAny(r.protectedGlobs.value, f.path);
        if f.cls == OtherClass || (f.change == FileRemoved && !IsTestSide(f.cls)) || matched {
          broken := true;
        }
      }
    }

    method StubsMalformed() returns (bad: bool)
      requires PoliciesUsable(r)
      ensures bad <==> SomeMalformed(r)
    {
      bad := |r.stubs| > r.maxStubs.value;
      ghost var many := bad;
      var stubFiles: set<Text> := {};
      for i := 0 to |r.changed|
        invariant forall p :: p in stubFiles <==> exists k ::
          (0 <= k < i && r.changed[k].cls == StubClass && r.changed[k].path == p)
      {
        if r.changed[i].cls == StubClass {
          stubFiles := stubFiles + {r.changed[i].path};
        }
      }
      var factFiles: set<Text> := {};
      for i := 0 to |r.stubs|
        invariant bad <==> many || exists k :: 0 <= k < i && BadStub(r, r.stubs[k])
        invariant forall p :: p in factFiles <==> exists k :: 0 <= k < i && r.stubs[k].path == p
      {
        var s := r.stubs[i];
        factFiles := factFiles + {s.path};
        if s.path !in stubFiles || !s.wellFormed || s.shape == OtherShape {
          bad := true;
        }
      }
      ghost var before := bad;
      for i := 0 to |r.changed|
        invariant bad <==> before || exists k ::
          (0 <= k < i && r.changed[k].cls == StubClass && !HasStub(r, r.changed[k].path))
      {
        if r.changed[i].cls == StubClass && r.changed[i].path !in factFiles {
          bad := true;
        }
      }
    }

    method RuleR1()
      requires PoliciesUsable(r)
      modifies `groups
      ensures groups == old(groups) + R1(r)
    {
      hide SomeOutOfScope, SomeMalformed;
      var scope := ScopeBroken();
      var deletion := false;
      for i := 0 to |r.changed|
        invariant deletion <==> exists k ::
          (0 <= k < i && (r.changed[k].change == FileRemoved || r.changed[k].change == FileMoved))
      {
        deletion := deletion || r.changed[i].change == FileRemoved || r.changed[i].change == FileMoved;
      }
      var malformed := StubsMalformed();
      var panics := false;
      for i := 0 to |r.stubs|
        invariant panics <==> exists k ::
          (0 <= k < i && r.stubs[k].shape == Panic && !PanicAllowed(r, r.stubs[k].language))
      {
        if r.stubs[i].shape == Panic && r.stubs[i].language !in r.panicLanguages.value {
          panics := true;
        }
      }
      Add(RedInvalid, If(scope, ScopeViolation) + If(deletion, TesterDeletion) + If(malformed, StubMalformed)
        + If(panics, PanicStubNotAllowed));
      assert (deletion <==> SomeDeletion(r)) && (panics <==> SomePanicStub(r));
    }

    // ------------------------------------------------------------------ R2, R3

    method SuiteMissing(runs: seq<Run>, ghost side: Side) returns (missing: bool)
      requires forall run :: run in runs <==> IsRun(side, run)
      ensures missing <==> SomeSuiteMissing(r, side)
    {
      hide IsRun;
      missing := false;
      var left := r.suiteLanguages.Keys;
      while left != {}
        invariant left <= r.suiteLanguages.Keys
        invariant missing <==> exists s :: s in r.suiteLanguages && s !in left && !SuiteRan(r, side, s)
        decreases |left|
      {
        var s :| s in left;
        ghost var before := left;
        left := left - {s};
        var found := false;
        for i := 0 to |runs|
          invariant found <==> exists k :: 0 <= k < i && runs[k].suite == s
        {
          found := found || runs[i].suite == s;
        }
        RanIff(runs, side, s);
        missing := missing || !found;
        assert forall x :: x in r.suiteLanguages && x !in left <==> (x in r.suiteLanguages && x !in before) || x == s;
      }
    }

    lemma RanIff(runs: seq<Run>, side: Side, suite: string)
      requires forall run :: run in runs <==> IsRun(side, run)
      ensures SuiteRan(r, side, suite) <==> exists k :: 0 <= k < |runs| && runs[k].suite == suite
    {
      if SuiteRan(r, side, suite) {
        var i :| 0 <= i < |r.observed.runs| && RunOf(r, side, i) && r.observed.runs[i].suite == suite;
        assert IsRun(side, r.observed.runs[i]);
        assert r.observed.runs[i] in runs;
      }
      if exists k :: 0 <= k < |runs| && runs[k].suite == suite {
        var k :| 0 <= k < |runs| && runs[k].suite == suite;
        assert runs[k] in runs;
      }
    }

    lemma RunsIff(runs: seq<Run>, side: Side)
      requires forall run :: run in runs <==> IsRun(side, run)
      ensures forall k :: 0 <= k < |runs| ==> IsRun(side, runs[k])
      ensures forall i :: 0 <= i < |r.observed.runs| && RunOf(r, side, i) ==>
        exists k :: 0 <= k < |runs| && runs[k] == r.observed.runs[i]
    {
      forall k | 0 <= k < |runs| ensures IsRun(side, runs[k]) {
        assert runs[k] in runs;
      }
      forall i | 0 <= i < |r.observed.runs| && RunOf(r, side, i) ensures r.observed.runs[i] in runs {
        assert IsRun(side, r.observed.runs[i]);
      }
    }

    method BaseRunsBroken() returns (broken: bool)
      requires RunsAreLoaded()
      ensures broken <==> exists i ::
        (0 <= i < |r.observed.runs| && RunOf(r, BaseTree, i) && BrokenRun(r.observed.runs[i]))
    {
      broken := false;
      for i := 0 to |baseRuns|
        invariant broken <==> exists k :: 0 <= k < i && BrokenRun(baseRuns[k])
      {
        broken := broken || baseRuns[i].buildFailed || !baseRuns[i].reportFound || baseRuns[i].timedOut;
      }
      RunsIff(baseRuns, BaseTree);
    }

    method RuleR2()
      requires Loaded()
      modifies `groups
      ensures groups == old(groups) + R2(r)
    {
      hide RunsAreLoaded, SomeSuiteMissing, ChangedPath, BrokenRun, TestsAreLoaded, SetsAreLoaded;
      var broken := BaseRunsBroken();
      RunsLoaded();
      var missing := SuiteMissing(baseRuns, BaseTree);
      broken := broken || missing;
      ghost var runs := broken;
      var flaky := false;
      var tests := r.observed.tests;
      for i := 0 to |tests|
        invariant flaky <==> exists k :: 0 <= k < i && Flaky(r, tests[k])
        invariant broken <==> runs || exists k :: 0 <= k < i && IsFailure(tests[k].base) && !Flaky(r, tests[k])
      {
        var t := tests[i];
        if IsFailure(t.base) {
          if t.head == Passed && t.file != [] && t.file !in changedPaths {
            flaky := true;
          } else {
            broken := true;
          }
        }
      }
      assert (broken <==> BaseBroken(r)) && (flaky <==> SomeFlaky(r));
      Add(BaselineFailing, If(broken, BaselineFails));
      Add(if broken then BaselineFailing else Inconclusive, If(flaky, FlakyBaseline));
    }

    lemma RunsLoaded()
      requires RunsAreLoaded()
      ensures forall run :: run in baseRuns <==> IsRun(BaseTree, run)
      ensures forall run :: run in headRuns <==> IsRun(HeadTree, run)
    {
    }

    method HeadFlags() returns (build: bool, report: bool, timeout: bool)
      requires RunsAreLoaded()
      ensures build == SomeHeadBuildFailed(r) && timeout == SomeHeadTimedOut(r)
      ensures report <==> exists i ::
        (0 <= i < |r.observed.runs| && RunOf(r, HeadTree, i) && !r.observed.runs[i].reportFound)
    {
      build, report, timeout := false, false, false;
      for i := 0 to |headRuns|
        invariant build <==> exists k :: 0 <= k < i && headRuns[k].buildFailed
        invariant report <==> exists k :: 0 <= k < i && !headRuns[k].reportFound
        invariant timeout <==> exists k :: 0 <= k < i && headRuns[k].timedOut
      {
        build := build || headRuns[i].buildFailed;
        report := report || !headRuns[i].reportFound;
        timeout := timeout || headRuns[i].timedOut;
      }
      RunsIff(headRuns, HeadTree);
    }

    method RuleR3() returns (reasons: seq<Reason>)
      requires RunsAreLoaded()
      modifies `groups
      ensures reasons == R3Reasons(r)
      ensures groups == old(groups) + Note(RedInvalid, R3Reasons(r))
    {
      hide SomeSuiteMissing, SomeHeadBuildFailed, SomeHeadTimedOut;
      var build, report, timeout := HeadFlags();
      var missing := SuiteMissing(headRuns, HeadTree);
      RunsIff(headRuns, HeadTree);
      var none := |headRuns| == 0;
      if !none {
        assert IsRun(HeadTree, headRuns[0]);
      }
      assert none <==> !(exists i :: 0 <= i < |r.observed.runs| && RunOf(r, HeadTree, i));
      reasons := If(build, BuildFailed) + If(report || missing || none, ReportMissing) + If(timeout, SuiteTimedOut);
      Add(RedInvalid, reasons);
    }

    // ---------------------------------------------------------------- R4 to R9

    method RuleR5()
      requires Loaded() && Derived()
      modifies `groups
      ensures groups == old(groups) + R5(r)
    {
      hide TestsAreLoaded, ScopeIsLoaded, RunsAreLoaded, SetsAreLoaded, Resolved, SomeNotDiscovered,
        DeclaredResolved, NewTests, Modified, HeadStatus;
      var notNew, skipped := false, false;
      var left := declaredResolved;
      while left != {}
        invariant left <= declaredResolved && groups == old(groups)
        invariant notNew <==> exists id :: id in declaredResolved && id !in left && id !in newTests
        invariant skipped <==> exists id ::
          (id in declaredResolved && id !in left && id in newTests && HeadStatus(r, id) == Skipped)
        decreases |left|
      {
        var id :| id in left;
        ghost var before := left;
        left := left - {id};
        assert forall x :: x in declaredResolved && x !in left <==> (x in declaredResolved && x !in before) || x == id;
        var s := StatusOf(id);
        if id !in newTests {
          notNew := true;
        } else if s == Skipped {
          skipped := true;
        }
      }
      Add(RedInvalid, If(notDiscovered, DeclaredNotDiscovered) + If(notNew, DeclaredNotNew)
        + If(skipped, NewTestSkipped));
      assert (notNew <==> SomeDeclaredNotNew(r)) && (skipped <==> SomeNewSkipped(r));
    }

    method RuleR6()
      modifies `groups
      ensures groups == old(groups) + Note(RedInvalid, If(SomeNotCovered(r), AcNotCovered))
    {
      for i := 0 to |r.criteria|
        invariant groups == old(groups) && forall k :: 0 <= k < i ==> Declared(r, r.criteria[k].id) != []
      {
        if Declared(r, r.criteria[i].id) == [] {
          Add(RedInvalid, [AcNotCovered]);
          return;
        }
      }
    }

    method RuleR7()
      requires Loaded() && Derived()
      modifies `groups
      ensures groups == old(groups) + R7(r)
    {
      hide TestsAreLoaded, ScopeIsLoaded, RunsAreLoaded, SetsAreLoaded, Resolved, SomeNotDiscovered,
        DeclaredResolved, NewTests, Modified, HeadStatus, LanguageOf, PanicAllowed;
      var error, panics := false, false;
      var left := newTests;
      while left != {}
        invariant left <= newTests && groups == old(groups)
        invariant error <==> exists id :: id in newTests && id !in left && HeadStatus(r, id) == FailedError
        invariant panics <==> exists id ::
          (id in newTests && id !in left && HeadStatus(r, id) == Stub && !PanicAllowed(r, LanguageOf(r, id)))
        decreases |left|
      {
        var id :| id in left;
        ghost var before := left;
        left := left - {id};
        assert forall x :: x in newTests && x !in left <==> (x in newTests && x !in before) || x == id;
        var s := StatusOf(id);
        error := error || s == FailedError;
        panics := panics || (s == Stub && !PanicAllowed(r, LanguageOf(r, id)));
      }
      Add(RedInvalid, If(error, ErrorClassFailure) + If(panics, PanicStubNotAllowed));
      assert (error <==> SomeNewError(r)) && (panics <==> SomeNewPanic(r));
    }

    method RuleR8()
      requires Loaded() && Derived()
      modifies `groups
      ensures groups == old(groups) + R8(r)
    {
      hide TestsAreLoaded, ScopeIsLoaded, RunsAreLoaded, Resolved, SomeNotDiscovered, DeclaredResolved, NewTests,
        Modified, HeadStatus, InHeadScope, BasePassing, HeadPresent, BaseSkipped;
      var removed, broken := false, false;
      var left := basePassing;
      while left != {}
        invariant left <= basePassing && groups == old(groups)
        invariant removed <==> exists id :: id in basePassing && id !in left && Removed(r, id)
        invariant broken <==> exists id :: id in basePassing && id !in left && Broken(r, id)
        decreases |left|
      {
        var id :| id in left;
        ghost var before := left;
        left := left - {id};
        assert forall x :: x in basePassing && x !in left <==> (x in basePassing && x !in before) || x == id;
        if id in modified || !InHeadScope(r, id) {
          assert !Removed(r, id) && !Broken(r, id);
          continue;
        }
        var s := StatusOf(id);
        if id !in headPresent || s == Absent {
          assert Removed(r, id) && !Broken(r, id);
          removed := true;
        } else if s != Passed && s != Unknown {
          assert Broken(r, id) && !Removed(r, id);
          broken := true;
        } else {
          assert !Removed(r, id) && !Broken(r, id);
        }
      }
      Add(RedInvalid, If(broken, PreexistingBroken) + If(removed, PreexistingRemoved));
      assert (removed <==> SomeRemoved(r)) && (broken <==> SomeBroken(r));
    }

    method RuleR9()
      requires acResults == AcResults(r)
      modifies `groups
      ensures groups == old(groups) + Note(RedInvalid, If(SomeNotPreserved(r), PreservationNotPassing))
    {
      hide OutcomeOf;
      for i := 0 to |r.criteria|
        invariant groups == old(groups)
        invariant forall k :: 0 <= k < i && r.criteria[k].kind == PreservationKind ==>
          OutcomeOf(r, r.criteria[k]) == AcPassing
      {
        assert acResults[i] == AcResultOf(r, r.criteria[i]);
        if r.criteria[i].kind == PreservationKind && acResults[i].outcome != AcPassing {
          assert SomeNotPreserved(r);
          Add(RedInvalid, [PreservationNotPassing]);
          return;
        }
      }
    }

    method HeadRules()
      requires Loaded() && Derived() && acResults == AcResults(r)
      modifies `groups
      ensures groups == old(groups) + HeadGroups(r)
    {
      hide R5, R7, R8, SomeNotCovered, SomeNotPreserved, NewTests, DeclaredResolved, SomeNotDiscovered, Modified,
        Resolved, AcResults, TestsAreLoaded, SetsAreLoaded, ScopeIsLoaded, RunsAreLoaded;
      ghost var was := groups;
      Add(RedInvalid, If(newTests == {}, NoNewTests));
      RuleR5();
      RuleR6();
      RuleR7();
      RuleR8();
      RuleR9();
      Regroup(was, Note(RedInvalid, If(NewTests(r) == {}, NoNewTests)), R5(r),
        Note(RedInvalid, If(SomeNotCovered(r), AcNotCovered)),
        R7(r), R8(r), Note(RedInvalid, If(SomeNotPreserved(r), PreservationNotPassing)));
    }

    // --------------------------------------------------------------------- R11

    method Hidden(ids: set<string>) returns (hidden: bool)
      requires TestsAreLoaded()
      ensures hidden <==> exists id :: id in ids && Report(r, id).None?
    {
      hide Find;
      var left := ids;
      while left != {}
        invariant left <= ids && forall id :: id in ids && id !in left ==> Report(r, id).Some?
        decreases |left|
      {
        var id :| id in left;
        if id !in reported {
          return true;
        }
        left := left - {id};
      }
      hidden := false;
    }

    method RuleR11() returns (hiddenDeclared: bool)
      requires Loaded() && Derived()
      modifies `groups
      ensures groups == old(groups) + R11(r)
      ensures hiddenDeclared <==> r.observed.truncated && HiddenDeclared(r)
    {
      hide TestsAreLoaded, SetsAreLoaded, ScopeIsLoaded, RunsAreLoaded, NewTests, DeclaredResolved,
        SomeNotDiscovered, Modified, Resolved, Find;
      if !r.observed.truncated {
        return false;
      }
      var hidden := Hidden(newTests);
      hiddenDeclared := Hidden(declaredResolved);
      if hidden || hiddenDeclared {
        Add(Inconclusive, [TestsTruncated]);
      }
    }
  }

  lemma Regroup(
    was: seq<Group>, a: seq<Group>, b: seq<Group>, c: seq<Group>, d: seq<Group>, e: seq<Group>, f: seq<Group>)
    ensures was + a + b + c + d + e + f == was + (a + b + c + d + e + f)
  {
  }

  // ------------------------------------------------------------------- the verdict

  method CollectOnto(start: seq<Reason>, groups: seq<Group>, ghost xs: seq<Reason>) returns (reasons: seq<Reason>)
    requires start == Unique(xs)
    ensures reasons == Unique(xs + AllReasons(groups))
  {
    hide Unique;
    reasons := start;
    assert xs + AllReasons(groups[..0]) == xs;
    for i := 0 to |groups|
      invariant reasons == Unique(xs + AllReasons(groups[..i]))
    {
      assert groups[..i + 1][..i] == groups[..i];
      assert xs + AllReasons(groups[..i + 1]) == xs + AllReasons(groups[..i]) + groups[i].reasons;
      reasons := AppendUnique(reasons, groups[i].reasons, xs + AllReasons(groups[..i]));
    }
    assert groups[..|groups|] == groups;
  }

  /** The reasons of all groups, each once, with R10's reason at its place. */
  method Collect(groups: seq<Group>, r10: bool, at: nat) returns (reasons: seq<Reason>)
    requires at <= |groups|
    ensures reasons == Unique(AllReasons(groups[..at]) + If(r10, ChangeNotFailing) + AllReasons(groups[at..]))
  {
    hide AllReasons;
    reasons := CollectOnto([], groups[..at], []);
    assert [] + AllReasons(groups[..at]) == AllReasons(groups[..at]);
    reasons := AppendUnique(reasons, If(r10, ChangeNotFailing), AllReasons(groups[..at]));
    reasons := CollectOnto(reasons, groups[at..], AllReasons(groups[..at]) + If(r10, ChangeNotFailing));
  }
}
