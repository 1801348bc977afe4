/**
  The step as the code runs it: Fire's loop over the candidates, Advance's
  rechecks and updates, Apply and Replay
  (src/internal/statemachine/fire.go and accounting.go).
 */
module Stepping {
  import opened Wrappers
  import opened Machine
  import opened Accounting
  import opened Fire
  import opened Advance
  import opened Apply
  import opened FactSources
  import Runs

  // ------------------------------------------------------------------ Fire

  method CollectCandidates(m: Machine, snap: Snapshot, ev: Event) returns (cands: seq<Transition>, listed: bool)
    ensures cands == Candidates(m.transitions, snap, ev)
    ensures listed <==> exists t :: t in m.transitions && Listed(t, snap, ev)
  {
    cands, listed := [], false;
    for i := 0 to |m.transitions|
      invariant cands == Candidates(m.transitions[..i], snap, ev)
      invariant listed <==> exists k :: 0 <= k < i && Listed(m.transitions[k], snap, ev)
    {
      var t := m.transitions[i];
      assert m.transitions[..i + 1][..i] == m.transitions[..i];
      if t.event == ev.name && snap.mode in t.modes && snap.state in t.from {
        listed := true;
        if ev.actor in t.actors {
          cands := cands + [t];
        }
      }
    }
    assert m.transitions[..|m.transitions|] == m.transitions;
  }

  /** The first candidate, in order, whose guards all pass. */
  method PickWinner(cands: seq<Transition>, cache: FactCache) returns (r: Search)
    requires cache.Valid()
    modifies cache, cache.src, cache.src.base
    ensures cache.Valid()
    ensures forall f :: cache.src.Agrees(f) ==> old(cache.src.Agrees(f)) && r == TryAll(cands, cache.ev, cache.View(f))
  {
    hide FailedGuards, TryAll, AppendNew, cache.View, cache.Valid, cache.src.Agrees;
    var failed: seq<GuardId> := [];
    forall f ensures TryAll(cands[..0], cache.ev, f) == NoWinner([]) {
      TryNothing(cands[..0], cache.ev, f);
    }
    for i := 0 to |cands|
      invariant cache.Valid()
      invariant forall f :: cache.src.Agrees(f) ==>
        old(cache.src.Agrees(f)) && TryAll(cands[..i], cache.ev, cache.View(f)) == NoWinner(failed)
    {
      var bad := cache.Failed(cands[i]);
      forall f ensures TryAll(cands[..i + 1], cache.ev, f)
        == TryNext(TryAll(cands[..i], cache.ev, f), cands[i], cache.ev, f) {
        TryStep(cands, i, cache.ev, f);
      }
      if bad == [] {
        forall f | cache.src.Agrees(f) ensures TryAll(cands, cache.ev, cache.View(f)) == Winner(cands[i]) {
          WinnerStays(cands, cache.ev, cache.View(f), i + 1);
        }
        return Winner(cands[i]);
      }
      failed := AppendNew(failed, bad);
    }
    assert cands[..|cands|] == cands;
    r := NoWinner(failed);
  }

  /** What the search holds after one more candidate. */
  function TryNext(before: Search, t: Transition, ev: Event, f: Facts): Search {
    if before.Winner? then before
    else
      var bad := FailedGuards(t, ev, f);
      if bad == [] then Winner(t) else NoWinner(AppendNew(before.failed, bad))
  }

  lemma TryNothing(ts: seq<Transition>, ev: Event, f: Facts)
    requires ts == []
    ensures TryAll(ts, ev, f) == NoWinner([])
  {
  }

  lemma TryStep(ts: seq<Transition>, i: nat, ev: Event, f: Facts)
    requires i < |ts|
    ensures TryAll(ts[..i + 1], ev, f) == TryNext(TryAll(ts[..i], ev, f), ts[i], ev, f)
  {
    hide FailedGuards, AppendNew;
    assert ts[..i + 1][..i] == ts[..i];
  }

  lemma {:induction false} WinnerStays(ts: seq<Transition>, ev: Event, f: Facts, n: nat)
    requires n <= |ts| && TryAll(ts[..n], ev, f).Winner?
    ensures TryAll(ts, ev, f) == TryAll(ts[..n], ev, f)
    decreases |ts|
  {
    hide FailedGuards;
    if n == |ts| {
      assert ts[..n] == ts;
    } else {
      assert ts[..|ts| - 1][..n] == ts[..n];
      WinnerStays(ts[..|ts| - 1], ev, f, n);
    }
  }

  /** The failure code matters only to a counted infrastructure or budget failure. */
  predicate NeedsCode(w: Transition, ev: Event) {
    ev.name.ExecutionFailed? && (CountedClass(w.effects) == Infrastructure || CountedClass(w.effects) == Budget)
  }

  lemma CodeOnlyWhenNeeded(m: Machine, f: Firing, c: string, c': string, worker: Option<Role>)
    requires NeedsCode(f.t, f.ev) ==> c == c'
    ensures DeltasOf(m, f, c, worker) == DeltasOf(m, f, c', worker)
  {
    hide CountedClass, CreatedRole, DeltasOf, AttemptCounter, MeritRole;
    forall k ensures Get(DeltasOf(m, f, c, worker), k) == Get(DeltasOf(m, f, c', worker), k) {
      assert Change(m, f, c, worker, k) == Change(m, f, c', worker, k);
    }
    SameChanges(DeltasOf(m, f, c, worker), DeltasOf(m, f, c', worker));
  }

  /**
    Fire: however the base answers, the decision is the one a single consistent set of
    facts yields, and each fact is asked at most once.
   */
  method FireEvent(m: Machine, snap: Snapshot, ev: Event, src: AccountingSource) returns (d: Decision)
    requires src.Valid()
    modifies src, src.base
    ensures src.Valid()
    ensures forall f :: src.Agrees(f) ==>
      old(src.Agrees(f)) && d == Decide(m, snap, ev, AccountingFacts(src.env, src.t, src.inp, ev, f))
  {
    hide TryAll, RoleRefused, TargetOf, DeltasOf, InputError, RejectionCode, CountedClass, NotifyReason;
    var cur := FindState(m, snap.state);
    var error := InputError(m, snap, ev);
    if error.Some? {
      return Malformed(error.value);
    }
    var cands, listed := CollectCandidates(m, snap, ev);
    if listed && |cands| == 0 {
      return Rejected(GateNotSatisfied, [ActorAuthorized]);
    }
    if RoleRefused(cur, snap, ev) {
      return Rejected(GateNotSatisfied, [DispatchPrerequisites]);
    }
    var cache := new FactCache(src, ev);
    var found := PickWinner(SortById(cands), cache);
    if found.NoWinner? {
      return Rejected(RejectionCode(ev.name, found.failed), found.failed);
    }
    var w := found.t;
    var to := TargetOf(m, w, cur, snap);
    if to.Unresolved? {
      return Malformed(to.error);
    }
    var code := "";
    if NeedsCode(w, ev) {
      var a := cache.Value(FailureCode);
      code := if a.known then a.value else "";
    }
    var firing := Firing(w, cur, snap, ev);
    var deltas := ComputeDeltas(m, firing, code, None);
    forall f | src.Agrees(f) ensures deltas == DeltasOf(m, firing, CodeIn(cache.View(f)), None) {
      CodeOnlyWhenNeeded(m, firing, code, CodeIn(cache.View(f)), None);
    }
    d := Fired(Applied(w.id, snap.state, to.place, w.effects, CountedClass(w.effects), NotifyReason(w.effects),
      deltas));
  }

  // --------------------------------------------------------------- rechecks

  /** The guards of the transition hold as far as they are known, and no lower candidate would pass. */
  method RecheckGuards(env: Env, tr: Transition, t: Task, ev: Event, inp: StepInput) returns (ok: bool)
    ensures ok <==> Rechecks(env, tr, t, ev, inp)
  {
    hide RecheckFacts, GuardHolds, GuardKnown;
    var f := RecheckFacts(env, t, ev, inp);
    for i := 0 to |tr.guards|
      invariant forall k :: 0 <= k < i ==> tr.guards[k].id == ActorAuthorized || !KnownToFail(tr.guards[k], f)
    {
      var g := tr.guards[i];
      if g.id != ActorAuthorized && GuardKnown(g, f) && !GuardHolds(g, f) {
        assert g in tr.guards;
        return false;
      }
    }
    for i := 0 to |env.m.transitions|
      invariant forall k :: 0 <= k < i ==>
        var c := env.m.transitions[k]; !(c.id < tr.id && IsCandidate(c, t.snapshot, ev) && WouldPass(c, tr, f))
    {
      var c := env.m.transitions[i];
      if c.id < tr.id && IsCandidate(c, t.snapshot, ev) {
        var passes := PassesRecheck(c, tr, f);
        if passes {
          assert c in env.m.transitions;
          return false;
        }
      }
    }
    ok := true;
  }

  method PassesRecheck(c: Transition, tr: Transition, f: Facts) returns (passes: bool)
    ensures passes <==> WouldPass(c, tr, f)
  {
    hide GuardHolds, GuardKnown;
    for i := 0 to |c.guards|
      invariant forall k :: 0 <= k < i ==>
        var g := c.guards[k]; g.id == ActorAuthorized || (if GuardKnown(g, f) then GuardHolds(g, f) else g in tr.guards)
    {
      var g := c.guards[i];
      if g.id == ActorAuthorized {
        continue;
      }
      var holds, known := GuardHolds(g, f), GuardKnown(g, f);
      if (known && !holds) || (!known && g !in tr.guards) {
        assert g in c.guards;
        return false;
      }
    }
    passes := true;
  }

  // ------------------------------------------------------- the counter loop

  /** Adds one change to its counter. */
  function AddTo(a: Attempts, k: Counter, n: int): Attempts {
    match k
    case AutonomousUsed => a.(autonomousUsed := a.autonomousUsed + n)
    case TesterUsed => a.(testerUsed := a.testerUsed + n)
    case ReviewsUsed => a.(reviewsUsed := a.reviewsUsed + n)
    case AuxiliaryUsed => a.(auxiliaryUsed := a.auxiliaryUsed + n)
    case Generation => a
    case ConsecutiveInfrastructure => a.(consecutiveInfrastructure := a.consecutiveInfrastructure + n)
    case ConsecutiveTimeouts => a.(consecutiveTimeouts := a.consecutiveTimeouts + n)
    case ByClass(c) => a.(byClass := a.byClass[c := InClass(a, c) + n])
    case MeritBy(r, g) => a.(merit := a.merit[(r, g) := Read(a, 0, k) + n])
  }

  lemma AdjustedNone(a: Attempts)
    ensures Adjusted(a, map[]) == a
  {
    assert ClassesAfter(a, map[]) == a.byClass;
    assert MeritsAfter(a, map[]) == a.merit;
  }

  lemma KeysOneMore(d: Deltas, k: Counter, n: int)
    ensures ClassKeys(d[k := n]) == ClassKeys(d) + (if k.ByClass? then {k.kind} else {})
    ensures MeritKeys(d[k := n]) == MeritKeys(d) + (if k.MeritBy? then {(k.role, k.generation)} else {})
  {
    var d' := d[k := n];
    forall c | c in ClassKeys(d) ensures c in ClassKeys(d') {
      assert ByClass(c) in d';
    }
    forall x | x in MeritKeys(d) ensures x in MeritKeys(d') {
      assert MeritBy(x.0, x.1) in d';
    }
    assert k in d';
  }

  lemma ClassesOneMore(a: Attempts, d: Deltas, k: Counter, n: int)
    requires k !in d
    ensures var before := ClassesAfter(a, d);
      ClassesAfter(a, d[k := n]) == if k.ByClass? then before[k.kind := InClass(a, k.kind) + n] else before
  {
    KeysOneMore(d, k, n);
    hide MeritKeys, ClassKeys;
  }

  lemma MeritsOneMore(a: Attempts, d: Deltas, k: Counter, n: int)
    requires k !in d
    ensures var before := MeritsAfter(a, d);
      MeritsAfter(a, d[k := n])
      == if k.MeritBy? then before[(k.role, k.generation) := InMerit(a, (k.role, k.generation)) + n] else before
  {
    KeysOneMore(d, k, n);
    hide MeritKeys, ClassKeys;
  }

  lemma NoChange(d: Deltas, k: Counter)
    requires k !in d
    ensures Get(d, k) == 0
  {
  }

  /** The changes can be applied one by one: each touches its own counter. */
  lemma AdjustedOneMore(a: Attempts, d: Deltas, k: Counter, n: int)
    requires k !in d
    ensures Adjusted(a, d[k := n]) == AddTo(Adjusted(a, d), k, n)
    ensures k != Generation ==> Read(Adjusted(a, d), 0, k) == Read(a, 0, k)
  {
    hide ClassesAfter, MeritsAfter;
    ClassesOneMore(a, d, k, n);
    MeritsOneMore(a, d, k, n);
    NoChange(d, k);
    AdjustedReads(a, -Get(d, Generation), d, k);
  }

  /** Applies every change in turn; fails exactly when some counter would become negative. */
  method ApplyDeltas(a: Attempts, generation: int, d: Deltas) returns (r: Attempts, g: int, ok: bool)
    ensures ok <==> !Overdraws(a, generation, d)
    ensures ok ==> r == Adjusted(a, d) && g == generation + Get(d, Generation)
  {
    hide Adjusted;
    var keys := d.Keys;
    r, g := a, generation;
    ghost var doneMap: Deltas := map[];
    AdjustedNone(a);
    while keys != {}
      invariant keys <= d.Keys && doneMap == (map k | k in d && k !in keys :: d[k])
      invariant r == Adjusted(a, doneMap) && g == generation + Get(doneMap, Generation)
      invariant forall k :: k in doneMap ==> Read(a, generation, k) + d[k] >= 0
      decreases |keys|
    {
      var k :| k in keys;
      AdjustedOneMore(a, doneMap, k, d[k]);
      ReadIgnoresGeneration(r, g, k);
      ReadIgnoresGeneration(a, generation, k);
      if Read(r, g, k) + d[k] < 0 {
        assert k in d;
        return r, g, false;
      }
      r := AddTo(r, k, d[k]);
      if k == Generation {
        g := g + d[k];
      }
      keys := keys - {k};
      doneMap := doneMap[k := d[k]];
    }
    assert doneMap == d;
    ok := true;
  }

  lemma ReadIgnoresGeneration(a: Attempts, g: int, k: Counter)
    ensures k != Generation ==> Read(a, g, k) == Read(a, 0, k)
  {
  }

  // -------------------------------------------------- the record of the task

  method ConflictOutcomeOf(c: ConflictRecord, p: RetryPolicy) returns (r: ConflictOutcome)
    ensures r == OutcomeOfConflict(c, p)
  {
    if !c.open {
      return ConflictOutcome(false, false, false);
    }
    var effective: Option<Verdict> := None;
    var distinct: set<Verdict> := {};
    for i := 0 to |c.verdicts|
      invariant effective == EffectiveVerdict(c.verdicts[..i])
      invariant forall v :: v in distinct <==> v in c.verdicts[..i]
    {
      var v := c.verdicts[i];
      assert c.verdicts[..i + 1][..i] == c.verdicts[..i];
      distinct := distinct + {v};
      if i == 0 {
        effective := Some(v);
      } else if effective == Some(TestInvalid) && v == TestValid {
        effective := Some(TestValid);
      }
    }
    assert c.verdicts[..|c.verdicts|] == c.verdicts;
    DistinctMeansDisputed(c.verdicts, distinct);
    var disputed := |distinct| > 1;
    var approved := c.humanApproved || (p.adjudicatorApproves && effective == Some(TestInvalid) && !disputed);
    r := ConflictOutcome(approved, effective == Some(TestValid) && !c.humanApproved,
                         effective == Some(TestInvalid) && !approved);
  }

  lemma DistinctMeansDisputed(vs: seq<Verdict>, distinct: set<Verdict>)
    requires forall v :: v in distinct <==> v in vs
    ensures |distinct| > 1 <==> Disputed(vs)
  {
    if Disputed(vs) {
      var i, j :| 0 <= i < j < |vs| && vs[i] != vs[j];
      var rest := distinct - {vs[i]};
      assert vs[i] in distinct && vs[j] in rest;
      assert |distinct| == |rest| + 1 && |rest| != 0;
    } else if vs != [] {
      assert distinct == {vs[0]};
    } else {
      assert distinct == {};
    }
  }

  method LastExecution(es: seq<Execution>, test: Execution -> bool) returns (r: int)
    ensures r == LastIndex(es, test)
  {
    r := |es| - 1;
    while r >= 0 && !test(es[r])
      invariant -1 <= r < |es|
      invariant LastIndex(es, test) == LastIndex(es[..r + 1], test)
    {
      assert es[..r + 1][..r] == es[..r];
      r := r - 1;
    }
    assert r >= 0 ==> es[..r + 1][r] == es[r];
  }

  /** The event that ends work gives the running execution its outcome; a requeue starts it again. */
  method EndRunning(
    env: Env, es0: seq<Execution>, tr: Transition, ev: Event, a: Applied, inp: StepInput, generation: int)
    returns (es: seq<Execution>)
    ensures es == EndExecution(env.m, es0, tr, ev, a, inp, generation)
  {
    hide LastIndex, GivenBack;
    es := es0;
    if EndsExecution(ev.name) || ev.name.AdjudicationRecorded? {
      var i := LastExecution(es, IsRunning);
      if i >= 0 {
        var e := es[i];
        if ev.name.ExecutionFailed? {
          e := e.(outcome := ClassOutcome(a.failureClass), signature := inp.failureSignature,
            refunded := GivenBack(env.m, a, es[i]));
          if RequeueExecution in tr.effects {
            e := e.(refunded := e.counted);
            var requeued := e.(generation := generation, outcome := Running, signature := "", refunded := false);
            es := es[i := e] + [requeued];
          } else {
            es := es[i := e];
          }
        } else if ev.name.ExecutionBlocked? {
          es := es[i := e.(outcome := BlockedResult)];
        } else {
          es := es[i := e.(outcome := Succeeded)];
        }
      }
    }
  }

  method CancelRunning(env: Env, es0: seq<Execution>, tr: Transition, a: Applied) returns (es: seq<Execution>)
    ensures es == CancelExecution(env.m, es0, tr, a)
  {
    hide LastIndex, GivenBack;
    es := es0;
    if CancelActiveExecution in tr.effects {
      var i := LastExecution(es, IsRunning);
      if i >= 0 {
        es := es[i := es[i].(outcome := Cancelled, refunded := GivenBack(env.m, a, es[i]))];
      }
    }
  }

  method FailJudged(env: Env, es0: seq<Execution>, ev: Event, a: Applied, inp: StepInput) returns (es: seq<Execution>)
    ensures es == JudgeExecution(env.m, es0, ev, a, inp)
  {
    hide LastIndex, SubjectRole;
    es := es0;
    if (a.failureClass == Merit || a.failureClass == Policy)
       && !ev.name.ExecutionFailed? && !ev.name.VerificationInfraFailed?
    {
      var role := SubjectRole(env.m, ev.name, a.from);
      var i := LastExecution(es, (e: Execution) => e.counted && (e.role == Tester <==> role == Tester));
      if (role == Tester || role == Implementer) && i >= 0 && es[i].outcome == Succeeded {
        es := es[i := es[i].(outcome := Failed(a.failureClass), signature := inp.failureSignature)];
      }
    }
  }

  /** Keeps the execution records in step with the applied transition. */
  method UpdateExecutions(
    env: Env, es0: seq<Execution>, tr: Transition, ev: Event, a: Applied, inp: StepInput, generation: int)
    returns (es: seq<Execution>)
    ensures es == RecordExecutions(env, es0, tr, ev, a, inp, generation)
  {
    hide EndExecution, CancelExecution, JudgeExecution, NewExecution, CreatedRole;
    es := EndRunning(env, es0, tr, ev, a, inp, generation);
    es := CancelRunning(env, es, tr, a);
    es := FailJudged(env, es, ev, a, inp);
    if CreatedRole(tr.effects) != NoRole {
      es := es + [NewExecution(env.h, tr, ev, inp, generation)];
    }
  }

  // -------------------------------------------------- Advance, Apply, Replay

  /** Advance: every check in order, then the new task. */
  method AdvanceTask(env: Env, t: Task, ev: Event, a: Applied, inp: StepInput) returns (r: Result)
    ensures r == Advance.Advance(env, t, ev, a, inp)
  {
    hide MatchesTable, Rechecks, AdjudicationRefused, DeltasOf, Overdraws, RecordExecutions, Adjusted, NextConflict,
      OutcomeOfConflict, NextStrengthen, NextBlockedReason, Granted, CreationMaxima, RunningRole;
    var snap := t.snapshot;
    if a.from != snap.state {
      return Refused(StateMismatch);
    }
    var found := ById(env.m.transitions, a.transition);
    if found.None? || !MatchesTable(env, t, ev, a, found.value) {
      return Refused(NotApplied);
    }
    var tr, fromSt := found.value, FindState(env.m, snap.state);
    var toSt := TargetState(env, t, ev, a, tr);
    var rechecked := RecheckGuards(env, tr, t, ev, inp);
    if !rechecked || (ev.name.AdjudicationRecorded? && AdjudicationRefused(t, inp)) {
      return Refused(NotApplied);
    }
    var want := ComputeDeltas(env.m, Firing(tr, fromSt, snap, ev), inp.failureCode, Some(RunningRole(t)));
    if want != a.deltas {
      return Refused(DeltaInvalid);
    }
    var attempts, generation, applied := ApplyDeltas(snap.attempts, snap.generation, a.deltas);
    if !applied {
      return Refused(DeltaInvalid);
    }
    attempts := Granted(CreationMaxima(attempts, snap.state, env.p), tr, env.p);
    var conflict := NextConflict(t.conflict, tr, a, inp);
    var outcome := ConflictOutcomeOf(conflict, env.p);
    var executions := UpdateExecutions(env, t.executions, tr, ev, a, inp, generation);
    var n := t.(snapshot := Snapshot(snap.mode, a.to, NextReturn(snap, fromSt, toSt), NextResume(snap, tr, fromSt),
                                     generation, attempts, snap.executionDispatched || CreatesExecution(tr.effects),
                                     outcome.awaiting),
                executions := executions,
                conflict := conflict,
                strengthenState := NextStrengthen(t.strengthenState, tr, a),
                blockedReason := NextBlockedReason(t, ev, a, inp));
    if a.to != At(NeedsHuman) {
      n := n.(needsHumanReason := "");
    } else if snap.state != At(NeedsHuman) {
      n := n.(needsHumanReason := a.reason);
    }
    n := n.(history := n.history + [Step(ev, inp, a)]);
    r := Advanced(n);
  }

  function TargetState(env: Env, t: Task, ev: Event, a: Applied, tr: Transition): (s: State)
    requires MatchesTable(env, t, ev, a, tr)
    ensures FindState(env.m, a.to) == Some(s)
  {
    FindState(env.m, a.to).value
  }

  /**
    Apply: the accounting facts, Fire and Advance in one call.  Whatever the base answers,
    the outcome is the one a consistent base yields, and the base is asked each fact once.
   */
  method ApplyEvent(env: Env, t: Task, ev: Event, inp: StepInput, base: Base) returns (r: Apply.Outcome)
    modifies base
    ensures exists f :: r == ApplyStep(env, t, ev, inp, f)
    ensures old(base.log) <= base.log && AskedOnce(base.log[|old(base.log)|..])
    ensures Acceptable(env.m) && r.AdvanceFailed? ==> r.advance == DeltaInvalid
  {
    hide Decide, Advance.Advance, AccountingFacts, RecordedDeltas, AdjudicationRefused, Acceptable, AskedOnce;
    var src := new AccountingSource(env, t, inp, base);
    var d := FireEvent(env.m, t.snapshot, ev, src);
    ghost var f0 := src.SomeFactsAgree();
    if d.Malformed? {
      assert ApplyStep(env, t, ev, inp, f0) == FireFailed(d.error);
      return FireFailed(d.error);
    }
    if d.Rejected? {
      assert ApplyStep(env, t, ev, inp, f0) == Done(d, t);
      return Done(d, t);
    }
    if ev.name.AdjudicationRecorded? && AdjudicationRefused(t, inp) {
      assert ApplyStep(env, t, ev, inp, f0) == Done(Rejected(GateNotSatisfied, []), t);
      return Done(Rejected(GateNotSatisfied, []), t);
    }
    var recorded, input := RecordedApplied(t, ev, d.applied), inp;
    if ev.name.ExecutionFailed? {
      var code := src.CodeOf(ev);
      input := inp.(failureCode := code);
    }
    ghost var f := src.SomeFactsAgree();
    assert RecordedInput(ev, inp, f) == input;
    var n := AdvanceTask(env, t, ev, recorded, input);
    if n.Refused? {
      r := AdvanceFailed(n.error);
    } else {
      r := Done(Fired(recorded), n.task);
    }
    assert ApplyStep(env, t, ev, inp, f) == r;
    if Acceptable(env.m) {
      AdvanceAcceptsFire(env, t, ev, inp, f);
    }
  }

  method ReplaySteps(env: Env, initial: Task, steps: seq<Step>) returns (r: Result)
    ensures r == Runs.Replay(env, initial, steps)
  {
    hide Advance.Advance;
    r := Advanced(initial);
    for i := 0 to |steps|
      invariant r.Advanced? && r == Runs.Replay(env, initial, steps[..i])
    {
      var s := steps[i];
      assert steps[..i + 1][..i] == steps[..i];
      r := AdvanceTask(env, r.task, s.event, s.applied, s.input);
      if r.Refused? {
        Runs.ReplayConcat(env, initial, steps[..i + 1], steps[i + 1..]);
        assert steps[..i + 1] + steps[i + 1..] == steps;
        return;
      }
    }
    assert steps[..|steps|] == steps;
  }
}
