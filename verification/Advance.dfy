/**
  Applying a decision to the task.  Advance does not trust the decision: it
  re-derives the target, the effects, the guards, the shadowing and the counter
  changes before it changes anything (src/internal/statemachine/accounting.go).
 */
module Advance {
  import opened Wrappers
  import opened Machine
  import opened Accounting
  import opened Fire

  datatype AdvanceError = NotApplied | StateMismatch | DeltaInvalid

  datatype Result = Advanced(task: Task) | Refused(error: AdvanceError)

  // ---------------------------------------------------------- the counters

  /** The value of a counter. */
  function Read(a: Attempts, generation: int, k: Counter): int {
    match k
    case AutonomousUsed => a.autonomousUsed
    case TesterUsed => a.testerUsed
    case ReviewsUsed => a.reviewsUsed
    case AuxiliaryUsed => a.auxiliaryUsed
    case Generation => generation
    case ConsecutiveInfrastructure => a.consecutiveInfrastructure
    case ConsecutiveTimeouts => a.consecutiveTimeouts
    case ByClass(c) => InClass(a, c)
    case MeritBy(r, g) => InMerit(a, (r, g))
  }

  function ClassKeys(d: Deltas): set<FailureClass> {
    set k | k in d && k.ByClass? :: k.kind
  }

  function MeritKeys(d: Deltas): set<(Role, int)> {
    set k | k in d && k.MeritBy? :: (k.role, k.generation)
  }

  function ClassesAfter(a: Attempts, d: Deltas): map<FailureClass, int> {
    map c | c in a.byClass.Keys + ClassKeys(d) :: InClass(a, c) + Get(d, ByClass(c))
  }

  function InMerit(a: Attempts, x: (Role, int)): int {
    if x in a.merit then a.merit[x] else 0
  }

  function MeritsAfter(a: Attempts, d: Deltas): map<(Role, int), int> {
    map x | x in a.merit.Keys + MeritKeys(d) :: InMerit(a, x) + Get(d, MeritBy(x.0, x.1))
  }

  /** The counters after all the changes. */
  function Adjusted(a: Attempts, d: Deltas): Attempts {
    a.(autonomousUsed := a.autonomousUsed + Get(d, AutonomousUsed),
       testerUsed := a.testerUsed + Get(d, TesterUsed),
       reviewsUsed := a.reviewsUsed + Get(d, ReviewsUsed),
       auxiliaryUsed := a.auxiliaryUsed + Get(d, AuxiliaryUsed),
       consecutiveInfrastructure := a.consecutiveInfrastructure + Get(d, ConsecutiveInfrastructure),
       consecutiveTimeouts := a.consecutiveTimeouts + Get(d, ConsecutiveTimeouts),
       byClass := ClassesAfter(a, d),
       merit := MeritsAfter(a, d))
  }

  /** Some change would make its counter negative. */
  predicate Overdraws(a: Attempts, generation: int, d: Deltas) {
    exists k :: k in d && Read(a, generation, k) + d[k] < 0
  }

  lemma AdjustedReads(a: Attempts, generation: int, d: Deltas, k: Counter)
    ensures Read(Adjusted(a, d), generation + Get(d, Generation), k) == Read(a, generation, k) + Get(d, k)
  {
    if k.ByClass? && k in d {
      assert k.kind in ClassKeys(d);
    }
    if k.MeritBy? {
      var x := (k.role, k.generation);
      if k in d {
        assert x in MeritKeys(d);
      }
      if x in MeritKeys(d) {
        var j :| j in d && j.MeritBy? && (j.role, j.generation) == x;
        assert j == k;
      }
    }
  }

  // ------------------------------------------------------ the guard recheck

  /** The facts of the recheck. */
  function RecheckFacts(env: Env, t: Task, ev: Event, inp: StepInput): Facts {
    AccountingFacts(env, t, inp, ev, CodeOnly(inp.failureCode, ev.name.ExecutionFailed?))
  }

  predicate KnownToFail(g: Guard, f: Facts) {
    GuardKnown(g, f) && !GuardHolds(g, f)
  }

  predicate OwnGuardsHold(tr: Transition, f: Facts) {
    forall g :: g in tr.guards ==> g.id == ActorAuthorized || !KnownToFail(g, f)
  }

  /** A lower candidate passes: its known guards hold and the decision vouches for the others. */
  predicate WouldPass(c: Transition, tr: Transition, f: Facts) {
    forall g :: g in c.guards ==>
      g.id == ActorAuthorized || (if GuardKnown(g, f) then GuardHolds(g, f) else g in tr.guards)
  }

  predicate Shadowed(m: Machine, tr: Transition, snap: Snapshot, ev: Event, f: Facts) {
    exists c :: c in m.transitions && c.id < tr.id && IsCandidate(c, snap, ev) && WouldPass(c, tr, f)
  }

  predicate Rechecks(env: Env, tr: Transition, t: Task, ev: Event, inp: StepInput) {
    var f := RecheckFacts(env, t, ev, inp);
    OwnGuardsHold(tr, f) && !Shadowed(env.m, tr, t.snapshot, ev, f)
  }

  /** An adjudication needs a running auxiliary reviewer, an open conflict and a known verdict. */
  predicate AdjudicationRefused(t: Task, inp: StepInput) {
    var i := LastIndex(t.executions, IsRunning);
    || i < 0 || t.executions[i].role != Reviewer || t.executions[i].dispatch != DispatchAuxiliary
    || !t.conflict.open
    || inp.verdict.OtherVerdict?
  }

  // -------------------------------------------------------- the executions

  function ClassOutcome(k: FailureClass): Outcome {
    if k == NoClass then Running else Failed(k)
  }

  /** The attempt of a counted execution is given back by the decision. */
  predicate GivenBack(m: Machine, a: Applied, e: Execution) {
    e.counted && a.from.At?
    && var k := AttemptCounter(m, a.from.name); k.Some? && Get(a.deltas, k.value) < 0
  }

  function EndExecution(
    m: Machine, es: seq<Execution>, tr: Transition, ev: Event, a: Applied, inp: StepInput, generation: int)
    : seq<Execution>
  {
    var i := LastIndex(es, IsRunning);
    if !(EndsExecution(ev.name) || ev.name.AdjudicationRecorded?) || i < 0 then es
    else
      var e := es[i];
      match ev.name
      case ExecutionFailed =>
        var ended := e.(outcome := ClassOutcome(a.failureClass), signature := inp.failureSignature);
        if RequeueExecution in tr.effects then
          es[i := ended.(refunded := e.counted)]
          + [e.(generation := generation, outcome := Running, signature := "", refunded := false)]
        else es[i := ended.(refunded := GivenBack(m, a, e))]
      case ExecutionBlocked => es[i := e.(outcome := BlockedResult)]
      case _ => es[i := e.(outcome := Succeeded)]
  }

  function CancelExecution(m: Machine, es: seq<Execution>, tr: Transition, a: Applied): seq<Execution> {
    var i := LastIndex(es, IsRunning);
    if CancelActiveExecution !in tr.effects || i < 0 then es
    else es[i := es[i].(outcome := Cancelled, refunded := GivenBack(m, a, es[i]))]
  }

  /** A judgment that fails work already accepted marks the counted execution it judges. */
  function JudgeExecution(m: Machine, es: seq<Execution>, ev: Event, a: Applied, inp: StepInput): seq<Execution> {
    var role := SubjectRole(m, ev.name, a.from);
    var i := LastIndex(es, (e: Execution) => e.counted && (e.role == Tester <==> role == Tester));
    if (a.failureClass == Merit || a.failureClass == Policy)
       && !ev.name.ExecutionFailed? && !ev.name.VerificationInfraFailed?
       && (role == Tester || role == Implementer) && i >= 0 && es[i].outcome == Succeeded
    then es[i := es[i].(outcome := Failed(a.failureClass), signature := inp.failureSignature)]
    else es
  }

  function NewExecution(h: Hashes, tr: Transition, ev: Event, inp: StepInput, generation: int): Execution {
    var d := inp.dispatch;
    Execution(if ev.role == NoRole then CreatedRole(tr.effects) else ev.role, generation,
              h.fingerprint(d), d.harness, d.model, d.profile, h.digest(d.notes),
              tr.countsAttempt, false, Running, "", ev.name)
  }

  function RecordExecutions(
    env: Env, es: seq<Execution>, tr: Transition, ev: Event, a: Applied, inp: StepInput, generation: int)
    : seq<Execution>
  {
    var ended := EndExecution(env.m, es, tr, ev, a, inp, generation);
    var cancelled := CancelExecution(env.m, ended, tr, a);
    var judged := JudgeExecution(env.m, cancelled, ev, a, inp);
    if CreatedRole(tr.effects) == NoRole then judged else judged + [NewExecution(env.h, tr, ev, inp, generation)]
  }

  // ---------------------------------------------------------- the snapshot

  function CreationMaxima(a: Attempts, from: Place, p: RetryPolicy): Attempts {
    if from != Nowhere then a
    else a.(autonomousMax := if a.autonomousMax == 0 then p.maxAutonomousAttempts else a.autonomousMax,
            testerMax := if a.testerMax == 0 then p.maxTesterAttempts else a.testerMax)
  }

  /** A human grant raises the tester budget when it is spent, and the autonomous one when it or neither is. */
  function Granted(a: Attempts, tr: Transition, p: RetryPolicy): Attempts {
    if GrantAttempts !in tr.effects || p.humanGrant <= 0 then a
    else
      var testerOut := a.testerUsed >= a.testerMax;
      a.(testerMax := if testerOut then a.testerMax + p.humanGrant else a.testerMax,
         autonomousMax := if a.autonomousUsed >= a.autonomousMax || !testerOut
                          then a.autonomousMax + p.humanGrant else a.autonomousMax)
  }

  function NextResume(snap: Snapshot, tr: Transition, fromSt: Option<State>): Place {
    if RecordResumeState !in tr.effects then snap.resumeState
    else if IsRequired(fromSt) then snap.returnState
    else snap.state
  }

  function NextReturn(snap: Snapshot, fromSt: Option<State>, toSt: State): Place {
    if toSt.active != Required then Nowhere
    else if fromSt.Some? && fromSt.value.active != Required then snap.state
    else snap.returnState
  }

  function NextBlockedReason(t: Task, ev: Event, a: Applied, inp: StepInput): string {
    if a.to != At(Blocked) then ""
    else if t.snapshot.state == At(Blocked) then t.blockedReason
    else if ev.name.ExecutionFailed? && inp.failureCode == EMERGENCY_STOP then "emergency_stop"
    else if ev.name.ExecutionFailed? && inp.failureCode == BUDGET_SHARED_EXHAUSTED then "budget_window_exhausted"
    else "human_hold"
  }

  const NO_CONFLICT := ConflictRecord(false, [], false)

  function NextConflict(c: ConflictRecord, tr: Transition, a: Applied, inp: StepInput): ConflictRecord {
    var c1 := if a.to != At(TestSpecConflict) && !IsHeld(a.to) then NO_CONFLICT else c;
    var c2 := if RecordConflict in tr.effects then ConflictRecord(true, [], false) else c1;
    var c3 := if RecordAdjudication in tr.effects then c2.(verdicts := c2.verdicts + [inp.verdict]) else c2;
    var c4 := if ApproveTestChange in tr.effects then c3.(open := true, humanApproved := true) else c3;
    if RejectConflict in tr.effects then NO_CONFLICT else c4
  }

  function NextStrengthen(s: Place, tr: Transition, a: Applied): Place {
    if AuthorizeStrengthen in tr.effects then a.to
    else if s != a.to && !IsHeld(a.to) then Nowhere
    else s
  }

  /** The task after an accepted decision. */
  function NextTask(env: Env, t: Task, ev: Event, a: Applied, inp: StepInput, tr: Transition, toSt: State): Task {
    var snap := t.snapshot;
    var fromSt := FindState(env.m, snap.state);
    var generation := snap.generation + Get(a.deltas, Generation);
    var attempts := Granted(CreationMaxima(Adjusted(snap.attempts, a.deltas), snap.state, env.p), tr, env.p);
    var conflict := NextConflict(t.conflict, tr, a, inp);
    Task(
      Snapshot(snap.mode, a.to, NextReturn(snap, fromSt, toSt), NextResume(snap, tr, fromSt), generation, attempts,
               snap.executionDispatched || CreatesExecution(tr.effects), OutcomeOfConflict(conflict, env.p).awaiting),
      RecordExecutions(env, t.executions, tr, ev, a, inp, generation),
      t.history + [Step(ev, inp, a)],
      if a.to != At(NeedsHuman) then "" else if snap.state == At(NeedsHuman) then t.needsHumanReason else a.reason,
      NextBlockedReason(t, ev, a, inp),
      conflict,
      NextStrengthen(t.strengthenState, tr, a))
  }

  // --------------------------------------------------------------- Advance

  /** The decision matches the table, the event and the task, apart from guards and counters. */
  predicate MatchesTable(env: Env, t: Task, ev: Event, a: Applied, tr: Transition) {
    var snap := t.snapshot;
    var fromSt := FindState(env.m, snap.state);
    var toSt := FindState(env.m, a.to);
    && tr.event == ev.name && toSt.Some? && snap.mode in toSt.value.modes
    && ev.actor in env.m.actors && ev.actor in tr.actors
    && !RoleRefused(fromSt, snap, ev)
    && snap.state in tr.from && snap.mode in tr.modes
    && TargetOf(env.m, tr, fromSt, snap) == Resolved(a.to)
    && a.effects == tr.effects && a.failureClass == CountedClass(tr.effects) && a.reason == NotifyReason(tr.effects)
  }

  /** The changes Advance recomputes, from the recorded role of the running execution. */
  function Recomputed(env: Env, t: Task, ev: Event, inp: StepInput, tr: Transition): Deltas {
    DeltasOf(env.m, Firing(tr, FindState(env.m, t.snapshot.state), t.snapshot, ev), inp.failureCode,
      Some(RunningRole(t)))
  }

  /** The decision passes every check but the one that no counter becomes negative. */
  predicate Admits(env: Env, t: Task, ev: Event, a: Applied, inp: StepInput) {
    var tr := ById(env.m.transitions, a.transition);
    && a.from == t.snapshot.state && tr.Some?
    && MatchesTable(env, t, ev, a, tr.value) && Rechecks(env, tr.value, t, ev, inp)
    && !(ev.name.AdjudicationRecorded? && AdjudicationRefused(t, inp))
    && a.deltas == Recomputed(env, t, ev, inp, tr.value)
  }

  function Advance(env: Env, t: Task, ev: Event, a: Applied, inp: StepInput): Result {
    var snap := t.snapshot;
    var tr := ById(env.m.transitions, a.transition);
    if a.from != snap.state then Refused(StateMismatch)
    else if tr.None? || !MatchesTable(env, t, ev, a, tr.value) then Refused(NotApplied)
    else if !Rechecks(env, tr.value, t, ev, inp) then Refused(NotApplied)
    else if ev.name.AdjudicationRecorded? && AdjudicationRefused(t, inp) then Refused(NotApplied)
    else if a.deltas != Recomputed(env, t, ev, inp, tr.value) then Refused(DeltaInvalid)
    else if Overdraws(snap.attempts, snap.generation, a.deltas) then Refused(DeltaInvalid)
    else Advanced(NextTask(env, t, ev, a, inp, tr.value, FindState(env.m, a.to).value))
  }

  lemma AdvancedIffAdmitted(env: Env, t: Task, ev: Event, a: Applied, inp: StepInput)
    ensures Advance(env, t, ev, a, inp).Advanced? <==>
      Admits(env, t, ev, a, inp) && !Overdraws(t.snapshot.attempts, t.snapshot.generation, a.deltas)
  {
    hide MatchesTable, Rechecks, AdjudicationRefused, Recomputed, Overdraws, NextTask;
  }
}
