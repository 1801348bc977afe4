/**
  The facts the accounting layer answers itself, and the counter changes of a
  transition (src/internal/statemachine/accounting.go).
 */
module Accounting {
  import opened Wrappers
  import opened Machine

  // ---------------------------------------------------------------- facts

  datatype BoolAnswer = BoolAnswer(value: bool, known: bool)

  datatype ValueAnswer = ValueAnswer(value: string, known: bool)

  /** One consistent set of answers to the questions of a step. */
  datatype Facts = Facts(b: GuardId -> BoolAnswer, v: GuardId -> ValueAnswer)

  predicate IsValued(id: GuardId) {
    id.FailureCode? || id.OtherValued?
  }

  /** A missing fact, an unknown identifier and an argument on a boolean guard all evaluate false. */
  predicate GuardHolds(g: Guard, f: Facts) {
    match g.id
    case FailureCode => f.v(g.id).known && f.v(g.id).value != "" && f.v(g.id).value in g.args
    case OtherValued(_) => f.v(g.id).known && f.v(g.id).value != "" && f.v(g.id).value in g.args
    case Negation(base) => g.args == [] && f.b(base).known && !f.b(base).value
    case Unregistered(_) => false
    case _ => g.args == [] && f.b(g.id).known && f.b(g.id).value
  }

  /** Whether the facts know the answer to a guard; an unknown identifier is known to fail. */
  predicate GuardKnown(g: Guard, f: Facts) {
    match g.id
    case FailureCode => f.v(g.id).known
    case OtherValued(_) => f.v(g.id).known
    case Negation(base) => f.b(base).known
    case Unregistered(_) => true
    case _ => f.b(g.id).known
  }

  // ------------------------------------------------------ the accounting facts

  predicate TesterSide(e: EventName, state: Place) {
    || e.DispatchTester? || e.RedClassified? || e.JudgeClassified?
    || (e.ExecutionFailed? && (state == At(TestAuthoring) || state == At(JudgeAuthoring)))
  }

  predicate HasRunning(es: seq<Execution>) {
    exists i :: 0 <= i < |es| && es[i].outcome == Running
  }

  /** The index of the last execution that satisfies the test, or -1. */
  function LastIndex(es: seq<Execution>, test: Execution -> bool): (r: int)
    ensures -1 <= r < |es|
    ensures r >= 0 ==> test(es[r])
    ensures forall i :: r < i < |es| ==> !test(es[i])
    decreases |es|
  {
    if es == [] then -1
    else if test(es[|es| - 1]) then |es| - 1
    else LastIndex(es[..|es| - 1], test)
  }

  const IsRunning: Execution -> bool := (e: Execution) => e.outcome == Running

  function RunningRole(t: Task): Role {
    var i := LastIndex(t.executions, IsRunning);
    if i >= 0 then t.executions[i].role else NoRole
  }

  function OfRole(es: seq<Execution>, role: Role, generation: int): seq<Execution> {
    if es == [] then []
    else
      (if es[0].role == role && es[0].generation == generation then [es[0]] else [])
      + OfRole(es[1..], role, generation)
  }

  function WithMerit(es: seq<Execution>): seq<Execution> {
    if es == [] then []
    else (if es[0].outcome == Failed(Merit) then [es[0]] else []) + WithMerit(es[1..])
  }

  /** The dispatch repeats one that failed deterministically, or follows two equal merit failures unchanged. */
  predicate IdenticalReplay(h: Hashes, t: Task, d: DispatchSpec, ev: Event) {
    if d.role == NoRole || ev.role == NoRole || ev.role != d.role then true
    else
      var ofRole := OfRole(t.executions, d.role, t.snapshot.generation);
      var merit := WithMerit(ofRole);
      || (exists i :: 0 <= i < |ofRole| && ofRole[i].fingerprint == h.fingerprint(d)
           && (ofRole[i].outcome == Failed(Merit) || ofRole[i].outcome == Failed(Policy)))
      || (|merit| >= 2 && |ofRole| > 0
          && merit[|merit| - 1].signature == merit[|merit| - 2].signature
          && (var last := ofRole[|ofRole| - 1];
              last.harness == d.harness && last.model == d.model && last.profile == d.profile
              && last.notesDigest == h.digest(d.notes)))
  }

  /** The verdict in force: the first one, tightened from invalid to valid by a later one. */
  function EffectiveVerdict(vs: seq<Verdict>): Option<Verdict> {
    if vs == [] then None
    else if |vs| == 1 then Some(vs[0])
    else
      var before := EffectiveVerdict(vs[..|vs| - 1]);
      if before == Some(TestInvalid) && vs[|vs| - 1] == TestValid then Some(TestValid) else before
  }

  predicate Disputed(vs: seq<Verdict>) {
    exists i, j :: 0 <= i < j < |vs| && vs[i] != vs[j]
  }

  datatype ConflictOutcome = ConflictOutcome(approved: bool, rejected: bool, awaiting: bool)

  function OutcomeOfConflict(c: ConflictRecord, p: RetryPolicy): ConflictOutcome {
    if !c.open then ConflictOutcome(false, false, false)
    else
      var effective := EffectiveVerdict(c.verdicts);
      var approved := c.humanApproved
        || (p.adjudicatorApproves && effective == Some(TestInvalid) && !Disputed(c.verdicts));
      ConflictOutcome(
        approved,
        effective == Some(TestValid) && !c.humanApproved,
        effective == Some(TestInvalid) && !approved)
  }

  function InClass(a: Attempts, k: FailureClass): int {
    if k in a.byClass then a.byClass[k] else 0
  }

  predicate RequeueAllowed(a: Attempts, p: RetryPolicy, code: string) {
    && a.consecutiveInfrastructure + 1 < p.maxConsecutive
    && InClass(a, Infrastructure) + 1 < p.maxTotal
    && !(code == TIMED_OUT && a.consecutiveTimeouts + 1 >= p.maxConsecutiveTimeouts)
  }

  predicate DispatchedInGeneration(t: Task, test: Execution -> bool) {
    exists i :: 0 <= i < |t.executions| && test(t.executions[i]) && t.executions[i].generation == t.snapshot.generation
  }

  predicate AnsweredByAccounting(id: GuardId) {
    || id.AttemptsRemain? || id.ReviewsRemain? || id.AuxiliaryRemain? || id.NotIdenticalReplay?
    || id.InfraRequeueAllowed? || id.NoActiveExecution? || id.NoProducerInGeneration?
    || id.NoProductionInGeneration? || id.NoImplementerInGeneration?
    || id.TestChangeApproved? || id.ConflictRejected? || id.StrengthenAuthorized?
  }

  /** The answers taken from the task, the policy and the step input, given the failure code of the step. */
  function OwnAnswer(env: Env, t: Task, d: DispatchSpec, ev: Event, code: string, id: GuardId): bool
    requires AnsweredByAccounting(id)
  {
    var a := t.snapshot.attempts;
    match id
    case AttemptsRemain =>
      if TesterSide(ev.name, t.snapshot.state) then a.testerUsed < a.testerMax else a.autonomousUsed < a.autonomousMax
    case ReviewsRemain => a.reviewsUsed < env.p.maxReviewExecutions
    case AuxiliaryRemain => a.auxiliaryUsed < env.p.maxAuxiliaryExecutions
    case NotIdenticalReplay => !IdenticalReplay(env.h, t, d, ev)
    case InfraRequeueAllowed => RequeueAllowed(a, env.p, code)
    case NoActiveExecution => !HasRunning(t.executions)
    case NoProducerInGeneration => !DispatchedInGeneration(t, (e: Execution) => e.dispatch == DispatchProducer)
    case NoProductionInGeneration => !DispatchedInGeneration(t, (e: Execution) => e.dispatch == DispatchProducer)
    case NoImplementerInGeneration => !DispatchedInGeneration(t, (e: Execution) => e.role == Implementer)
    case TestChangeApproved => OutcomeOfConflict(t.conflict, env.p).approved
    case ConflictRejected => OutcomeOfConflict(t.conflict, env.p).rejected
    case StrengthenAuthorized => t.strengthenState != Nowhere && t.strengthenState == t.snapshot.state
  }

  /** The failure code of the step: the input's, else the base's when the base knows it. */
  function StepCode(inp: StepInput, base: Facts): string {
    if inp.failureCode != "" then inp.failureCode
    else if base.v(FailureCode).known then base.v(FailureCode).value
    else ""
  }

  function ValueOf(inp: StepInput, base: Facts, id: GuardId): ValueAnswer {
    if id.FailureCode? then
      if inp.failureCode != "" then ValueAnswer(inp.failureCode, true)
      else if base.v(id).known then base.v(id)
      else ValueAnswer("", false)
    else base.v(id)
  }

  function BoolOf(env: Env, t: Task, inp: StepInput, ev: Event, base: Facts, id: GuardId): BoolAnswer {
    if AnsweredByAccounting(id) then
      BoolAnswer(OwnAnswer(env, t, inp.dispatch, ev, StepCode(inp, base), id), true)
    else base.b(id)
  }

  /** AccountingFacts over a consistent base. */
  function AccountingFacts(env: Env, t: Task, inp: StepInput, ev: Event, base: Facts): Facts {
    Facts((id: GuardId) => BoolOf(env, t, inp, ev, base, id), (id: GuardId) => ValueOf(inp, base, id))
  }

  /** The base of the recheck: it knows the recorded failure code alone. */
  function CodeOnly(code: string, always: bool): Facts {
    Facts((id: GuardId) => BoolAnswer(false, false),
          (id: GuardId) => ValueAnswer(code, id.FailureCode? && (always || code != "")))
  }

  // ----------------------------------------------------------- counter changes

  function Get(d: Deltas, k: Counter): int {
    if k in d then d[k] else 0
  }

  ghost predicate NoZero(d: Deltas) {
    forall k :: k in d ==> d[k] != 0
  }

  /** Adds n to a change; a change that becomes zero disappears. */
  function Add(d: Deltas, k: Counter, n: int): (r: Deltas)
    ensures forall j :: Get(r, j) == Get(d, j) + (if j == k then n else 0)
    ensures NoZero(d) ==> NoZero(r)
  {
    if n == 0 then d
    else if Get(d, k) + n == 0 then d - {k}
    else d[k := Get(d, k) + n]
  }

  lemma SameChanges(d: Deltas, d': Deltas)
    requires NoZero(d) && NoZero(d') && forall k :: Get(d, k) == Get(d', k)
    ensures d == d'
  {
    forall k ensures k in d <==> k in d' {
      assert Get(d, k) == Get(d', k);
    }
    forall k | k in d ensures d[k] == d'[k] {
      assert Get(d, k) == Get(d', k);
    }
  }

  /** What a decision is about: the transition, the state it leaves, the snapshot and the event. */
  datatype Firing = Firing(t: Transition, cur: Option<State>, snap: Snapshot, ev: Event)

  /** The counter a created execution adds to. */
  function DispatchCounter(t: Transition): Option<Counter> {
    var role := CreatedRole(t.effects);
    if role == NoRole then None
    else if t.countsAttempt && role == Tester then Some(TesterUsed)
    else if t.countsAttempt then Some(AutonomousUsed)
    else if role == Reviewer then Some(ReviewsUsed)
    else if role == Auxiliary then Some(AuxiliaryUsed)
    else None
  }

  /** The counter a refund gives back: the one an execution running in the current state consumed. */
  function RefundCounter(m: Machine, f: Firing): Option<Counter> {
    if IsRequired(f.cur) then AttemptCounter(m, f.cur.value.name) else None
  }

  /** The role that keys the merit failure, or NoRole. */
  function MeritRole(m: Machine, f: Firing, worker: Option<Role>): Role {
    if CountedClass(f.t.effects) != Merit then NoRole
    else if !f.ev.name.ExecutionFailed? then SubjectRole(m, f.ev.name, f.snap.state)
    else
      var r := if worker.Some? then worker.value else SubjectRole(m, f.ev.name, f.snap.state);
      if IsMeritRole(r) then r else NoRole
  }

  predicate IsInfraFailure(f: Firing) {
    f.ev.name.ExecutionFailed? && CountedClass(f.t.effects) == Infrastructure
  }

  predicate RefundsOnEnd(f: Firing, code: string) {
    && EndsExecution(f.ev.name)
    && if IsInfraFailure(f) then RequeueExecution !in f.t.effects
       else f.ev.name.ExecutionFailed? && CountedClass(f.t.effects) == Budget
            && (code == EMERGENCY_STOP || code == BUDGET_SHARED_EXHAUSTED)
  }

  function Refunds(f: Firing, code: string): nat {
    (if RefundsOnEnd(f, code) then 1 else 0) + (if CancelActiveExecution in f.t.effects then 1 else 0)
  }

  function One(b: bool): int {
    if b then 1 else 0
  }

  /** The change of each counter, stated counter by counter. */
  function Change(m: Machine, f: Firing, code: string, worker: Option<Role>, k: Counter): int {
    var a := f.snap.attempts;
    var es := f.t.effects;
    var resets := One(EndsExecution(f.ev.name) && !IsInfraFailure(f)) + One(GrantAttempts in es);
    match k
    case AutonomousUsed =>
      One(DispatchCounter(f.t) == Some(k)) - (if RefundCounter(m, f) == Some(k) then Refunds(f, code) else 0)
    case TesterUsed =>
      One(DispatchCounter(f.t) == Some(k)) - (if RefundCounter(m, f) == Some(k) then Refunds(f, code) else 0)
    case ReviewsUsed => One(DispatchCounter(f.t) == Some(k))
    case AuxiliaryUsed => One(DispatchCounter(f.t) == Some(k))
    case Generation =>
      One(CreatedRole(es) != NoRole && f.snap.generation == 0) + One(StartGeneration in es || ArchiveGeneration in es)
    case ByClass(c) => One(c != NoClass && c == CountedClass(es))
    case MeritBy(r, g) => One(r != NoRole && r == MeritRole(m, f, worker) && g == f.snap.generation)
    case ConsecutiveInfrastructure =>
      One(IsInfraFailure(f)) - resets * a.consecutiveInfrastructure
    case ConsecutiveTimeouts =>
      if IsInfraFailure(f) && code != TIMED_OUT then
        -a.consecutiveTimeouts - One(GrantAttempts in es) * a.consecutiveTimeouts
      else One(IsInfraFailure(f)) - resets * a.consecutiveTimeouts
  }

  function AddOption(d: Deltas, k: Option<Counter>, n: int): (r: Deltas)
    ensures forall j :: Get(r, j) == Get(d, j) + (if k == Some(j) then n else 0)
    ensures NoZero(d) ==> NoZero(r)
  {
    if k.Some? then Add(d, k.value, n) else d
  }

  /** The finite set of counters a firing can change. */
  function Touched(m: Machine, f: Firing, worker: Option<Role>): set<Counter> {
    {AutonomousUsed, TesterUsed, ReviewsUsed, AuxiliaryUsed, Generation, ConsecutiveInfrastructure, ConsecutiveTimeouts,
     ByClass(CountedClass(f.t.effects)), MeritBy(MeritRole(m, f, worker), f.snap.generation)}
  }

  /** The recorded changes: the counters whose change is not zero. */
  function DeltasOf(m: Machine, f: Firing, code: string, worker: Option<Role>): (d: Deltas)
    ensures NoZero(d) && forall k :: Get(d, k) == Change(m, f, code, worker, k)
  {
    map k | k in Touched(m, f, worker) && Change(m, f, code, worker, k) != 0 :: Change(m, f, code, worker, k)
  }

  function DispatchChange(f: Firing, k: Counter): int {
    if k == Generation then
      One(CreatedRole(f.t.effects) != NoRole && f.snap.generation == 0)
      + One(StartGeneration in f.t.effects || ArchiveGeneration in f.t.effects)
    else One(DispatchCounter(f.t) == Some(k))
  }

  method CountDispatch(f: Firing) returns (d: Deltas)
    ensures NoZero(d) && forall k :: Get(d, k) == DispatchChange(f, k)
  {
    hide CreatedRole;
    var es := f.t.effects;
    d := map[];
    if CreatedRole(es) != NoRole {
      d := AddOption(d, DispatchCounter(f.t), 1);
      if f.snap.generation == 0 {
        d := Add(d, Generation, 1);
      }
    }
    if StartGeneration in es || ArchiveGeneration in es {
      d := Add(d, Generation, 1);
    }
  }

  function ClassChange(m: Machine, f: Firing, worker: Option<Role>, k: Counter): int {
    match k
    case ByClass(c) => One(c != NoClass && c == CountedClass(f.t.effects))
    case MeritBy(r, g) => One(r != NoRole && r == MeritRole(m, f, worker) && g == f.snap.generation)
    case _ => 0
  }

  method CountClass(m: Machine, f: Firing, worker: Option<Role>, d0: Deltas) returns (d: Deltas)
    requires NoZero(d0)
    ensures NoZero(d) && forall k :: Get(d, k) == Get(d0, k) + ClassChange(m, f, worker, k)
  {
    hide CountedClass, SubjectRole;
    d := d0;
    var kind := CountedClass(f.t.effects);
    if kind != NoClass {
      d := Add(d, ByClass(kind), 1);
      var r := MeritRole(m, f, worker);
      if r != NoRole {
        d := Add(d, MeritBy(r, f.snap.generation), 1);
      }
    }
  }

  function EndChange(m: Machine, f: Firing, code: string, k: Counter): int {
    var a := f.snap.attempts;
    if !EndsExecution(f.ev.name) then 0
    else if k == ConsecutiveInfrastructure then if IsInfraFailure(f) then 1 else -a.consecutiveInfrastructure
    else if k == ConsecutiveTimeouts then
      if IsInfraFailure(f) && code == TIMED_OUT then 1 else -a.consecutiveTimeouts
    else -One(RefundsOnEnd(f, code) && RefundCounter(m, f) == Some(k))
  }

  method CountEnd(m: Machine, f: Firing, code: string, d0: Deltas) returns (d: Deltas)
    requires NoZero(d0)
    ensures NoZero(d) && forall k :: Get(d, k) == Get(d0, k) + EndChange(m, f, code, k)
  {
    var a := f.snap.attempts;
    d := d0;
    if EndsExecution(f.ev.name) {
      var kind := CountedClass(f.t.effects);
      if f.ev.name.ExecutionFailed? && kind == Infrastructure {
        d := Add(d, ConsecutiveInfrastructure, 1);
        if code == TIMED_OUT {
          d := Add(d, ConsecutiveTimeouts, 1);
        } else {
          d := Add(d, ConsecutiveTimeouts, -a.consecutiveTimeouts);
        }
        if RequeueExecution !in f.t.effects {
          d := AddOption(d, RefundCounter(m, f), -1);
        }
      } else {
        d := Add(d, ConsecutiveInfrastructure, -a.consecutiveInfrastructure);
        d := Add(d, ConsecutiveTimeouts, -a.consecutiveTimeouts);
        if f.ev.name.ExecutionFailed? && kind == Budget && (code == EMERGENCY_STOP || code == BUDGET_SHARED_EXHAUSTED) {
          d := AddOption(d, RefundCounter(m, f), -1);
        }
      }
    }
  }

  function HeldChange(m: Machine, f: Firing, k: Counter): int {
    if k == ConsecutiveInfrastructure then
      -One(GrantAttempts in f.t.effects) * f.snap.attempts.consecutiveInfrastructure
    else if k == ConsecutiveTimeouts then
      -One(GrantAttempts in f.t.effects) * f.snap.attempts.consecutiveTimeouts
    else -One(CancelActiveExecution in f.t.effects && RefundCounter(m, f) == Some(k))
  }

  method CountHeld(m: Machine, f: Firing, d0: Deltas) returns (d: Deltas)
    requires NoZero(d0)
    ensures NoZero(d) && forall k :: Get(d, k) == Get(d0, k) + HeldChange(m, f, k)
  {
    d := d0;
    if CancelActiveExecution in f.t.effects {
      d := AddOption(d, RefundCounter(m, f), -1);
    }
    if GrantAttempts in f.t.effects {
      d := Add(d, ConsecutiveInfrastructure, -f.snap.attempts.consecutiveInfrastructure);
      d := Add(d, ConsecutiveTimeouts, -f.snap.attempts.consecutiveTimeouts);
    }
  }

  lemma ChangeIsTheSum(m: Machine, f: Firing, code: string, worker: Option<Role>, k: Counter)
    ensures Change(m, f, code, worker, k)
         == DispatchChange(f, k) + ClassChange(m, f, worker, k) + EndChange(m, f, code, k) + HeldChange(m, f, k)
  {
    hide CreatedRole, CountedClass, MeritRole;
  }

  /**
    The changes of a fired transition, step by step: the dispatch and the generation, the
    failure class, the end of the execution, its cancellation and the human grant.
   */
  method ComputeDeltas(m: Machine, f: Firing, code: string, worker: Option<Role>) returns (d: Deltas)
    ensures d == DeltasOf(m, f, code, worker)
  {
    hide *;
    d := CountDispatch(f);
    d := CountClass(m, f, worker, d);
    d := CountEnd(m, f, code, d);
    d := CountHeld(m, f, d);
    forall k ensures Get(d, k) == Change(m, f, code, worker, k) {
      ChangeIsTheSum(m, f, code, worker, k);
    }
    SameChanges(d, DeltasOf(m, f, code, worker));
  }
}
