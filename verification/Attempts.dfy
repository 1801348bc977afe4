/**
  Attempt conservation: on a disciplined table the attempt counters always
  equal the charged executions, never exceed their budgets, and at most one
  execution runs (src/internal/statemachine/accounting.go).
 */
module AttemptBooks {
  import opened Wrappers
  import opened Machine
  import opened Accounting
  import opened Fire
  import opened Advance
  import Apply
  import opened Runs

  // ------------------------------------------------------- disciplined tables

  predicate Creates(t: Transition) {
    CreatedRole(t.effects) != NoRole
  }

  predicate Ends(t: Transition) {
    EndsExecution(t.event) || t.event.AdjudicationRecorded?
  }

  predicate Cancels(t: Transition) {
    CancelActiveExecution in t.effects
  }

  predicate IsRequeue(t: Transition) {
    t.event.ExecutionFailed? && RequeueExecution in t.effects
  }

  predicate RequiredState(m: Machine, name: StateName) {
    IsRequired(FindNamed(m.states, name))
  }

  /** A dispatch needs that nothing runs and, when it counts, that attempts remain. */
  predicate DispatchGuarded(t: Transition) {
    Creates(t) ==>
      && IsDispatch(t.event) && (CreatedRole(t.effects) == Tester <==> t.event == DispatchTester)
      && Guard(NoActiveExecution, []) in t.guards
      && (t.countsAttempt ==> Guard(AttemptsRemain, []) in t.guards)
      && !Cancels(t)
  }

  /** Only execution states are dispatched into with an attempt, and their dispatches agree. */
  predicate DispatchAgrees(m: Machine, t: Transition) {
    Creates(t) ==>
      if t.to.To? && RequiredState(m, t.to.name) then
        var d := FirstDispatch(m.transitions, t.to.name);
        t.countsAttempt == d.counts && (d.role == Tester <==> CreatedRole(t.effects) == Tester)
      else !t.countsAttempt
  }

  /** A transition out of an execution state ends or cancels the execution exactly once; one that stays does neither. */
  predicate ExitsOnce(m: Machine, t: Transition) {
    !Creates(t) && (exists s :: s in m.states && At(s.name) in t.from && RequiredState(m, s.name)) ==>
      if IsRequeue(t) then t.to == Same && !Cancels(t) && CountedClass(t.effects) == Infrastructure
      else if Ends(t) || Cancels(t) then !(Ends(t) && Cancels(t)) && t.to != Same
        && (t.to.To? ==> !RequiredState(m, t.to.name))
      else t.to == Same
  }

  /** Only dispatches lead into execution states. */
  predicate EntersByDispatch(m: Machine, t: Transition) {
    !Creates(t)
      && (Nowhere in t.from || exists s :: s in m.states && At(s.name) in t.from && !RequiredState(m, s.name)) ==>
      t.to.To? ==> !RequiredState(m, t.to.name)
  }

  predicate FailureCounted(t: Transition) {
    t.event == ExecutionFailed ==> CountedClass(t.effects) != NoClass
  }

  predicate Disciplined(m: Machine) {
    forall t :: t in m.transitions ==>
      DispatchGuarded(t) && DispatchAgrees(m, t) && ExitsOnce(m, t) && EntersByDispatch(m, t) && FailureCounted(t)
  }

  // ------------------------------------------------------------- the books

  predicate IsTester(e: Execution) {
    e.dispatch == DispatchTester
  }

  /** The execution consumed an attempt of the kind that was not given back. */
  predicate Charged(e: Execution, tester: bool) {
    e.counted && !e.refunded && IsTester(e) == tester
  }

  function Charges(es: seq<Execution>, tester: bool): nat
    decreases |es|
  {
    if es == [] then 0
    else Charges(es[..|es| - 1], tester) + if Charged(es[|es| - 1], tester) then 1 else 0
  }

  predicate AtMostOneRuns(es: seq<Execution>) {
    forall i, j :: 0 <= i < j < |es| ==> es[i].outcome != Running || es[j].outcome != Running
  }

  predicate RefundsInOrder(es: seq<Execution>) {
    forall i :: 0 <= i < |es| && es[i].refunded ==> es[i].counted && es[i].outcome != Running
  }

  /** In an execution state the running execution is charged as its dispatch says; elsewhere a running one is free. */
  predicate RunsAsDispatched(m: Machine, es: seq<Execution>, place: Place) {
    if place.At? && RequiredState(m, place.name) then
      var d := FirstDispatch(m.transitions, place.name);
      exists i :: 0 <= i < |es| && es[i].outcome == Running && es[i].counted == d.counts
                  && (d.counts ==> (IsTester(es[i]) <==> d.role == Tester))
    else forall i :: 0 <= i < |es| && es[i].outcome == Running ==> !es[i].counted
  }

  predicate WithinBudget(a: Attempts) {
    a.testerUsed <= a.testerMax && a.autonomousUsed <= a.autonomousMax
  }

  predicate Books(m: Machine, t: Task) {
    && AtMostOneRuns(t.executions) && RefundsInOrder(t.executions)
    && RunsAsDispatched(m, t.executions, t.snapshot.state)
    && t.snapshot.attempts.testerUsed == Charges(t.executions, true)
    && t.snapshot.attempts.autonomousUsed == Charges(t.executions, false)
    && WithinBudget(t.snapshot.attempts)
  }

  // ------------------------------------------------------- counting charges

  lemma ChargesAppend(es: seq<Execution>, e: Execution, tester: bool)
    ensures Charges(es + [e], tester) == Charges(es, tester) + if Charged(e, tester) then 1 else 0
  {
    assert (es + [e])[..|es|] == es;
  }

  lemma {:induction false} ChargesUpdate(es: seq<Execution>, i: nat, e: Execution, tester: bool)
    requires i < |es|
    ensures Charges(es[i := e], tester) + (if Charged(es[i], tester) then 1 else 0)
         == Charges(es, tester) + (if Charged(e, tester) then 1 else 0)
    decreases |es|
  {
    var us := es[i := e];
    if i == |es| - 1 {
      assert us[..|us| - 1] == es[..|es| - 1];
    } else {
      ChargesUpdate(es[..|es| - 1], i, e, tester);
      assert us[..|us| - 1] == es[..|es| - 1][i := e];
    }
  }

  // ------------------------------------------------ what the judgment leaves

  /** Two records of the same executions that differ in outcome details only. */
  predicate SameLedger(es: seq<Execution>, us: seq<Execution>) {
    |es| == |us| && forall i :: 0 <= i < |es| ==>
      && es[i].counted == us[i].counted && es[i].refunded == us[i].refunded && es[i].dispatch == us[i].dispatch
      && (es[i].outcome == Running <==> us[i].outcome == Running)
  }

  lemma JudgeKeepsLedger(m: Machine, es: seq<Execution>, ev: Event, a: Applied, inp: StepInput)
    ensures SameLedger(es, JudgeExecution(m, es, ev, a, inp))
  {
    hide SubjectRole;
  }

  lemma {:induction false} SameLedgerSameCharges(es: seq<Execution>, us: seq<Execution>, tester: bool)
    requires SameLedger(es, us)
    ensures Charges(es, tester) == Charges(us, tester)
    decreases |es|
  {
    if es != [] {
      SameLedgerSameCharges(es[..|es| - 1], us[..|us| - 1], tester);
    }
  }

  /** The books of an execution list, without the counters. */
  predicate InOrder(m: Machine, es: seq<Execution>, place: Place) {
    AtMostOneRuns(es) && RefundsInOrder(es) && RunsAsDispatched(m, es, place)
  }

  lemma SameLedgerInOrder(m: Machine, es: seq<Execution>, us: seq<Execution>, place: Place)
    requires SameLedger(es, us) && InOrder(m, es, place)
    ensures InOrder(m, us, place)
  {
    hide FirstDispatch, FindNamed;
    if place.At? && RequiredState(m, place.name) {
      var d := FirstDispatch(m.transitions, place.name);
      var i :| 0 <= i < |es| && es[i].outcome == Running && es[i].counted == d.counts
               && (d.counts ==> (IsTester(es[i]) <==> d.role == Tester));
      assert us[i].outcome == Running;
    }
  }

  // -------------------------------------------------- the cases of a step

  /** Everything an accepted decision says about the executions. */
  datatype Move = Move(tr: Transition, ev: Event, a: Applied, inp: StepInput, snap: Snapshot, generation: int)

  function FiringOf(m: Machine, mv: Move): Firing {
    Firing(mv.tr, FindState(m, mv.snap.state), mv.snap, mv.ev)
  }

  function UsedCounter(tester: bool): Counter {
    if tester then TesterUsed else AutonomousUsed
  }

  /** The decision is one Advance accepts, as far as the executions depend on it. */
  ghost predicate Accepted(m: Machine, mv: Move) {
    && mv.tr in m.transitions && mv.tr.event == mv.ev.name
    && mv.a.from == mv.snap.state && mv.snap.state in mv.tr.from
    && mv.a.failureClass == CountedClass(mv.tr.effects)
    && TargetOf(m, mv.tr, FindState(m, mv.snap.state), mv.snap) == Resolved(mv.a.to)
    && (mv.snap.state != Nowhere ==> FindState(m, mv.snap.state).Some?)
    && (mv.snap.returnState == Nowhere || IsReady(m, mv.snap.returnState))
    && (forall tester :: Get(mv.a.deltas, UsedCounter(tester))
          == UsedChange(m, mv, tester))
  }

  /** The change of an attempt counter: a counted dispatch adds one, a refund takes one back. */
  function UsedChange(m: Machine, mv: Move, tester: bool): int {
    One(Creates(mv.tr) && mv.tr.countsAttempt && (CreatedRole(mv.tr.effects) == Tester) == tester)
    - if RefundCounter(m, FiringOf(m, mv)) == Some(UsedCounter(tester))
      then Refunds(FiringOf(m, mv), mv.inp.failureCode) else 0
  }

  predicate AtRequired(m: Machine, place: Place) {
    place.At? && RequiredState(m, place.name)
  }

  lemma TargetFacts(m: Machine, mv: Move)
    requires Accepted(m, mv)
    ensures mv.tr.to.To? ==> mv.a.to == At(mv.tr.to.name)
    ensures mv.tr.to.Same? ==> mv.a.to == mv.snap.state
    ensures mv.tr.to.Return? || mv.tr.to.Resume? ==> !AtRequired(m, mv.a.to)
  {
  }

  /** The books after the step agree with its counter changes. */
  ghost predicate StepBalances(m: Machine, mv: Move, es: seq<Execution>, us: seq<Execution>) {
    InOrder(m, us, mv.a.to)
    && forall tester :: Charges(us, tester) == Charges(es, tester) + UsedChange(m, mv, tester)
  }

  lemma RunningIsUnique(es: seq<Execution>, i: nat)
    requires AtMostOneRuns(es) && i < |es| && es[i].outcome == Running
    ensures LastIndex(es, IsRunning) == i
  {
    var j := LastIndex(es, IsRunning);
    assert IsRunning(es[i]);
    assert IsRunning(es[j]);
  }

  lemma NothingRuns(es: seq<Execution>)
    requires !HasRunning(es)
    ensures LastIndex(es, IsRunning) == -1
  {
    assert forall i :: 0 <= i < |es| ==> !IsRunning(es[i]);
  }

  /** A dispatch: one new running execution, charged as it counts. */
  lemma DispatchBalances(env: Env, mv: Move, es: seq<Execution>)
    requires Accepted(env.m, mv) && Creates(mv.tr) && DispatchGuarded(mv.tr) && DispatchAgrees(env.m, mv.tr)
    requires InOrder(env.m, es, mv.snap.state) && !HasRunning(es)
    ensures StepBalances(env.m, mv, es, RecordExecutions(env, es, mv.tr, mv.ev, mv.a, mv.inp, mv.generation))
  {
    hide FirstDispatch, FindNamed, FindState, JudgeExecution, CreatedRole, CountedClass, TargetOf, Refunds, Charges;
    NothingRuns(es);
    TargetFacts(env.m, mv);
    var judged := JudgeExecution(env.m, es, mv.ev, mv.a, mv.inp);
    var e := NewExecution(env.h, mv.tr, mv.ev, mv.inp, mv.generation);
    var us := judged + [e];
    assert RecordExecutions(env, es, mv.tr, mv.ev, mv.a, mv.inp, mv.generation) == us;
    JudgeKeepsLedger(env.m, es, mv.ev, mv.a, mv.inp);
    assert !AtRequired(env.m, mv.snap.state);
    NotRequiredNoRefund(env.m, mv);
    assert us[|es|] == e && forall i :: 0 <= i < |es| ==> us[i] == judged[i] && us[i].outcome != Running;
    assert AtRequired(env.m, mv.a.to) ==> mv.tr.to.To?;
    forall tester ensures Charges(us, tester) == Charges(es, tester) + UsedChange(env.m, mv, tester) {
      SameLedgerSameCharges(es, judged, tester);
      ChargesAppend(judged, e, tester);
    }
  }

  lemma NotRequiredNoRefund(m: Machine, mv: Move)
    requires !AtRequired(m, mv.snap.state)
    ensures RefundCounter(m, FiringOf(m, mv)) == None
  {
  }

  /** Outside execution states a step without a dispatch leaves every charge alone. */
  lemma FreeStepBalances(env: Env, mv: Move, es: seq<Execution>)
    requires Accepted(env.m, mv) && !Creates(mv.tr) && EntersByDispatch(env.m, mv.tr) && FailureCounted(mv.tr)
    requires InOrder(env.m, es, mv.snap.state) && !AtRequired(env.m, mv.snap.state)
    ensures StepBalances(env.m, mv, es, RecordExecutions(env, es, mv.tr, mv.ev, mv.a, mv.inp, mv.generation))
  {
    hide FirstDispatch, FindNamed, JudgeExecution, CreatedRole, CountedClass, TargetOf, Refunds, Charges,
      EndExecution, CancelExecution;
    var ended := EndExecution(env.m, es, mv.tr, mv.ev, mv.a, mv.inp, mv.generation);
    var cancelled := CancelExecution(env.m, ended, mv.tr, mv.a);
    FreeEnd(env.m, mv, es);
    FreeCancel(env.m, mv, ended);
    JudgeKeepsLedger(env.m, cancelled, mv.ev, mv.a, mv.inp);
    TargetFacts(env.m, mv);
    NotRequiredNoRefund(env.m, mv);
    assert !AtRequired(env.m, mv.a.to);
    SameLedgerInOrder(env.m, cancelled, JudgeExecution(env.m, cancelled, mv.ev, mv.a, mv.inp), mv.a.to);
    forall tester ensures Charges(JudgeExecution(env.m, cancelled, mv.ev, mv.a, mv.inp), tester)
      == Charges(es, tester) {
      SameLedgerSameCharges(cancelled, JudgeExecution(env.m, cancelled, mv.ev, mv.a, mv.inp), tester);
    }
  }

  /** No execution that runs is charged. */
  predicate FreeInOrder(es: seq<Execution>) {
    AtMostOneRuns(es) && RefundsInOrder(es) && forall i :: 0 <= i < |es| && es[i].outcome == Running ==> !es[i].counted
  }

  lemma FreeEnd(m: Machine, mv: Move, es: seq<Execution>)
    requires FreeInOrder(es) && (mv.ev.name.ExecutionFailed? ==> mv.a.failureClass != NoClass)
    ensures var us := EndExecution(m, es, mv.tr, mv.ev, mv.a, mv.inp, mv.generation);
      FreeInOrder(us) && forall tester :: Charges(us, tester) == Charges(es, tester)
  {
    hide Charges;
    var us := EndExecution(m, es, mv.tr, mv.ev, mv.a, mv.inp, mv.generation);
    var i := LastIndex(es, IsRunning);
    if i >= 0 && us != es {
      assert IsRunning(es[i]);
      forall tester ensures Charges(us, tester) == Charges(es, tester) {
        ChargesUpdate(es, i, us[i], tester);
        if |us| > |es| {
          ChargesAppend(es[i := us[i]], us[|es|], tester);
          assert us == es[i := us[i]] + [us[|es|]];
        } else {
          assert us == es[i := us[i]];
        }
      }
      assert forall j :: 0 <= j < |es| && j != i ==> us[j] == es[j] && us[j].outcome != Running;
    }
  }

  lemma FreeCancel(m: Machine, mv: Move, es: seq<Execution>)
    requires FreeInOrder(es)
    ensures var us := CancelExecution(m, es, mv.tr, mv.a);
      FreeInOrder(us) && forall tester :: Charges(us, tester) == Charges(es, tester)
  {
    hide Charges;
    var us := CancelExecution(m, es, mv.tr, mv.a);
    var i := LastIndex(es, IsRunning);
    if i >= 0 && us != es {
      assert IsRunning(es[i]);
      forall tester ensures Charges(us, tester) == Charges(es, tester) {
        ChargesUpdate(es, i, us[i], tester);
        assert us == es[i := us[i]];
      }
    }
  }

  /** The running execution of an execution state. */
  lemma RunningAt(m: Machine, es: seq<Execution>, place: Place) returns (i: nat)
    requires InOrder(m, es, place) && AtRequired(m, place)
    ensures i < |es| && es[i].outcome == Running && LastIndex(es, IsRunning) == i && !es[i].refunded
    ensures var d := FirstDispatch(m.transitions, place.name);
      es[i].counted == d.counts && (d.counts ==> (IsTester(es[i]) <==> d.role == Tester))
  {
    var d := FirstDispatch(m.transitions, place.name);
    i :| 0 <= i < |es| && es[i].outcome == Running && es[i].counted == d.counts
         && (d.counts ==> (IsTester(es[i]) <==> d.role == Tester));
    RunningIsUnique(es, i);
  }

  lemma RequiredRefund(m: Machine, mv: Move)
    requires AtRequired(m, mv.snap.state)
    ensures var d := FirstDispatch(m.transitions, mv.snap.state.name);
      RefundCounter(m, FiringOf(m, mv)) == if d.counts then Some(UsedCounter(d.role == Tester)) else None
  {
  }

  /** In an execution state, what leaves it ends or cancels the execution, and the refund follows the counter. */
  lemma ExitBalances(env: Env, mv: Move, es: seq<Execution>)
    requires Accepted(env.m, mv) && !Creates(mv.tr) && ExitsOnce(env.m, mv.tr) && FailureCounted(mv.tr)
    requires InOrder(env.m, es, mv.snap.state) && AtRequired(env.m, mv.snap.state)
    requires !IsRequeue(mv.tr) && (Ends(mv.tr) || Cancels(mv.tr))
    ensures StepBalances(env.m, mv, es, RecordExecutions(env, es, mv.tr, mv.ev, mv.a, mv.inp, mv.generation))
  {
    hide FirstDispatch, FindNamed, FindState, JudgeExecution, CreatedRole, CountedClass, TargetOf, Charges,
      EndExecution, CancelExecution;
    var i := RunningAt(env.m, es, mv.snap.state);
    RequiredExit(env.m, mv);
    RequiredRefund(env.m, mv);
    TargetFacts(env.m, mv);
    var ended := EndExecution(env.m, es, mv.tr, mv.ev, mv.a, mv.inp, mv.generation);
    var cancelled := CancelExecution(env.m, ended, mv.tr, mv.a);
    var e := EndedOnce(env, mv, es, i);
    assert FreeInOrder(cancelled);
    var us := JudgeExecution(env.m, cancelled, mv.ev, mv.a, mv.inp);
    JudgeKeepsLedger(env.m, cancelled, mv.ev, mv.a, mv.inp);
    SameLedgerInOrder(env.m, cancelled, us, mv.a.to);
    forall tester ensures Charges(us, tester) == Charges(es, tester) + UsedChange(env.m, mv, tester) {
      SameLedgerSameCharges(cancelled, us, tester);
      ChargesUpdate(es, i, e, tester);
    }
  }

  /** What leaves an execution state gives the running execution its outcome, refunded as the counter is. */
  lemma EndedOnce(env: Env, mv: Move, es: seq<Execution>, i: nat) returns (e: Execution)
    requires Accepted(env.m, mv) && !Creates(mv.tr) && ExitsOnce(env.m, mv.tr) && FailureCounted(mv.tr)
    requires InOrder(env.m, es, mv.snap.state) && AtRequired(env.m, mv.snap.state)
    requires !IsRequeue(mv.tr) && (Ends(mv.tr) || Cancels(mv.tr))
    requires i < |es| && es[i].outcome == Running && LastIndex(es, IsRunning) == i
    ensures var ended := EndExecution(env.m, es, mv.tr, mv.ev, mv.a, mv.inp, mv.generation);
      CancelExecution(env.m, ended, mv.tr, mv.a) == es[i := e]
    ensures e.outcome != Running && e.counted == es[i].counted && e.dispatch == es[i].dispatch
    ensures e.refunded <==> (es[i].counted && Refunds(FiringOf(env.m, mv), mv.inp.failureCode) == 1)
  {
    hide FirstDispatch, FindNamed, FindState, CreatedRole, CountedClass, TargetOf, Charges;
    RequiredExit(env.m, mv);
    RequiredRefund(env.m, mv);
    var ended := EndExecution(env.m, es, mv.tr, mv.ev, mv.a, mv.inp, mv.generation);
    e := CancelExecution(env.m, ended, mv.tr, mv.a)[i];
    GivenBackIsRefunded(env.m, mv, es[i]);
  }

  lemma RequiredExit(m: Machine, mv: Move)
    requires Accepted(m, mv) && !Creates(mv.tr) && ExitsOnce(m, mv.tr) && AtRequired(m, mv.snap.state)
    ensures if IsRequeue(mv.tr) then mv.tr.to == Same && !Cancels(mv.tr)
      && CountedClass(mv.tr.effects) == Infrastructure
      else if Ends(mv.tr) || Cancels(mv.tr) then !(Ends(mv.tr) && Cancels(mv.tr)) && !AtRequired(m, mv.a.to)
      else mv.tr.to == Same
  {
    var s := FindState(m, mv.snap.state).value;
    assert s in m.states && At(s.name) in mv.tr.from;
    TargetFacts(m, mv);
  }

  lemma GivenBackIsRefunded(m: Machine, mv: Move, e: Execution)
    requires Accepted(m, mv) && !Creates(mv.tr) && AtRequired(m, mv.snap.state)
    requires e.counted == FirstDispatch(m.transitions, mv.snap.state.name).counts
    ensures GivenBack(m, mv.a, e) <==> (e.counted && Refunds(FiringOf(m, mv), mv.inp.failureCode) > 0)
  {
    hide FirstDispatch, FindNamed, FindState, Refunds, TargetOf;
    RequiredRefund(m, mv);
    var d := FirstDispatch(m.transitions, mv.snap.state.name);
    assert Get(mv.a.deltas, UsedCounter(d.role == Tester)) == UsedChange(m, mv, d.role == Tester);
  }

  /** A requeue replaces the running execution by a copy; the refund and the new count cancel out. */
  lemma RequeueBalances(env: Env, mv: Move, es: seq<Execution>)
    requires Accepted(env.m, mv) && !Creates(mv.tr) && ExitsOnce(env.m, mv.tr) && FailureCounted(mv.tr)
    requires InOrder(env.m, es, mv.snap.state) && AtRequired(env.m, mv.snap.state) && IsRequeue(mv.tr)
    ensures StepBalances(env.m, mv, es, RecordExecutions(env, es, mv.tr, mv.ev, mv.a, mv.inp, mv.generation))
  {
    hide FirstDispatch, FindNamed, FindState, JudgeExecution, CreatedRole, CountedClass, TargetOf, Charges;
    var i := RunningAt(env.m, es, mv.snap.state);
    RequiredExit(env.m, mv);
    TargetFacts(env.m, mv);
    var ended := EndExecution(env.m, es, mv.tr, mv.ev, mv.a, mv.inp, mv.generation);
    var e, again := ended[i], ended[|es|];
    assert ended == es[i := e] + [again];
    assert again.outcome == Running && !again.refunded && again.counted == es[i].counted
      && again.dispatch == es[i].dispatch;
    assert e.outcome != Running && e.counted == es[i].counted && e.refunded == e.counted;
    assert CancelExecution(env.m, ended, mv.tr, mv.a) == ended;
    assert InOrder(env.m, ended, mv.a.to);
    var us := JudgeExecution(env.m, ended, mv.ev, mv.a, mv.inp);
    JudgeKeepsLedger(env.m, ended, mv.ev, mv.a, mv.inp);
    SameLedgerInOrder(env.m, ended, us, mv.a.to);
    forall tester ensures Charges(us, tester) == Charges(es, tester) + UsedChange(env.m, mv, tester) {
      SameLedgerSameCharges(ended, us, tester);
      ChargesUpdate(es, i, e, tester);
      ChargesAppend(es[i := e], again, tester);
    }
  }

  /** A step that stays in the execution state and neither ends nor cancels changes no charge. */
  lemma StayBalances(env: Env, mv: Move, es: seq<Execution>)
    requires Accepted(env.m, mv) && !Creates(mv.tr) && ExitsOnce(env.m, mv.tr)
    requires InOrder(env.m, es, mv.snap.state) && AtRequired(env.m, mv.snap.state)
    requires !IsRequeue(mv.tr) && !Ends(mv.tr) && !Cancels(mv.tr)
    ensures StepBalances(env.m, mv, es, RecordExecutions(env, es, mv.tr, mv.ev, mv.a, mv.inp, mv.generation))
  {
    hide FirstDispatch, FindNamed, FindState, JudgeExecution, CreatedRole, CountedClass, TargetOf, Charges;
    RequiredExit(env.m, mv);
    TargetFacts(env.m, mv);
    var us := JudgeExecution(env.m, es, mv.ev, mv.a, mv.inp);
    JudgeKeepsLedger(env.m, es, mv.ev, mv.a, mv.inp);
    SameLedgerInOrder(env.m, es, us, mv.a.to);
    forall tester ensures Charges(us, tester) == Charges(es, tester) + UsedChange(env.m, mv, tester) {
      SameLedgerSameCharges(es, us, tester);
    }
  }

  // ------------------------------------------------------------ every step

  lemma StepBalanced(env: Env, mv: Move, es: seq<Execution>)
    requires Accepted(env.m, mv) && Disciplined(env.m) && InOrder(env.m, es, mv.snap.state)
    requires Creates(mv.tr) ==> !HasRunning(es)
    ensures StepBalances(env.m, mv, es, RecordExecutions(env, es, mv.tr, mv.ev, mv.a, mv.inp, mv.generation))
  {
    hide RecordExecutions, StepBalances, InOrder, DispatchGuarded, DispatchAgrees, ExitsOnce, EntersByDispatch,
      HasRunning, TargetOf, UsedChange, AtRequired;
    if Creates(mv.tr) {
      DispatchBalances(env, mv, es);
    } else if !AtRequired(env.m, mv.snap.state) {
      FreeStepBalances(env, mv, es);
    } else if IsRequeue(mv.tr) {
      RequeueBalances(env, mv, es);
    } else if Ends(mv.tr) || Cancels(mv.tr) {
      ExitBalances(env, mv, es);
    } else {
      StayBalances(env, mv, es);
    }
  }

  lemma NextParts(env: Env, t: Task, ev: Event, a: Applied, inp: StepInput, tr: Transition)
    requires ById(env.m.transitions, a.transition) == Some(tr) && FindState(env.m, a.to).Some?
    ensures var n := NextTask(env, t, ev, a, inp, tr, FindState(env.m, a.to).value);
      && n.executions
         == RecordExecutions(env, t.executions, tr, ev, a, inp, t.snapshot.generation + Get(a.deltas, Generation))
      && n.snapshot.state == a.to
      && n.snapshot.attempts
        == Granted(CreationMaxima(Adjusted(t.snapshot.attempts, a.deltas), t.snapshot.state, env.p), tr, env.p)
      && (Advance.Advance(env, t, ev, a, inp).Advanced? ==> Advance.Advance(env, t, ev, a, inp).task == n)
  {
    hide RecordExecutions, OutcomeOfConflict, MatchesTable, Rechecks, AdjudicationRefused, Overdraws, Adjusted,
      FindState, Recomputed, Granted, CreationMaxima;
  }

  /** An admitted decision, read as a move. */
  lemma AdmittedMove(env: Env, t: Task, ev: Event, a: Applied, inp: StepInput) returns (mv: Move)
    requires Admits(env, t, ev, a, inp)
    requires t.snapshot.state != Nowhere ==> FindState(env.m, t.snapshot.state).Some?
    requires t.snapshot.returnState == Nowhere || IsReady(env.m, t.snapshot.returnState)
    ensures Accepted(env.m, mv) && mv.snap == t.snapshot && mv.a == a && mv.inp == inp && mv.ev == ev
    ensures OwnGuardsHold(mv.tr, RecheckFacts(env, t, ev, inp))
    ensures var n := NextTask(env, t, ev, a, inp, mv.tr, FindState(env.m, a.to).value);
      && n.executions == RecordExecutions(env, t.executions, mv.tr, ev, a, inp, mv.generation)
      && n.snapshot.state == a.to
      && n.snapshot.attempts
         == Granted(CreationMaxima(Adjusted(t.snapshot.attempts, a.deltas), t.snapshot.state, env.p), mv.tr, env.p)
      && (Advance.Advance(env, t, ev, a, inp).Advanced? ==> Advance.Advance(env, t, ev, a, inp).task == n)
  {
    hide RecordExecutions, Shadowed, OwnGuardsHold, AdjudicationRefused, Adjusted, TargetOf, Granted, CreationMaxima,
      NextTask, RoleRefused, CreatedRole, CountedClass, NotifyReason, FindState, IsReady, RunningRole,
      Advance.Advance;
    var tr := ById(env.m.transitions, a.transition).value;
    mv := Move(tr, ev, a, inp, t.snapshot, t.snapshot.generation + Get(a.deltas, Generation));
    NextParts(env, t, ev, a, inp, tr);
    forall tester ensures Get(a.deltas, UsedCounter(tester)) == UsedChange(env.m, mv, tester) {
    }
  }

  lemma GuardsOfDispatch(env: Env, t: Task, ev: Event, inp: StepInput, tr: Transition)
    requires Creates(tr) && DispatchGuarded(tr) && tr.event == ev.name
      && OwnGuardsHold(tr, RecheckFacts(env, t, ev, inp))
    ensures !HasRunning(t.executions)
    ensures tr.countsAttempt ==>
      if CreatedRole(tr.effects) == Tester then t.snapshot.attempts.testerUsed < t.snapshot.attempts.testerMax
      else t.snapshot.attempts.autonomousUsed < t.snapshot.attempts.autonomousMax
  {
    hide CreatedRole, HasRunning;
    var f := RecheckFacts(env, t, ev, inp);
    assert !KnownToFail(Guard(NoActiveExecution, []), f);
    if tr.countsAttempt {
      assert !KnownToFail(Guard(AttemptsRemain, []), f);
    }
  }

  ghost predicate BudgetsSane(p: RetryPolicy) {
    p.maxAutonomousAttempts >= 0 && p.maxTesterAttempts >= 0
  }

  lemma AdvanceKeepsBooks(env: Env, t: Task, ev: Event, a: Applied, inp: StepInput, n: Task)
    requires Advance.Advance(env, t, ev, a, inp) == Advanced(n) && Disciplined(env.m) && BudgetsSane(env.p)
    requires Books(env.m, t) && ReturnsToLastReady(env.m, t)
    requires t.snapshot.state != Nowhere ==> FindState(env.m, t.snapshot.state).Some?
    ensures Books(env.m, n)
  {
    hide Advance.Advance, Admits, Overdraws, NextTask, RecordExecutions, OwnGuardsHold, FindState, LastReady,
      TargetOf, RunsAsDispatched, Charges, CreatedRole, DispatchGuarded, DispatchAgrees, ExitsOnce, EntersByDispatch,
      RecheckFacts, IsReady, HasRunning, AtMostOneRuns, RefundsInOrder;
    AdvancedIffAdmitted(env, t, ev, a, inp);
    var mv := AdmittedMove(env, t, ev, a, inp);
    if Creates(mv.tr) {
      GuardsOfDispatch(env, t, ev, inp, mv.tr);
    }
    StepBalanced(env, mv, t.executions);
    assert UsedCounter(true) == TesterUsed && UsedCounter(false) == AutonomousUsed;
    assert Get(a.deltas, TesterUsed) == UsedChange(env.m, mv, true);
    assert Get(a.deltas, AutonomousUsed) == UsedChange(env.m, mv, false);
    assert WithinBudget(n.snapshot.attempts);
  }

  /** A new task with untouched counters. */
  ghost predicate StartsClean(t: Task) {
    IsNew(t) && t.snapshot.attempts.testerUsed == 0 == t.snapshot.attempts.autonomousUsed
    && t.snapshot.attempts.testerMax >= 0 && t.snapshot.attempts.autonomousMax >= 0
  }

  /**
    In every run from creation: the used counters are the charged executions of their
    kind, they stay within their maxima, and at most one execution has no outcome.
   */
  lemma {:induction false} RunKeepsBooks(env: Env, t: Task, steps: seq<Step>)
    requires Disciplined(env.m) && BudgetsSane(env.p) && StartsClean(t)
    requires Replay(env, t, steps).Advanced?
    ensures Books(env.m, Replay(env, t, steps).task)
    decreases |steps|
  {
    hide Advance.Advance, Disciplined, ReturnsToLastReady, FindState;
    if steps != [] {
      var s, front := steps[|steps| - 1], steps[..|steps| - 1];
      RunKeepsBooks(env, t, front);
      RunKeepsReturn(env, t, front);
      AdvanceKeepsBooks(env, Replay(env, t, front).task, s.event, s.applied, s.input, Replay(env, t, steps).task);
    }
  }

  // ------------------------------------------------- no refusal in any run

  /** No grant is given by an event that ends an execution. */
  predicate GrantsApart(m: Machine) {
    forall t :: t in m.transitions && GrantAttempts in t.effects ==> !EndsExecution(t.event)
  }

  ghost predicate NothingNegative(t: Task) {
    forall k :: NeverLowered(k) ==> Read(t.snapshot.attempts, t.snapshot.generation, k) >= 0
  }

  lemma AdmittedNeverOverdraws(env: Env, t: Task, ev: Event, a: Applied, inp: StepInput)
    requires Admits(env, t, ev, a, inp) && Disciplined(env.m) && GrantsApart(env.m)
    requires Books(env.m, t) && ReturnsToLastReady(env.m, t) && FailureCountersOrdered(t) && NothingNegative(t)
    requires t.snapshot.state != Nowhere ==> FindState(env.m, t.snapshot.state).Some?
    ensures !Overdraws(t.snapshot.attempts, t.snapshot.generation, a.deltas)
  {
    hide Admits, NextTask, RecordExecutions, OwnGuardsHold, FindState, LastReady, TargetOf, RunsAsDispatched,
      Charges, CreatedRole, DispatchGuarded, DispatchAgrees, ExitsOnce, EntersByDispatch, RecheckFacts, IsReady,
      HasRunning, AtMostOneRuns, RefundsInOrder, UsedChange;
    var mv := AdmittedMove(env, t, ev, a, inp);
    if Creates(mv.tr) {
      GuardsOfDispatch(env, t, ev, inp, mv.tr);
    }
    StepBalanced(env, mv, t.executions);
    assert UsedCounter(true) == TesterUsed && UsedCounter(false) == AutonomousUsed;
    forall k | k in a.deltas ensures Read(t.snapshot.attempts, t.snapshot.generation, k) + a.deltas[k] >= 0 {
      if k == TesterUsed || k == AutonomousUsed {
        assert Get(a.deltas, k) == UsedChange(env.m, mv, k == TesterUsed);
      } else {
        OtherChanges(env, t, ev, a, inp, k);
      }
    }
  }

  lemma OtherChanges(env: Env, t: Task, ev: Event, a: Applied, inp: StepInput, k: Counter)
    requires Admits(env, t, ev, a, inp) && GrantsApart(env.m) && FailureCountersOrdered(t) && NothingNegative(t)
    requires k != TesterUsed && k != AutonomousUsed
    ensures Read(t.snapshot.attempts, t.snapshot.generation, k) + Get(a.deltas, k) >= 0
  {
    hide Rechecks, AdjudicationRefused, CreatedRole, CountedClass, FindState, RunningRole, RoleRefused, TargetOf,
      MeritRole, DispatchCounter, NotifyReason;
    var tr := ById(env.m.transitions, a.transition).value;
    var f := Firing(tr, FindState(env.m, t.snapshot.state), t.snapshot, ev);
    assert Get(a.deltas, k) == Change(env.m, f, inp.failureCode, Some(RunningRole(t)), k);
    assert NeverLowered(k) ==> Read(t.snapshot.attempts, t.snapshot.generation, k) >= 0;
  }

  /** A new task with every counter at zero. */
  ghost predicate StartsAtZero(t: Task) {
    StartsClean(t) && FailureCountersOrdered(t) && NothingNegative(t)
  }

  /**
    On a disciplined table that Load accepts, no run ever sees Advance refuse what Fire
    decided: every call of Apply is an input error, a rejection or an applied step.
   */
  lemma RunNeverRefused(env: Env, t: Task, calls: seq<Call>, c: Call)
    requires Apply.Acceptable(env.m) && Disciplined(env.m) && GrantsApart(env.m) && BudgetsSane(env.p)
      && StartsAtZero(t)
    ensures !Apply.ApplyStep(env, Run(env, t, calls), c.event, c.input, c.base).AdvanceFailed?
  {
    hide Run, Replay, Disciplined, Books, ReturnsToLastReady, FailureCountersOrdered, Apply.ApplyStep,
      Apply.Acceptable, Admits, FindState, Overdraws, Apply.RecordedApplied, Apply.RecordedInput, AccountingFacts,
      Decide, AdjudicationRefused, Read;
    var now := Run(env, t, calls);
    RunReplays(env, t, calls);
    var steps := now.history[|t.history|..];
    RunKeepsBooks(env, t, steps);
    RunKeepsReturn(env, t, steps);
    RunKeepsOrder(env, t, steps);
    forall k | NeverLowered(k) ensures Read(now.snapshot.attempts, now.snapshot.generation, k) >= 0 {
      RunNeverLowers(env, t, steps, k);
    }
    var d := Decide(env.m, now.snapshot, c.event, AccountingFacts(env, now, c.input, c.event, c.base));
    Apply.AdvanceAcceptsFire(env, now, c.event, c.input, c.base);
    if d.Fired? && !(c.event.name.AdjudicationRecorded? && AdjudicationRefused(now, c.input)) {
      AdmittedNeverOverdraws(env, now, c.event, Apply.RecordedApplied(now, c.event, d.applied),
                             Apply.RecordedInput(c.event, c.input, c.base));
    } else {
      NotFiredNotRefused(env, now, c);
    }
  }

  lemma NotFiredNotRefused(env: Env, t: Task, c: Call)
    requires var d := Decide(env.m, t.snapshot, c.event, AccountingFacts(env, t, c.input, c.event, c.base));
      !(d.Fired? && !(c.event.name.AdjudicationRecorded? && AdjudicationRefused(t, c.input)))
    ensures !Apply.ApplyStep(env, t, c.event, c.input, c.base).AdvanceFailed?
  {
    hide Decide, AdjudicationRefused, AccountingFacts, Advance.Advance;
  }
}
