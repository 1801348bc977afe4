/**
  Whole runs: replaying the recorded steps, and what holds after every run
  (src/internal/statemachine/accounting.go).
 */
module Runs {
  import opened Wrappers
  import opened Machine
  import opened Accounting
  import opened Fire
  import opened Advance
  import Apply

  /** Folds recorded steps over a task. */
  function Replay(env: Env, t: Task, steps: seq<Step>): Result
    decreases |steps|
  {
    if steps == [] then Advanced(t)
    else
      match Replay(env, t, steps[..|steps| - 1])
      case Refused(e) => Refused(e)
      case Advanced(n) =>
        var s := steps[|steps| - 1];
        Advance.Advance(env, n, s.event, s.applied, s.input)
  }

  lemma ReplayUnfolds(env: Env, t: Task, steps: seq<Step>)
    requires steps != [] && Replay(env, t, steps).Advanced?
    ensures var s, front := steps[|steps| - 1], steps[..|steps| - 1];
      Replay(env, t, front).Advanced?
      && Advance.Advance(env, Replay(env, t, front).task, s.event, s.applied, s.input) == Replay(env, t, steps)
  {
    hide Advance.Advance;
  }

  /** Replaying a concatenation is replaying its parts one after the other. */
  lemma {:induction false} ReplayConcat(env: Env, t: Task, xs: seq<Step>, ys: seq<Step>)
    ensures Replay(env, t, xs + ys) ==
      match Replay(env, t, xs) { case Refused(e) => Refused(e) case Advanced(n) => Replay(env, n, ys) }
    decreases |ys|
  {
    hide Advance.Advance;
    var zs := xs + ys;
    if ys == [] {
      assert zs == xs;
    } else {
      ReplayConcat(env, t, xs, ys[..|ys| - 1]);
      assert zs[..|zs| - 1] == xs + ys[..|ys| - 1];
      assert zs[|zs| - 1] == ys[|ys| - 1];
    }
  }

  // ------------------------------------------------------------ runs of Apply

  /** One call of Apply: the event, the step input and what the base answers. */
  datatype Call = Call(event: Event, input: StepInput, base: Facts)

  /** The task the caller holds after the call: a failed or rejected call changes nothing. */
  function After(env: Env, t: Task, c: Call): Task {
    var r := Apply.ApplyStep(env, t, c.event, c.input, c.base);
    if r.Done? then r.task else t
  }

  function Run(env: Env, t: Task, calls: seq<Call>): Task
    decreases |calls|
  {
    if calls == [] then t else After(env, Run(env, t, calls[..|calls| - 1]), calls[|calls| - 1])
  }

  lemma AfterAdvances(env: Env, t: Task, c: Call)
    ensures After(env, t, c) == t
      || exists a, inp :: (
           Advance.Advance(env, t, c.event, a, inp) == Advanced(After(env, t, c))
           && After(env, t, c).history == t.history + [Step(c.event, inp, a)])
  {
    hide Decide, Rechecks, MatchesTable, Recomputed, Overdraws;
  }

  /** Replaying the steps a run appended, from its starting task, rebuilds the final task. */
  lemma {:induction false} RunReplays(env: Env, t: Task, calls: seq<Call>)
    ensures t.history <= Run(env, t, calls).history
    ensures Replay(env, t, Run(env, t, calls).history[|t.history|..]) == Advanced(Run(env, t, calls))
    decreases |calls|
  {
    hide After, Advance.Advance;
    if calls == [] {
      assert t.history[|t.history|..] == [];
    } else {
      RunReplays(env, t, calls[..|calls| - 1]);
      var before := Run(env, t, calls[..|calls| - 1]);
      var c := calls[|calls| - 1];
      var n := After(env, before, c);
      AfterAdvances(env, before, c);
      if n != before {
        var a, inp :| Advance.Advance(env, before, c.event, a, inp) == Advanced(n)
          && n.history == before.history + [Step(c.event, inp, a)];
        var steps := n.history[|t.history|..];
        assert steps[..|steps| - 1] == before.history[|t.history|..];
        assert steps[|steps| - 1] == Step(c.event, inp, a);
        assert t.history <= n.history by {
          assert n.history[..|before.history|] == before.history;
        }
      }
    }
  }

  // ---------------------------------------------------------- the counters

  /** What an accepted decision changes, counter by counter. */
  lemma AdvancedCounters(env: Env, t: Task, ev: Event, a: Applied, inp: StepInput, n: Task, k: Counter)
    requires Advance.Advance(env, t, ev, a, inp) == Advanced(n)
    ensures var tr := ById(env.m.transitions, a.transition);
      tr.Some? && tr.value.effects == a.effects && tr.value.event == ev.name
      && var f := Firing(tr.value, FindState(env.m, t.snapshot.state), t.snapshot, ev);
      Read(n.snapshot.attempts, n.snapshot.generation, k)
        == Read(t.snapshot.attempts, t.snapshot.generation, k)
          + Change(env.m, f, inp.failureCode, Some(RunningRole(t)), k)
      && (Change(env.m, f, inp.failureCode, Some(RunningRole(t)), k) != 0 ==>
           Read(n.snapshot.attempts, n.snapshot.generation, k) >= 0)
  {
    hide Rechecks, Change, Adjusted, RecordExecutions, AdjudicationRefused, TargetOf, OutcomeOfConflict;
    AdjustedReads(t.snapshot.attempts, t.snapshot.generation, a.deltas, k);
  }

  ghost predicate FailureCountersOrdered(t: Task) {
    var a := t.snapshot.attempts;
    0 <= a.consecutiveTimeouts <= a.consecutiveInfrastructure <= InClass(a, Infrastructure)
  }

  /** Counters that no transition ever lowers. */
  predicate NeverLowered(k: Counter) {
    k.Generation? || k.ByClass? || k.MeritBy? || k.ReviewsUsed? || k.AuxiliaryUsed?
  }

  lemma AdvanceKeepsOrder(env: Env, t: Task, ev: Event, a: Applied, inp: StepInput, n: Task)
    requires Advance.Advance(env, t, ev, a, inp) == Advanced(n) && FailureCountersOrdered(t)
    ensures FailureCountersOrdered(n)
  {
    hide Advance.Advance, CountedClass, SubjectRole;
    AdvancedCounters(env, t, ev, a, inp, n, ConsecutiveInfrastructure);
    AdvancedCounters(env, t, ev, a, inp, n, ConsecutiveTimeouts);
    AdvancedCounters(env, t, ev, a, inp, n, ByClass(Infrastructure));
  }

  lemma AdvanceNeverLowers(env: Env, t: Task, ev: Event, a: Applied, inp: StepInput, n: Task, k: Counter)
    requires Advance.Advance(env, t, ev, a, inp) == Advanced(n) && NeverLowered(k)
    ensures Read(n.snapshot.attempts, n.snapshot.generation, k) >= Read(t.snapshot.attempts, t.snapshot.generation, k)
  {
    hide Advance.Advance;
    AdvancedCounters(env, t, ev, a, inp, n, k);
  }

  /** For any table: timeouts in a row never exceed infrastructure failures in a row, nor these the total. */
  lemma {:induction false} RunKeepsOrder(env: Env, t: Task, steps: seq<Step>)
    requires FailureCountersOrdered(t) && Replay(env, t, steps).Advanced?
    ensures FailureCountersOrdered(Replay(env, t, steps).task)
    decreases |steps|
  {
    hide FailureCountersOrdered;
    if steps != [] {
      var s, front := steps[|steps| - 1], steps[..|steps| - 1];
      RunKeepsOrder(env, t, front);
      AdvanceKeepsOrder(env, Replay(env, t, front).task, s.event, s.applied, s.input, Replay(env, t, steps).task);
    }
  }

  /** For any table: generation, class, merit, review and auxiliary counters only grow. */
  lemma {:induction false} RunNeverLowers(env: Env, t: Task, steps: seq<Step>, k: Counter)
    requires Replay(env, t, steps).Advanced? && NeverLowered(k)
    ensures var n := Replay(env, t, steps).task;
      Read(n.snapshot.attempts, n.snapshot.generation, k) >= Read(t.snapshot.attempts, t.snapshot.generation, k)
    decreases |steps|
  {
    hide Read;
    if steps != [] {
      var s, front := steps[|steps| - 1], steps[..|steps| - 1];
      RunNeverLowers(env, t, front, k);
      AdvanceNeverLowers(env, Replay(env, t, front).task, s.event, s.applied, s.input, Replay(env, t, steps).task, k);
    }
  }

  // ------------------------------------------------------- automatic requeues

  function Requeues(steps: seq<Step>): nat
    decreases |steps|
  {
    if steps == [] then 0
    else Requeues(steps[..|steps| - 1]) + if RequeueExecution in steps[|steps| - 1].applied.effects then 1 else 0
  }

  /** Every requeue counts an infrastructure failure and is guarded by the requeue limit. */
  predicate RequeuesLimited(m: Machine) {
    forall t :: t in m.transitions && RequeueExecution in t.effects ==>
      Guard(InfraRequeueAllowed, []) in t.guards && CountedClass(t.effects) == Infrastructure
  }

  lemma AdvanceRequeueLimited(env: Env, t: Task, ev: Event, a: Applied, inp: StepInput, n: Task)
    requires RequeuesLimited(env.m) && Advance.Advance(env, t, ev, a, inp) == Advanced(n)
    requires RequeueExecution in a.effects
    ensures InClass(t.snapshot.attempts, Infrastructure) + 1 < env.p.maxTotal
    ensures InClass(n.snapshot.attempts, Infrastructure) == InClass(t.snapshot.attempts, Infrastructure) + 1
  {
    hide NextTask, IdenticalReplay, OutcomeOfConflict, Shadowed, Change, AdjudicationRefused, TargetOf;
    AdvancedCounters(env, t, ev, a, inp, n, ByClass(Infrastructure));
    var tr := ById(env.m.transitions, a.transition).value;
    var f := RecheckFacts(env, t, ev, inp);
    var g := Guard(InfraRequeueAllowed, []);
    assert !KnownToFail(g, f);
    var cur := FindState(env.m, t.snapshot.state);
    assert Change(env.m, Firing(tr, cur, t.snapshot, ev), inp.failureCode, Some(RunningRole(t)),
                  ByClass(Infrastructure)) == 1 by {
      RequeueCounts(env.m, tr, cur, t, ev, inp);
    }
  }

  lemma RequeueCounts(m: Machine, tr: Transition, cur: Option<State>, t: Task, ev: Event, inp: StepInput)
    requires CountedClass(tr.effects) == Infrastructure
    ensures 1 ==
            Change(m, Firing(tr, cur, t.snapshot, ev), inp.failureCode, Some(RunningRole(t)), ByClass(Infrastructure))
  {
  }

  lemma InfrastructureNeverLowered(env: Env, t: Task, s: Step, n: Task)
    requires Advance.Advance(env, t, s.event, s.applied, s.input) == Advanced(n)
    ensures InClass(n.snapshot.attempts, Infrastructure) >= InClass(t.snapshot.attempts, Infrastructure)
  {
    hide Advance.Advance;
    AdvanceNeverLowers(env, t, s.event, s.applied, s.input, n, ByClass(Infrastructure));
  }

  /** A run from zero counters has fewer automatic requeues than the infrastructure total allows. */
  lemma {:induction false} RequeuesWithinTotal(env: Env, t: Task, steps: seq<Step>)
    requires RequeuesLimited(env.m) && InClass(t.snapshot.attempts, Infrastructure) == 0
    requires Replay(env, t, steps).Advanced?
    ensures Requeues(steps) <= InClass(Replay(env, t, steps).task.snapshot.attempts, Infrastructure)
    ensures Requeues(steps) > 0 ==> Requeues(steps) < env.p.maxTotal
    decreases |steps|
  {
    hide Advance.Advance, InClass;
    if steps != [] {
      var s, front := steps[|steps| - 1], steps[..|steps| - 1];
      RequeuesWithinTotal(env, t, front);
      var before, n := Replay(env, t, front).task, Replay(env, t, steps).task;
      if RequeueExecution in s.applied.effects {
        AdvanceRequeueLimited(env, before, s.event, s.applied, s.input, n);
      } else {
        InfrastructureNeverLowered(env, before, s, n);
      }
    }
  }

  // ---------------------------------------------------------- the return state

  predicate IsReady(m: Machine, place: Place) {
    var s := FindState(m, place);
    s.Some? && s.value.active != Required
  }

  /** The most recent state of the history that needs no execution. */
  function LastReady(m: Machine, history: seq<Step>): (r: Place)
    ensures r == Nowhere || IsReady(m, r)
    decreases |history|
  {
    if history == [] then Nowhere
    else if IsReady(m, history[|history| - 1].applied.from) then history[|history| - 1].applied.from
    else LastReady(m, history[..|history| - 1])
  }

  /** Outside execution states there is no return state; inside, it is the last ready state. */
  ghost predicate ReturnsToLastReady(m: Machine, t: Task) {
    t.snapshot.returnState ==
      if IsRequired(FindState(m, t.snapshot.state)) then LastReady(m, t.history) else Nowhere
  }

  lemma AdvanceKeepsReturn(env: Env, t: Task, ev: Event, a: Applied, inp: StepInput, n: Task)
    requires Advance.Advance(env, t, ev, a, inp) == Advanced(n)
    requires ReturnsToLastReady(env.m, t) && (t.snapshot.state == Nowhere ==> LastReady(env.m, t.history) == Nowhere)
    requires t.snapshot.state != Nowhere ==> FindState(env.m, t.snapshot.state).Some?
    ensures ReturnsToLastReady(env.m, n) && n.snapshot.state != Nowhere && FindState(env.m, n.snapshot.state).Some?
  {
    hide Rechecks, Recomputed, Overdraws, RecordExecutions, Adjusted, AdjudicationRefused, OutcomeOfConflict,
      TargetOf, LastReady;
    LastReadyAppend(env.m, t.history, Step(ev, inp, a));
  }

  lemma LastReadyAppend(m: Machine, history: seq<Step>, s: Step)
    ensures LastReady(m, history + [s]) == if IsReady(m, s.applied.from) then s.applied.from else LastReady(m, history)
  {
    var all := history + [s];
    assert all[..|all| - 1] == history;
  }

  /** A task that has just been requested: nowhere, without history. */
  predicate IsNew(t: Task) {
    && t.snapshot.state == Nowhere && t.snapshot.returnState == Nowhere && t.history == [] && t.executions == []
  }

  /** In every run from creation the return state is where the dispatch came from. */
  lemma {:induction false} RunKeepsReturn(env: Env, t: Task, steps: seq<Step>)
    requires IsNew(t) && Replay(env, t, steps).Advanced?
    ensures var n := Replay(env, t, steps).task;
      ReturnsToLastReady(env.m, n) && n.history == steps
      && (if steps == [] then n == t else n.snapshot.state != Nowhere && FindState(env.m, n.snapshot.state).Some?)
    decreases |steps|
  {
    hide ReturnsToLastReady, Advance.Advance, FindState;
    if steps != [] {
      var s, front := steps[|steps| - 1], steps[..|steps| - 1];
      ReplayUnfolds(env, t, steps);
      RunKeepsReturn(env, t, front);
      var before, n := Replay(env, t, front).task, Replay(env, t, steps).task;
      AdvanceKeepsReturn(env, before, s.event, s.applied, s.input, n);
      AdvanceAppends(env, before, s, n);
      assert front + [s] == steps;
    } else {
      NewReturnsNowhere(env.m, t);
    }
  }

  lemma NewReturnsNowhere(m: Machine, t: Task)
    requires IsNew(t)
    ensures ReturnsToLastReady(m, t)
  {
  }

  lemma AdvanceAppends(env: Env, t: Task, s: Step, n: Task)
    requires Advance.Advance(env, t, s.event, s.applied, s.input) == Advanced(n)
    ensures n.history == t.history + [s] && s.applied.from == t.snapshot.state && n.snapshot.state == s.applied.to
  {
  }

  /** A fired return goes back to the ready state the dispatch came from. */
  lemma ReturnGoesBack(env: Env, t: Task, steps: seq<Step>, ev: Event, a: Applied, inp: StepInput)
    requires IsNew(t) && Replay(env, t, steps).Advanced?
    requires Advance.Advance(env, Replay(env, t, steps).task, ev, a, inp).Advanced?
    requires ById(env.m.transitions, a.transition).Some? && ById(env.m.transitions, a.transition).value.to.Return?
    ensures a.to == LastReady(env.m, steps) && IsReady(env.m, a.to)
  {
    hide Rechecks, Recomputed, Overdraws, NextTask, AdjudicationRefused, LastReady;
    RunKeepsReturn(env, t, steps);
  }
}
