/**
  What a loaded table guarantees about every run: each step is an edge of the
  checked graph, so a run stays where a terminal state can still be reached
  (src/internal/statemachine/load.go and fire.go).
 */
module LoadSafety {
  import opened Machine
  import opened Accounting
  import opened Fire
  import opened Advance
  import opened Load
  import opened Runs
  import Apply

  /** The task is in a state of its mode, or does not exist yet. */
  predicate Housed(m: Machine, snap: Snapshot) {
    snap.state == Nowhere || InMode(m, snap.mode, snap.state.name)
  }

  /** A resolved target of an applicable transition is an edge of the mode's graph. */
  lemma TargetIsEdge(m: Machine, tr: Transition, snap: Snapshot, to: Place)
    requires LoadOk(m) && Housed(m, snap)
    requires tr in m.transitions && snap.mode in tr.modes && snap.state in tr.from
    requires TargetOf(m, tr, FindState(m, snap.state), snap) == Resolved(to)
    requires FindState(m, to).Some? && snap.mode in FindState(m, to).value.modes
    ensures snap.state == Nowhere ==> to == At(m.initial)
    ensures snap.state != Nowhere ==> Edge(m, snap.mode, snap.state.name, to.name)
  {
    hide RulesOk, GraphOk, CreationOk;
    RuleFacts(m, tr);
    if snap.state != Nowhere {
      assert Leads(m, tr, snap.state.name, to.name);
    }
  }

  /** Every step Fire takes on a loaded table is an edge of the checked graph. */
  lemma FiredIsEdge(m: Machine, snap: Snapshot, ev: Event, f: Facts)
    requires LoadOk(m) && ModesInhabited(m) && Decide(m, snap, ev, f).Fired?
    ensures var a := Decide(m, snap, ev, f).applied;
      if snap.state == Nowhere then a.to == At(m.initial)
      else a.to.At? && Edge(m, snap.mode, snap.state.name, a.to.name)
  {
    hide Decide, DeltasOf, TargetOf, GuardHolds, Passes, LoadOk;
    var w := FiredIsLowest(m, snap, ev, f);
    LoadedTargetsInMode(m);
    var to := TargetOf(m, w, FindState(m, snap.state), snap).place;
    FiredTargetExists(m, w, snap, ev, to);
    TargetIsEdge(m, w, snap, to);
  }

  lemma FiredTargetExists(m: Machine, w: Transition, snap: Snapshot, ev: Event, to: Place)
    requires Apply.TargetsInMode(m) && w in m.transitions && IsCandidate(w, snap, ev) && InputError(m, snap, ev).None?
    requires TargetOf(m, w, FindState(m, snap.state), snap) == Resolved(to)
    ensures FindState(m, to).Some? && snap.mode in FindState(m, to).value.modes
    ensures Housed(m, snap)
  {
    var cur := FindState(m, snap.state);
    if snap.state != Nowhere {
      assert cur.value in m.states && At(cur.value.name) in w.from;
    }
  }

  /** The transition behind an accepted decision. */
  lemma AdvancedTransition(env: Env, t: Task, ev: Event, a: Applied, inp: StepInput, n: Task) returns (tr: Transition)
    requires Advance.Advance(env, t, ev, a, inp) == Advanced(n)
    ensures tr in env.m.transitions && t.snapshot.mode in tr.modes && t.snapshot.state in tr.from
      && ev.actor in tr.actors
    ensures TargetOf(env.m, tr, FindState(env.m, t.snapshot.state), t.snapshot) == Resolved(a.to)
    ensures FindState(env.m, a.to).Some? && t.snapshot.mode in FindState(env.m, a.to).value.modes
    ensures n.snapshot.state == a.to && n.snapshot.mode == t.snapshot.mode
  {
    hide Rechecks, Recomputed, Overdraws, AdjudicationRefused, RecordExecutions, OutcomeOfConflict, TargetOf,
      RoleRefused;
    tr := ById(env.m.transitions, a.transition).value;
  }

  lemma {:induction false} WalkExtends(m: Machine, mode: Mode, a: StateName, b: StateName, c: StateName)
    requires Reaches(m, mode, a, b) && Edge(m, mode, b, c)
    ensures Reaches(m, mode, a, c)
  {
    hide Edge;
    var p :| Walk(m, mode, p, a, b);
    var q := p + [c];
    forall i | 0 <= i < |q| - 1 ensures Edge(m, mode, q[i], q[i + 1]) {
      if i < |p| - 1 { assert Edge(m, mode, p[i], p[i + 1]); }
    }
    assert Walk(m, mode, q, a, c);
  }

  /**
    On a loaded table every run from creation walks the checked graph of its mode from the
    initial state, and ends in a state from which a terminal state can be reached.
   */
  lemma {:induction false} RunWalksGraph(env: Env, t: Task, steps: seq<Step>)
    requires LoadOk(env.m) && t.snapshot.mode in env.m.modes && IsNew(t) && Replay(env, t, steps).Advanced?
    ensures var n := Replay(env, t, steps).task.snapshot;
      n.mode == t.snapshot.mode && Housed(env.m, n)
      && (if steps == [] then n.state == Nowhere
          else
            n.state.At? && Reaches(env.m, n.mode, env.m.initial, n.state.name)
            && CanEnd(env.m, n.mode, n.state.name))
    decreases |steps|
  {
    hide Advance.Advance, DeclarationsOk, RulesOk, CreationOk, Edge, Reaches, CanEnd;
    if steps != [] {
      var s, front := steps[|steps| - 1], steps[..|steps| - 1];
      ReplayUnfolds(env, t, steps);
      RunWalksGraph(env, t, front);
      var before, n := Replay(env, t, front).task, Replay(env, t, steps).task;
      var tr := AdvancedTransition(env, before, s.event, s.applied, s.input, n);
      TargetIsEdge(env.m, tr, before.snapshot, s.applied.to);
      ArrivedCanEnd(env.m, n.snapshot);
      if before.snapshot.state == Nowhere {
        StartReaches(env.m, n.snapshot.mode);
      } else {
        WalkExtends(env.m, n.snapshot.mode, env.m.initial, before.snapshot.state.name, n.snapshot.state.name);
      }
    }
  }

  lemma StartReaches(m: Machine, mode: Mode)
    requires InMode(m, mode, m.initial)
    ensures Reaches(m, mode, m.initial, m.initial)
  {
    assert Walk(m, mode, [m.initial], m.initial, m.initial);
  }

  lemma ArrivedCanEnd(m: Machine, snap: Snapshot)
    requires LoadOk(m) && snap.mode in m.modes && snap.state.At? && InMode(m, snap.mode, snap.state.name)
    ensures CanEnd(m, snap.mode, snap.state.name)
  {
    hide Reaches, CanEnd, DeclarationsOk, RulesOk, CreationOk;
    var s := FindNamed(m.states, snap.state.name).value;
    assert s in m.states && snap.mode in s.modes;
  }

  /** A terminal state admits no step. */
  lemma TerminalIsFinal(env: Env, t: Task, ev: Event, a: Applied, inp: StepInput, f: Facts)
    requires LoadOk(env.m) && FindState(env.m, t.snapshot.state).Some?
      && FindState(env.m, t.snapshot.state).value.terminal
    ensures Advance.Advance(env, t, ev, a, inp).Refused?
    ensures !Decide(env.m, t.snapshot, ev, f).Fired?
  {
    hide Advance.Advance, Decide, GraphOk, CreationOk, RulesOk;
    forall tr | tr in env.m.transitions ensures t.snapshot.state !in tr.from {
      RuleFacts(env.m, tr);
      assert t.snapshot.state in tr.from ==> LeavesAllowed(env.m, tr, t.snapshot.state);
    }
    NoSourceNoStep(env, t, ev, a, inp, f);
  }

  lemma NoSourceNoStep(env: Env, t: Task, ev: Event, a: Applied, inp: StepInput, f: Facts)
    requires forall tr :: tr in env.m.transitions ==> t.snapshot.state !in tr.from
    ensures Advance.Advance(env, t, ev, a, inp).Refused?
    ensures !Decide(env.m, t.snapshot, ev, f).Fired?
  {
    hide NextTask, Rechecks, Recomputed, Overdraws, AdjudicationRefused, TargetOf, AppliedOf, RoleRefused;
    NoSourceNoCandidate(env.m.transitions, t.snapshot, ev);
    assert SortById([]) == [];
  }

  lemma {:induction false} NoSourceNoCandidate(ts: seq<Transition>, snap: Snapshot, ev: Event)
    requires forall tr :: tr in ts ==> snap.state !in tr.from
    ensures Candidates(ts, snap, ev) == []
    decreases |ts|
  {
    if ts != [] {
      NoSourceNoCandidate(ts[..|ts| - 1], snap, ev);
    }
  }

  /** Only a human event leaves a held state. */
  lemma HeldIsLeftByHuman(env: Env, t: Task, ev: Event, a: Applied, inp: StepInput)
    requires LoadOk(env.m) && IsHeld(t.snapshot.state) && a.to != t.snapshot.state
    requires Advance.Advance(env, t, ev, a, inp).Advanced?
    ensures ev.actor == Human
  {
    hide Advance.Advance, GraphOk, CreationOk, RulesOk, DeclarationsOk;
    var tr := AdvancedTransition(env, t, ev, a, inp, Advance.Advance(env, t, ev, a, inp).task);
    RuleFacts(env.m, tr);
    assert !tr.to.Same?;
  }
}
