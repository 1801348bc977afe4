/**
  One step of a task: decide, then advance; and replaying recorded steps
  (src/internal/statemachine/accounting.go, Apply and Replay).
 */
module Apply {
  import opened Wrappers
  import opened Machine
  import opened Accounting
  import opened Fire
  import opened Advance

  datatype Outcome =
    | FireFailed(fire: FireError)
    | AdvanceFailed(advance: AdvanceError)
    | Done(decision: Decision, task: Task)

  /** The step records the failure code the decision used. */
  function RecordedInput(ev: Event, inp: StepInput, base: Facts): StepInput {
    if ev.name.ExecutionFailed? then inp.(failureCode := StepCode(inp, base)) else inp
  }

  /** The merit key of a failed execution comes from its recorded role. */
  function RecordedDeltas(t: Task, ev: Event, a: Applied): Deltas {
    if !ev.name.ExecutionFailed? then a.deltas
    else
      var kept := map k | k in a.deltas && !k.MeritBy? :: a.deltas[k];
      var role := RunningRole(t);
      if a.failureClass == Merit && IsMeritRole(role) then kept[MeritBy(role, t.snapshot.generation) := 1] else kept
  }

  function RecordedApplied(t: Task, ev: Event, a: Applied): Applied {
    a.(deltas := RecordedDeltas(t, ev, a))
  }

  /** One step under a consistent base of facts. */
  function ApplyStep(env: Env, t: Task, ev: Event, inp: StepInput, base: Facts): Outcome {
    var d := Decide(env.m, t.snapshot, ev, AccountingFacts(env, t, inp, ev, base));
    match d
    case Malformed(e) => FireFailed(e)
    case Rejected(_, _) => Done(d, t)
    case Fired(a) =>
      if ev.name.AdjudicationRecorded? && AdjudicationRefused(t, inp) then Done(Rejected(GateNotSatisfied, []), t)
      else
        var recorded := RecordedApplied(t, ev, a);
        match Advance.Advance(env, t, ev, recorded, RecordedInput(ev, inp, base))
        case Refused(e) => AdvanceFailed(e)
        case Advanced(n) => Done(Fired(recorded), n)
  }

  // ---------------------------------------------- what a table has to promise

  predicate UniqueIds(m: Machine) {
    forall i, j :: 0 <= i < j < |m.transitions| ==> m.transitions[i].id != m.transitions[j].id
  }

  /** A transition that applies to a state of a mode leads to a state of that mode. */
  ghost predicate TargetsInMode(m: Machine) {
    forall t, mode :: t in m.transitions && mode in m.modes && mode in t.modes ==>
      && (t.to.To? && (Nowhere in t.from || exists s :: s in m.states && At(s.name) in t.from && mode in s.modes) ==>
            FindNamed(m.states, t.to.name).Some? && mode in FindNamed(m.states, t.to.name).value.modes)
      && (t.to.Same? ==> Nowhere !in t.from)
  }

  predicate ActorGuardPlain(m: Machine) {
    forall t, g :: t in m.transitions && g in t.guards && g.id == ActorAuthorized ==> g.args == []
  }

  predicate IsRequeueGuard(id: GuardId) {
    id == InfraRequeueAllowed || id == Negation(InfraRequeueAllowed)
  }

  predicate RequeueGuardsOnFailures(m: Machine) {
    forall t, g :: t in m.transitions && g in t.guards && IsRequeueGuard(g.id) ==> t.event == ExecutionFailed
  }

  ghost predicate Acceptable(m: Machine) {
    UniqueIds(m) && TargetsInMode(m) && ActorGuardPlain(m) && RequeueGuardsOnFailures(m)
  }

  // -------------------------------------------- Fire and Advance agree

  /** What the recheck knows about a guard agrees with what the decision found. */
  lemma RecheckAgrees(env: Env, t: Task, ev: Event, inp: StepInput, base: Facts, g: Guard)
    requires IsRequeueGuard(g.id) ==> ev.name == ExecutionFailed
    ensures var f := RecheckFacts(env, t, ev, RecordedInput(ev, inp, base));
      GuardKnown(g, f) ==> (GuardHolds(g, f) <==> GuardHolds(g, AccountingFacts(env, t, inp, ev, base)))
  {
    hide RequeueAllowed, IdenticalReplay, OutcomeOfConflict, DispatchedInGeneration, HasRunning;
    var inp' := RecordedInput(ev, inp, base);
    var only := CodeOnly(inp'.failureCode, ev.name.ExecutionFailed?);
    assert StepCode(inp', only) == inp'.failureCode;
  }

  lemma {:induction false} ByIdFinds(ts: seq<Transition>, t: Transition)
    requires t in ts && forall i, j :: 0 <= i < j < |ts| ==> ts[i].id != ts[j].id
    ensures ById(ts, t.id) == Some(t)
    decreases |ts|
  {
    if ts[0] != t {
      assert t in ts[1..];
      var j :| 0 < j < |ts| && ts[j] == t;
      assert ts[0].id != ts[j].id;
      ByIdFinds(ts[1..], t);
    }
  }

  lemma WinnerRechecks(env: Env, t: Task, ev: Event, inp: StepInput, base: Facts, w: Transition)
    requires ActorGuardPlain(env.m) && RequeueGuardsOnFailures(env.m)
    requires w in env.m.transitions && w.event == ev.name
    requires var f := AccountingFacts(env, t, inp, ev, base);
      Passes(w, ev, f)
      && forall c :: c in env.m.transitions && IsCandidate(c, t.snapshot, ev) && c.id < w.id ==> !Passes(c, ev, f)
    ensures Rechecks(env, w, t, ev, RecordedInput(ev, inp, base))
  {
    hide GuardHolds, GuardKnown, AccountingFacts, BoolOf, ValueOf, RecheckFacts;
    var f := AccountingFacts(env, t, inp, ev, base);
    var r := RecheckFacts(env, t, ev, RecordedInput(ev, inp, base));
    forall g | g in w.guards ensures !KnownToFail(g, r) {
      RecheckAgrees(env, t, ev, inp, base, g);
    }
    forall c | c in env.m.transitions && c.id < w.id && IsCandidate(c, t.snapshot, ev) ensures !WouldPass(c, w, r) {
      LoserWouldNotPass(env, t, ev, inp, base, w, c);
    }
  }

  lemma LoserWouldNotPass(env: Env, t: Task, ev: Event, inp: StepInput, base: Facts, w: Transition, c: Transition)
    requires ActorGuardPlain(env.m) && RequeueGuardsOnFailures(env.m)
    requires c in env.m.transitions && c.event == ev.name && ev.actor in c.actors
    requires var f := AccountingFacts(env, t, inp, ev, base); Passes(w, ev, f) && !Passes(c, ev, f)
    ensures !WouldPass(c, w, RecheckFacts(env, t, ev, RecordedInput(ev, inp, base)))
  {
    hide AccountingFacts, RecheckFacts;
    var f := AccountingFacts(env, t, inp, ev, base);
    var r := RecheckFacts(env, t, ev, RecordedInput(ev, inp, base));
    var g :| g in c.guards && !GuardHolds(g, f);
    assert g.id != ActorAuthorized;
    RecheckAgrees(env, t, ev, inp, base, g);
    assert !(if GuardKnown(g, r) then GuardHolds(g, r) else g in w.guards);
  }

  lemma RecordedIsRecomputed(env: Env, t: Task, ev: Event, inp: StepInput, base: Facts, w: Transition, to: Place)
    requires w.event == ev.name
    ensures var cur := FindState(env.m, t.snapshot.state);
      var a := AppliedOf(env.m, w, cur, to, t.snapshot, ev, AccountingFacts(env, t, inp, ev, base));
      RecordedDeltas(t, ev, a) == Recomputed(env, t, ev, RecordedInput(ev, inp, base), w)
  {
    hide FindState, AppliedOf, Change, DeltasOf, RunningRole;
    var cur := FindState(env.m, t.snapshot.state);
    var a := AppliedOf(env.m, w, cur, to, t.snapshot, ev, AccountingFacts(env, t, inp, ev, base));
    var d, d' := RecordedDeltas(t, ev, a), Recomputed(env, t, ev, RecordedInput(ev, inp, base), w);
    forall k ensures Get(d, k) == Get(d', k) {
      RecordedChange(env, t, ev, inp, base, w, to, k);
    }
    assert NoZero(d) by { AppliedParts(env.m, w, cur, to, t.snapshot, ev, AccountingFacts(env, t, inp, ev, base)); }
    SameChanges(d, d');
  }

  lemma AppliedParts(m: Machine, w: Transition, cur: Option<State>, to: Place, snap: Snapshot, ev: Event, f: Facts)
    ensures var a := AppliedOf(m, w, cur, to, snap, ev, f);
      NoZero(a.deltas) && a.failureClass == CountedClass(w.effects)
      && forall k :: Get(a.deltas, k) == Change(m, Firing(w, cur, snap, ev), CodeIn(f), None, k)
  {
  }

  lemma RecordedChange(env: Env, t: Task, ev: Event, inp: StepInput, base: Facts, w: Transition, to: Place, k: Counter)
    requires w.event == ev.name
    ensures var cur := FindState(env.m, t.snapshot.state);
      var a := AppliedOf(env.m, w, cur, to, t.snapshot, ev, AccountingFacts(env, t, inp, ev, base));
      Get(RecordedDeltas(t, ev, a), k) == Get(Recomputed(env, t, ev, RecordedInput(ev, inp, base), w), k)
  {
    hide FindState, AppliedOf, RunningRole, CountedClass, SubjectRole, CreatedRole, AttemptCounter;
    var f := AccountingFacts(env, t, inp, ev, base);
    var cur := FindState(env.m, t.snapshot.state);
    var a := AppliedOf(env.m, w, cur, to, t.snapshot, ev, f);
    var firing, code := Firing(w, cur, t.snapshot, ev), RecordedInput(ev, inp, base).failureCode;
    AppliedParts(env.m, w, cur, to, t.snapshot, ev, f);
    assert Get(Recomputed(env, t, ev, RecordedInput(ev, inp, base), w), k)
        == Change(env.m, firing, code, Some(RunningRole(t)), k);
    if ev.name.ExecutionFailed? {
      assert CodeIn(f) == code;
      if k.MeritBy? {
        assert Get(RecordedDeltas(t, ev, a), k) == Change(env.m, firing, code, Some(RunningRole(t)), k);
      } else {
        assert Get(RecordedDeltas(t, ev, a), k) == Get(a.deltas, k);
      }
    } else {
      assert Change(env.m, firing, CodeIn(f), None, k) == Change(env.m, firing, code, Some(RunningRole(t)), k);
    }
  }

  /**
    Advance accepts every transition that Fire applied to the same task, whatever the base
    answered; the only refusal left is a counter that would become negative.
   */
  lemma AdvanceAcceptsFire(env: Env, t: Task, ev: Event, inp: StepInput, base: Facts)
    requires Acceptable(env.m)
    ensures var r := ApplyStep(env, t, ev, inp, base);
      r.AdvanceFailed? ==> r.advance == DeltaInvalid
    ensures var d := Decide(env.m, t.snapshot, ev, AccountingFacts(env, t, inp, ev, base));
      d.Fired? && !(ev.name.AdjudicationRecorded? && AdjudicationRefused(t, inp)) ==>
        var r := ApplyStep(env, t, ev, inp, base);
        var a := RecordedApplied(t, ev, d.applied);
        Admits(env, t, ev, a, RecordedInput(ev, inp, base))
        && if Overdraws(t.snapshot.attempts, t.snapshot.generation, a.deltas) then r.AdvanceFailed?
        else r.Done? && r.decision == Fired(a)
  {
    hide Decide, Passes, Rechecks, NextTask, RecordedDeltas, Recomputed, TargetOf, IsCandidate, AccountingFacts,
      MatchesTable;
    var f := AccountingFacts(env, t, inp, ev, base);
    var d := Decide(env.m, t.snapshot, ev, f);
    if d.Fired? {
      var w := FiredIsLowest(env.m, t.snapshot, ev, f);
      var a := RecordedApplied(t, ev, d.applied);
      CandidateEvent(w, t.snapshot, ev);
      WinnerRechecks(env, t, ev, inp, base, w);
      ByIdFinds(env.m.transitions, w);
      RecordedIsRecomputed(env, t, ev, inp, base, w, d.applied.to);
      FiredMatchesTable(env, t, ev, inp, base, w);
    }
  }

  lemma CandidateEvent(w: Transition, snap: Snapshot, ev: Event)
    requires IsCandidate(w, snap, ev)
    ensures w.event == ev.name && ev.actor in w.actors && snap.mode in w.modes && snap.state in w.from
  {
  }

  lemma FiredMatchesTable(env: Env, t: Task, ev: Event, inp: StepInput, base: Facts, w: Transition)
    requires TargetsInMode(env.m)
    requires w in env.m.transitions && IsCandidate(w, t.snapshot, ev) && InputError(env.m, t.snapshot, ev).None?
    requires !RoleRefused(FindState(env.m, t.snapshot.state), t.snapshot, ev)
    requires TargetOf(env.m, w, FindState(env.m, t.snapshot.state), t.snapshot).Resolved?
    ensures var cur := FindState(env.m, t.snapshot.state);
      var f := AccountingFacts(env, t, inp, ev, base);
      var a := AppliedOf(env.m, w, cur, TargetOf(env.m, w, cur, t.snapshot).place, t.snapshot, ev, f);
      MatchesTable(env, t, ev, RecordedApplied(t, ev, a), w)
  {
    hide AccountingFacts, DeltasOf, RecordedDeltas, CountedClass, NotifyReason, RoleEvent;
    var cur := FindState(env.m, t.snapshot.state);
    if w.to.To? {
      if t.snapshot.state != Nowhere {
        assert cur.value in env.m.states && At(cur.value.name) in w.from;
      }
      assert FindNamed(env.m.states, w.to.name).Some?;
    }
  }
}
