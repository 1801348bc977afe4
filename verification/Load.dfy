/**
  Validation of a transition table: declarations, per-transition rules, and the
  reachability and termination graph of every mode (src/internal/statemachine/load.go).
 */
module Load {
  import opened Wrappers
  import opened Machine
  import Apply

  datatype LoadError =
    | StateDeclaredTwice | InitialStateInvalid | TerminalMismatch | ReturnTargetUndeclared
    | TransitionIdDuplicate | StateUndeclared
    | CreationInvalid | ResumeFromNonHeld | ModeMismatch | TerminalHasOutgoing | ReturnFromNonExecution
    | HeldExitNotHuman | HumanTargetsExecution | HumanCommandMissing
    | Unreachable | NonTerminating

  // ------------------------------------------------------------ the rules

  predicate Declared(m: Machine, name: StateName) {
    FindNamed(m.states, name).Some?
  }

  predicate UniqueNames(m: Machine) {
    forall i, j :: 0 <= i < j < |m.states| ==> m.states[i].name != m.states[j].name
  }

  /** The part of a state's declaration that concerns the graph. */
  predicate ReturnTargetsDeclared(m: Machine, s: State) {
    forall r :: r in s.returnTargets ==> Declared(m, r)
  }

  predicate EndpointsDeclared(m: Machine, t: Transition) {
    && (forall f :: f in t.from && f.At? ==> Declared(m, f.name))
    && (t.to.To? ==> Declared(m, t.to.name))
  }

  /** The listed terminal states are declared and flagged, and every flagged state is listed. */
  predicate TerminalsListed(m: Machine, terminals: seq<StateName>) {
    && (forall n :: n in terminals ==> Declared(m, n) && FindNamed(m.states, n).value.terminal)
    && (forall s :: s in m.states && s.terminal ==> s.name in terminals)
  }

  predicate DeclarationsOk(m: Machine) {
    && UniqueNames(m)
    && Declared(m, m.initial) && !FindNamed(m.states, m.initial).value.terminal
    && (forall s :: s in m.states ==> ReturnTargetsDeclared(m, s))
    && Apply.UniqueIds(m)
    && (forall t :: t in m.transitions ==> EndpointsDeclared(m, t))
  }

  predicate HumanOnly(t: Transition) {
    t.actors == [Human]
  }

  predicate SourceInSomeMode(m: Machine, t: Transition, f: Place) {
    f.At? ==> var s := FindNamed(m.states, f.name); s.Some? && exists mode :: mode in t.modes && mode in s.value.modes
  }

  predicate TargetInSourceModes(m: Machine, t: Transition, f: Place) {
    f.At? && t.to.To? ==>
      var s, to := FindNamed(m.states, f.name), FindNamed(m.states, t.to.name);
      s.Some? && to.Some? && forall mode :: mode in t.modes && mode in s.value.modes ==> mode in to.value.modes
  }

  predicate LeavesAllowed(m: Machine, t: Transition, f: Place) {
    f.At? ==> var s := FindNamed(m.states, f.name); s.Some? && !s.value.terminal
  }

  predicate ReturnsFromExecution(m: Machine, t: Transition, f: Place) {
    f.At? && t.to.Return? ==>
      var s := FindNamed(m.states, f.name); s.Some? && s.value.active == Required && s.value.returnTargets != []
  }

  /** The first rule the transition breaks, in the order the loader applies them. */
  function RuleError(m: Machine, t: Transition): Option<LoadError>
    requires EndpointsDeclared(m, t)
  {
    if Nowhere in t.from && (t.from != [Nowhere] || t.to != To(m.initial)) then Some(CreationInvalid)
    else if t.to.Resume? && exists f :: f in t.from && !IsHeld(f) then Some(ResumeFromNonHeld)
    else if (exists f :: f in t.from && !SourceInSomeMode(m, t, f))
      || (exists f :: f in t.from && !TargetInSourceModes(m, t, f))
    then Some(ModeMismatch)
    else match SourceError(m, t, t.from)
    case Some(e) => Some(e)
    case None =>
      if !t.to.Same? && !HumanOnly(t) && exists f :: f in t.from && IsHeld(f) then Some(HeldExitNotHuman)
      else if HumanOnly(t) && t.to.To? && FindNamed(m.states, t.to.name).value.active == Required then
        Some(HumanTargetsExecution)
      else if HumanOnly(t) && !t.humanCommand && t.event != OtherEvent("pr_closed_by_human") then
        Some(HumanCommandMissing)
      else None
  }

  function SourceError(m: Machine, t: Transition, from: seq<Place>): (r: Option<LoadError>)
    ensures r.None? <==> forall f :: f in from ==> LeavesAllowed(m, t, f) && ReturnsFromExecution(m, t, f)
    decreases |from|
  {
    if from == [] then None
    else
      var last := from[|from| - 1];
      assert from == from[..|from| - 1] + [last];
      match SourceError(m, t, from[..|from| - 1])
      case Some(e) => Some(e)
      case None =>
        if !LeavesAllowed(m, t, last) then Some(TerminalHasOutgoing)
        else if !ReturnsFromExecution(m, t, last) then Some(ReturnFromNonExecution)
        else None
  }

  predicate RulesOk(m: Machine)
    requires DeclarationsOk(m)
  {
    forall t :: t in m.transitions ==> RuleError(m, t).None?
  }

  predicate CreationOk(m: Machine) {
    forall mode :: mode in m.modes ==> exists t :: t in m.transitions && Nowhere in t.from && mode in t.modes
  }

  // ------------------------------------------------------------ the graph

  predicate InMode(m: Machine, mode: Mode, name: StateName) {
    var s := FindNamed(m.states, name); s.Some? && mode in s.value.modes
  }

  /** The transition can take the state a to the state b, pseudo-targets resolved. */
  predicate Leads(m: Machine, t: Transition, a: StateName, b: StateName) {
    match t.to
    case Same => a == b
    case Return => var s := FindNamed(m.states, a); s.Some? && b in s.value.returnTargets
    case Resume =>
      var s := FindNamed(m.states, b);
      s.Some? && !IsHeld(At(b)) && !s.value.terminal && s.value.active != Required
    case To(name) => b == name
  }

  predicate Edge(m: Machine, mode: Mode, a: StateName, b: StateName) {
    && InMode(m, mode, a) && InMode(m, mode, b)
    && exists t :: t in m.transitions && mode in t.modes && At(a) in t.from && Leads(m, t, a, b)
  }

  /** p is a walk of the mode's graph from a to b. */
  ghost predicate Walk(m: Machine, mode: Mode, p: seq<StateName>, a: StateName, b: StateName) {
    && |p| >= 1 && p[0] == a && p[|p| - 1] == b && InMode(m, mode, a)
    && forall i :: 0 <= i < |p| - 1 ==> Edge(m, mode, p[i], p[i + 1])
  }

  ghost predicate Reaches(m: Machine, mode: Mode, a: StateName, b: StateName) {
    exists p :: Walk(m, mode, p, a, b)
  }

  /** The state can still reach a terminal state of the mode. */
  ghost predicate CanEnd(m: Machine, mode: Mode, a: StateName) {
    exists s :: s in m.states && s.terminal && mode in s.modes && Reaches(m, mode, a, s.name)
  }

  ghost predicate ModeOk(m: Machine, mode: Mode) {
    forall s :: s in m.states && mode in s.modes ==> Reaches(m, mode, m.initial, s.name) && CanEnd(m, mode, s.name)
  }

  ghost predicate GraphOk(m: Machine) {
    forall mode :: mode in m.modes ==> ModeOk(m, mode)
  }

  /** What the loader accepts, as far as declarations, transition rules, creation and graph go. */
  ghost predicate LoadOk(m: Machine) {
    DeclarationsOk(m) && RulesOk(m) && CreationOk(m) && GraphOk(m)
  }

  lemma {:induction false} UniqueFound(states: seq<State>, s: State)
    requires s in states && forall i, j :: 0 <= i < j < |states| ==> states[i].name != states[j].name
    ensures FindNamed(states, s.name) == Some(s)
    decreases |states|
  {
    if states[0] != s {
      var j :| 0 < j < |states| && states[j] == s;
      assert states[0].name != states[j].name;
      assert s in states[1..];
      UniqueFound(states[1..], s);
    }
  }

  /** Every mode of the table has a state. */
  predicate ModesInhabited(m: Machine) {
    forall mode :: mode in m.modes ==> exists s :: s in m.states && mode in s.modes
  }

  lemma RuleFacts(m: Machine, t: Transition)
    requires DeclarationsOk(m) && RulesOk(m) && t in m.transitions
    ensures Nowhere in t.from ==> t.from == [Nowhere] && t.to == To(m.initial)
    ensures forall f :: f in t.from ==> TargetInSourceModes(m, t, f) && LeavesAllowed(m, t, f)
    ensures t.to.Resume? ==> forall f :: f in t.from ==> IsHeld(f)
    ensures !t.to.Same? && (exists f :: f in t.from && IsHeld(f)) ==> HumanOnly(t)
  {
    assert RuleError(m, t).None?;
  }

  /**
    On a table that passes Load, every applicable transition leads to a state of the mode
    exactly when every mode has a state.
   */
  lemma LoadedTargetsInMode(m: Machine)
    requires LoadOk(m)
    ensures Apply.TargetsInMode(m) <==> ModesInhabited(m)
  {
    hide RulesOk, GraphOk;
    if ModesInhabited(m) {
      forall t, mode | t in m.transitions && mode in m.modes && mode in t.modes
        ensures (&& t.to.To?
                 && (Nowhere in t.from || exists s :: s in m.states && At(s.name) in t.from && mode in s.modes)) ==>
          FindNamed(m.states, t.to.name).Some? && mode in FindNamed(m.states, t.to.name).value.modes
        ensures t.to.Same? ==> Nowhere !in t.from
      {
        RuleFacts(m, t);
        InitialInMode(m, mode);
        if t.to.To? && Nowhere !in t.from {
          if s :| s in m.states && At(s.name) in t.from && mode in s.modes {
            UniqueFound(m.states, s);
            assert TargetInSourceModes(m, t, At(s.name));
          }
        }
      }
    }
    if Apply.TargetsInMode(m) {
      forall mode | mode in m.modes ensures exists s :: s in m.states && mode in s.modes {
        var t :| t in m.transitions && Nowhere in t.from && mode in t.modes;
        RuleFacts(m, t);
        assert mode in FindNamed(m.states, m.initial).value.modes;
      }
    }
  }

  lemma InitialInMode(m: Machine, mode: Mode)
    requires GraphOk(m) && mode in m.modes && exists s :: s in m.states && mode in s.modes
    ensures InMode(m, mode, m.initial)
  {
    var s :| s in m.states && mode in s.modes;
    assert Reaches(m, mode, m.initial, s.name);
  }
}
