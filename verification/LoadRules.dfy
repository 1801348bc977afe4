/**
  The loader's passes over states and transitions, and what a loaded table
  guarantees about every run (src/internal/statemachine/load.go).
 */
module LoadRules {
  import opened Wrappers
  import opened Machine
  import opened Load
  import opened LoadGraph

  method CheckTerminals(m: Machine, terminals: seq<StateName>) returns (error: Option<LoadError>)
    ensures error.None? <==> TerminalsListed(m, terminals)
  {
    var listed: set<StateName> := {};
    for i := 0 to |terminals|
      invariant forall k :: 0 <= k < i ==> Declared(m, terminals[k]) && FindNamed(m.states, terminals[k]).value.terminal
      invariant forall n :: n in listed <==> n in terminals[..i]
    {
      var s := FindNamed(m.states, terminals[i]);
      if s.None? {
        assert !Declared(m, terminals[i]) && terminals[i] in terminals;
        return Some(StateUndeclared);
      }
      if !s.value.terminal {
        assert terminals[i] in terminals;
        return Some(TerminalMismatch);
      }
      listed := listed + {terminals[i]};
    }
    assert terminals[..|terminals|] == terminals;
    for i := 0 to |m.states|
      invariant forall k :: 0 <= k < i && m.states[k].terminal ==> m.states[k].name in terminals
    {
      if m.states[i].terminal && m.states[i].name !in listed {
        assert m.states[i] in m.states;
        return Some(TerminalMismatch);
      }
    }
    error := None;
  }

  method CheckStates(m: Machine, terminals: seq<StateName>) returns (error: Option<LoadError>)
    ensures error.None? <==>
      && UniqueNames(m) && Declared(m, m.initial) && !FindNamed(m.states, m.initial).value.terminal
      && TerminalsListed(m, terminals)
      && (forall s :: s in m.states ==> ReturnTargetsDeclared(m, s))
  {
    var seen: set<StateName> := {};
    for i := 0 to |m.states|
      invariant forall x :: x in seen <==> exists k :: 0 <= k < i && m.states[k].name == x
      invariant forall j, k :: 0 <= j < k < i ==> m.states[j].name != m.states[k].name
    {
      if m.states[i].name in seen {
        return Some(StateDeclaredTwice);
      }
      seen := seen + {m.states[i].name};
    }
    var initial := FindNamed(m.states, m.initial);
    if initial.None? || initial.value.terminal {
      return Some(InitialStateInvalid);
    }
    error := CheckTerminals(m, terminals);
    if error.Some? {
      return;
    }
    for i := 0 to |m.states|
      invariant forall k :: 0 <= k < i ==> ReturnTargetsDeclared(m, m.states[k])
    {
      var targets := m.states[i].returnTargets;
      for j := 0 to |targets|
        invariant forall k :: 0 <= k < j ==> Declared(m, targets[k])
      {
        if !Declared(m, targets[j]) {
          assert m.states[i] in m.states && targets[j] in m.states[i].returnTargets;
          return Some(ReturnTargetUndeclared);
        }
      }
    }
    error := None;
  }

  method CheckEndpoints(m: Machine, t: Transition) returns (declared: bool)
    ensures declared <==> EndpointsDeclared(m, t)
  {
    for j := 0 to |t.from|
      invariant forall k :: 0 <= k < j && t.from[k].At? ==> Declared(m, t.from[k].name)
    {
      var f := t.from[j];
      if f.At? && !Declared(m, f.name) {
        assert f in t.from;
        return false;
      }
    }
    declared := t.to.To? ==> Declared(m, t.to.name);
  }

  method CheckDeclarations(m: Machine, terminals: seq<StateName>) returns (error: Option<LoadError>)
    ensures error.None? <==> DeclarationsOk(m) && TerminalsListed(m, terminals)
  {
    hide TerminalsListed;
    error := CheckStates(m, terminals);
    if error.Some? {
      return;
    }
    var seen: set<nat> := {};
    for i := 0 to |m.transitions|
      invariant forall x :: x in seen <==> exists k :: 0 <= k < i && m.transitions[k].id == x
      invariant forall j, k :: 0 <= j < k < i ==> m.transitions[j].id != m.transitions[k].id
      invariant forall k :: 0 <= k < i ==> EndpointsDeclared(m, m.transitions[k])
    {
      var t := m.transitions[i];
      if t.id in seen {
        return Some(TransitionIdDuplicate);
      }
      seen := seen + {t.id};
      var declared := CheckEndpoints(m, t);
      if !declared {
        assert t in m.transitions;
        return Some(StateUndeclared);
      }
    }
  }

  method CheckSources(m: Machine, t: Transition) returns (error: Option<LoadError>)
    ensures error == SourceError(m, t, t.from)
  {
    for j := 0 to |t.from|
      invariant SourceError(m, t, t.from[..j]) == None
    {
      var f := t.from[j];
      assert t.from[..j + 1][..j] == t.from[..j];
      if !LeavesAllowed(m, t, f) {
        StopsAt(m, t, t.from, j);
        return Some(TerminalHasOutgoing);
      }
      if !ReturnsFromExecution(m, t, f) {
        StopsAt(m, t, t.from, j);
        return Some(ReturnFromNonExecution);
      }
    }
    assert t.from[..|t.from|] == t.from;
    error := None;
  }

  lemma {:induction false} StopsAt(m: Machine, t: Transition, from: seq<Place>, j: nat)
    requires j < |from| && SourceError(m, t, from[..j]) == None && SourceError(m, t, from[..j + 1]).Some?
    ensures SourceError(m, t, from) == SourceError(m, t, from[..j + 1])
    decreases |from|
  {
    if j + 1 == |from| {
      assert from[..j + 1] == from;
    } else {
      var front := from[..|from| - 1];
      assert front[..j] == from[..j] && front[..j + 1] == from[..j + 1];
      StopsAt(m, t, front, j);
    }
  }

  method CheckRule(m: Machine, t: Transition) returns (error: Option<LoadError>)
    requires EndpointsDeclared(m, t)
    ensures error == RuleError(m, t)
  {
    if Nowhere in t.from && (t.from != [Nowhere] || t.to != To(m.initial)) {
      return Some(CreationInvalid);
    }
    if t.to.Resume? {
      for j := 0 to |t.from|
        invariant forall k :: 0 <= k < j ==> IsHeld(t.from[k])
      {
        if !IsHeld(t.from[j]) {
          return Some(ResumeFromNonHeld);
        }
      }
    }
    var modesOk := CheckModes(m, t);
    if !modesOk {
      return Some(ModeMismatch);
    }
    error := CheckSources(m, t);
    if error.Some? {
      return;
    }
    var held := false;
    for j := 0 to |t.from|
      invariant held <==> exists k :: 0 <= k < j && IsHeld(t.from[k])
    {
      held := held || IsHeld(t.from[j]);
    }
    if !t.to.Same? && held && !HumanOnly(t) {
      return Some(HeldExitNotHuman);
    }
    if HumanOnly(t) {
      if t.to.To? && FindNamed(m.states, t.to.name).value.active == Required {
        return Some(HumanTargetsExecution);
      }
      if !t.humanCommand && t.event != OtherEvent("pr_closed_by_human") {
        return Some(HumanCommandMissing);
      }
    }
  }

  method CheckModes(m: Machine, t: Transition) returns (ok: bool)
    requires EndpointsDeclared(m, t)
    ensures ok <==> forall f :: f in t.from ==> SourceInSomeMode(m, t, f) && TargetInSourceModes(m, t, f)
  {
    for j := 0 to |t.from|
      invariant forall k :: 0 <= k < j ==> SourceInSomeMode(m, t, t.from[k]) && TargetInSourceModes(m, t, t.from[k])
    {
      if !SourceInSomeMode(m, t, t.from[j]) || !TargetInSourceModes(m, t, t.from[j]) {
        return false;
      }
    }
    ok := true;
  }

  predicate CleanUpTo(m: Machine, n: nat)
    requires DeclarationsOk(m) && n <= |m.transitions|
  {
    forall k :: 0 <= k < n ==> RuleError(m, m.transitions[k]).None?
  }

  /** The first error of the first transition that breaks a rule. */
  method CheckRules(m: Machine) returns (error: Option<LoadError>)
    requires DeclarationsOk(m)
    ensures error.None? <==> RulesOk(m)
    ensures error.Some? ==>
      exists i :: 0 <= i < |m.transitions| && error == RuleError(m, m.transitions[i]) && CleanUpTo(m, i)
  {
    hide RuleError;
    for i := 0 to |m.transitions|
      invariant CleanUpTo(m, i)
    {
      error := CheckRule(m, m.transitions[i]);
      if error.Some? {
        return;
      }
    }
    error := None;
  }

  method CheckCreation(m: Machine) returns (ok: bool)
    ensures ok <==> CreationOk(m)
  {
    for i := 0 to |m.modes|
      invariant forall k :: 0 <= k < i ==> exists t :: t in m.transitions && Nowhere in t.from && m.modes[k] in t.modes
    {
      var found := false;
      for j := 0 to |m.transitions|
        invariant found <==> exists k ::
          (0 <= k < j && Nowhere in m.transitions[k].from && m.modes[i] in m.transitions[k].modes)
      {
        if Nowhere in m.transitions[j].from && m.modes[i] in m.transitions[j].modes {
          found := true;
        }
      }
      if !found {
        assert m.modes[i] in m.modes;
        return false;
      }
    }
    ok := true;
  }

  /** Load, in the order of its passes. */
  method LoadTable(m: Machine, terminals: seq<StateName>) returns (error: Option<LoadError>)
    ensures error.None? <==> LoadOk(m) && TerminalsListed(m, terminals)
  {
    hide DeclarationsOk, RulesOk, CreationOk, GraphOk, TerminalsListed;
    error := CheckDeclarations(m, terminals);
    if error.Some? {
      return;
    }
    error := CheckRules(m);
    if error.Some? {
      return;
    }
    var created := CheckCreation(m);
    if !created {
      return Some(CreationInvalid);
    }
    error := CheckGraph(m);
  }
}
