/**
  A small table with a counted dispatch, a requeue and a return that meets every condition
  the run theorems ask of a table, so the conditions can be met together
  (src/internal/statemachine/load.go and accounting.go).
 */
module SampleTable {

  import opened Wrappers
  import opened Machine
  import opened Load
  import opened AttemptBooks
  import Apply
  import Runs

  const READY := OtherState("ready")
  const WORKING := OtherState("working")
  const DONE := OtherState("done")

  const CREATE := Transition(1, [Nowhere], To(READY), OtherEvent("created"), [Runner], [TestFirst], [], [], false,
    false)
  const DISPATCH := Transition(2, [At(READY)], To(WORKING), DispatchImplementer, [Runner], [TestFirst],
    [Guard(NoActiveExecution, []), Guard(AttemptsRemain, [])], [CreateExecution(Implementer)], false, true)
  const ACCEPT := Transition(3, [At(WORKING)], To(DONE), ImplementerResultAccepted, [Runner], [TestFirst], [], [],
    false, false)
  const REQUEUE := Transition(4, [At(WORKING)], Same, ExecutionFailed, [Runner], [TestFirst],
    [Guard(InfraRequeueAllowed, [])], [CountFailure(Infrastructure), RequeueExecution], false, false)
  const FAIL := Transition(5, [At(WORKING)], Return, ExecutionFailed, [Runner], [TestFirst], [],
    [CountFailure(Merit)], false, false)

  const READY_STATE := State(READY, [TestFirst], false, Optional, [], [Implementer])
  const WORKING_STATE := State(WORKING, [TestFirst], false, Required, [READY], [])
  const DONE_STATE := State(DONE, [TestFirst], true, Forbidden, [], [])

  const TABLE := Machine(
    READY, [READY_STATE, WORKING_STATE, DONE_STATE], [CREATE, DISPATCH, ACCEPT, REQUEUE, FAIL], [TestFirst], [Runner],
    {OtherEvent("created"), DispatchImplementer, ImplementerResultAccepted, ExecutionFailed})

  lemma Finds()
    ensures FindNamed(TABLE.states, READY) == Some(READY_STATE)
    ensures FindNamed(TABLE.states, WORKING) == Some(WORKING_STATE)
    ensures FindNamed(TABLE.states, DONE) == Some(DONE_STATE)
  {
    assert TABLE.states[1..] == [WORKING_STATE, DONE_STATE] && TABLE.states[1..][1..] == [DONE_STATE];
  }

  lemma OneOf(t: Transition)
    requires t in TABLE.transitions
    ensures t == CREATE || t == DISPATCH || t == ACCEPT || t == REQUEUE || t == FAIL
    ensures |t.from| == 1 && t.modes == [TestFirst] && t.actors == [Runner]
  {
  }

  lemma EndpointsAre(t: Transition)
    requires t in TABLE.transitions
    ensures EndpointsDeclared(TABLE, t)
  {
    hide FindNamed;
    Finds();
    OneOf(t);
    assert forall f :: f in t.from ==> f == t.from[0];
  }

  lemma Declares()
    ensures DeclarationsOk(TABLE)
  {
    hide FindNamed, EndpointsDeclared;
    Finds();
    forall t | t in TABLE.transitions ensures EndpointsDeclared(TABLE, t) {
      EndpointsAre(t);
    }
    forall s | s in TABLE.states ensures ReturnTargetsDeclared(TABLE, s) {
      assert s == READY_STATE || s == WORKING_STATE || s == DONE_STATE;
    }
  }

  lemma ModesHold(t: Transition, f: Place)
    requires t in TABLE.transitions && f in t.from
    ensures SourceInSomeMode(TABLE, t, f) && TargetInSourceModes(TABLE, t, f) && LeavesAllowed(TABLE, t, f)
    ensures ReturnsFromExecution(TABLE, t, f) && !IsHeld(f)
  {
    hide FindNamed;
    Finds();
    OneOf(t);
    assert f == t.from[0];
    assert TestFirst in t.modes && TestFirst in READY_STATE.modes && TestFirst in WORKING_STATE.modes
      && TestFirst in DONE_STATE.modes;
  }

  lemma RuleHolds(t: Transition)
    requires t in TABLE.transitions && EndpointsDeclared(TABLE, t)
    ensures RuleError(TABLE, t) == None
  {
    hide FindNamed, SourceInSomeMode, TargetInSourceModes, LeavesAllowed, ReturnsFromExecution, EndpointsDeclared,
      SourceError, IsHeld;
    OneOf(t);
    forall f | f in t.from
      ensures SourceInSomeMode(TABLE, t, f) && TargetInSourceModes(TABLE, t, f) && LeavesAllowed(TABLE, t, f)
        && ReturnsFromExecution(TABLE, t, f) && !IsHeld(f)
    {
      ModesHold(t, f);
    }
  }

  lemma InModes()
    ensures InMode(TABLE, TestFirst, READY) && InMode(TABLE, TestFirst, WORKING) && InMode(TABLE, TestFirst, DONE)
  {
    hide FindNamed;
    Finds();
  }

  lemma Edges()
    ensures Edge(TABLE, TestFirst, READY, WORKING) && Edge(TABLE, TestFirst, WORKING, DONE)
  {
    hide InMode;
    InModes();
    assert DISPATCH in TABLE.transitions && ACCEPT in TABLE.transitions;
    assert Leads(TABLE, DISPATCH, READY, WORKING) && Leads(TABLE, ACCEPT, WORKING, DONE);
    assert TestFirst in DISPATCH.modes && TestFirst in ACCEPT.modes;
    assert At(READY) in DISPATCH.from && At(WORKING) in ACCEPT.from;
  }

  lemma Paths()
    ensures Reaches(TABLE, TestFirst, READY, READY) && Reaches(TABLE, TestFirst, READY, WORKING)
      && Reaches(TABLE, TestFirst, READY, DONE)
    ensures Reaches(TABLE, TestFirst, WORKING, DONE) && Reaches(TABLE, TestFirst, DONE, DONE)
  {
    hide Edge, InMode;
    Edges();
    InModes();
    assert Walk(TABLE, TestFirst, [READY], READY, READY);
    assert Walk(TABLE, TestFirst, [DONE], DONE, DONE);
    assert Walk(TABLE, TestFirst, [READY, WORKING], READY, WORKING);
    assert Walk(TABLE, TestFirst, [WORKING, DONE], WORKING, DONE);
    assert Walk(TABLE, TestFirst, [READY, WORKING, DONE], READY, DONE);
  }

  lemma StateIsSound(s: State)
    requires s in TABLE.states
    ensures Reaches(TABLE, TestFirst, READY, s.name) && CanEnd(TABLE, TestFirst, s.name)
  {
    hide Reaches;
    Paths();
    assert s == READY_STATE || s == WORKING_STATE || s == DONE_STATE;
    assert DONE_STATE in TABLE.states && TestFirst in DONE_STATE.modes;
    assert Reaches(TABLE, TestFirst, s.name, DONE_STATE.name);
  }

  lemma Walks()
    ensures GraphOk(TABLE)
  {
    hide Reaches, CanEnd;
    forall s | s in TABLE.states ensures Reaches(TABLE, TestFirst, READY, s.name) && CanEnd(TABLE, TestFirst, s.name) {
      StateIsSound(s);
    }
    assert TABLE.modes == [TestFirst];
  }

  lemma Loads()
    ensures LoadOk(TABLE) && ModesInhabited(TABLE)
  {
    hide GraphOk, DeclarationsOk, RuleError;
    Declares();
    Walks();
    forall t | t in TABLE.transitions ensures RuleError(TABLE, t) == None {
      EndpointsAre(t);
      RuleHolds(t);
    }
    assert CREATE in TABLE.transitions && READY_STATE in TABLE.states;
    assert TestFirst in READY_STATE.modes;
  }

  lemma IsAcceptable()
    ensures Apply.Acceptable(TABLE)
  {
    hide LoadOk, ModesInhabited;
    Loads();
    LoadedTargetsInMode(TABLE);
  }

  lemma DispatchIsFirst()
    ensures FirstDispatch(TABLE.transitions, WORKING) == DispatchInto(Implementer, true)
  {
    assert TABLE.transitions[1..][0] == DISPATCH;
  }

  lemma RequiredIff(name: StateName)
    ensures RequiredState(TABLE, name) <==> name == WORKING
  {
    hide FindNamed;
    Finds();
    FoundIsNamed(name);
  }

  lemma FoundIsNamed(name: StateName)
    ensures FindNamed(TABLE.states, name).Some? ==> name in {READY, WORKING, DONE}
  {
  }

  lemma DispatchesWell(t: Transition)
    requires t in TABLE.transitions
    ensures DispatchGuarded(t) && DispatchAgrees(TABLE, t) && FailureCounted(t)
  {
    hide RequiredState, FirstDispatch, CreatedRole, CountedClass;
    DispatchIsFirst();
    Arguments();
    RequiredIff(WORKING);
    OneOf(t);
    if t == DISPATCH {
      assert Guard(NoActiveExecution, []) in t.guards && Guard(AttemptsRemain, []) in t.guards;
    }
  }

  lemma EntersWell(t: Transition)
    requires t in TABLE.transitions
    ensures EntersByDispatch(TABLE, t)
  {
    hide RequiredState, CreatedRole;
    Arguments();
    RequiredIff(READY);
    RequiredIff(DONE);
    OneOf(t);
  }

  lemma ExitsWell(t: Transition)
    requires t in TABLE.transitions
    ensures ExitsOnce(TABLE, t)
  {
    hide RequiredState, CreatedRole, CountedClass;
    Arguments();
    RequiredIff(READY);
    RequiredIff(DONE);
    OneOf(t);
    assert forall f :: f in t.from ==> f == t.from[0];
  }

  lemma Arguments()
    ensures CreatedRole(DISPATCH.effects) == Implementer && CreatedRole([]) == NoRole
    ensures CreatedRole(REQUEUE.effects) == NoRole && CountedClass(REQUEUE.effects) == Infrastructure
    ensures CreatedRole(FAIL.effects) == NoRole && CountedClass(FAIL.effects) == Merit
  {
    assert REQUEUE.effects[1..] == [RequeueExecution] && [RequeueExecution][1..] == [];
    assert FAIL.effects[1..] == [];
  }

  lemma IsDisciplined()
    ensures Disciplined(TABLE) && GrantsApart(TABLE) && Runs.RequeuesLimited(TABLE)
  {
    hide DispatchGuarded, DispatchAgrees, ExitsOnce, EntersByDispatch, FailureCounted, CountedClass;
    Arguments();
    forall t | t in TABLE.transitions
      ensures DispatchGuarded(t) && DispatchAgrees(TABLE, t) && ExitsOnce(TABLE, t) && EntersByDispatch(TABLE, t)
        && FailureCounted(t)
      ensures GrantAttempts !in t.effects && (RequeueExecution in t.effects ==> t == REQUEUE)
    {
      DispatchesWell(t);
      EntersWell(t);
      ExitsWell(t);
      OneOf(t);
    }
    assert Guard(InfraRequeueAllowed, []) in REQUEUE.guards;
  }

  /** One table meets all conditions of the theorems about runs. */
  lemma ConditionsAreConsistent()
    ensures LoadOk(TABLE) && ModesInhabited(TABLE) && Apply.Acceptable(TABLE) && Disciplined(TABLE)
      && GrantsApart(TABLE)
      && Runs.RequeuesLimited(TABLE)
  {
    hide LoadOk, ModesInhabited, Apply.Acceptable, Disciplined, GrantsApart, Runs.RequeuesLimited;
    Loads();
    IsAcceptable();
    IsDisciplined();
  }
}
