/**
  A mode without states passes Load, but no task can be created in it: the decision fires
  and Advance refuses it (src/internal/statemachine/load.go, fire.go and accounting.go).
 */
module LoadModes {

  import opened Wrappers
  import opened Machine
  import opened Accounting
  import opened Fire
  import opened Advance
  import opened Load
  import Apply

  /** In a mode without states every creation that fires is refused. */
  lemma EmptyModeRefusesCreation(env: Env, t: Task, ev: Event, inp: StepInput, base: Facts)
    requires LoadOk(env.m) && t.snapshot.state == Nowhere
    requires forall s :: s in env.m.states ==> t.snapshot.mode !in s.modes
    requires Decide(env.m, t.snapshot, ev, AccountingFacts(env, t, inp, ev, base)).Fired?
    requires !ev.name.AdjudicationRecorded?
    ensures Apply.ApplyStep(env, t, ev, inp, base) == Apply.AdvanceFailed(NotApplied)
  {
    hide Decide, AccountingFacts, GraphOk, CreationOk, RulesOk, Rechecks, AppliedOf, Recomputed, Overdraws, NextTask;
    var f := AccountingFacts(env, t, inp, ev, base);
    var w := FiredIsLowest(env.m, t.snapshot, ev, f);
    RuleFacts(env.m, w);
    var a := Decide(env.m, t.snapshot, ev, f).applied;
    AppliedPlaces(env.m, w, t.snapshot, ev, f);
    InitialIsListed(env.m);
    assert !MatchesAny(env, t, ev, Apply.RecordedApplied(t, ev, a));
  }

  /** Some transition of the table matches the decision. */
  predicate MatchesAny(env: Env, t: Task, ev: Event, a: Applied) {
    exists tr :: tr in env.m.transitions && MatchesTable(env, t, ev, a, tr)
  }

  lemma AppliedPlaces(m: Machine, w: Transition, snap: Snapshot, ev: Event, f: Facts)
    requires w.to.To?
    ensures var a := AppliedOf(m, w, FindState(m, snap.state), At(w.to.name), snap, ev, f);
            a.from == snap.state && a.to == At(w.to.name)
  {
    hide DeltasOf;
  }

  lemma InitialIsListed(m: Machine)
    requires DeclarationsOk(m)
    ensures FindNamed(m.states, m.initial).Some? && FindNamed(m.states, m.initial).value in m.states
  {
  }

  // -------------------------------------------------------------- a concrete table

  const START := OtherState("start")
  const FINISH := OtherState("finish")

  const CREATE := Transition(1, [Nowhere], To(START), OtherEvent("created"), [Runner], [TestFirst, VerificationFirst],
    [], [], false, false)
  const END := Transition(2, [At(START)], To(FINISH), OtherEvent("ended"), [Runner], [VerificationFirst], [], [],
    false, false)

  /** Two states, both of one mode; the other mode can be created and has no state. */
  const TABLE := Machine(
    START,
    [State(START, [VerificationFirst], false, Forbidden, [], []),
      State(FINISH, [VerificationFirst], true, Forbidden, [], [])],
    [CREATE, END], [TestFirst, VerificationFirst], [Runner], {OtherEvent("created"), OtherEvent("ended")})

  lemma TableFinds()
    ensures FindNamed(TABLE.states, START) == Some(TABLE.states[0])
      && FindNamed(TABLE.states, FINISH) == Some(TABLE.states[1])
  {
    assert TABLE.states[1..][0] == TABLE.states[1];
  }

  lemma TableDeclares()
    ensures DeclarationsOk(TABLE) && RulesOk(TABLE)
  {
    TableFinds();
    assert TABLE.transitions == [CREATE] + [END];
    assert RuleError(TABLE, CREATE) == None by {
      assert CREATE.from[..0] == [];
    }
    assert RuleError(TABLE, END) == None by {
      assert VerificationFirst in END.modes && VerificationFirst in TABLE.states[0].modes;
      assert SourceInSomeMode(TABLE, END, At(START));
      assert END.from[..0] == [];
    }
  }

  lemma TableWalks()
    ensures GraphOk(TABLE)
  {
    TableFinds();
    assert Walk(TABLE, VerificationFirst, [START], START, START);
    assert Walk(TABLE, VerificationFirst, [FINISH], FINISH, FINISH);
    assert END in TABLE.transitions && Leads(TABLE, END, START, FINISH);
    assert Edge(TABLE, VerificationFirst, START, FINISH);
    assert Walk(TABLE, VerificationFirst, [START, FINISH], START, FINISH);
    assert TABLE.states[1] in TABLE.states;
  }

  /** The table passes Load although one of its modes has no state. */
  lemma EmptyModePassesLoad()
    ensures LoadOk(TABLE) && !ModesInhabited(TABLE)
  {
    hide GraphOk, RulesOk, DeclarationsOk;
    TableDeclares();
    TableWalks();
    assert CREATE in TABLE.transitions;
    assert TestFirst in TABLE.modes;
    forall s | s in TABLE.states ensures TestFirst !in s.modes {
      assert s == TABLE.states[0] || s == TABLE.states[1];
    }
  }

  const CREATED := Event(OtherEvent("created"), Runner, NoRole)

  lemma CreationIsCandidate(snap: Snapshot)
    requires snap.state == Nowhere && snap.mode == TestFirst
    ensures Candidates(TABLE.transitions, snap, CREATED) == [CREATE]
  {
    assert IsCandidate(CREATE, snap, CREATED) && !IsCandidate(END, snap, CREATED) by {
      assert Nowhere in CREATE.from && TestFirst in CREATE.modes && Runner in CREATE.actors;
    }
    hide IsCandidate;
    var one := TABLE.transitions[..1];
    assert one == [CREATE] && one[..0] == [] && TABLE.transitions[1] == END;
    assert Candidates(one[..0], snap, CREATED) == [];
    assert Candidates(one, snap, CREATED) == [CREATE];
  }

  lemma CreationWins(f: Facts)
    requires f.b(ActorAuthorized) == BoolAnswer(true, true)
    ensures TryAll(SortById([CREATE]), CREATED, f) == Winner(CREATE)
  {
    assert [CREATE][..0] == [];
    assert SortById([CREATE]) == [CREATE];
    assert Runner in CREATE.actors;
    assert FailedGuards(CREATE, CREATED, f) == [];
  }

  lemma CreationFires(snap: Snapshot, f: Facts)
    requires snap.state == Nowhere && snap.mode == TestFirst && f.b(ActorAuthorized) == BoolAnswer(true, true)
    ensures Decide(TABLE, snap, CREATED, f).Fired?
  {
    hide AppliedOf, Candidates, TryAll, SortById;
    CreationIsCandidate(snap);
    CreationWins(f);
    assert TestFirst in TABLE.modes && Runner in TABLE.actors;
  }

  /** Creating a task of this table in the empty mode fires and is refused for another reason than a counter. */
  lemma CreationInEmptyModeIsRefused(env: Env, t: Task, inp: StepInput, base: Facts)
    requires env.m == TABLE && t.snapshot.state == Nowhere && t.snapshot.mode == TestFirst
    requires base.b(ActorAuthorized) == BoolAnswer(true, true)
    ensures Apply.ApplyStep(env, t, CREATED, inp, base) == Apply.AdvanceFailed(NotApplied)
  {
    hide Decide, LoadOk, Apply.ApplyStep;
    EmptyModePassesLoad();
    CreationFires(t.snapshot, AccountingFacts(env, t, inp, CREATED, base));
    EmptyModeRefusesCreation(env, t, CREATED, inp, base);
  }
}
