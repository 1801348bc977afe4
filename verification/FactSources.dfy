/**
  The fact sources of a step, as the code keeps them: a base that may answer
  inconsistently, the accounting layer that asks it each fact at most once, and
  the decision loop over the candidates
  (src/internal/statemachine/accounting.go and fire.go).
 */
module FactSources {
  import opened Machine
  import opened Accounting
  import opened Fire

  datatype Question = AskBool(id: GuardId) | AskValue(id: GuardId)

  predicate AskedOnce(log: seq<Question>) {
    forall i, j :: 0 <= i < j < |log| ==> log[i] != log[j]
  }

  /** What the Runner knows: every question may be answered differently each time it is asked. */
  class Base {
    const boolAt: (nat, Event, GuardId) -> BoolAnswer
    const valueAt: (nat, Event, GuardId) -> ValueAnswer
    var asked: nat
    ghost var log: seq<Question>  // every question, in the order they were asked

    constructor (boolAt: (nat, Event, GuardId) -> BoolAnswer, valueAt: (nat, Event, GuardId) -> ValueAnswer)
      ensures this.boolAt == boolAt && this.valueAt == valueAt && asked == 0 && log == []
    {
      this.boolAt, this.valueAt, this.asked, this.log := boolAt, valueAt, 0, [];
    }

    method Bool(ev: Event, id: GuardId) returns (a: BoolAnswer)
      modifies this
      ensures asked == old(asked) + 1 && a == boolAt(old(asked), ev, id) && log == old(log) + [AskBool(id)]
    {
      a := boolAt(asked, ev, id);
      asked := asked + 1;
      log := log + [AskBool(id)];
    }

    method Value(ev: Event, id: GuardId) returns (a: ValueAnswer)
      modifies this
      ensures asked == old(asked) + 1 && a == valueAt(old(asked), ev, id) && log == old(log) + [AskValue(id)]
    {
      a := valueAt(asked, ev, id);
      asked := asked + 1;
      log := log + [AskValue(id)];
    }
  }

  /** The accounting facts: own answers first, then the base, whose first answer decides. */
  class AccountingSource {
    const env: Env
    const t: Task
    const inp: StepInput
    const base: Base
    var bools: map<GuardId, BoolAnswer>
    var values: map<GuardId, ValueAnswer>
    ghost const start: seq<Question>

    constructor (env: Env, t: Task, inp: StepInput, base: Base)
      ensures this.env == env && this.t == t && this.inp == inp && this.base == base && Valid()
      ensures bools == map[] && values == map[] && start == base.log
    {
      this.env, this.t, this.inp, this.base := env, t, inp, base;
      bools, values := map[], map[];
      start := base.log;
    }

    ghost predicate Remembers(q: Question)
      reads this
    {
      match q
      case AskBool(id) => id in bools
      case AskValue(id) => id in values
    }

    /** What was asked of the base since the start: every answer is remembered, and no question was repeated. */
    ghost predicate Valid()
      reads this, base
    {
      && start <= base.log && AskedOnce(base.log[|start|..])
      && forall i :: |start| <= i < |base.log| ==> Remembers(base.log[i])
    }

    /** The consistent facts f give every answer the source has used. */
    ghost predicate Agrees(f: Facts)
      reads this
    {
      && (forall id :: id in bools ==> f.b(id) == bools[id])
      && (forall id :: id in values ==> f.v(id) == values[id])
    }

    method BaseBool(ev: Event, id: GuardId) returns (a: BoolAnswer)
      requires Valid()
      modifies this, base
      ensures Valid()
      ensures forall f :: Agrees(f) ==> old(Agrees(f)) && a == f.b(id)
    {
      if id in bools {
        return bools[id];
      }
      a := base.Bool(ev, id);
      bools := bools[id := a];
    }

    method BaseValue(ev: Event, id: GuardId) returns (a: ValueAnswer)
      requires Valid()
      modifies this, base
      ensures Valid()
      ensures forall f :: Agrees(f) ==> old(Agrees(f)) && a == f.v(id)
    {
      if id in values {
        return values[id];
      }
      a := base.Value(ev, id);
      values := values[id := a];
    }

    method Value(ev: Event, id: GuardId) returns (a: ValueAnswer)
      requires Valid()
      modifies this, base
      ensures Valid()
      ensures forall f :: Agrees(f) ==> old(Agrees(f)) && a == ValueOf(inp, f, id)
    {
      if id.FailureCode? && inp.failureCode != "" {
        return ValueAnswer(inp.failureCode, true);
      }
      a := BaseValue(ev, id);
      if id.FailureCode? && !a.known {
        a := ValueAnswer("", false);
      }
    }

    /** The failure code of the step, "" when it is not known. */
    method CodeOf(ev: Event) returns (code: string)
      requires Valid()
      modifies this, base
      ensures Valid()
      ensures forall f :: Agrees(f) ==> old(Agrees(f)) && code == StepCode(inp, f)
    {
      var a := Value(ev, FailureCode);
      code := if a.known then a.value else "";
    }

    method Bool(ev: Event, id: GuardId) returns (a: BoolAnswer)
      requires Valid()
      modifies this, base
      ensures Valid()
      ensures forall f :: Agrees(f) ==> old(Agrees(f)) && a == BoolOf(env, t, inp, ev, f, id)
    {
      hide OwnAnswer;
      if AnsweredByAccounting(id) {
        var code := "";
        if id.InfraRequeueAllowed? {
          code := CodeOf(ev);
        }
        a := BoolAnswer(OwnAnswer(env, t, inp.dispatch, ev, code, id), true);
        OwnAnswerIgnoresCode(env, t, inp.dispatch, ev, id);
      } else {
        a := BaseBool(ev, id);
      }
    }

    /** Some consistent facts agree with everything answered so far. */
    lemma SomeFactsAgree() returns (f: Facts)
      ensures Agrees(f)
    {
      var bs, vs := bools, values;
      f := Facts((id: GuardId) => if id in bs then bs[id] else BoolAnswer(false, false),
                 (id: GuardId) => if id in vs then vs[id] else ValueAnswer("", false));
    }
  }

  lemma OwnAnswerIgnoresCode(env: Env, t: Task, d: DispatchSpec, ev: Event, id: GuardId)
    requires AnsweredByAccounting(id)
    ensures !id.InfraRequeueAllowed? ==>
      forall c, c' :: OwnAnswer(env, t, d, ev, c, id) == OwnAnswer(env, t, d, ev, c', id)
  {
    hide IdenticalReplay, OutcomeOfConflict, DispatchedInGeneration, HasRunning;
  }

  /** The answer a guard needs, by the kind of its identifier. */
  predicate HoldsIn(g: Guard, f: Facts) {
    if IsValued(g.id) then f.v(g.id).known && f.v(g.id).value != "" && f.v(g.id).value in g.args
    else if g.id.Negation? then g.args == [] && f.b(g.id.of).known && !f.b(g.id.of).value
    else !g.id.Unregistered? && g.args == [] && f.b(g.id).known && f.b(g.id).value
  }

  lemma GuardHoldsIff(g: Guard, f: Facts)
    ensures GuardHolds(g, f) <==> HoldsIn(g, f)
  {
  }

  // ------------------------------------------------------------- the cache

  /** Fire's own cache: each fact is asked of the accounting source at most once. */
  class FactCache {
    const src: AccountingSource
    const ev: Event
    var b: map<GuardId, BoolAnswer>
    var v: map<GuardId, ValueAnswer>

    constructor (src: AccountingSource, ev: Event)
      requires src.Valid()
      ensures this.src == src && this.ev == ev && Valid()
    {
      this.src, this.ev, this.b, this.v := src, ev, map[], map[];
    }

    ghost predicate Valid()
      reads this, src, src.base
    {
      src.Valid()
      && forall f :: src.Agrees(f) ==>
           && (forall id :: id in b ==> b[id] == BoolOf(src.env, src.t, src.inp, ev, f, id))
           && (forall id :: id in v ==> v[id] == ValueOf(src.inp, f, id))
    }

    ghost function View(f: Facts): Facts {
      AccountingFacts(src.env, src.t, src.inp, ev, f)
    }

    method Bool(id: GuardId) returns (a: BoolAnswer)
      requires Valid()
      modifies this, src, src.base
      ensures Valid()
      ensures forall f :: src.Agrees(f) ==> old(src.Agrees(f)) && a == View(f).b(id)
    {
      hide BoolOf, ValueOf;
      if id in b {
        return b[id];
      }
      a := src.Bool(ev, id);
      b := b[id := a];
    }

    method Value(id: GuardId) returns (a: ValueAnswer)
      requires Valid()
      modifies this, src, src.base
      ensures Valid()
      ensures forall f :: src.Agrees(f) ==> old(src.Agrees(f)) && a == View(f).v(id)
    {
      hide BoolOf, ValueOf;
      if id in v {
        return v[id];
      }
      a := src.Value(ev, id);
      v := v[id := a];
    }

    /** Evaluates one guard reference. */
    method Holds(g: Guard) returns (ok: bool)
      requires Valid()
      modifies this, src, src.base
      ensures Valid()
      ensures forall f :: src.Agrees(f) ==> old(src.Agrees(f)) && (ok <==> GuardHolds(g, View(f)))
    {
      hide View, GuardHolds, Valid, src.Agrees;
      forall f ensures GuardHolds(g, f) <==> HoldsIn(g, f) {
        GuardHoldsIff(g, f);
      }
      if IsValued(g.id) {
        var a := Value(g.id);
        ok := a.known && a.value != "" && a.value in g.args;
      } else if g.id.Negation? {
        var a := Bool(g.id.of);
        ok := g.args == [] && a.known && !a.value;
      } else if !g.id.Unregistered? {
        var a := Bool(g.id);
        ok := g.args == [] && a.known && a.value;
      } else {
        ok := false;
      }
    }

    /** The failed guards of a candidate, the implicit actor guard first. */
    method Failed(t: Transition) returns (bad: seq<GuardId>)
      requires Valid()
      modifies this, src, src.base
      ensures Valid()
      ensures forall f :: src.Agrees(f) ==> old(src.Agrees(f)) && bad == FailedGuards(t, ev, View(f))
    {
      hide View, GuardHolds;
      var first := Bool(ActorAuthorized);
      var start: seq<GuardId> :=
        if ev.actor !in t.actors || !first.known || !first.value then [ActorAuthorized] else [];
      bad := start;
      for i := 0 to |t.guards|
        invariant Valid()
        invariant forall f :: src.Agrees(f) ==>
          && old(src.Agrees(f))
          && start == (if ev.actor !in t.actors || !ActorVouched(View(f)) then [ActorAuthorized] else [])
          && bad == AppendNew(start, FailingIds(t.guards[..i], View(f)))
      {
        var g := t.guards[i];
        var ok := Holds(g);
        assert t.guards[..i + 1][..i] == t.guards[..i];
        ghost var before := bad;
        if !ok && g.id !in bad {
          bad := bad + [g.id];
        }
        forall f | src.Agrees(f) ensures bad == AppendNew(start, FailingIds(t.guards[..i + 1], View(f))) {
          AppendNewOne(start, FailingIds(t.guards[..i], View(f)), g.id);
        }
      }
      assert t.guards[..|t.guards|] == t.guards;
    }
  }

  lemma AppendNewOne(ids: seq<GuardId>, more: seq<GuardId>, x: GuardId)
    ensures AppendNew(ids, more + [x]) == (var r := AppendNew(ids, more); if x in r then r else r + [x])
    ensures more + [] == more
  {
    var all := more + [x];
    assert all[..|all| - 1] == more;
  }
}
