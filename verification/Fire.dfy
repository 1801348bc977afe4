/**
  The decision on an event: the lowest-numbered candidate transition whose
  guards all pass (src/internal/statemachine/fire.go).
 */
module Fire {
  import opened Wrappers
  import opened Machine
  import opened Accounting

  datatype FireError = UnknownMode | UnknownState | UnknownEvent | UnknownActor | ReturnInvalid | ResumeInvalid

  datatype RejectCode = GateNotSatisfied | AlreadyRunning | AttemptsExhausted

  datatype Decision =
    | Malformed(error: FireError)
    | Rejected(code: RejectCode, failed: seq<GuardId>)
    | Fired(applied: Applied)

  // ------------------------------------------------------------- candidates

  predicate Listed(t: Transition, snap: Snapshot, ev: Event) {
    t.event == ev.name && snap.mode in t.modes && snap.state in t.from
  }

  predicate IsCandidate(t: Transition, snap: Snapshot, ev: Event) {
    Listed(t, snap, ev) && ev.actor in t.actors
  }

  function Candidates(ts: seq<Transition>, snap: Snapshot, ev: Event): (r: seq<Transition>)
    ensures forall t :: t in r <==> t in ts && IsCandidate(t, snap, ev)
    decreases |ts|
  {
    if ts == [] then []
    else
      var last := ts[|ts| - 1];
      Candidates(ts[..|ts| - 1], snap, ev) + if IsCandidate(last, snap, ev) then [last] else []
  }

  /** The candidates keep the order of the table. */
  lemma {:induction false} CandidatesConcat(a: seq<Transition>, b: seq<Transition>, snap: Snapshot, ev: Event)
    ensures Candidates(a + b, snap, ev) == Candidates(a, snap, ev) + Candidates(b, snap, ev)
    decreases |b|
  {
    hide IsCandidate;
    if b == [] {
      assert a + b == a;
    } else {
      assert (a + b)[..|a + b| - 1] == a + b[..|b| - 1];
      CandidatesConcat(a, b[..|b| - 1], snap, ev);
    }
  }

  predicate SortedById(ts: seq<Transition>) {
    forall i, j :: 0 <= i < j < |ts| ==> ts[i].id <= ts[j].id
  }

  /** Where a transition with the id goes: behind those with the same id. */
  function InsertAt(ts: seq<Transition>, id: nat): (k: nat)
    requires SortedById(ts)
    ensures k <= |ts|
    ensures forall i :: 0 <= i < k ==> ts[i].id <= id
    ensures forall i :: k <= i < |ts| ==> ts[i].id > id
    decreases |ts|
  {
    if ts == [] then 0
    else if ts[|ts| - 1].id <= id then |ts|
    else InsertAt(ts[..|ts| - 1], id)
  }

  lemma InsertedById(ts: seq<Transition>, t: Transition, k: nat)
    requires SortedById(ts) && k <= |ts|
    requires forall i :: 0 <= i < k ==> ts[i].id <= t.id
    requires forall i :: k <= i < |ts| ==> ts[i].id > t.id
    ensures var r := ts[..k] + [t] + ts[k..]; SortedById(r) && multiset(r) == multiset(ts) + multiset{t}
  {
    assert ts == ts[..k] + ts[k..];
  }

  /** Stable insertion. */
  function Insert(ts: seq<Transition>, t: Transition): (r: seq<Transition>)
    requires SortedById(ts)
    ensures SortedById(r) && multiset(r) == multiset(ts) + multiset{t}
  {
    var k := InsertAt(ts, t.id);
    InsertedById(ts, t, k);
    ts[..k] + [t] + ts[k..]
  }

  function SortById(ts: seq<Transition>): (r: seq<Transition>)
    ensures SortedById(r) && multiset(r) == multiset(ts)
    decreases |ts|
  {
    if ts == [] then []
    else
      assert ts == ts[..|ts| - 1] + [ts[|ts| - 1]];
      Insert(SortById(ts[..|ts| - 1]), ts[|ts| - 1])
  }

  function WithId(ts: seq<Transition>, id: nat): seq<Transition>
    decreases |ts|
  {
    if ts == [] then []
    else WithId(ts[..|ts| - 1], id) + if ts[|ts| - 1].id == id then [ts[|ts| - 1]] else []
  }

  lemma {:induction false} WithIdConcat(a: seq<Transition>, b: seq<Transition>, id: nat)
    ensures WithId(a + b, id) == WithId(a, id) + WithId(b, id)
    decreases |b|
  {
    if b == [] {
      assert a + b == a;
    } else {
      assert (a + b)[..|a + b| - 1] == a + b[..|b| - 1];
      WithIdConcat(a, b[..|b| - 1], id);
    }
  }

  lemma {:induction false} NoneWithId(ts: seq<Transition>, id: nat)
    requires forall i :: 0 <= i < |ts| ==> ts[i].id != id
    ensures WithId(ts, id) == []
    decreases |ts|
  {
    if ts != [] {
      NoneWithId(ts[..|ts| - 1], id);
    }
  }

  lemma InsertIsStable(ts: seq<Transition>, t: Transition, id: nat)
    requires SortedById(ts)
    ensures WithId(Insert(ts, t), id) == WithId(ts + [t], id)
  {
    hide WithId, SortedById;
    var k := InsertAt(ts, t.id);
    assert ts == ts[..k] + ts[k..];
    SpliceIsStable(ts[..k], t, ts[k..], id);
  }

  lemma SpliceIsStable(front: seq<Transition>, t: Transition, back: seq<Transition>, id: nat)
    requires forall i :: 0 <= i < |back| ==> back[i].id > t.id
    ensures WithId(front + [t] + back, id) == WithId(front + back + [t], id)
  {
    hide WithId;
    WithIdConcat(front, back, id);
    WithIdConcat(front + back, [t], id);
    WithIdConcat(front + [t], back, id);
    WithIdConcat(front, [t], id);
    if id == t.id {
      NoneWithId(back, id);
    } else {
      NoneWithId([t], id);
    }
  }

  /** Transitions with one id keep their order. */
  lemma {:induction false} SortIsStable(ts: seq<Transition>, id: nat)
    ensures WithId(SortById(ts), id) == WithId(ts, id)
    decreases |ts|
  {
    hide Insert;
    if ts != [] {
      var front, t := ts[..|ts| - 1], ts[|ts| - 1];
      SortIsStable(front, id);
      InsertIsStable(SortById(front), t, id);
      WithIdConcat(SortById(front), [t], id);
      WithIdConcat(front, [t], id);
      assert ts == front + [t];
    }
  }

  // ----------------------------------------------------------------- guards

  /** Appends the identifiers that are not listed yet. */
  function AppendNew(ids: seq<GuardId>, more: seq<GuardId>): (r: seq<GuardId>)
    ensures forall x :: x in r <==> x in ids || x in more
    ensures ids <= r
    decreases |more|
  {
    if more == [] then ids
    else
      var r := AppendNew(ids, more[..|more| - 1]);
      var last := more[|more| - 1];
      assert more == more[..|more| - 1] + [last];
      if last in r then r else r + [last]
  }

  function FailingIds(gs: seq<Guard>, f: Facts): (r: seq<GuardId>)
    ensures r == [] <==> forall g :: g in gs ==> GuardHolds(g, f)
    decreases |gs|
  {
    if gs == [] then []
    else
      var last := gs[|gs| - 1];
      assert gs == gs[..|gs| - 1] + [last];
      FailingIds(gs[..|gs| - 1], f) + if GuardHolds(last, f) then [] else [last.id]
  }

  predicate ActorVouched(f: Facts) {
    f.b(ActorAuthorized).known && f.b(ActorAuthorized).value
  }

  /** The failed guards of a candidate: the implicit actor guard first, then in listed order, without repeats. */
  function FailedGuards(t: Transition, ev: Event, f: Facts): (r: seq<GuardId>)
    ensures r == [] <==> Passes(t, ev, f)
  {
    var first := if ev.actor !in t.actors || !ActorVouched(f) then [ActorAuthorized] else [];
    AppendNew(first, FailingIds(t.guards, f))
  }

  lemma {:induction false} FailingIdsAre(gs: seq<Guard>, f: Facts)
    ensures forall id :: id in FailingIds(gs, f) <==> exists g :: g in gs && !GuardHolds(g, f) && g.id == id
    decreases |gs|
  {
    hide GuardHolds;
    if gs != [] {
      FailingIdsAre(gs[..|gs| - 1], f);
      assert gs == gs[..|gs| - 1] + [gs[|gs| - 1]];
    }
  }

  predicate NoRepeats(ids: seq<GuardId>) {
    forall i, j :: 0 <= i < j < |ids| ==> ids[i] != ids[j]
  }

  lemma {:induction false} AppendNewIsDistinct(ids: seq<GuardId>, more: seq<GuardId>)
    requires NoRepeats(ids)
    ensures NoRepeats(AppendNew(ids, more))
    decreases |more|
  {
    if more != [] {
      var before := AppendNew(ids, more[..|more| - 1]);
      AppendNewIsDistinct(ids, more[..|more| - 1]);
      assert forall i :: 0 <= i < |before| ==> before[i] in before;
    }
  }

  /** The failed guards are the ids of the guards that do not hold, each once, after the implicit actor guard. */
  lemma FailedGuardsAre(t: Transition, ev: Event, f: Facts)
    ensures var r, refused := FailedGuards(t, ev, f), ev.actor !in t.actors || !ActorVouched(f);
      && (forall id :: id in r <==>
            (refused && id == ActorAuthorized) || exists g :: g in t.guards && !GuardHolds(g, f) && g.id == id)
      && NoRepeats(r)
      && (refused ==> r != [] && r[0] == ActorAuthorized)
  {
    hide GuardHolds, FailingIds, ActorVouched;
    FailingIdsAre(t.guards, f);
    AppendNewIsDistinct(
      if ev.actor !in t.actors || !ActorVouched(f) then [ActorAuthorized] else [], FailingIds(t.guards, f));
  }

  ghost predicate Passes(t: Transition, ev: Event, f: Facts) {
    ev.actor in t.actors && ActorVouched(f) && forall g :: g in t.guards ==> GuardHolds(g, f)
  }

  datatype Search = Winner(t: Transition) | NoWinner(failed: seq<GuardId>)

  /** Takes the candidates in order; the first whose guards pass wins. */
  function TryAll(ts: seq<Transition>, ev: Event, f: Facts): (r: Search)
    ensures r.Winner? ==> r.t in ts && Passes(r.t, ev, f)
    ensures r.NoWinner? <==> forall t :: t in ts ==> !Passes(t, ev, f)
    decreases |ts|
  {
    if ts == [] then NoWinner([])
    else
      var last := ts[|ts| - 1];
      assert ts == ts[..|ts| - 1] + [last];
      var before := TryAll(ts[..|ts| - 1], ev, f);
      if before.Winner? then before
      else
        var bad := FailedGuards(last, ev, f);
        if bad == [] then Winner(last) else NoWinner(AppendNew(before.failed, bad))
  }

  lemma {:induction false} WinnerComesFirst(ts: seq<Transition>, ev: Event, f: Facts)
    requires SortedById(ts) && TryAll(ts, ev, f).Winner?
    ensures forall t :: t in ts && t.id < TryAll(ts, ev, f).t.id ==> !Passes(t, ev, f)
    decreases |ts|
  {
    hide Passes, FailedGuards, AppendNew;
    var front := ts[..|ts| - 1];
    assert ts == front + [ts[|ts| - 1]];
    if TryAll(front, ev, f).Winner? {
      WinnerComesFirst(front, ev, f);
      var w := TryAll(front, ev, f).t;
      var i :| 0 <= i < |front| && front[i] == w;
      assert w.id <= ts[|ts| - 1].id;
    }
  }

  function RejectionCode(e: EventName, failed: seq<GuardId>): RejectCode {
    if !IsDispatch(e) || failed == [] then GateNotSatisfied
    else if failed == [NoActiveExecution] then AlreadyRunning
    else if exists g :: g in failed && !IsAttemptGuard(g) then GateNotSatisfied
    else AttemptsExhausted
  }

  predicate IsAttemptGuard(g: GuardId) {
    g.AttemptsRemain? || g.ReviewsRemain? || g.AuxiliaryRemain? || g.NotIdenticalReplay?
  }

  // ----------------------------------------------------------------- targets

  datatype Resolved = Resolved(place: Place) | Unresolved(error: FireError)

  predicate Resumable(s: State, mode: Mode) {
    !IsHeld(At(s.name)) && !s.terminal && s.active != Required && mode in s.modes
  }

  function TargetOf(m: Machine, t: Transition, cur: Option<State>, snap: Snapshot): Resolved {
    match t.to
    case Same => Resolved(snap.state)
    case Return =>
      var rs := FindState(m, snap.returnState);
      if cur.None? || rs.None? || rs.value.name !in cur.value.returnTargets || snap.mode !in rs.value.modes
      then Unresolved(ReturnInvalid)
      else Resolved(snap.returnState)
    case Resume =>
      var rs := FindState(m, snap.resumeState);
      if rs.None? || !Resumable(rs.value, snap.mode) then Unresolved(ResumeInvalid)
      else Resolved(snap.resumeState)
    case To(name) => Resolved(At(name))
  }

  // ------------------------------------------------------------------- Fire

  predicate RoleRefused(cur: Option<State>, snap: Snapshot, ev: Event) {
    IsDispatch(ev.name) && ev.role != NoRole
    && (cur.None? || RoleEvent(ev.role, snap.state, snap.mode) != ev.name || ev.role !in cur.value.dispatchable)
  }

  function CodeIn(f: Facts): string {
    if f.v(FailureCode).known then f.v(FailureCode).value else ""
  }

  function AppliedOf(
    m: Machine, w: Transition, cur: Option<State>, to: Place, snap: Snapshot, ev: Event, f: Facts): Applied {
    Applied(w.id, snap.state, to, w.effects, CountedClass(w.effects), NotifyReason(w.effects),
            DeltasOf(m, Firing(w, cur, snap, ev), CodeIn(f), None))
  }

  function InputError(m: Machine, snap: Snapshot, ev: Event): Option<FireError> {
    var cur := FindState(m, snap.state);
    if snap.mode !in m.modes then Some(UnknownMode)
    else if snap.state != Nowhere && (cur.None? || snap.mode !in cur.value.modes) then Some(UnknownState)
    else if ev.name !in m.events then Some(UnknownEvent)
    else if ev.actor !in m.actors then Some(UnknownActor)
    else None
  }

  /** The decision a single consistent set of facts yields. */
  function Decide(m: Machine, snap: Snapshot, ev: Event, f: Facts): Decision {
    var cur := FindState(m, snap.state);
    var error := InputError(m, snap, ev);
    if error.Some? then Malformed(error.value)
    else
      var cands := Candidates(m.transitions, snap, ev);
      if cands == [] && (exists t :: t in m.transitions && Listed(t, snap, ev)) then
        Rejected(GateNotSatisfied, [ActorAuthorized])
      else if RoleRefused(cur, snap, ev) then Rejected(GateNotSatisfied, [DispatchPrerequisites])
      else
        match TryAll(SortById(cands), ev, f)
        case NoWinner(failed) => Rejected(RejectionCode(ev.name, failed), failed)
        case Winner(w) =>
          match TargetOf(m, w, cur, snap)
          case Unresolved(e) => Malformed(e)
          case Resolved(to) => Fired(AppliedOf(m, w, cur, to, snap, ev, f))
  }

  /** A fired transition passes and every candidate with a lower id fails. */
  lemma FiredIsLowest(m: Machine, snap: Snapshot, ev: Event, f: Facts) returns (w: Transition)
    requires Decide(m, snap, ev, f).Fired?
    ensures w in m.transitions && IsCandidate(w, snap, ev) && Passes(w, ev, f)
    ensures forall c :: c in m.transitions && IsCandidate(c, snap, ev) && c.id < w.id ==> !Passes(c, ev, f)
    ensures var cur := FindState(m, snap.state);
      TargetOf(m, w, cur, snap).Resolved?
      && Decide(m, snap, ev, f).applied == AppliedOf(m, w, cur, TargetOf(m, w, cur, snap).place, snap, ev, f)
    ensures !RoleRefused(FindState(m, snap.state), snap, ev) && InputError(m, snap, ev).None?
  {
    var cands := Candidates(m.transitions, snap, ev);
    var sorted := SortById(cands);
    forall t ensures t in sorted <==> t in cands {
      assert t in sorted <==> t in multiset(sorted);
      assert t in cands <==> t in multiset(cands);
    }
    w := TryAll(sorted, ev, f).t;
    WinnerComesFirst(sorted, ev, f);
  }
}
