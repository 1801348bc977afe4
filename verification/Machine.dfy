/**
  The vocabulary of the task state machine: the transition table, the task
  record and the retry policy (src/internal/statemachine/load.go, fire.go and
  accounting.go).

  The names the library itself interprets are constructors; every other name of
  a table is carried as text.  `Nowhere` is the empty state name: the state of
  a task that does not exist yet, and a return or resume state that is not set.
 */
module Machine {

  import opened Wrappers

  datatype Mode = TestFirst | VerificationFirst | OtherMode(name: string)

  datatype Actor = Runner | Ci | Hermes | Human | OtherActor(name: string)

  datatype StateName =
    | Blocked | NeedsHuman | TestSpecConflict | TestAuthoring | JudgeAuthoring
    | RedVerifying | JudgeValidating | GreenVerifying | Judging
    | JudgeApproved | ChangesRequested | GreenVerified
    | OtherState(name: string)

  datatype Place = Nowhere | At(name: StateName)

  datatype Target = Same | Return | Resume | To(name: StateName)

  datatype Role =
    | NoRole | Tester | Implementer | Producer | Reviewer | Researcher | Planner | Auxiliary
    | OtherRole(name: string)

  datatype FailureClass = NoClass | Merit | Infrastructure | Policy | Budget | OtherClass(name: string)

  datatype EventName =
    | DispatchTester | DispatchImplementer | DispatchProducer | DispatchReviewer | DispatchAuxiliary
    | TesterResultAccepted | ImplementerResultAccepted | ProducerResultAccepted
    | ReviewAccepted | ReviewChangesRequested | ReviewRejected
    | ImplementerReportedConflict | ExecutionBlocked | ExecutionFailed | AuxiliaryResultRecorded
    | AdjudicationRecorded | VerificationInfraFailed
    | RedClassified | GreenClassified | JudgeClassified | JudgingClassified
    | OtherEvent(name: string)

  /** Guard identifiers.  A negation guard is answered by the guard it negates. */
  datatype GuardId =
    | ActorAuthorized
    | AttemptsRemain | ReviewsRemain | AuxiliaryRemain | NotIdenticalReplay | InfraRequeueAllowed
    | NoActiveExecution | NoProducerInGeneration | NoProductionInGeneration | NoImplementerInGeneration
    | TestChangeApproved | ConflictRejected | StrengthenAuthorized
    | DispatchPrerequisites
    | FailureCode
    | OtherValued(name: string)
    | OtherFact(name: string)
    | Negation(of: GuardId)
    | Unregistered(name: string)

  /** A guard reference: the identifier and its comma-separated arguments. */
  datatype Guard = Guard(id: GuardId, args: seq<string>)

  /** An effect with its first argument; `NoRole`, `NoClass` and "" stand for no argument. */
  datatype Effect =
    | CreateExecution(role: Role)
    | CountFailure(kind: FailureClass)
    | NotifyHuman(reason: string)
    | StartGeneration | ArchiveGeneration
    | RequeueExecution | CancelActiveExecution | GrantAttempts | RecordResumeState
    | RecordConflict | RecordAdjudication | ApproveTestChange | RejectConflict | AuthorizeStrengthen
    | OtherEffect(name: string)

  datatype Active = Required | Verification | Optional | Forbidden

  datatype State = State(
    name: StateName, modes: seq<Mode>, terminal: bool, active: Active,
    returnTargets: seq<StateName>, dispatchable: seq<Role>)

  /** A transition; ids are `T` and three digits, ordered like their number. */
  datatype Transition = Transition(
    id: nat, from: seq<Place>, to: Target, event: EventName, actors: seq<Actor>, modes: seq<Mode>,
    guards: seq<Guard>, effects: seq<Effect>, humanCommand: bool, countsAttempt: bool)

  datatype Machine = Machine(
    initial: StateName, states: seq<State>, transitions: seq<Transition>,
    modes: seq<Mode>, actors: seq<Actor>, events: set<EventName>)

  datatype Event = Event(name: EventName, actor: Actor, role: Role)

  // ------------------------------------------------------------- the task

  datatype Attempts = Attempts(
    autonomousUsed: int, autonomousMax: int, testerUsed: int, testerMax: int,
    merit: map<(Role, int), int>, byClass: map<FailureClass, int>,
    consecutiveInfrastructure: int, consecutiveTimeouts: int,
    reviewsUsed: int, auxiliaryUsed: int, blockedResults: int, conflictsRaised: int)

  datatype Snapshot = Snapshot(
    mode: Mode, state: Place, returnState: Place, resumeState: Place, generation: int,
    attempts: Attempts, executionDispatched: bool, conflictAwaitingApproval: bool)

  datatype DispatchSpec = DispatchSpec(
    role: Role, harness: string, model: string, profile: string, startCommit: string, acVersion: int,
    notes: string, contextRefs: seq<string>, failureSignatures: seq<string>)

  datatype Verdict = TestValid | TestInvalid | SpecAmbiguous | OtherVerdict(name: string)

  datatype StepInput = StepInput(
    dispatch: DispatchSpec, failureCode: string, failureSignature: string, verdict: Verdict)

  datatype Outcome = Running | Succeeded | BlockedResult | Cancelled | Failed(kind: FailureClass)

  datatype Execution = Execution(
    role: Role, generation: int, fingerprint: string, harness: string, model: string, profile: string,
    notesDigest: string, counted: bool, refunded: bool, outcome: Outcome, signature: string,
    dispatch: EventName)

  /** The counters a transition can change. */
  datatype Counter =
    | AutonomousUsed | TesterUsed | ReviewsUsed | AuxiliaryUsed | Generation
    | ConsecutiveInfrastructure | ConsecutiveTimeouts
    | ByClass(kind: FailureClass)
    | MeritBy(role: Role, generation: int)

  type Deltas = map<Counter, int>

  datatype Applied = Applied(
    transition: nat, from: Place, to: Place, effects: seq<Effect>,
    failureClass: FailureClass, reason: string, deltas: Deltas)

  datatype Step = Step(event: Event, input: StepInput, applied: Applied)

  datatype ConflictRecord = ConflictRecord(open: bool, verdicts: seq<Verdict>, humanApproved: bool)

  datatype Task = Task(
    snapshot: Snapshot, executions: seq<Execution>, history: seq<Step>,
    needsHumanReason: string, blockedReason: string, conflict: ConflictRecord, strengthenState: Place)

  datatype RetryPolicy = RetryPolicy(
    maxAutonomousAttempts: int, maxTesterAttempts: int, maxReviewExecutions: int, maxAuxiliaryExecutions: int,
    maxConsecutive: int, maxTotal: int, maxConsecutiveTimeouts: int, humanGrant: int,
    adjudicatorApproves: bool)

  /** The hash functions of the library: the dispatch fingerprint and the digest of the notes. */
  datatype Hashes = Hashes(fingerprint: DispatchSpec -> string, digest: string -> string)

  datatype Env = Env(m: Machine, p: RetryPolicy, h: Hashes)

  const TIMED_OUT: string := "TIMED_OUT"
  const EMERGENCY_STOP: string := "EMERGENCY_STOP"
  const BUDGET_SHARED_EXHAUSTED: string := "BUDGET_SHARED_EXHAUSTED"

  // ------------------------------------------------------------- lookups

  function FindNamed(states: seq<State>, name: StateName): (r: Option<State>)
    ensures r.Some? ==> r.value in states && r.value.name == name
    ensures r.None? <==> forall s :: s in states ==> s.name != name
  {
    if states == [] then None
    else if states[0].name == name then Some(states[0])
    else FindNamed(states[1..], name)
  }

  function FindState(m: Machine, place: Place): (r: Option<State>)
    ensures r.Some? ==> r.value in m.states && place == At(r.value.name)
  {
    match place
    case Nowhere => None
    case At(name) => FindNamed(m.states, name)
  }

  predicate IsRequired(s: Option<State>) {
    s.Some? && s.value.active == Required
  }

  function ById(ts: seq<Transition>, id: nat): (r: Option<Transition>)
    ensures r.Some? ==> r.value in ts && r.value.id == id
    ensures r.None? <==> forall t :: t in ts ==> t.id != id
  {
    if ts == [] then None
    else if ts[0].id == id then Some(ts[0])
    else ById(ts[1..], id)
  }

  predicate IsHeld(place: Place) {
    place == At(Blocked) || place == At(NeedsHuman)
  }

  predicate IsDispatch(e: EventName) {
    e.DispatchTester? || e.DispatchImplementer? || e.DispatchProducer? || e.DispatchReviewer? || e.DispatchAuxiliary?
  }

  /** The events that end the task's active execution. */
  predicate EndsExecution(e: EventName) {
    || e.TesterResultAccepted? || e.ImplementerResultAccepted? || e.ProducerResultAccepted?
    || e.ReviewAccepted? || e.ReviewChangesRequested? || e.ReviewRejected?
    || e.ImplementerReportedConflict? || e.ExecutionBlocked? || e.ExecutionFailed?
    || e.AuxiliaryResultRecorded?
  }

  // ------------------------------------------- arguments of the effects

  /** The role argument of the first effect that creates an execution. */
  function CreatedRole(es: seq<Effect>): Role {
    if es == [] then NoRole
    else if es[0].CreateExecution? && es[0].role != NoRole then es[0].role
    else CreatedRole(es[1..])
  }

  /** The class argument of the first effect that counts a failure. */
  function CountedClass(es: seq<Effect>): FailureClass {
    if es == [] then NoClass
    else if es[0].CountFailure? && es[0].kind != NoClass then es[0].kind
    else CountedClass(es[1..])
  }

  /** The reason argument of the first effect that notifies a human. */
  function NotifyReason(es: seq<Effect>): string {
    if es == [] then ""
    else if es[0].NotifyHuman? && es[0].reason != "" then es[0].reason
    else NotifyReason(es[1..])
  }

  predicate CreatesExecution(es: seq<Effect>) {
    exists i :: 0 <= i < |es| && es[i].CreateExecution?
  }

  /** The dispatch event of a role in a state and mode. */
  function RoleEvent(role: Role, state: Place, mode: Mode): EventName {
    if role == Tester then DispatchTester
    else if role == Implementer && mode == TestFirst then DispatchImplementer
    else if (role == Implementer || role == Researcher) && mode == VerificationFirst
         && (state == At(JudgeApproved) || state == At(ChangesRequested) || state == At(TestSpecConflict))
    then DispatchProducer
    else if role == Reviewer && state == At(GreenVerified) then DispatchReviewer
    else DispatchAuxiliary
  }

  // ------------------------------------------------- dispatches into a state

  datatype DispatchInto = DispatchInto(role: Role, counts: bool)

  predicate DispatchesInto(t: Transition, name: StateName) {
    t.to == To(name) && IsDispatch(t.event) && CreatedRole(t.effects) != NoRole
  }

  predicate IsFirstDispatch(ts: seq<Transition>, i: int, name: StateName)
    requires 0 <= i < |ts|
  {
    DispatchesInto(ts[i], name) && forall j :: 0 <= j < i ==> !DispatchesInto(ts[j], name)
  }

  /** The role and counting of the first transition that dispatches into the state. */
  function FirstDispatch(ts: seq<Transition>, name: StateName): (r: DispatchInto)
    ensures r.role == NoRole <==> forall t :: t in ts ==> !DispatchesInto(t, name)
    ensures r.role != NoRole ==>
      exists i :: 0 <= i < |ts| && IsFirstDispatch(ts, i, name)
        && r == DispatchInto(CreatedRole(ts[i].effects), ts[i].countsAttempt)
    ensures r.role == NoRole ==> !r.counts
  {
    if ts == [] then DispatchInto(NoRole, false)
    else if DispatchesInto(ts[0], name) then DispatchInto(CreatedRole(ts[0].effects), ts[0].countsAttempt)
    else FirstDispatch(ts[1..], name)
  }

  /** The attempt counter an execution running in the state consumes. */
  function AttemptCounter(m: Machine, name: StateName): Option<Counter> {
    var d := FirstDispatch(m.transitions, name);
    if !d.counts then None
    else if d.role == Tester then Some(TesterUsed)
    else Some(AutonomousUsed)
  }

  function VerifierSubject(from: Place): Role {
    if from == At(RedVerifying) || from == At(JudgeValidating) then Tester
    else if from == At(GreenVerifying) || from == At(Judging) then Implementer
    else NoRole
  }

  /** The role whose work a failure event judges. */
  function SubjectRole(m: Machine, e: EventName, from: Place): Role {
    if e.ReviewChangesRequested? || e.ReviewRejected? then Implementer
    else if IsRequired(FindState(m, from)) then
      (match FirstDispatch(m.transitions, from.name).role
       case Tester => Tester
       case Implementer => Implementer
       case Producer => Implementer
       case Reviewer => Reviewer
       case _ => NoRole)
    else VerifierSubject(from)
  }

  predicate IsMeritRole(r: Role) {
    r == Reviewer || r == Researcher || r == Planner
  }
}
