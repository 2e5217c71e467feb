/**
 The whole run protocol as a machine: durable records that survive, process memory that
 does not, and the calls that move an action from delegation to promotion. A call is a
 list of micro-steps with every durable write a step of its own; it may stop after any
 of them, either because a write reported an error or because the process died.
 */
module RunProtocol {
  import opened Common
  import opened RunRecord
  import RunControl
  import R = ActionRuntime
  import Text

  datatype Permission = Allow | Hold | Deny

  /** What the history of an action remembers besides its durable phases. */
  datatype Event =
    | Permitted
    | Refused
    | Granted
    | Declined
    | Invoked(action: R.Action)

  /**
   `durable` and `worktrees` survive a crash, `memory` does not. `born`, `events` and
   `phases` are the history the theorems speak about; no call reads them, except that a
   new action takes an id never used before.
   */
  datatype System = System(
    durable: map<ActionId, RunState>,
    clock: Stamp,
    memory: R.Memory,
    worktrees: set<ActionId>,
    born: map<ActionId, R.Action>,
    events: map<ActionId, seq<Event>>,
    phases: map<ActionId, seq<RunControl.Phase>>,
    maxRetries: int)

  function Initial(maxRetries: int): System {
    System(map[], 0, R.Blank, {}, map[], map[], map[], maxRetries)
  }

  /** How far a call gets: to its end, to an error after `n` micro-steps, or to a crash there. */
  datatype Fate = Completes | Fails(n: nat) | Dies(n: nat)

  const ALL_STEPS: nat := 9

  function Budget(f: Fate): nat {
    if f.Completes? then ALL_STEPS else f.n
  }

  // ----------------------------------------------------------------- elementary writes

  function EventsOf(s: System, id: ActionId): seq<Event> {
    if id in s.events then s.events[id] else []
  }

  function PhasesOf(s: System, id: ActionId): seq<RunControl.Phase> {
    if id in s.phases then s.phases[id] else []
  }

  function Note(s: System, id: ActionId, e: Event): System {
    s.(events := s.events[id := EventsOf(s, id) + [e]])
  }

  /** One durable write: the record, its new phase, and a fresh version stamp for the next. */
  function Put(s: System, r: RunState): System {
    s.(
    durable := s.durable[r.actionId := r],
    clock := s.clock + 1,
    phases := s.phases[r.actionId := PhasesOf(s, r.actionId) + [RunControl.PhaseOf(r)]])
  }

  function SetLifecycle(m: R.Memory, id: ActionId, l: R.Lifecycle): R.Memory {
    m.(lifecycles := m.lifecycles[id := l])
  }

  // ------------------------------------------------- permission, delegation, planning

  /** Evaluate permission for a new action and queue it or hold it accordingly. */
  function Evaluate(s: System, a: R.Action, permission: Permission): System {
    var m := s.memory;
    match permission
    case Allow =>
      Note(s, a.id, Permitted).(
      memory := SetLifecycle(m, a.id, R.Lifecycle(R.Approved, false, 0)).(queue := m.queue + [a]))
    case Hold =>
      s.(memory := SetLifecycle(m, a.id, R.Lifecycle(R.Queued, true, 0)).(registry := m.registry[a.id := a]))
    case Deny =>
      Note(s, a.id, Refused).(memory := SetLifecycle(m, a.id, R.Lifecycle(R.Rejected, false, 0)))
  }

  function Bear(s: System, a: R.Action): System {
    s.(born := s.born[a.id := a])
  }

  /** An action planned from an event: evaluated, never recorded durably by itself. */
  function PlanCall(s: System, a: R.Action, permission: Permission): System {
    if a.id in s.born then s else Evaluate(Bear(s, a), a, permission)
  }

  function DelegationRecord(a: R.Action, routed: bool, permission: Permission): Registration {
    var decided :=
      if !routed then (RouteRejected, None, None)
      else
        match permission
        case Allow => (DelegationQueued, Some(Approval.Approved), a.objective)
        case Hold => (DelegationAwaiting, Some(Awaiting), a.objective)
        case Deny => (DelegationDenied, None, None);
    Registration(a.id, a.target, SE_ROLE, SE_CAPABILITY, Some(decided.0), decided.2, decided.1)
  }

  /** Delegate: decide in memory, then register the decision durably. */
  function DelegateCall(
    s: System, id: ActionId, objective: string, target: string, routed: bool, permission: Permission, n: nat)
    : System
  {
    if id in s.born || Text.Blank(objective) || Text.Blank(target) || n == 0 then s
    else
      var a := R.Action(id, true, target, Some(objective));
      var s1 := if routed then Evaluate(Bear(s, a), a, permission) else Bear(s, a);
      match Register(Get(s1.durable, id), DelegationRecord(a, routed, permission), s1.clock)
      case Err(_) => s1
      case Ok(r) => if n == 1 then s1 else Put(s1, r)
  }

  // ----------------------------------------------------------------- approve, reject

  /** Rebuild an undecided action from its record. */
  function ActionFromRecord(r: RunState): Option<R.Action> {
    if r.objective.Some? && !Text.Blank(r.objective.value)
    then Some(R.Action(r.actionId, true, r.target, Some(Text.Strip(r.objective.value))))
    else None
  }

  /** The held action, or after a restart the one recovered from the durable record. */
  function Resolve(s: System, id: ActionId): Option<R.Action> {
    if id in s.memory.registry then Some(s.memory.registry[id])
    else if && id in s.durable
            && IsCanonical(s.durable[id])
            && s.durable[id].approval == Some(Awaiting)
            && s.durable[id].claim.None?
            && s.durable[id].execution.None?
    then ActionFromRecord(s.durable[id])
    else None
  }

  function HeldLifecycle(s: System, id: ActionId): R.Lifecycle {
    if id in s.memory.lifecycles then s.memory.lifecycles[id] else R.Lifecycle(R.Queued, true, 0)
  }

  function DecisionRegistration(s: System, a: R.Action): Registration {
    Registration(
      a.id, a.target, SE_ROLE, SE_CAPABILITY, None, a.objective,
      if a.id in s.durable then None else Some(Awaiting))
  }

  predicate HasObjective(a: R.Action) {
    a.objective.Some? && !Text.Blank(a.objective.value)
  }

  function Admit(s: System, id: ActionId, a: R.Action): System {
    s.(memory := R.Memory(
         s.memory.queue + [a],
         s.memory.lifecycles[id := HeldLifecycle(s, id).(status := R.Approved)],
         s.memory.registry - {id}))
  }

  function TurnAway(s: System, id: ActionId): System {
    s.(memory := s.memory.(
         lifecycles := s.memory.lifecycles[id := HeldLifecycle(s, id).(status := R.Rejected)],
         registry := s.memory.registry - {id}))
  }

  /** Approve: register if needed, record the approval, only then change memory. */
  function ApproveCall(s: System, id: ActionId, n: nat): System {
    match Resolve(s, id)
    case None => s
    case Some(a) =>
      if R.Transition(HeldLifecycle(s, id), R.Approved).None? || n == 0 then s
      else if !a.canonical then Admit(Note(s, id, Granted), id, a)
      else if !HasObjective(a) then s
      else ApproveOnRecord(s, id, a, n)
  }

  /** An approval on record: registration first, then the decision, and only then memory. */
  function ApproveOnRecord(s: System, id: ActionId, a: R.Action, n: nat): System
    requires HasObjective(a)
  {
    match Register(Get(s.durable, id), DecisionRegistration(s, a), s.clock)
    case Err(_) => s
    case Ok(r1) =>
      var s1 := Put(s, r1);
      match RunRecord.Approve(r1, a.objective.value, s1.clock, s1.clock)
      case Err(_) => s1
      case Ok(r2) =>
        if n == 1 then s1
        else
          var s2 := Note(Put(s1, r2), id, Granted);
          if n == 2 then s2 else Admit(s2, id, a)
  }

  /** Reject: the same order, with the objective erased. */
  function RejectCall(s: System, id: ActionId, n: nat): System {
    match Resolve(s, id)
    case None => s
    case Some(a) =>
      if R.Transition(HeldLifecycle(s, id), R.Rejected).None? || n == 0 then s
      else if !a.canonical then TurnAway(Note(s, id, Declined), id)
      else if !HasObjective(a) then s
      else RejectOnRecord(s, id, a, n)
  }

  /** A rejection on record, in the same order. */
  function RejectOnRecord(s: System, id: ActionId, a: R.Action, n: nat): System
    requires HasObjective(a)
  {
    match Register(Get(s.durable, id), DecisionRegistration(s, a), s.clock)
    case Err(_) => s
    case Ok(r1) =>
      var s1 := Put(s, r1);
      match RunRecord.Reject(r1, s1.clock, s1.clock)
      case Err(_) => s1
      case Ok(r2) =>
        if n == 1 then s1
        else
          var s2 := Note(Put(s1, r2), id, Declined);
          if n == 2 then s2 else TurnAway(s2, id)
  }

  // ------------------------------------------------------------------------ execution

  function ExecutionOf(o: R.Outcome): ExecutionStatus {
    match o case Success => Succeeded case Skip => Skipped case Failure(_) => Failed
  }

  /** The worker runs: this is the external effect the protocol guards. */
  function Invoke(s: System, a: R.Action, leavesWorktree: bool): System {
    var s1 := Note(s, a.id, Invoked(a));
    if a.canonical && leavesWorktree then s1.(worktrees := s1.worktrees + {a.id}) else s1
  }

  function ObserverRegistration(a: R.Action): Registration {
    Registration(a.id, a.target, SE_ROLE, SE_CAPABILITY, None, None, None)
  }

  /** How an execution attempt went, as far as the durable record is told. */
  datatype Attempt = Attempt(outcome: R.Outcome, external: bool, leavesWorktree: bool)

  /** The observer's start marker, written only over a claim that is not yet started. */
  function MarkStarted(s: System, r: RunState): System {
    if r.claim.Some? && r.started.None? then
      match Start(r, s.clock, s.clock)
      case Ok(r') => Put(s, r')
      case Err(_) => s
    else s
  }

  /** A claim on a run that already has a result: the repository refuses its start marker. */
  predicate StartRefused(r: RunState) {
    r.claim.Some? && r.started.None? && r.execution.Some?
  }

  /** Gate, observe, run, observe, settle: one action that has left the queue. */
  function RunDequeued(s: System, a: R.Action, t: Attempt, n: nat): System {
    match R.Begin(s.memory, a)
    case HeldBack(m) => s.(memory := m)
    case Dropped(m) => s.(memory := m)
    case Underway(m) =>
      var s1 := s.(memory := m);
      if !a.canonical then
        var s2 := Invoke(s1, a, t.leavesWorktree);
        s2.(memory := R.Settle(s2.memory, a, t.outcome, s.maxRetries))
      else
        match Register(Get(s1.durable, a.id), ObserverRegistration(a), s1.clock)
        case Err(_) => s1
        case Ok(r) => if n == 0 then s1 else RunObserved(Put(s1, r), a, r, t, n - 1)
  }

  /** The canonical route from its registration on; without its start marker nothing runs. */
  function RunObserved(s: System, a: R.Action, r: RunState, t: Attempt, n: nat): System {
    if n == 0 || StartRefused(r) then s else RunStarted(MarkStarted(s, r), a, t, n - 1)
  }

  /** The worker runs, its result is recorded, and the attempt is settled. */
  function RunStarted(s: System, a: R.Action, t: Attempt, n: nat): System {
    if n == 0 then s
    else
      var s1 := Invoke(s, a, t.leavesWorktree);
      if n == 1 || a.id !in s1.durable then s1
      else
        var s2 := Put(s1, Finish(s1.durable[a.id], ExecutionOf(t.outcome), s1.clock, t.external, s1.clock));
        if n == 2 then s2 else s2.(memory := R.Settle(s2.memory, a, t.outcome, s.maxRetries))
  }

  /** The action the claim hands back, rebuilt from the record. */
  function Recovered(r: RunState): R.Action
    requires r.objective.Some?
  {
    R.Action(r.actionId, true, r.target, Some(Text.Strip(r.objective.value)))
  }

  /** Make the claimed action runnable in memory. */
  function Prepare(s: System, id: ActionId, queued: Option<R.Action>, recovered: R.Action): System {
    var m := s.memory;
    var q := if queued.None? then m.queue + [recovered] else m.queue;
    if id !in m.lifecycles || m.lifecycles[id].status == R.Queued
    then s.(memory := m.(queue := q, lifecycles := m.lifecycles[id := R.Lifecycle(R.Approved, true, 0)]))
    else s.(memory := m.(queue := q))
  }

  /** `process_action`: take exactly this action out of the queue and run it. */
  function RunQueued(s: System, id: ActionId, t: Attempt, n: nat): System {
    match R.Find(s.memory.queue, id)
    case None => s
    case Some(a) =>
      if R.AwaitsApproval(s.memory, id) then s
      else RunDequeued(s.(memory := s.memory.(queue := R.RemoveFirst(s.memory.queue, id))), a, t, n)
  }

  /** Exact-action execution: claim durably, match or enqueue, then process. */
  function ExecuteCall(s: System, id: ActionId, t: Attempt, n: nat): System {
    var queued := R.Find(s.memory.queue, id);
    if id in s.memory.lifecycles && s.memory.lifecycles[id].status !in {R.Queued, R.Approved} then s
    else if queued.Some? && !queued.value.canonical then s
    else if id !in s.durable || !IsCanonical(s.durable[id]) || n == 0 then s
    else
      match Claim(s.durable[id], s.clock, s.clock)
      case Err(_) => s
      case Ok(r) =>
        var s1 := Put(s, r);
        if n == 1 || r.objective.None? then s1
        else
          var recovered := Recovered(r);
          if queued.Some? && (queued.value.target != recovered.target || queued.value.objective != recovered.objective)
          then s1
          else RunQueued(Prepare(s1, id, queued, recovered), id, t, n - 2)
  }

  /** `process_next`: run whatever stands at the head of the queue. */
  function RunNextCall(s: System, t: Attempt, n: nat): System {
    if s.memory.queue == [] then s
    else RunDequeued(s.(memory := s.memory.(queue := s.memory.queue[1..])), s.memory.queue[0], t, n)
  }

  // ------------------------------------------- reconciliation, disposition, promotion

  function ReconcileCall(s: System, id: ActionId, q: RunControl.Request): System {
    if id !in s.durable then s
    else
      match RunControl.Reconcile(s.durable[id], q, s.clock)
      case Ok(r) => Put(s, r)
      case Err(_) => s
  }

  predicate Finished(r: RunState) {
    IsCanonical(r) && r.execution.Some? && r.finished.Some?
  }

  /** Keep changes nothing on disk; discard removes the worktree before anything is recorded. */
  function DisposeCall(s: System, id: ActionId, report: DispositionReport, unmergedCommits: bool, n: nat): System {
    if id !in s.durable || !Finished(s.durable[id]) || id !in s.worktrees || n == 0 then s
    else if report.disposition.Keep? then
      var kept := DispositionReport(id, Keep, true, true, true);
      Put(s, RunRecord.Dispose(s.durable[id], kept, s.clock))
    else if unmergedCommits then s
    else
      var s1 := if report.worktreePresent then s else s.(worktrees := s.worktrees - {id});
      var outcome := report.(id := id);
      if n == 1 || !outcome.Succeeded() then s1
      else Put(s1, RunRecord.Dispose(s1.durable[id], outcome, s1.clock))
  }

  predicate Promotable(r: RunState) {
    && IsCanonical(r)
    && r.execution == Some(Succeeded)
    && r.finished.Some?
    && r.disposition == Some(Keep)
    && r.dispositionSucceeded == Some(true)
    && r.worktreePresent == Some(true)
    && r.branchPresent == Some(true)
    && r.canonicalUnchanged == Some(true)
  }

  /** The durable end of a promotion, once the pull request exists. */
  function PromoteCall(s: System, id: ActionId, p: Publication): System {
    if id !in s.durable || !Promotable(s.durable[id]) || id !in s.worktrees || s.durable[id].promoted.Some? then s
    else Put(s, RunRecord.Promote(s.durable[id], p, s.clock, s.clock))
  }

  // --------------------------------------------------------------------------- steps

  datatype Step =
    | Delegate(id: ActionId, objective: string, target: string, routed: bool, permission: Permission, fate: Fate)
    | Plan(action: R.Action, permission: Permission)
    | Approve(id: ActionId, fate: Fate)
    | Reject(id: ActionId, fate: Fate)
    | Execute(id: ActionId, attempt: Attempt, fate: Fate)
    | RunNext(attempt: Attempt, fate: Fate)
    | Reconcile(id: ActionId, request: RunControl.Request)
    | Dispose(id: ActionId, report: DispositionReport, unmergedCommits: bool, fate: Fate)
    | Promote(id: ActionId, publication: Publication)
    | Crash

  function FateOf(step: Step): Fate {
    match step
    case Delegate(_, _, _, _, _, f) => f
    case Approve(_, f) => f
    case Reject(_, f) => f
    case Execute(_, _, f) => f
    case RunNext(_, f) => f
    case Dispose(_, _, _, f) => f
    case Crash => Dies(0)
    case _ => Completes
  }

  /** What the call does before it stops. */
  function Call(s: System, step: Step): System {
    var n := Budget(FateOf(step));
    match step
    case Delegate(id, objective, target, routed, permission, _) =>
      DelegateCall(s, id, objective, target, routed, permission, n)
    case Plan(a, permission) => PlanCall(s, a, permission)
    case Approve(id, _) => ApproveCall(s, id, n)
    case Reject(id, _) => RejectCall(s, id, n)
    case Execute(id, t, _) => ExecuteCall(s, id, t, n)
    case RunNext(t, _) => RunNextCall(s, t, n)
    case Reconcile(id, q) => ReconcileCall(s, id, q)
    case Dispose(id, report, unmerged, _) => DisposeCall(s, id, report, unmerged, n)
    case Promote(id, p) => PromoteCall(s, id, p)
    case Crash => s
  }

  /** A process that dies forgets its memory and nothing else. */
  function Apply(s: System, step: Step): System {
    var s' := Call(s, step);
    if FateOf(step).Dies? then s'.(memory := R.Blank) else s'
  }

  function Run(s: System, steps: seq<Step>): System
    decreases |steps|
  {
    if steps == [] then s else Run(Apply(s, steps[0]), steps[1..])
  }

  /** A record that holds a claim which was never started. */
  predicate ClaimedUnstarted(s: System, id: ActionId) {
    id in s.durable && s.durable[id].claim.Some? && s.durable[id].started.None?
  }

  /**
   The FIFO entry takes no claim of its own. It may meet a canonical action only where an exact
   execution has left its claim behind; every other run of a canonical action goes through
   exact execution.
   */
  predicate Admissible(s: System, step: Step) {
    step.RunNext? && s.memory.queue != [] && s.memory.queue[0].canonical ==>
      ClaimedUnstarted(s, s.memory.queue[0].id)
  }

  predicate AdmissibleRun(s: System, steps: seq<Step>)
    decreases |steps|
  {
    steps != [] ==> Admissible(s, steps[0]) && AdmissibleRun(Apply(s, steps[0]), steps[1..])
  }
}
