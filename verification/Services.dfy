/**
 The services in their own form: objects that share a repository, a queue, a lifecycle map
 and an approval registry and change them step by step. Each call is proved to do exactly
 what the protocol machine says the completed call does.
 */
module Services {
  import opened Common
  import opened RunRecord
  import opened RunStore
  import opened RunProtocol
  import C = RunControl
  import R = ActionRuntime
  import Text

  datatype CallError =
    | NotPending | BadTransition | NoRecoverableObjective | NotPersisted(error: StateError)
    | BadRequest | NotDiscarded | NotFoundError | NotExecutable | WrongRoute | NotClaimed(claimError: StateError) | NotProcessed

  /** Whether the action at the head of the queue will be processed to its end. */
  predicate HeadCompletes(s: System) {
    && s.memory.queue != []
    && var a := s.memory.queue[0];
       && R.Begin(s.memory.(queue := s.memory.queue[1..]), a).Underway?
       && (a.canonical ==> Observable(s, a))
  }

  /** The observer registers the run and can mark it as started. */
  predicate Observable(s: System, a: R.Action) {
    var reg := Register(Get(s.durable, a.id), ObserverRegistration(a), s.clock);
    reg.Ok? && !StartRefused(reg.value)
  }

  /** A FIFO call that is not cut off. */
  function RunFully(s: System, t: Attempt): System {
    RunNextCall(s, t, ALL_STEPS)
  }

  /** Process from the head, one attempt after the other, until one of them is not processed. */
  function InvokeMany(s: System, attempts: seq<Attempt>): System {
    Repeat(s, attempts, RunFully, HeadCompletes)
  }

  /** Planned actions one after the other. */
  function PlanMany(s: System, batch: seq<(R.Action, Permission)>): System
    decreases |batch|
  {
    if batch == [] then s
    else
      var n := |batch| - 1;
      PlanCall(PlanMany(s, batch[..n]), batch[n].0, batch[n].1)
  }

  function Queueing(s: System, actions: seq<R.Action>): System {
    s.(memory := s.memory.(queue := s.memory.queue + actions))
  }

  /** Queueing at the end of a batch comes to the same as queueing after each evaluation. */
  lemma EvaluateThenQueue(s: System, waiting: seq<R.Action>, a: R.Action, permission: Permission)
    requires a.id !in s.born
    ensures var s1 := RunProtocol.Evaluate(Bear(s, a), a, permission);
            var evaluated := s1.(memory := s1.memory.(queue := s.memory.queue));
            PlanCall(Queueing(s, waiting), a, permission)
            == Queueing(evaluated, waiting + if permission.Allow? then [a] else [])
  {
    assert s.memory.queue + waiting + [a] == s.memory.queue + (waiting + [a]);
    assert s.memory.queue + waiting + [] == s.memory.queue + waiting;
  }

  /** One more action of a batch, queued at its end. */
  lemma PlanOneMore(s0: System, batch: seq<(R.Action, Permission)>, i: nat, s: System, waiting: seq<R.Action>)
    requires i < |batch| && batch[i].0.id !in s.born && PlanMany(s0, batch[..i]) == Queueing(s, waiting)
    ensures var (a, permission) := batch[i];
            var s1 := RunProtocol.Evaluate(Bear(s, a), a, permission);
            PlanMany(s0, batch[..i + 1]) ==
            Queueing(s1.(memory := s1.memory.(queue := s.memory.queue)), waiting + if permission.Allow? then [a] else [])
  {
    assert batch[..i + 1][..i] == batch[..i];
    EvaluateThenQueue(s, waiting, batch[i].0, batch[i].1);
  }

  /** Records are filed under their own ids. */
  ghost predicate Filed(s: System) {
    forall id :: id in s.durable ==> s.durable[id].actionId == id
  }

  lemma RunObservedKeepsFiled(s: System, a: R.Action, r: RunState, t: Attempt, n: nat)
    requires Filed(s)
    ensures Filed(RunObserved(s, a, r, t, n))
  {
    var s3 := MarkStarted(s, r);
    assert Filed(s3);
    var s4 := Invoke(s3, a, t.leavesWorktree);
    assert Filed(s4);
  }

  lemma ObservedRunKeepsFiled(s: System, a: R.Action, t: Attempt, n: nat)
    requires Filed(s)
    ensures var reg := Register(Get(s.durable, a.id), ObserverRegistration(a), s.clock);
            reg.Ok? && n > 0 ==> Filed(RunObserved(Put(s, reg.value), a, reg.value, t, n - 1))
  {
    var reg := Register(Get(s.durable, a.id), ObserverRegistration(a), s.clock);
    if reg.Ok? && n > 0 {
      assert Filed(Put(s, reg.value));
      RunObservedKeepsFiled(Put(s, reg.value), a, reg.value, t, n - 1);
    }
  }

  lemma RunDequeuedKeepsFiled(s: System, a: R.Action, t: Attempt, n: nat)
    requires Filed(s)
    ensures Filed(RunDequeued(s, a, t, n))
  {
    var b := R.Begin(s.memory, a);
    if b.Underway? {
      if a.canonical {
        ObservedRunKeepsFiled(s.(memory := b.memory), a, t, n);
      } else {
        assert RunDequeued(s, a, t, n).durable == s.durable;
      }
    }
  }

  lemma RunFullyKeepsFiled(s: System, t: Attempt)
    requires Filed(s)
    ensures Filed(RunFully(s, t))
  {
    if s.memory.queue != [] {
      RunDequeuedKeepsFiled(s.(memory := s.memory.(queue := s.memory.queue[1..])), s.memory.queue[0], t, ALL_STEPS);
    }
  }

  /** One attempt at an action that left the queue: what became of it. */
  datatype Processing = Processed | Unprocessed | ObserverFailed(observerError: StateError)

  class Server {
    const repository: InMemoryRunRepository
    const queue: R.ActionQueue
    const lifecycles: R.LifecycleRepository
    const registry: R.ApprovalRegistry
    const maxRetries: int
    var clock: Stamp
    var worktrees: set<ActionId>
    ghost var born: map<ActionId, R.Action>
    ghost var events: map<ActionId, seq<Event>>
    ghost var phases: map<ActionId, seq<C.Phase>>

    ghost function State(): System
      reads this, repository, queue, lifecycles, registry
    {
      System(
        repository.states, clock,
        R.Memory(queue.actions, lifecycles.states, registry.actions),
        worktrees, born, events, phases, maxRetries)
    }

    constructor (maxRetries: int)
      ensures State() == Initial(maxRetries)
      ensures fresh(repository) && fresh(queue) && fresh(lifecycles) && fresh(registry)
    {
      this.repository := new InMemoryRunRepository();
      this.queue := new R.ActionQueue();
      this.lifecycles := new R.LifecycleRepository();
      this.registry := new R.ApprovalRegistry();
      this.maxRetries := maxRetries;
      clock := 0;
      worktrees, born, events, phases := {}, map[], map[], map[];
    }

    /** One durable write, stamped with the next version. */
    method Write(call: Call) returns (result: Result<RunState, StateError>)
      modifies this, repository
      ensures result == RunStore.Evaluate(Get(old(repository.states), call.Target()), call, old(clock))
      ensures result.Ok? && result.value.actionId == call.Target() ==> State() == Put(old(State()), result.value)
      ensures result.Err? ==> State() == old(State())
    {
      result := repository.Do(call, clock);
      if result.Ok? {
        phases := phases[result.value.actionId :=
                         (if result.value.actionId in phases then phases[result.value.actionId] else [])
                         + [C.PhaseOf(result.value)]];
        clock := clock + 1;
      }
    }

    ghost method Remember(id: ActionId, e: Event)
      modifies this
      ensures State() == Note(old(State()), id, e)
    {
      events := events[id := (if id in events then events[id] else []) + [e]];
    }

    /** Evaluate a new action: set its lifecycle and hold it if a person must decide. */
    method EvaluateAction(a: R.Action, permission: Permission)
      modifies this, lifecycles, registry
      ensures var s := RunProtocol.Evaluate(Bear(old(State()), a), a, permission);
              State() == s.(memory := s.memory.(queue := old(queue.actions)))
    {
      born := born[a.id := a];
      match permission {
        case Allow =>
          lifecycles.Set(a.id, R.Lifecycle(R.Approved, false, 0));
          Remember(a.id, Permitted);
        case Hold =>
          lifecycles.Set(a.id, R.Lifecycle(R.Queued, true, 0));
          registry.Add(a);
        case Deny =>
          lifecycles.Set(a.id, R.Lifecycle(R.Rejected, false, 0));
          Remember(a.id, Refused);
      }
    }

    /** Evaluate a batch of planned actions, then queue the allowed ones: as if one at a time. */
    method PlanBatch(batch: seq<(R.Action, Permission)>)
      requires forall i :: 0 <= i < |batch| ==> batch[i].0.id !in born
      requires forall i, j :: 0 <= i < j < |batch| ==> batch[i].0.id != batch[j].0.id
      modifies this, queue, lifecycles, registry
      ensures State() == PlanMany(old(State()), batch)
    {
      var queueable: seq<R.Action> := [];
      ghost var s0 := State();
      for i := 0 to |batch|
        invariant queue.actions == s0.memory.queue
        invariant PlanMany(s0, batch[..i]) == Queueing(State(), queueable)
        invariant forall k :: i <= k < |batch| ==> batch[k].0.id !in born
      {
        PlanOneMore(s0, batch, i, State(), queueable);
        EvaluateAction(batch[i].0, batch[i].1);
        if batch[i].1.Allow? {
          queueable := queueable + [batch[i].0];
        }
      }
      assert batch[..|batch|] == batch;
      queue.EnqueueMany(queueable);
    }

    /** Delegate a Software Engineering task: route, evaluate, queue, and then put it on record. */
    method Delegate(id: ActionId, objective: string, target: string, routed: bool, permission: Permission)
      returns (result: Result<(), CallError>)
      requires id !in born && id !in repository.states
      modifies this, repository, queue, lifecycles, registry
      ensures State() == DelegateCall(old(State()), id, objective, target, routed, permission, ALL_STEPS)
      ensures result.Ok? <==> !Text.Blank(objective) && !Text.Blank(target)
    {
      if Text.Blank(objective) || Text.Blank(target) {
        return Err(BadRequest);
      }
      var a := R.Action(id, true, target, Some(objective));
      if routed {
        EvaluateAction(a, permission);
        if permission.Allow? {
          queue.Enqueue(a);
        }
      } else {
        born := born[id := a];
      }
      var recorded := Write(RegisterAction(DelegationRecord(a, routed, permission)));
      result := Ok(());
    }

    /** Keep or discard a finished work product; only a disposition that went through is recorded. */
    method DisposeProduct(id: ActionId, report: DispositionReport, unmergedCommits: bool)
      returns (result: Result<(), CallError>)
      requires id in repository.states ==> repository.states[id].actionId == id
      modifies this, repository
      ensures State() == DisposeCall(old(State()), id, report, unmergedCommits, ALL_STEPS)
      ensures result.Ok? ==> id in repository.states && repository.states[id].dispositionSucceeded == Some(true)
      ensures result.Ok? <==> clock == old(clock) + 1
    {
      var found := repository.Lookup(id);
      if found.None? || !Finished(found.value) || id !in worktrees {
        return Err(NotFoundError);
      }
      var outcome := if report.disposition.Keep? then DispositionReport(id, Keep, true, true, true) else report.(id := id);
      if outcome.disposition.Discard? {
        if unmergedCommits {
          return Err(NotDiscarded);
        }
        if !report.worktreePresent {
          worktrees := worktrees - {id};
        }
      }
      if !outcome.Succeeded() {
        return Err(NotDiscarded);
      }
      var recorded := Write(RecordDisposition(outcome));
      result := Ok(());
    }

    /** The pending action of this id, recovered from durable state when memory has forgotten it. */
    method ResolvePending(id: ActionId) returns (action: Option<R.Action>)
      ensures action == Resolve(State(), id)
    {
      if id in registry.actions {
        return Some(registry.actions[id]);
      }
      var found := repository.Lookup(id);
      if found.None? || !IsCanonical(found.value) || found.value.approval != Some(Awaiting) {
        return None;
      }
      if found.value.claim.Some? || found.value.execution.Some? {
        return None;
      }
      action := ActionFromRecord(found.value);
    }

    /** Persist the decision's registration before anything else. */
    method EnsureRegistered(a: R.Action) returns (result: Result<RunState, StateError>)
      requires a.id in repository.states ==> repository.states[a.id].actionId == a.id
      modifies this, repository
      ensures result == Register(Get(old(repository.states), a.id), DecisionRegistration(old(State()), a), old(clock))
      ensures result.Ok? ==> State() == Put(old(State()), result.value) && result.value.actionId == a.id
      ensures result.Err? ==> State() == old(State())
    {
      var status := if a.id in repository.states then None else Some(Awaiting);
      result := Write(RegisterAction(
        Registration(a.id, a.target, SE_ROLE, SE_CAPABILITY, None, a.objective, status)));
    }

    /** Persist an approval before any process-local change. */
    method RecordApproved(a: R.Action) returns (result: Result<RunState, StateError>)
      requires HasObjective(a) && (a.id in repository.states ==> repository.states[a.id].actionId == a.id)
      modifies this, repository
      ensures var s := old(State());
              var reg := Register(Get(s.durable, a.id), DecisionRegistration(s, a), s.clock);
              if reg.Err? then result == Err(reg.error) && State() == s
              else
                var s1 := Put(s, reg.value);
                var r := RunRecord.Approve(reg.value, a.objective.value, s1.clock, s1.clock);
                result == r && State() == if r.Err? then s1 else Note(Put(s1, r.value), a.id, Granted)
    {
      result := EnsureRegistered(a);
      if result.Ok? {
        result := Write(RecordApproval(a.id, a.objective.value, clock));
        if result.Ok? {
          Remember(a.id, Granted);
        }
      }
    }

    /** Persist a rejection and erase the pending objective. */
    method RecordRejected(a: R.Action) returns (result: Result<RunState, StateError>)
      requires HasObjective(a) && (a.id in repository.states ==> repository.states[a.id].actionId == a.id)
      modifies this, repository
      ensures var s := old(State());
              var reg := Register(Get(s.durable, a.id), DecisionRegistration(s, a), s.clock);
              if reg.Err? then result == Err(reg.error) && State() == s
              else
                var s1 := Put(s, reg.value);
                var r := RunRecord.Reject(reg.value, s1.clock, s1.clock);
                result == r && State() == if r.Err? then s1 else Note(Put(s1, r.value), a.id, Declined)
    {
      result := EnsureRegistered(a);
      if result.Ok? {
        result := Write(RecordRejection(a.id, clock));
        if result.Ok? {
          Remember(a.id, Declined);
        }
      }
    }

    /** Move an approved action from the registry to the queue. */
    method AdmitAction(id: ActionId, a: R.Action, approved: R.Lifecycle)
      requires approved == HeldLifecycle(State(), id).(status := R.Approved)
      modifies queue, lifecycles, registry
      ensures State() == Admit(old(State()), id, a)
    {
      lifecycles.Set(id, approved);
      registry.Remove(id);
      queue.Enqueue(a);
    }

    /** Approve a held action: durable first, then lifecycle, registry and queue. */
    method ApprovePending(id: ActionId) returns (result: Result<R.Lifecycle, CallError>)
      requires id in repository.states ==> repository.states[id].actionId == id
      requires id in registry.actions ==> registry.actions[id].id == id
      modifies this, repository, queue, lifecycles, registry
      ensures State() == ApproveCall(old(State()), id, ALL_STEPS)
      ensures result.Ok? ==> id in lifecycles.states && lifecycles.states[id] == result.value
      ensures result.Ok? <==> events != old(events)
      ensures result.Err? ==> State().memory == old(State()).memory
    {
      var pending := ResolvePending(id);
      if pending.None? {
        return Err(NotPending);
      }
      var action := pending.value;
      var held := if id in lifecycles.states then lifecycles.states[id] else R.Lifecycle(R.Queued, true, 0);
      var approved := R.Transition(held, R.Approved);
      if approved.None? {
        return Err(BadTransition);
      }
      if action.canonical {
        if !HasObjective(action) {
          return Err(NoRecoverableObjective);
        }
        var recorded := RecordApproved(action);
        if recorded.Err? {
          return Err(NotPersisted(recorded.error));
        }
      } else {
        Remember(id, Granted);
      }
      AdmitAction(id, action, approved.value);
      result := Ok(approved.value);
    }

    /** Take a rejected action out of the registry. */
    method TurnAwayAction(id: ActionId, rejected: R.Lifecycle)
      requires rejected == HeldLifecycle(State(), id).(status := R.Rejected)
      modifies lifecycles, registry
      ensures State() == TurnAway(old(State()), id)
    {
      lifecycles.Set(id, rejected);
      registry.Remove(id);
    }

    /** Reject a held action: durable first, the objective erased, nothing queued. */
    method RejectPending(id: ActionId) returns (result: Result<R.Lifecycle, CallError>)
      requires id in repository.states ==> repository.states[id].actionId == id
      requires id in registry.actions ==> registry.actions[id].id == id
      modifies this, repository, lifecycles, registry
      ensures State() == RejectCall(old(State()), id, ALL_STEPS)
      ensures result.Ok? ==> id in lifecycles.states && lifecycles.states[id] == result.value
      ensures result.Ok? <==> events != old(events)
      ensures result.Err? ==> State().memory == old(State()).memory
    {
      var pending := ResolvePending(id);
      if pending.None? {
        return Err(NotPending);
      }
      var action := pending.value;
      var held := if id in lifecycles.states then lifecycles.states[id] else R.Lifecycle(R.Queued, true, 0);
      var rejected := R.Transition(held, R.Rejected);
      if rejected.None? {
        return Err(BadTransition);
      }
      if action.canonical {
        if !HasObjective(action) {
          return Err(NoRecoverableObjective);
        }
        var recorded := RecordRejected(action);
        if recorded.Err? {
          return Err(NotPersisted(recorded.error));
        }
      } else {
        Remember(id, Declined);
      }
      TurnAwayAction(id, rejected.value);
      result := Ok(rejected.value);
    }

    /** The worker's external effect, as far as anyone can see it afterwards. */
    method RunWorker(a: R.Action, t: Attempt)
      modifies this
      ensures State() == RunProtocol.Invoke(old(State()), a, t.leavesWorktree)
    {
      Remember(a.id, Invoked(a));
      if a.canonical && t.leavesWorktree {
        worktrees := worktrees + {a.id};
      }
    }

    /** The observer's start: register the identity, then mark an unstarted claim as started. */
    method ObserveStart(a: R.Action) returns (result: Result<RunState, StateError>)
      requires a.id in repository.states ==> repository.states[a.id].actionId == a.id
      modifies this, repository
      ensures var s := old(State());
              var reg := Register(Get(s.durable, a.id), ObserverRegistration(a), s.clock);
              && (result.Ok? <==> Observable(s, a))
              && (reg.Err? ==> State() == s)
              && (reg.Ok? && result.Err? ==> State() == Put(s, reg.value))
              && (result.Ok? ==>
                    && result == reg && reg.value.actionId == a.id
                    && State() == MarkStarted(Put(s, reg.value), reg.value)
                    && a.id in repository.states && repository.states[a.id].actionId == a.id)
    {
      result := Write(RegisterAction(
        Registration(a.id, a.target, SE_ROLE, SE_CAPABILITY, None, None, None)));
      if result.Ok? && result.value.claim.Some? && result.value.started.None? {
        var started := Write(RecordStarted(a.id, clock));
        if started.Err? {
          return started;
        }
      }
    }

    /** The observer's finish: the result, recorded whatever came before. */
    method ObserveFinish(a: R.Action, t: Attempt)
      requires a.id in repository.states && repository.states[a.id].actionId == a.id
      modifies this, repository
      ensures var s := old(State());
              State() == Put(s, Finish(s.durable[a.id], ExecutionOf(t.outcome), s.clock, t.external, s.clock))
    {
      var finished := Write(RecordExecution(a.id, ExecutionOf(t.outcome), clock, t.external));
    }

    /** Record how the attempt ended; a transient failure goes back while retries are left. */
    method SettleAction(a: R.Action, outcome: R.Outcome)
      requires a.id in lifecycles.states
      modifies queue, lifecycles
      ensures State() == old(State()).(memory := R.Settle(old(State()).memory, a, outcome, maxRetries))
      ensures var l, l' := old(lifecycles.states)[a.id], State().memory.lifecycles[a.id];
              if outcome == R.Failure(true) && l.retries < maxRetries
              then l' == l.(status := R.Approved, retries := l.retries + 1) && queue.actions == old(queue.actions) + [a]
              else
                && queue.actions == old(queue.actions) && l' == l.(status := l'.status)
                && (l'.status == R.Completed <==> outcome == R.Success)
                && (l'.status == R.Skipped <==> outcome == R.Skip)
                && (l'.status == R.Failed <==> outcome.Failure?)
    {
      var l := lifecycles.states[a.id];
      var final := l.(status := match outcome
                                case Success => R.Completed
                                case Skip => R.Skipped
                                case Failure(_) => R.Failed);
      lifecycles.Set(a.id, final);
      if outcome == R.Failure(true) && l.retries < maxRetries {
        lifecycles.Set(a.id, final.(status := R.Approved, retries := l.retries + 1));
        queue.Enqueue(a);
      }
    }

    /** Run the worker of a started action, record its result and settle the attempt. */
    method RunAndSettle(a: R.Action, t: Attempt, ghost n: nat)
      requires a.id in lifecycles.states && n >= 3
      requires a.id in repository.states && repository.states[a.id].actionId == a.id
      modifies this, repository, queue, lifecycles
      ensures State() == RunStarted(old(State()), a, t, n)
      ensures EventsOf(State(), a.id) == EventsOf(old(State()), a.id) + [Invoked(a)]
    {
      RunWorker(a, t);
      ObserveFinish(a, t);
      SettleAction(a, t.outcome);
    }

    /** Observe, run and settle a canonical action that is past the gate. */
    method RunCanonical(a: R.Action, t: Attempt, ghost n: nat) returns (failed: Option<StateError>)
      requires a.canonical && a.id in lifecycles.states && n >= 4
      requires a.id in repository.states ==> repository.states[a.id].actionId == a.id
      modifies this, repository, queue, lifecycles
      ensures var s := old(State());
              var reg := Register(Get(s.durable, a.id), ObserverRegistration(a), s.clock);
              && (failed.None? <==> Observable(s, a))
              && (failed.None? <==> events != old(events))
              && State() == if reg.Err? then s else RunObserved(Put(s, reg.value), a, reg.value, t, n)
    {
      var observed := ObserveStart(a);
      if observed.Err? {
        return Some(observed.error);
      }
      RunAndSettle(a, t, n - 1);
      failed := None;
    }

    /** The governed execution path for one action that has left the queue. */
    method RunAction(a: R.Action, t: Attempt, ghost n: nat) returns (processing: Processing)
      requires a.id in repository.states ==> repository.states[a.id].actionId == a.id
      requires n >= 5
      modifies this, repository, queue, lifecycles
      ensures State() == RunDequeued(old(State()), a, t, n)
      ensures processing.Processed? <==> events != old(events)
      ensures processing.Processed? <==>
              && R.Begin(old(State()).memory, a).Underway?
              && (a.canonical ==> Observable(old(State()), a))
    {
      var l := if a.id in lifecycles.states then lifecycles.states[a.id] else R.Lifecycle(R.Queued, false, 0);
      if l.status == R.Queued && l.approvalRequired {
        queue.Enqueue(a);
        return Unprocessed;
      }
      if l.status != R.Queued && l.status != R.Approved {
        return Unprocessed;
      }
      lifecycles.Set(a.id, l.(status := R.Executing));
      if a.canonical {
        var failed := RunCanonical(a, t, n - 1);
        processing := if failed.Some? then ObserverFailed(failed.value) else Processed;
      } else {
        RunWorker(a, t);
        SettleAction(a, t.outcome);
        processing := Processed;
      }
    }

    /** Process the next FIFO action if there is one. */
    method ProcessNext(t: Attempt) returns (processing: Processing)
      requires queue.actions != [] && queue.actions[0].id in repository.states ==>
                 repository.states[queue.actions[0].id].actionId == queue.actions[0].id
      modifies this, repository, queue, lifecycles
      ensures State() == RunFully(old(State()), t)
      ensures processing.Processed? <==> HeadCompletes(old(State()))
      ensures processing.Processed? <==> events != old(events)
    {
      var head := queue.Dequeue();
      if head.None? {
        return Unprocessed;
      }
      processing := RunAction(head.value, t, ALL_STEPS);
    }

    /** `process_action`: exactly this action leaves the queue, unless it still awaits approval. */
    method ProcessAction(id: ActionId, t: Attempt, ghost n: nat) returns (processing: Processing)
      requires id in repository.states ==> repository.states[id].actionId == id
      requires n >= 5
      modifies this, repository, queue, lifecycles
      ensures State() == RunQueued(old(State()), id, t, n)
      ensures processing.Processed? <==> events != old(events)
    {
      var queued := queue.Lookup(id);
      if queued.None? {
        return Unprocessed;
      }
      if id in lifecycles.states && lifecycles.states[id].status == R.Queued && lifecycles.states[id].approvalRequired {
        return Unprocessed;
      }
      R.FindIsFirstOccurrence(queue.actions, id);
      var taken := queue.Remove(id);
      processing := RunAction(taken.value, t, n);
    }

    /** Make the claimed action runnable: queue it if it is not, and approve a held lifecycle. */
    method PrepareClaimed(id: ActionId, queued: Option<R.Action>, recovered: R.Action)
      modifies queue, lifecycles
      ensures State() == Prepare(old(State()), id, queued, recovered)
    {
      if queued.None? {
        queue.Enqueue(recovered);
      }
      if id !in lifecycles.states || lifecycles.states[id].status == R.Queued {
        lifecycles.Set(id, R.Lifecycle(R.Approved, true, 0));
      }
    }

    /** Claim durably, match or enqueue the exact action, and process only that one. */
    method ExecuteAction(id: ActionId, t: Attempt) returns (result: Result<(), CallError>)
      requires id in repository.states ==> repository.states[id].actionId == id
      modifies this, repository, queue, lifecycles
      ensures State() == ExecuteCall(old(State()), id, t, ALL_STEPS)
      ensures result.Ok? <==> events != old(events)
    {
      var queued := queue.Lookup(id);
      if id in lifecycles.states && lifecycles.states[id].status !in {R.Queued, R.Approved} {
        return Err(NotExecutable);
      }
      if queued.Some? && !queued.value.canonical {
        return Err(WrongRoute);
      }
      var found := repository.Lookup(id);
      if found.None? || !IsCanonical(found.value) {
        return Err(NotFoundError);
      }
      var claimed := Write(ClaimApproved(id, clock));
      if claimed.Err? {
        return Err(NotClaimed(claimed.error));
      }
      var recovered := Recovered(claimed.value);
      if queued.Some? && (queued.value.target != recovered.target || queued.value.objective != recovered.objective) {
        return Err(WrongRoute);
      }
      PrepareClaimed(id, queued, recovered);
      var processing := ProcessAction(id, t, ALL_STEPS - 2);
      result := if processing.Processed? then Ok(()) else Err(NotProcessed);
    }

    /** The batch loop, with `step` and `goes` standing for a completed call and its report. */
    method InvokeLoop(
        maxActions: nat, attempts: seq<Attempt>,
        ghost step: (System, Attempt) -> System, ghost goes: System -> bool)
      returns (processed: nat)
      requires Filed(State()) && |attempts| == maxActions
      requires forall s, t {:trigger RunFully(s, t)} :: step(s, t) == RunFully(s, t)
      requires forall s {:trigger HeadCompletes(s)} :: goes(s) == HeadCompletes(s)
      modifies this, repository, queue, lifecycles
      ensures processed <= maxActions
      ensures State() == Repeat(old(State()), attempts, step, goes)
      ensures AllGo(old(State()), attempts[..processed], step, goes)
      ensures processed < maxActions ==>
                && !goes(Repeat(old(State()), attempts[..processed], step, goes))
                && State() == Repeat(old(State()), attempts[..processed + 1], step, goes)
    {
      processed := 0;
      ghost var s0 := State();
      while processed < maxActions
        invariant 0 <= processed <= maxActions && Filed(State())
        invariant AllGo(s0, attempts[..processed], step, goes)
        invariant State() == Repeat(s0, attempts[..processed], step, goes)
      {
        RepeatOnce(s0, attempts, processed, step, goes);
        RunFullyKeepsFiled(State(), attempts[processed]);
        var processing := ProcessNext(attempts[processed]);
        if !processing.Processed? {
          return;
        }
        processed := processed + 1;
      }
      assert attempts[..processed] == attempts;
    }

    /** An explicit small batch: stop early at the first action that is not processed. */
    method InvokeBatch(maxActions: int, attempts: seq<Attempt>) returns (result: Result<nat, ()>)
      requires Filed(State()) && (maxActions >= 1 ==> |attempts| == maxActions)
      modifies this, repository, queue, lifecycles
      ensures maxActions < 1 ==> result == Err(()) && State() == old(State())
      ensures maxActions >= 1 ==> result.Ok? && result.value <= maxActions
                                  && State() == InvokeMany(old(State()), attempts)
      ensures maxActions >= 1 ==> AllGo(old(State()), attempts[..result.value], RunFully, HeadCompletes)
      ensures maxActions >= 1 && result.value < maxActions ==>
                && !HeadCompletes(InvokeMany(old(State()), attempts[..result.value]))
                && State() == InvokeMany(old(State()), attempts[..result.value + 1])
    {
      if maxActions < 1 {
        return Err(());
      }
      var processed := InvokeLoop(maxActions, attempts, RunFully, HeadCompletes);
      result := Ok(processed);
    }
  }
}
