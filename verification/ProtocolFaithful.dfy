/**
 What the worker is given to do: in runs whose FIFO entry meets canonical actions only with the
 objective their record holds, every invocation runs exactly what was asked for.
 */
module ProtocolFaithful {
  import opened Common
  import opened RunRecord
  import opened RunProtocol
  import opened ProtocolInvariant
  import opened ProtocolExecution
  import C = RunControl
  import R = ActionRuntime
  import T = ProtocolTheorems
  import Text

  /** A canonical head of the queue carries its objective without padding. */
  predicate AsRecorded(s: System, step: Step) {
    step.RunNext? && s.memory.queue != [] && s.memory.queue[0].canonical ==>
      s.memory.queue[0].objective.Some? && Text.Unpadded(s.memory.queue[0].objective.value)
  }

  predicate AsRecordedRun(s: System, steps: seq<Step>)
    decreases |steps|
  {
    steps != [] ==> AsRecorded(s, steps[0]) && AsRecordedRun(Apply(s, steps[0]), steps[1..])
  }

  // ------------------------------------------------------- what one call adds to a history

  /** The history of `id` is as it was, or one longer: `a` was invoked. */
  predicate AtMostInvokes(s: System, s': System, a: R.Action, id: ActionId) {
    && s'.born == s.born
    && (EventsOf(s', id) == EventsOf(s, id)
        || (id == a.id && EventsOf(s', id) == EventsOf(s, id) + [Invoked(a)]))
  }

  lemma RunStartedInvokes(s: System, a: R.Action, t: Attempt, n: nat, id: ActionId)
    ensures AtMostInvokes(s, RunStarted(s, a, t, n), a, id)
  {
    if n > 0 {
      var s1 := Invoke(s, a, t.leavesWorktree);
      assert AtMostInvokes(s, s1, a, id);
      if n > 1 && a.id in s1.durable {
        var r := Finish(s1.durable[a.id], ExecutionOf(t.outcome), s1.clock, t.external, s1.clock);
        assert EventsOf(Put(s1, r), id) == EventsOf(s1, id);
      }
    }
  }

  lemma RunObservedInvokes(s: System, a: R.Action, r: RunState, t: Attempt, n: nat, id: ActionId)
    ensures AtMostInvokes(s, RunObserved(s, a, r, t, n), a, id)
  {
    if n > 0 && !StartRefused(r) {
      var s1 := MarkStarted(s, r);
      assert s1.born == s.born && EventsOf(s1, id) == EventsOf(s, id);
      RunStartedInvokes(s1, a, t, n - 1, id);
    }
  }

  lemma RunDequeuedInvokes(s: System, a: R.Action, t: Attempt, n: nat, id: ActionId)
    ensures AtMostInvokes(s, RunDequeued(s, a, t, n), a, id)
  {
    var b := R.Begin(s.memory, a);
    if b.Underway? {
      var s1 := s.(memory := b.memory);
      if a.canonical {
        RegisteredInvokes(s1, a, t, n, id);
      } else {
        assert AtMostInvokes(s1, Invoke(s1, a, t.leavesWorktree), a, id);
      }
    }
  }

  lemma RegisteredInvokes(s: System, a: R.Action, t: Attempt, n: nat, id: ActionId)
    ensures var reg := Register(Get(s.durable, a.id), ObserverRegistration(a), s.clock);
            reg.Ok? && n > 0 ==> AtMostInvokes(s, RunObserved(Put(s, reg.value), a, reg.value, t, n - 1), a, id)
  {
    var reg := Register(Get(s.durable, a.id), ObserverRegistration(a), s.clock);
    if reg.Ok? && n > 0 {
      var s1 := Put(s, reg.value);
      assert s1.born == s.born && EventsOf(s1, id) == EventsOf(s, id);
      RunObservedInvokes(s1, a, reg.value, t, n - 1, id);
    }
  }

  /** The action a prepared execution takes from the queue is the claimed one. */
  lemma PreparedIsFound(s: System, id: ActionId, queued: Option<R.Action>, a: R.Action)
    requires queued == R.Find(s.memory.queue, id) && a.id == id && (queued.Some? ==> queued.value == a)
    ensures R.Find(Prepare(s, id, queued, a).memory.queue, id) == Some(a)
  {
    if queued.None? {
      R.FindIsFirstOccurrence(s.memory.queue, id);
      R.OccurrencesAppend(s.memory.queue, a, id);
      R.FindIsFirstOccurrence(s.memory.queue + [a], id);
      assert [] + [a] == [a];
    }
  }

  lemma ExecuteInvokes(s: System, of: ActionId, t: Attempt, n: nat, id: ActionId)
    requires Inv(s) && ExecuteCall(s, of, t, n) != s
    ensures of in s.durable && Claim(s.durable[of], s.clock, s.clock).Ok?
    ensures var r := Claim(s.durable[of], s.clock, s.clock).value;
            && r.objective.Some? && of in s.born && Faithful(Recovered(r), s.born[of]) && r.actionId == of
            && AtMostInvokes(s, ExecuteCall(s, of, t, n), Recovered(r), id)
  {
    ExecuteClaims(s, of, t, n);
    var r := Claim(s.durable[of], s.clock, s.clock).value;
    ClaimedFacts(s, of, r);
    if ExecuteCall(s, of, t, n) == Put(s, r) {
      ClaimInvokesNothing(s, r, id);
    } else {
      ClaimedRunInvokes(s, of, r, t, n - 2, id);
    }
  }

  lemma ClaimInvokesNothing(s: System, r: RunState, id: ActionId)
    requires r.objective.Some?
    ensures AtMostInvokes(s, Put(s, r), Recovered(r), id)
  {
  }

  lemma ClaimedRunInvokes(s: System, of: ActionId, r: RunState, t: Attempt, n: nat, id: ActionId)
    requires r.objective.Some? && r.actionId == of
    requires var queued := R.Find(s.memory.queue, of);
             queued.Some? ==>
               && queued.value.canonical
               && queued.value.target == Recovered(r).target && queued.value.objective == Recovered(r).objective
    ensures AtMostInvokes(
              s, RunQueued(Prepare(Put(s, r), of, R.Find(s.memory.queue, of), Recovered(r)), of, t, n), Recovered(r), id)
  {
    var s1, a := Put(s, r), Recovered(r);
    var queued := R.Find(s1.memory.queue, of);
    R.FindIsFirstOccurrence(s1.memory.queue, of);
    var s2 := Prepare(s1, of, queued, a);
    PreparedIsFound(s1, of, queued, a);
    PreparedMemory(s1, of, queued, a);
    RunDequeuedInvokes(Dequeued(s2, of), a, t, n, id);
  }

  // ------------------------------------------------------------------- whole runs

  /** Every invocation of `id` so far ran what was asked for. */
  ghost predicate RanAsAsked(s: System, id: ActionId) {
    forall k {:trigger EventsOf(s, id)[k]} :: 0 <= k < |EventsOf(s, id)| && EventsOf(s, id)[k].Invoked? ==>
      id in s.born && Faithful(EventsOf(s, id)[k].action, s.born[id])
  }

  /** The history of `id` is as it was, or one longer, and what it gained was rightly invoked if at all. */
  ghost predicate GainsRightly(s: System, s': System, id: ActionId) {
    && (id in s.born ==> id in s'.born && s'.born[id] == s.born[id])
    && (EventsOf(s', id) == EventsOf(s, id)
        || (&& |EventsOf(s', id)| == |EventsOf(s, id)| + 1
            && EventsOf(s', id)[..|EventsOf(s, id)|] == EventsOf(s, id)
            && var e := EventsOf(s', id)[|EventsOf(s, id)|];
               e.Invoked? ==> id in s'.born && Faithful(e.action, s'.born[id])))
  }

  lemma GainKeeps(s: System, s': System, id: ActionId)
    requires RanAsAsked(s, id) && GainsRightly(s, s', id)
    ensures RanAsAsked(s', id)
  {
    forall k | 0 <= k < |EventsOf(s', id)| && EventsOf(s', id)[k].Invoked?
      ensures id in s'.born && Faithful(EventsOf(s', id)[k].action, s'.born[id])
    {
      if k < |EventsOf(s, id)| {
        assert EventsOf(s', id)[k] == EventsOf(s, id)[k];
      }
    }
  }

  lemma InvocationGains(s: System, s': System, a: R.Action, id: ActionId)
    requires AtMostInvokes(s, s', a, id) && a.id in s.born && Faithful(a, s.born[a.id])
    ensures GainsRightly(s, s', id)
  {
  }

  /** A head of the queue that may run carries what was asked for. */
  lemma HeadIsFaithful(s: System)
    requires Inv(s) && s.memory.queue != []
    requires s.memory.queue[0].canonical ==>
               s.memory.queue[0].objective.Some? && Text.Unpadded(s.memory.queue[0].objective.value)
    ensures var a := s.memory.queue[0]; a.id in s.born && Faithful(a, s.born[a.id])
  {
    var a := s.memory.queue[0];
    assert Good(s, a.id);
    HeadOccurs(s.memory.queue);
    if a.canonical {
      Text.StripNormalises(a.objective.value);
    }
  }

  lemma RunNextGains(s: System, t: Attempt, n: nat, id: ActionId)
    requires Inv(s) && AsRecorded(s, RunNext(t, Completes))
    ensures GainsRightly(s, RunNextCall(s, t, n), id)
  {
    if s.memory.queue != [] {
      var a := s.memory.queue[0];
      HeadIsFaithful(s);
      RunDequeuedInvokes(s.(memory := s.memory.(queue := s.memory.queue[1..])), a, t, n, id);
      InvocationGains(s, RunNextCall(s, t, n), a, id);
    }
  }

  lemma ExecuteGains(s: System, of: ActionId, t: Attempt, n: nat, id: ActionId)
    requires Inv(s)
    ensures GainsRightly(s, ExecuteCall(s, of, t, n), id)
  {
    if ExecuteCall(s, of, t, n) != s {
      ExecuteInvokes(s, of, t, n, id);
      var r := Claim(s.durable[of], s.clock, s.clock).value;
      InvocationGains(s, ExecuteCall(s, of, t, n), Recovered(r), id);
    }
  }

  lemma NoteGains(s: System, of: ActionId, e: Event, id: ActionId)
    requires !e.Invoked?
    ensures GainsRightly(s, Note(s, of, e), id)
  {
  }

  /** A new action's history starts with what permission decided. */
  lemma EvaluateGains(s: System, a: R.Action, permission: Permission, id: ActionId)
    requires a.id !in s.born
    ensures GainsRightly(s, Evaluate(Bear(s, a), a, permission), id)
  {
  }

  lemma DelegateGains(
    s: System, of: ActionId, objective: string, target: string, routed: bool, permission: Permission, n: nat, id: ActionId)
    ensures GainsRightly(s, DelegateCall(s, of, objective, target, routed, permission, n), id)
  {
    if of !in s.born {
      var a := R.Action(of, true, target, Some(objective));
      EvaluateGains(s, a, permission, id);
    }
  }

  lemma DecisionGains(
    s: System, of: ActionId, decided: Result<RunState, StateError>, e: Event, s': System, id: ActionId)
    requires !e.Invoked? && T.DecisionEnds(s, of, decided, e, s'.(memory := s.memory))
    ensures GainsRightly(s, s', id)
  {
    var rest := s'.(memory := s.memory);
    assert rest.born == s'.born && EventsOf(rest, id) == EventsOf(s', id);
    NoteGains(s, of, e, id);
    if rest != s && rest != Note(s, of, e) {
      var r := Register(Get(s.durable, of), DecisionRegistration(s, Resolve(s, of).value), s.clock).value;
      assert EventsOf(Put(s, r), id) == EventsOf(s, id);
      if decided.Ok? {
        var s2 := Put(Put(s, r), decided.value);
        assert s2.born == s.born && EventsOf(s2, id) == EventsOf(s, id);
        NoteGains(s2, of, e, id);
      }
    }
  }

  lemma ApprovalGains(s: System, of: ActionId, n: nat, id: ActionId)
    ensures GainsRightly(s, ApproveCall(s, of, n), id)
  {
    T.ApprovalEnds(s, of, n);
    DecisionGains(s, of, T.Approving(s, of), Granted, ApproveCall(s, of, n), id);
  }

  lemma RejectionGains(s: System, of: ActionId, n: nat, id: ActionId)
    ensures GainsRightly(s, RejectCall(s, of, n), id)
  {
    T.RejectionEnds(s, of, n);
    DecisionGains(s, of, T.Rejecting(s, of), Declined, RejectCall(s, of, n), id);
  }

  lemma CallGains(s: System, step: Step, id: ActionId)
    requires Inv(s) && AsRecorded(s, step)
    ensures GainsRightly(s, Call(s, step), id)
  {
    var n := Budget(FateOf(step));
    match step {
      case Delegate(of, objective, target, routed, permission, _) =>
        DelegateGains(s, of, objective, target, routed, permission, n, id);
      case Plan(a, permission) =>
        if a.id !in s.born {
          EvaluateGains(s, a, permission, id);
        }
      case Approve(of, _) => ApprovalGains(s, of, n, id);
      case Reject(of, _) => RejectionGains(s, of, n, id);
      case Execute(of, t, _) => ExecuteGains(s, of, t, n, id);
      case RunNext(t, _) => RunNextGains(s, t, n, id);
      case Reconcile(_, _) =>
      case Dispose(_, _, _, _) =>
      case Promote(_, _) =>
      case Crash =>
    }
  }

  lemma {:induction false} RunsAsAsked(s: System, steps: seq<Step>, id: ActionId)
    requires Inv(s) && RanAsAsked(s, id) && AdmissibleRun(s, steps) && AsRecordedRun(s, steps)
    ensures RanAsAsked(Run(s, steps), id)
    decreases |steps|
  {
    if steps != [] {
      CallGains(s, steps[0], id);
      var s' := Apply(s, steps[0]);
      assert GainsRightly(s, s', id);
      GainKeeps(s, s', id);
      StepKeepsInv(s, steps[0]);
      RunsAsAsked(s', steps[1..], id);
    }
  }

  /**
   In every run whose FIFO entry meets canonical actions only with an unpadded objective, every
   invocation ran the id, route, target and stripped objective that were asked for.
   */
  lemma WorkIsWhatWasAsked(maxRetries: int, steps: seq<Step>, id: ActionId, k: nat)
    requires AdmissibleRun(Initial(maxRetries), steps) && AsRecordedRun(Initial(maxRetries), steps)
    requires var es := EventsOf(Run(Initial(maxRetries), steps), id); k < |es| && es[k].Invoked?
    ensures var s := Run(Initial(maxRetries), steps);
            && id in s.born && Faithful(EventsOf(s, id)[k].action, s.born[id])
            && Authorized(EventsOf(s, id)[..k]) && !Blocked(EventsOf(s, id)[..k])
  {
    InitialGood(maxRetries);
    RunsAsAsked(Initial(maxRetries), steps, id);
    T.OnlyAuthorisedWorkRuns(Run(Initial(maxRetries), steps), id, k);
  }
}
