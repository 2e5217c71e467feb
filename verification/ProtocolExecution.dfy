/** Execution, reconciliation, disposition and promotion keep the per-action invariant. */
module ProtocolExecution {
  import opened Common
  import opened RunRecord
  import opened RunProtocol
  import opened ProtocolInvariant
  import opened ProtocolSteps
  import C = RunControl
  import R = ActionRuntime
  import Text

  // ---------------------------------------------------------- records that may be written

  lemma ClaimWritable(v: View, r: RunState, clock: Stamp, maxRetries: int)
    requires GoodView(v, clock, maxRetries) && v.record == Some(r) && Claim(r, clock, clock).Ok?
    ensures Writable(v, Claim(r, clock, clock).value, v.events, clock)
  {
    ConsistentUnstarted(r);
  }

  lemma ReobserveWritable(v: View, r: RunState, a: R.Action, clock: Stamp, maxRetries: int)
    requires GoodView(v, clock, maxRetries) && v.record == Some(r)
    requires a.id == v.id && a.target == r.target
    ensures Register(Some(r), ObserverRegistration(a), clock) == Ok(r.(updated := Some(clock)))
    ensures Writable(v, r.(updated := Some(clock)), v.events, clock)
  {
  }

  lemma StartWritable(v: View, r: RunState, clock: Stamp, maxRetries: int)
    requires GoodView(v, clock, maxRetries) && v.record == Some(r)
    requires r.claim.Some? && r.started.None? && !HasStatus(v, R.Queued) && v.queued == []
    ensures Start(r, clock, clock) == Ok(r.(started := Some(clock), updated := Some(clock)))
    ensures Writable(v, r.(started := Some(clock), updated := Some(clock)), v.events, clock)
  {
    ConsistentUnstarted(r);
  }

  lemma FinishWritable(v: View, r: RunState, status: ExecutionStatus, external: bool, clock: Stamp, maxRetries: int)
    requires GoodView(v, clock, maxRetries) && v.record == Some(r)
    requires r.started.Some? && r.execution.None? && r.resolution != Some(AbandonedAfterStart)
    requires !HasStatus(v, R.Queued)
    ensures Writable(v, Finish(r, status, clock, external, clock), v.events, clock)
  {
  }

  lemma ReconcileWritable(v: View, r: RunState, q: C.Request, clock: Stamp, maxRetries: int)
    requires GoodView(v, clock, maxRetries) && v.record == Some(r) && C.Reconcile(r, q, clock).Ok?
    ensures Writable(v, C.Reconcile(r, q, clock).value, v.events, clock)
  {
  }

  lemma DisposePhase(r: RunState, d: DispositionReport, clock: Stamp)
    requires Consistent(r) && r.execution.Some? && d.Succeeded()
    requires r.disposition == Some(Discard) ==> d.disposition.Discard?
    ensures Climbs(Some(r), RunRecord.Dispose(r, d, clock))
  {
    match r.execution.value {
      case Succeeded =>
      case Skipped =>
      case Failed =>
    }
    match d.disposition {
      case Keep =>
      case Discard =>
    }
    if r.disposition.Some? {
      match r.disposition.value {
        case Keep =>
        case Discard =>
      }
    }
  }

  lemma DisposeWritable(v: View, r: RunState, d: DispositionReport, clock: Stamp, maxRetries: int)
    requires GoodView(v, clock, maxRetries) && v.record == Some(r)
    requires r.execution.Some? && d.Succeeded() && (d.disposition.Keep? ==> v.worktree)
    requires d.disposition.Discard? ==> !v.worktree
    requires r.disposition == Some(Discard) ==> d.disposition.Discard?
    ensures Writable(v, RunRecord.Dispose(r, d, clock), v.events, clock)
  {
    DisposeKeeps(r, d, clock);
    DisposePhase(r, d, clock);
  }

  lemma PromoteWritable(v: View, r: RunState, p: Publication, clock: Stamp, maxRetries: int)
    requires GoodView(v, clock, maxRetries) && v.record == Some(r)
    requires Promotable(r) && r.promoted.None?
    ensures Writable(v, RunRecord.Promote(r, p, clock, clock), v.events, clock)
  {
  }

  // -------------------------------------------------------------------- memory and worker

  /** The gate opens for an action that is approved and out of the queue. */
  lemma UnderwayView(v: View, clock: Stamp, maxRetries: int)
    requires GoodView(v, clock, maxRetries) && v.queued == [] && HasStatus(v, R.Approved)
    ensures GoodView(v.(lifecycle := Some(v.lifecycle.value.(status := R.Executing))), clock, maxRetries)
  {
  }

  /** The one canonical invocation: right after the start marker, never before it. */
  lemma InvokeView(v: View, a: R.Action, worktree: bool, clock: Stamp, maxRetries: int)
    requires GoodView(v, clock, maxRetries) && v.born.Some? && SameTask(a, v.born.value)
    requires a.canonical && v.record.Some? && v.record.value.started.Some? && v.record.value.disposition.None?
    requires Runs(v.events) == 0 && v.record.value.approval == Some(Approval.Approved)
    ensures GoodView(v.(events := v.events + [Invoked(a)], worktree := worktree), clock, maxRetries)
  {
    EventAppended(v.events, Invoked(a));
    RightfulAppended(v.events, Invoked(a), v.born.value);
  }

  lemma SettledCanonicalView(v: View, a: R.Action, l: R.Lifecycle, requeued: bool, clock: Stamp, maxRetries: int)
    requires GoodView(v, clock, maxRetries) && v.queued == [] && HasStatus(v, R.Executing)
    requires v.born.Some? && v.born.value.canonical && SameTask(a, v.born.value) && Runs(v.events) == 1
    requires if requeued then l.status == R.Approved else l.status in {R.Completed, R.Skipped, R.Failed}
    ensures GoodView(v.(lifecycle := Some(l), queued := if requeued then [a] else []), clock, maxRetries)
  {
  }

  /** An attempt outside the canonical route, from the queue to its outcome. */
  lemma PlainAttemptView(
    v: View, a: R.Action, l: R.Lifecycle, requeued: bool, clock: Stamp, maxRetries: int)
    requires GoodView(v, clock, maxRetries) && v.queued == [a] && HasStatus(v, R.Approved)
    requires v.born == Some(a) && !a.canonical
    requires if requeued
             then l.status == R.Approved && l.retries == v.lifecycle.value.retries + 1 <= Cap(maxRetries)
             else l.status in {R.Completed, R.Skipped, R.Failed} && l.retries == v.lifecycle.value.retries
    ensures GoodView(
              v.(events := v.events + [Invoked(a)], lifecycle := Some(l), queued := if requeued then [a] else []),
              clock, maxRetries)
  {
    EventAppended(v.events, Invoked(a));
    RightfulAppended(v.events, Invoked(a), a);
  }

  /** Settling, seen from the action itself and from everyone else. */
  lemma SettleView(s: System, a: R.Action, outcome: R.Outcome)
    requires a.id in s.memory.lifecycles
    ensures var s' := s.(memory := R.Settle(s.memory, a, outcome, s.maxRetries));
            var v := ViewOf(s, a.id);
            var again := outcome == R.Failure(true) && v.lifecycle.value.retries < s.maxRetries;
            && OnlyTouches(s, s', a.id)
            && ViewOf(s', a.id) ==
               v.(lifecycle := Some(s'.memory.lifecycles[a.id]), queued := v.queued + if again then [a] else [])
            && (if again
                then s'.memory.lifecycles[a.id].status == R.Approved
                     && s'.memory.lifecycles[a.id].retries == v.lifecycle.value.retries + 1
                else s'.memory.lifecycles[a.id].status in {R.Completed, R.Skipped, R.Failed}
                     && s'.memory.lifecycles[a.id].retries == v.lifecycle.value.retries)
  {
    var m := R.Settle(s.memory, a, outcome, s.maxRetries);
    if outcome == R.Failure(true) && s.memory.lifecycles[a.id].retries < s.maxRetries {
      EnqueueView(s, a, m);
    } else {
      MemoryView(s, a.id, m);
    }
  }

  // ------------------------------------------------------------- the canonical run, stepwise

  /** A canonical action between its gate and its outcome: out of the queue, claimed, not finished. */
  ghost predicate InFlight(s: System, a: R.Action) {
    && a.id in s.born && a.canonical && SameTask(a, s.born[a.id])
    && a.id in s.durable
    && s.durable[a.id].claim.Some?
    && s.durable[a.id].execution.None?
    && s.durable[a.id].resolution.None?
    && ViewOf(s, a.id).queued == []
    && HasStatus(ViewOf(s, a.id), R.Executing)
  }

  lemma StartGood(s: System, a: R.Action)
    requires Inv(s) && InFlight(s, a) && s.durable[a.id].started.None?
    ensures var s' := MarkStarted(s, s.durable[a.id]);
            Inv(s') && InFlight(s', a) && s'.durable[a.id].started.Some? && Runs(EventsOf(s', a.id)) == 0
  {
    assert Good(s, a.id);
    var r := s.durable[a.id];
    StartWritable(ViewOf(s, a.id), r, s.clock, s.maxRetries);
    var r' := r.(started := Some(s.clock), updated := Some(s.clock));
    PutGood(s, r');
    PutView(s, r');
  }

  lemma InvokeShows(s: System, a: R.Action, leavesWorktree: bool)
    requires a.canonical
    ensures var s' := Invoke(s, a, leavesWorktree);
            var v := ViewOf(s, a.id);
            && ViewOf(s', a.id) == v.(events := v.events + [Invoked(a)], worktree := v.worktree || leavesWorktree)
            && OnlyTouches(s, s', a.id)
  {
    var s' := Invoke(s, a, leavesWorktree);
    NoteView(s, a.id, Invoked(a));
    forall other | other != a.id ensures ViewOf(s', other) == ViewOf(s, other) {
      assert ViewOf(Note(s, a.id, Invoked(a)), other) == ViewOf(s, other);
    }
  }

  lemma InvokeGood(s: System, a: R.Action, leavesWorktree: bool)
    requires Inv(s) && InFlight(s, a) && s.durable[a.id].started.Some? && Runs(EventsOf(s, a.id)) == 0
    ensures var s' := Invoke(s, a, leavesWorktree);
            Inv(s') && InFlight(s', a) && s'.durable == s.durable && Runs(EventsOf(s', a.id)) == 1
  {
    assert Good(s, a.id);
    EventAppended(EventsOf(s, a.id), Invoked(a));
    var v := ViewOf(s, a.id);
    InvokeView(v, a, v.worktree || leavesWorktree, s.clock, s.maxRetries);
    InvokeShows(s, a, leavesWorktree);
    LocalStep(s, Invoke(s, a, leavesWorktree), a.id);
  }

  lemma FinishGood(s: System, a: R.Action, t: Attempt)
    requires Inv(s) && InFlight(s, a) && s.durable[a.id].started.Some?
    ensures var s' := Put(s, Finish(s.durable[a.id], ExecutionOf(t.outcome), s.clock, t.external, s.clock));
            && Inv(s')
            && ViewOf(s', a.id).queued == [] && HasStatus(ViewOf(s', a.id), R.Executing)
            && s'.born == s.born && s'.maxRetries == s.maxRetries && EventsOf(s', a.id) == EventsOf(s, a.id)
  {
    assert Good(s, a.id);
    var r := s.durable[a.id];
    FinishWritable(ViewOf(s, a.id), r, ExecutionOf(t.outcome), t.external, s.clock, s.maxRetries);
    var r' := Finish(r, ExecutionOf(t.outcome), s.clock, t.external, s.clock);
    PutGood(s, r');
    PutView(s, r');
  }

  lemma FaithfulIsSameTask(a: R.Action, born: R.Action)
    requires Faithful(a, born)
    ensures SameTask(a, born)
  {
  }

  lemma SettleGood(s: System, a: R.Action, t: Attempt)
    requires Inv(s) && a.id in s.born && a.canonical && SameTask(a, s.born[a.id])
    requires ViewOf(s, a.id).queued == [] && HasStatus(ViewOf(s, a.id), R.Executing)
    requires Runs(EventsOf(s, a.id)) == 1
    ensures Inv(s.(memory := R.Settle(s.memory, a, t.outcome, s.maxRetries)))
  {
    assert Good(s, a.id);
    var s' := s.(memory := R.Settle(s.memory, a, t.outcome, s.maxRetries));
    var v := ViewOf(s, a.id);
    var again := t.outcome == R.Failure(true) && v.lifecycle.value.retries < s.maxRetries;
    SettleView(s, a, t.outcome);
    SettledCanonicalView(v, a, s'.memory.lifecycles[a.id], again, s.clock, s.maxRetries);
    assert [] + [a] == [a];
    LocalStep(s, s', a.id);
  }

  /** The result is recorded, and then the attempt is settled. */
  lemma OutcomeGood(s: System, a: R.Action, t: Attempt)
    requires Inv(s) && InFlight(s, a) && s.durable[a.id].started.Some? && Runs(EventsOf(s, a.id)) == 1
    ensures var s' := Put(s, Finish(s.durable[a.id], ExecutionOf(t.outcome), s.clock, t.external, s.clock));
            Inv(s') && Inv(s'.(memory := R.Settle(s'.memory, a, t.outcome, s.maxRetries)))
  {
    FinishGood(s, a, t);
    SettleGood(Put(s, Finish(s.durable[a.id], ExecutionOf(t.outcome), s.clock, t.external, s.clock)), a, t);
  }

  lemma RunObservedGood(s: System, a: R.Action, t: Attempt, n: nat)
    requires Inv(s) && InFlight(s, a) && s.durable[a.id].started.None?
    ensures Inv(RunObserved(s, a, s.durable[a.id], t, n))
  {
    if n > 0 {
      StartGood(s, a);
      RunStartedGood(MarkStarted(s, s.durable[a.id]), a, t, n - 1);
    }
  }

  lemma RunStartedGood(s: System, a: R.Action, t: Attempt, n: nat)
    requires Inv(s) && InFlight(s, a) && s.durable[a.id].started.Some? && Runs(EventsOf(s, a.id)) == 0
    ensures Inv(RunStarted(s, a, t, n))
  {
    if n > 0 {
      InvokeGood(s, a, t.leavesWorktree);
      OutcomeGood(Invoke(s, a, t.leavesWorktree), a, t);
    }
  }

  function Dequeued(s: System, id: ActionId): System {
    s.(memory := s.memory.(queue := R.RemoveFirst(s.memory.queue, id)))
  }

  /** Out of the queue. */
  lemma DequeueGood(s: System, a: R.Action)
    requires Inv(s) && ViewOf(s, a.id).queued == [a]
    ensures var s1 := Dequeued(s, a.id);
            Inv(s1) && OnlyTouches(s, s1, a.id) && ViewOf(s1, a.id) == ViewOf(s, a.id).(queued := [])
  {
    assert Good(s, a.id);
    R.FindIsFirstOccurrence(s.memory.queue, a.id);
    DequeueView(s, a.id);
    assert [a][1..] == [];
    LocalStep(s, Dequeued(s, a.id), a.id);
  }

  /** Through the gate. */
  lemma BeginGood(s: System, a: R.Action)
    requires Inv(s) && ViewOf(s, a.id).queued == [] && HasStatus(ViewOf(s, a.id), R.Approved)
    ensures && R.Begin(s.memory, a).Underway?
            && var s' := s.(memory := R.Begin(s.memory, a).memory);
               && Inv(s') && OnlyTouches(s, s', a.id)
               && ViewOf(s', a.id) ==
                  ViewOf(s, a.id).(lifecycle := Some(s.memory.lifecycles[a.id].(status := R.Executing)))
  {
    assert Good(s, a.id);
    var s' := s.(memory := R.Begin(s.memory, a).memory);
    UnderwayView(ViewOf(s, a.id), s.clock, s.maxRetries);
    MemoryView(s, a.id, s'.memory);
    LocalStep(s, s', a.id);
  }

  lemma GateGood(s: System, a: R.Action)
    requires Inv(s) && ViewOf(s, a.id).queued == [a] && HasStatus(ViewOf(s, a.id), R.Approved)
    ensures var s1 := Dequeued(s, a.id);
            && R.Begin(s1.memory, a).Underway?
            && var s2 := s1.(memory := R.Begin(s1.memory, a).memory);
               && Inv(s2) && OnlyTouches(s, s2, a.id)
               && ViewOf(s2, a.id) == ViewOf(s, a.id).(
                                      queued := [],
                                      lifecycle := Some(s.memory.lifecycles[a.id].(status := R.Executing)))
  {
    var s1 := Dequeued(s, a.id);
    DequeueGood(s, a);
    BeginGood(s1, a);
    TouchesTransitive(s, s1, s1.(memory := R.Begin(s1.memory, a).memory), a.id);
  }

  /** The observer registers the run again before it starts. */
  lemma ReobserveGood(s: System, a: R.Action)
    requires Inv(s) && InFlight(s, a) && s.durable[a.id].started.None?
    ensures var r := s.durable[a.id].(updated := Some(s.clock));
            && Register(Some(s.durable[a.id]), ObserverRegistration(a), s.clock) == Ok(r) && r.actionId == a.id
            && Inv(Put(s, r)) && InFlight(Put(s, r), a) && Put(s, r).durable[a.id].started.None?
  {
    assert Good(s, a.id);
    var r := s.durable[a.id].(updated := Some(s.clock));
    ReobserveWritable(ViewOf(s, a.id), s.durable[a.id], a, s.clock, s.maxRetries);
    PutGood(s, r);
    PutView(s, r);
  }

  /** A claimed canonical action standing in the queue is run, or stopped, without breaking anything. */
  lemma RunQueuedGood(s: System, a: R.Action, t: Attempt, n: nat)
    requires Inv(s) && ViewOf(s, a.id).queued == [a] && HasStatus(ViewOf(s, a.id), R.Approved)
    requires a.id in s.born && a.canonical && SameTask(a, s.born[a.id])
    requires a.id in s.durable
    requires var r := s.durable[a.id];
             r.claim.Some? && r.started.None? && r.execution.None? && r.resolution.None?
    ensures Inv(RunQueued(s, a.id, t, n))
  {
    R.FindIsFirstOccurrence(s.memory.queue, a.id);
    GateGood(s, a);
    var s1 := Dequeued(s, a.id);
    var s2 := s1.(memory := R.Begin(s1.memory, a).memory);
    ReobserveGood(s2, a);
    if n > 0 {
      RunObservedGood(Put(s2, s2.durable[a.id].(updated := Some(s2.clock))), a, t, n - 1);
    }
  }

  // ----------------------------------------------------------------------------- execute

  lemma PreparedView(v: View, a: R.Action, clock: Stamp, maxRetries: int)
    requires GoodView(v, clock, maxRetries) && v.born.Some? && v.born.value.canonical && SameTask(a, v.born.value)
    requires v.record.Some? && v.record.value.approval == Some(Approval.Approved) && v.record.value.started.None?
    requires v.lifecycle.None? || HasStatus(v, R.Queued) || HasStatus(v, R.Approved)
    requires v.queued == [] || v.queued == [a]
    ensures GoodView(
              v.(queued := [a],
                 lifecycle := if HasStatus(v, R.Approved) then v.lifecycle else Some(R.Lifecycle(R.Approved, true, 0))),
              clock, maxRetries)
  {
  }

  lemma PrepareGood(s: System, id: ActionId, queued: Option<R.Action>, recovered: R.Action)
    requires Inv(s) && queued == R.Find(s.memory.queue, id) && recovered.id == id
    requires id in s.born && s.born[id].canonical && Faithful(recovered, s.born[id])
    requires id in s.durable && s.durable[id].approval == Some(Approval.Approved) && s.durable[id].started.None?
    requires id in s.memory.lifecycles ==> s.memory.lifecycles[id].status in {R.Queued, R.Approved}
    requires queued.Some? ==>
               queued.value.canonical && queued.value.target == recovered.target
               && queued.value.objective == recovered.objective
    ensures var s' := Prepare(s, id, queued, recovered);
            && Inv(s') && ViewOf(s', id).queued == [recovered] && HasStatus(ViewOf(s', id), R.Approved)
            && s'.durable == s.durable && s'.born == s.born
  {
    var s' := Prepare(s, id, queued, recovered);
    assert Good(s, id);
    FaithfulIsSameTask(recovered, s.born[id]);
    R.FindIsFirstOccurrence(s.memory.queue, id);
    PrepareShows(s, id, queued, recovered);
    PreparedView(ViewOf(s, id), recovered, s.clock, s.maxRetries);
    LocalStep(s, s', id);
  }

  /** The lifecycle an execution prepares: approved, unless it already is past waiting. */
  function Readied(lifecycle: Option<R.Lifecycle>): R.Lifecycle {
    if lifecycle.Some? && lifecycle.value.status != R.Queued then lifecycle.value else R.Lifecycle(R.Approved, true, 0)
  }

  /** What preparing does to memory, and that it does nothing else. */
  lemma PreparedMemory(s: System, id: ActionId, queued: Option<R.Action>, a: R.Action)
    ensures var m := Prepare(s, id, queued, a).memory;
            && Prepare(s, id, queued, a) == s.(memory := m)
            && m.queue == (if queued.None? then s.memory.queue + [a] else s.memory.queue)
            && m.registry == s.memory.registry
            && m.lifecycles == s.memory.lifecycles[id := Readied(Get(s.memory.lifecycles, id))]
  {
    if id in s.memory.lifecycles {
      assert s.memory.lifecycles == s.memory.lifecycles[id := s.memory.lifecycles[id]];
    }
  }

  lemma PrepareQueuedShows(s: System, id: ActionId, a: R.Action)
    ensures var s' := Prepare(s, id, Some(a), a);
            && OnlyTouches(s, s', id)
            && ViewOf(s', id) == ViewOf(s, id).(lifecycle := Some(Readied(ViewOf(s, id).lifecycle)))
  {
    var m := Prepare(s, id, Some(a), a).memory;
    PreparedMemory(s, id, Some(a), a);
    MemoryView(s, id, m);
  }

  lemma PrepareRecoveredShows(s: System, a: R.Action)
    requires ViewOf(s, a.id).queued == []
    ensures var s' := Prepare(s, a.id, None, a);
            && OnlyTouches(s, s', a.id)
            && ViewOf(s', a.id) == ViewOf(s, a.id).(lifecycle := Some(Readied(ViewOf(s, a.id).lifecycle)), queued := [a])
  {
    var m := Prepare(s, a.id, None, a).memory;
    PreparedMemory(s, a.id, None, a);
    EnqueueView(s, a, m);
    assert [] + [a] == [a];
  }

  lemma PrepareShows(s: System, id: ActionId, queued: Option<R.Action>, recovered: R.Action)
    requires |ViewOf(s, id).queued| <= 1 && queued == R.Find(s.memory.queue, id) && recovered.id == id
    requires queued.Some? ==> queued.value == recovered
    ensures var s' := Prepare(s, id, queued, recovered);
            var v := ViewOf(s, id);
            && OnlyTouches(s, s', id)
            && (v.queued == [] || v.queued == [recovered])
            && ViewOf(s', id) == v.(queued := [recovered], lifecycle := Some(Readied(v.lifecycle)))
  {
    R.FindIsFirstOccurrence(s.memory.queue, id);
    if queued.Some? {
      PrepareQueuedShows(s, id, recovered);
    } else {
      PrepareRecoveredShows(s, recovered);
    }
  }

  /** The record's claim hands back exactly the delegated action, with its objective stripped. */
  lemma RecoveredIsFaithful(s: System, id: ActionId, r: RunState)
    requires Good(s, id) && id in s.durable && Claim(s.durable[id], s.clock, s.clock) == Ok(r)
    ensures id in s.born && r.objective.Some? && r.actionId == id && Faithful(Recovered(r), s.born[id])
  {
    Text.StripNormalises(s.born[id].objective.value);
  }

  lemma ExecuteGood(s: System, id: ActionId, t: Attempt, n: nat)
    requires Inv(s)
    ensures Inv(ExecuteCall(s, id, t, n))
  {
    if ExecuteCall(s, id, t, n) != s {
      ExecuteClaims(s, id, t, n);
      var r := Claim(s.durable[id], s.clock, s.clock).value;
      assert Inv(Put(s, r)) by {
        ClaimedFacts(s, id, r);
      }
      if ExecuteCall(s, id, t, n) != Put(s, r) {
        ExecuteRunGood(s, id, r, t, n);
      }
    }
  }

  lemma ExecuteRunGood(s: System, id: ActionId, r: RunState, t: Attempt, n: nat)
    requires Inv(s) && n > 1 && id in s.durable && Claim(s.durable[id], s.clock, s.clock) == Ok(r)
    requires id in s.memory.lifecycles ==> s.memory.lifecycles[id].status in {R.Queued, R.Approved}
    requires r.objective.Some?
    requires var queued := R.Find(s.memory.queue, id);
             queued.Some? ==>
               && queued.value.canonical
               && queued.value.target == Recovered(r).target && queued.value.objective == Recovered(r).objective
    ensures Inv(RunQueued(Prepare(Put(s, r), id, R.Find(s.memory.queue, id), Recovered(r)), id, t, n - 2))
  {
    ClaimedFacts(s, id, r);
    var s1 := Put(s, r);
    assert s1.memory == s.memory && s1.born == s.born && id in s1.durable && s1.durable[id] == r;
    ClaimedRunGood(s1, id, R.Find(s1.memory.queue, id), Recovered(r), t, n - 2);
  }

  /** How far an execution gets: not at all, to its claim, or on to the run. */
  lemma ExecuteClaims(s: System, id: ActionId, t: Attempt, n: nat)
    requires ExecuteCall(s, id, t, n) != s
    ensures n > 0 && id in s.durable && Claim(s.durable[id], s.clock, s.clock).Ok?
    ensures id in s.memory.lifecycles ==> s.memory.lifecycles[id].status in {R.Queued, R.Approved}
    ensures var r := Claim(s.durable[id], s.clock, s.clock).value;
            var queued := R.Find(s.memory.queue, id);
            && (queued.Some? ==> queued.value.canonical)
            && (ExecuteCall(s, id, t, n) != Put(s, r) ==>
                  && n > 1 && r.objective.Some?
                  && (queued.Some? ==>
                        queued.value.target == Recovered(r).target && queued.value.objective == Recovered(r).objective)
                  && ExecuteCall(s, id, t, n) == RunQueued(Prepare(Put(s, r), id, queued, Recovered(r)), id, t, n - 2))
  {
  }

  lemma ClaimedFacts(s: System, id: ActionId, r: RunState)
    requires Inv(s) && id in s.durable && Claim(s.durable[id], s.clock, s.clock) == Ok(r)
    ensures Inv(Put(s, r))
    ensures r.actionId == id && r.objective.Some? && id in s.born && s.born[id].canonical
    ensures Faithful(Recovered(r), s.born[id])
    ensures r.approval == Some(Approval.Approved)
    ensures r.claim.Some? && r.started.None? && r.execution.None? && r.resolution.None?
  {
    assert Good(s, id);
    ClaimWritable(ViewOf(s, id), s.durable[id], s.clock, s.maxRetries);
    RecoveredIsFaithful(s, id, r);
    PutGood(s, r);
  }

  lemma ClaimedRunGood(s: System, id: ActionId, queued: Option<R.Action>, a: R.Action, t: Attempt, n: nat)
    requires Inv(s) && queued == R.Find(s.memory.queue, id) && a.id == id && a.canonical
    requires id in s.born && s.born[id].canonical && Faithful(a, s.born[id])
    requires id in s.durable && s.durable[id].approval == Some(Approval.Approved)
    requires var r := s.durable[id];
             r.claim.Some? && r.started.None? && r.execution.None? && r.resolution.None?
    requires id in s.memory.lifecycles ==> s.memory.lifecycles[id].status in {R.Queued, R.Approved}
    requires queued.Some? ==>
               queued.value.canonical && queued.value.target == a.target && queued.value.objective == a.objective
    ensures Inv(RunQueued(Prepare(s, id, queued, a), id, t, n))
  {
    PrepareGood(s, id, queued, a);
    FaithfulIsSameTask(a, s.born[id]);
    RunQueuedGood(Prepare(s, id, queued, a), a, t, n);
  }

  // ------------------------------------------------------------------- the FIFO entry

  lemma {:induction false} HeadOccurs(q: seq<R.Action>)
    requires q != []
    ensures R.Find(q, q[0].id) == Some(q[0]) && R.RemoveFirst(q, q[0].id) == q[1..]
    ensures R.Occurrences(q, q[0].id) != [] && R.Occurrences(q, q[0].id)[0] == q[0]
  {
  }

  /** An attempt outside the canonical route, seen from its own action. */
  lemma PlainRunShows(s: System, a: R.Action, t: Attempt)
    requires a.id in s.memory.lifecycles && ViewOf(s, a.id).queued == []
    ensures var s3 := Note(s, a.id, Invoked(a));
            var s4 := s3.(memory := R.Settle(s3.memory, a, t.outcome, s.maxRetries));
            var v := ViewOf(s, a.id);
            var again := t.outcome == R.Failure(true) && v.lifecycle.value.retries < s.maxRetries;
            && OnlyTouches(s, s4, a.id)
            && a.id in s4.memory.lifecycles
            && ViewOf(s4, a.id) == v.(
                                   events := v.events + [Invoked(a)],
                                   lifecycle := Some(s4.memory.lifecycles[a.id]),
                                   queued := if again then [a] else [])
            && (var l := s4.memory.lifecycles[a.id];
                if again then l.status == R.Approved && l.retries == v.lifecycle.value.retries + 1
                else l.status in {R.Completed, R.Skipped, R.Failed} && l.retries == v.lifecycle.value.retries)
  {
    var s3 := Note(s, a.id, Invoked(a));
    NoteView(s, a.id, Invoked(a));
    SettleView(s3, a, t.outcome);
    assert [] + [a] == [a];
    TouchesTransitive(s, s3, s3.(memory := R.Settle(s3.memory, a, t.outcome, s.maxRetries)), a.id);
  }

  lemma PlainRunGood(s: System, t: Attempt, n: nat)
    requires Inv(s) && s.memory.queue != [] && !s.memory.queue[0].canonical
    ensures Inv(RunNextCall(s, t, n))
  {
    var a := s.memory.queue[0];
    HeadOccurs(s.memory.queue);
    assert Good(s, a.id);
    var v := ViewOf(s, a.id);
    assert v.queued == [a];
    GateGood(s, a);
    var s1 := Dequeued(s, a.id);
    var s2 := s1.(memory := R.Begin(s1.memory, a).memory);
    PlainRunShows(s2, a, t);
    var s4 := RunNextCall(s, t, n);
    TouchesTransitive(s, s2, s4, a.id);
    var again := t.outcome == R.Failure(true) && v.lifecycle.value.retries < s.maxRetries;
    PlainAttemptView(v, a, s4.memory.lifecycles[a.id], again, s.clock, s.maxRetries);
    LocalStep(s, s4, a.id);
  }

  /** A canonical head whose claim was left behind runs as exact execution would run it. */
  lemma ClaimedHeadFacts(s: System)
    requires Inv(s) && s.memory.queue != [] && s.memory.queue[0].canonical
    requires ClaimedUnstarted(s, s.memory.queue[0].id)
    ensures var a := s.memory.queue[0];
            var v := ViewOf(s, a.id);
            && v.queued == [a] && HasStatus(v, R.Approved) && a.id in s.born && SameTask(a, s.born[a.id])
            && a.id in s.durable && s.durable[a.id].approval == Some(Approval.Approved)
            && s.durable[a.id].target == a.target
            && (var r := s.durable[a.id];
                r.claim.Some? && r.started.None? && r.execution.None? && r.resolution.None?)
            && (forall t, n :: RunNextCall(s, t, n) == RunQueued(s, a.id, t, n))
  {
    var a := s.memory.queue[0];
    assert Good(s, a.id);
    HeadOccurs(s.memory.queue);
    if s.durable[a.id].resolution.Some? {
      match s.durable[a.id].resolution.value {
        case ReleasedBeforeStart =>
        case AbandonedAfterStart =>
      }
    }
  }

  lemma ClaimedHeadGood(s: System, t: Attempt, n: nat)
    requires Inv(s) && s.memory.queue != [] && s.memory.queue[0].canonical
    requires Admissible(s, RunNext(t, Completes))
    ensures Inv(RunNextCall(s, t, n))
  {
    ClaimedHeadFacts(s);
    RunQueuedGood(s, s.memory.queue[0], t, n);
  }

  // --------------------------------------------------- reconcile, dispose, promote, crash

  lemma ReconcileGood(s: System, id: ActionId, q: C.Request)
    requires Inv(s)
    ensures Inv(ReconcileCall(s, id, q))
  {
    if id in s.durable && C.Reconcile(s.durable[id], q, s.clock).Ok? {
      assert Good(s, id);
      ReconcileWritable(ViewOf(s, id), s.durable[id], q, s.clock, s.maxRetries);
      PutGood(s, C.Reconcile(s.durable[id], q, s.clock).value);
    }
  }

  lemma DropWorktreeGood(s: System, id: ActionId)
    requires Inv(s)
    ensures Inv(s.(worktrees := s.worktrees - {id}))
  {
    assert Good(s, id);
    LocalStep(s, s.(worktrees := s.worktrees - {id}), id);
  }

  lemma DisposeGood(s: System, id: ActionId, report: DispositionReport, unmerged: bool, n: nat)
    requires Inv(s)
    ensures Inv(DisposeCall(s, id, report, unmerged, n))
  {
    if id in s.durable && Finished(s.durable[id]) && id in s.worktrees && n > 0 {
      assert Good(s, id);
      if report.disposition.Keep? {
        var kept := DispositionReport(id, Keep, true, true, true);
        DisposeWritable(ViewOf(s, id), s.durable[id], kept, s.clock, s.maxRetries);
        PutGood(s, RunRecord.Dispose(s.durable[id], kept, s.clock));
      } else if !unmerged {
        var s1 := if report.worktreePresent then s else s.(worktrees := s.worktrees - {id});
        DropWorktreeGood(s, id);
        var outcome := report.(id := id);
        if n > 1 && outcome.Succeeded() {
          assert Good(s1, id);
          DisposeWritable(ViewOf(s1, id), s1.durable[id], outcome, s1.clock, s1.maxRetries);
          PutGood(s1, RunRecord.Dispose(s1.durable[id], outcome, s1.clock));
        }
      }
    }
  }

  lemma PromoteGood(s: System, id: ActionId, p: Publication)
    requires Inv(s)
    ensures Inv(PromoteCall(s, id, p))
  {
    if id in s.durable && Promotable(s.durable[id]) && s.durable[id].promoted.None? {
      assert Good(s, id);
      PromoteWritable(ViewOf(s, id), s.durable[id], p, s.clock, s.maxRetries);
      PutGood(s, RunRecord.Promote(s.durable[id], p, s.clock, s.clock));
    }
  }

  lemma CrashedView(v: View, clock: Stamp, maxRetries: int)
    requires GoodView(v, clock, maxRetries)
    ensures GoodView(v.(lifecycle := None, queued := [], pending := None), clock, maxRetries)
  {
  }

  lemma CrashGood(s: System)
    requires Inv(s)
    ensures Inv(s.(memory := R.Blank))
  {
    forall id ensures Good(s.(memory := R.Blank), id) {
      assert Good(s, id);
      CrashedView(ViewOf(s, id), s.clock, s.maxRetries);
    }
  }

  // ----------------------------------------------------------------------------- all steps

  lemma StepKeepsInv(s: System, step: Step)
    requires Inv(s) && Admissible(s, step)
    ensures Inv(Apply(s, step))
  {
    var n := Budget(FateOf(step));
    match step {
      case Delegate(id, objective, target, routed, permission, _) =>
        DelegateGood(s, id, objective, target, routed, permission, n);
      case Plan(a, permission) =>
        PlanGood(s, a, permission);
      case Approve(id, _) => ApproveGood(s, id, n);
      case Reject(id, _) => RejectGood(s, id, n);
      case Execute(id, t, _) => ExecuteGood(s, id, t, n);
      case RunNext(t, _) =>
        if s.memory.queue != [] {
          if s.memory.queue[0].canonical {
            ClaimedHeadGood(s, t, n);
          } else {
            PlainRunGood(s, t, n);
          }
        }
      case Reconcile(id, q) => ReconcileGood(s, id, q);
      case Dispose(id, report, unmerged, _) => DisposeGood(s, id, report, unmerged, n);
      case Promote(id, p) => PromoteGood(s, id, p);
      case Crash =>
    }
    CrashGood(Call(s, step));
  }

  lemma PlanGood(s: System, a: R.Action, permission: Permission)
    requires Inv(s)
    ensures Inv(PlanCall(s, a, permission))
  {
    if a.id !in s.born {
      EvaluateGood(s, a, permission);
    }
  }

  lemma InitialGood(maxRetries: int)
    ensures Inv(Initial(maxRetries))
  {
  }

  /** Every admissible run, from the start to wherever it stops, keeps the invariant. */
  lemma {:induction false} RunKeepsInv(s: System, steps: seq<Step>)
    requires Inv(s) && AdmissibleRun(s, steps)
    ensures Inv(Run(s, steps))
    decreases |steps|
  {
    if steps != [] {
      StepKeepsInv(s, steps[0]);
      RunKeepsInv(Apply(s, steps[0]), steps[1..]);
    }
  }
}
