/**
 What the calls of the run protocol achieve when they are not cut off: the record, the queue, the
 registry and the lifecycle each of them leaves, and when it refuses and leaves everything alone.
 */
module ProtocolOutcomes {
  import opened Common
  import opened RunRecord
  import opened RunProtocol
  import opened ProtocolInvariant
  import opened ProtocolExecution
  import C = RunControl
  import P = Promotion
  import R = ActionRuntime
  import S = ProtocolSteps
  import T = ProtocolTheorems
  import Text

  // ----------------------------------------------------------------------------- results

  /** The durable result is the one the worker reported. */
  ghost predicate RecordsOutcome(r: RunState, t: Attempt) {
    && (r.execution == Some(Succeeded) <==> t.outcome == R.Success)
    && (r.execution == Some(Skipped) <==> t.outcome == R.Skip)
    && (r.execution == Some(Failed) <==> t.outcome.Failure?)
    && r.external == Some(t.external) && r.finished.Some? && r.objective.None?
  }

  /** The lifecycle after the attempt, and whether the action is queued again. */
  ghost predicate Settled(l: R.Lifecycle, l': R.Lifecycle, again: bool, t: Attempt, maxRetries: int) {
    && (again <==> t.outcome == R.Failure(true) && l.retries < maxRetries)
    && (l'.status == R.Completed <==> t.outcome == R.Success)
    && (l'.status == R.Skipped <==> t.outcome == R.Skip)
    && (l'.status == R.Failed <==> t.outcome.Failure? && !again)
    && (l'.status == R.Approved <==> again)
    && l'.retries == (if again then l.retries + 1 else l.retries)
    && l'.approvalRequired == l.approvalRequired
  }

  /** The record of a run is written from its attempt, whatever comes after. */
  lemma RunStartedRecords(s: System, a: R.Action, t: Attempt, n: nat)
    requires n >= 2 && a.id in s.durable && s.durable[a.id].actionId == a.id
    ensures var s' := RunStarted(s, a, t, n);
            && a.id in s'.durable && RecordsOutcome(s'.durable[a.id], t)
            && s'.durable[a.id].started == s.durable[a.id].started
            && s'.durable[a.id].claim == s.durable[a.id].claim
            && (a.canonical ==> (a.id in s'.worktrees <==> a.id in s.worktrees || t.leavesWorktree))
  {
    var s1 := Invoke(s, a, t.leavesWorktree);
    assert s1.durable == s.durable;
  }

  lemma RunStartedSettles(s: System, a: R.Action, t: Attempt, n: nat)
    requires n >= 3 && a.id in s.durable && s.durable[a.id].actionId == a.id && a.id in s.memory.lifecycles
    ensures var m, m' := s.memory, RunStarted(s, a, t, n).memory;
            && a.id in m'.lifecycles
            && var again := m'.queue != m.queue;
               Settled(m.lifecycles[a.id], m'.lifecycles[a.id], again, t, s.maxRetries)
               && (again ==> m'.queue == m.queue + [a])
  {
    R.SettlesExactly(s.memory, a, t.outcome, s.maxRetries);
    var s1 := Invoke(s, a, t.leavesWorktree);
    assert s1.durable == s.durable && s1.memory == s.memory;
    assert |s.memory.queue + [a]| == |s.memory.queue| + 1;
  }

  /** From the gate to the settlement of a canonical action. */
  lemma CanonicalRunReports(s: System, a: R.Action, t: Attempt, n: nat)
    requires n >= 5 && a.canonical && a.id in s.memory.lifecycles && s.memory.lifecycles[a.id].status == R.Approved
    requires Register(Get(s.durable, a.id), ObserverRegistration(a), s.clock).Ok?
    requires a.id in s.durable && s.durable[a.id].actionId == a.id && !StartRefused(s.durable[a.id])
    ensures var s' := RunDequeued(s, a, t, n);
            && a.id in s'.durable && RecordsOutcome(s'.durable[a.id], t)
            && (s'.durable[a.id].started.Some? <==> s.durable[a.id].claim.Some? || s.durable[a.id].started.Some?)
            && (a.id in s'.worktrees <==> a.id in s.worktrees || t.leavesWorktree)
            && a.id in s'.memory.lifecycles
            && var again := s'.memory.queue != s.memory.queue;
               Settled(s.memory.lifecycles[a.id], s'.memory.lifecycles[a.id], again, t, s.maxRetries)
               && (again ==> s'.memory.queue == s.memory.queue + [a])
  {
    R.GateExactly(s.memory, a);
    var s1 := s.(memory := R.Begin(s.memory, a).memory);
    var r := Register(Get(s1.durable, a.id), ObserverRegistration(a), s1.clock).value;
    T.ObserverRegisters(s1, a);
    var s2 := Put(s1, r);
    ObservedStartKeeps(s2, r, a);
    T.MarkStartedMarks(s2, r);
    var s3 := MarkStarted(s2, r);
    RunStartedRecords(s3, a, t, n - 2);
    RunStartedSettles(s3, a, t, n - 2);
  }

  lemma ObservedStartKeeps(s: System, r: RunState, a: R.Action)
    requires r.actionId == a.id && a.id in s.durable && s.durable[a.id] == r
    ensures var s' := MarkStarted(s, r);
            && a.id in s'.durable && s'.durable[a.id].actionId == a.id
            && s'.memory == s.memory && s'.worktrees == s.worktrees && s'.maxRetries == s.maxRetries
  {
  }

  /** What an execution that ran to its end leaves of its action. */
  ghost predicate Reported(s: System, id: ActionId, t: Attempt, l: R.Lifecycle, rest: seq<R.Action>, s': System) {
    && id in s'.durable && RecordsOutcome(s'.durable[id], t) && s'.durable[id].started.Some?
    && (id in s'.worktrees <==> id in s.worktrees || t.leavesWorktree)
    && id in s'.memory.lifecycles
    && Settled(l, s'.memory.lifecycles[id], s'.memory.queue != rest, t, s.maxRetries)
    && (s'.memory.queue != rest ==> |s'.memory.queue| == |rest| + 1 && s'.memory.queue[..|rest|] == rest)
  }

  /**
   A queued, claimable action with an unpadded objective: its execution records the worker's
   outcome, and only a transient failure with retries left puts it back at the end of the queue.
   */
  lemma WarmExecutionReports(s: System, id: ActionId, t: Attempt, n: nat)
    requires T.Reachable(s) && T.WarmAndClaimable(s, id) && n >= 7
    requires var a := ViewOf(s, id).queued[0]; a.objective.Some? && Text.Unpadded(a.objective.value)
    ensures id in s.memory.lifecycles
    ensures Reported(
              s, id, t, s.memory.lifecycles[id], R.RemoveFirst(s.memory.queue, id), ExecuteCall(s, id, t, n))
  {
    T.ReachableIsGood(s);
    var a := ViewOf(s, id).queued[0];
    var r := Claim(s.durable[id], s.clock, s.clock).value;
    T.WarmFacts(s, id, r);
    ClaimedFacts(s, id, r);
    WarmReports(s, id, r, a, t, n);
  }

  lemma WarmReports(s: System, id: ActionId, r: RunState, a: R.Action, t: Attempt, n: nat)
    requires n >= 7 && id in s.durable && IsCanonical(s.durable[id]) && Claim(s.durable[id], s.clock, s.clock) == Ok(r)
    requires r.objective.Some? && r.actionId == id && r.claim.Some? && r.execution.None?
    requires R.Find(s.memory.queue, id) == Some(a) && a.canonical && a.id == id
    requires a.target == Recovered(r).target && a.objective == Recovered(r).objective
    requires id in s.memory.lifecycles && s.memory.lifecycles[id].status == R.Approved
    ensures Reported(
              s, id, t, s.memory.lifecycles[id], R.RemoveFirst(s.memory.queue, id), ExecuteCall(s, id, t, n))
  {
    T.WarmCall(s, id, r, a, t, n);
    ClaimedRunReports(s, r, a, t, n - 2, ExecuteCall(s, id, t, n));
  }

  lemma ClaimedRunReports(s: System, r: RunState, a: R.Action, t: Attempt, n: nat, s': System)
    requires n >= 5 && a.canonical && a.id == r.actionId && IsCanonical(r) && r.target == a.target
    requires r.claim.Some? && r.execution.None?
    requires a.id in s.memory.lifecycles && s.memory.lifecycles[a.id].status == R.Approved
    requires s' == RunDequeued(Dequeued(Put(s, r), a.id), a, t, n)
    ensures Reported(s, a.id, t, s.memory.lifecycles[a.id], R.RemoveFirst(s.memory.queue, a.id), s')
  {
    CanonicalRunReports(Dequeued(Put(s, r), a.id), a, t, n);
  }

  /** A claimable action that memory has forgotten: the same, from a fresh lifecycle. */
  lemma ColdExecutionReports(s: System, id: ActionId, t: Attempt, n: nat)
    requires T.Reachable(s) && id in s.durable && Claim(s.durable[id], s.clock, s.clock).Ok?
    requires id !in s.memory.lifecycles && n >= 7
    ensures Reported(s, id, t, R.Lifecycle(R.Approved, true, 0), s.memory.queue, ExecuteCall(s, id, t, n))
  {
    T.ReachableIsGood(s);
    var r := Claim(s.durable[id], s.clock, s.clock).value;
    T.ColdFacts(s, id, r);
    ClaimedFacts(s, id, r);
    T.ColdCall(s, id, r, t, n);
    ColdRunReports(Put(s, r), Recovered(r), t, n - 2);
  }

  lemma ColdRunReports(s: System, a: R.Action, t: Attempt, n: nat)
    requires n >= 5 && T.ColdReady(s, a) && IsCanonical(s.durable[a.id])
    requires s.durable[a.id].actionId == a.id && s.durable[a.id].claim.Some? && s.durable[a.id].execution.None?
    ensures Reported(
              s, a.id, t, R.Lifecycle(R.Approved, true, 0), s.memory.queue, RunQueued(Prepare(s, a.id, None, a), a.id, t, n))
  {
    var s1 := Prepare(s, a.id, None, a);
    PreparedMemory(s, a.id, None, a);
    AppendedIsFound(s.memory.queue, a);
    CanonicalRunReports(Dequeued(s1, a.id), a, t, n);
  }

  lemma {:induction false} AppendedIsFound(q: seq<R.Action>, a: R.Action)
    requires R.Find(q, a.id) == None
    ensures R.Find(q + [a], a.id) == Some(a) && R.RemoveFirst(q + [a], a.id) == q
  {
    if q == [] {
      assert q + [a] == [a];
    } else {
      assert (q + [a])[1..] == q[1..] + [a];
      AppendedIsFound(q[1..], a);
    }
  }

  /** Outside the canonical route: the outcome shows in memory, and nothing is recorded. */
  lemma PlainRunReports(s: System, t: Attempt, n: nat)
    requires s.memory.queue != [] && !s.memory.queue[0].canonical
    requires var id := s.memory.queue[0].id;
             id in s.memory.lifecycles && s.memory.lifecycles[id].status == R.Approved
    ensures var a, rest := s.memory.queue[0], s.memory.queue[1..];
            var s' := RunNextCall(s, t, n);
            && s'.durable == s.durable && s'.worktrees == s.worktrees && a.id in s'.memory.lifecycles
            && EventsOf(s', a.id) == EventsOf(s, a.id) + [Invoked(a)]
            && Settled(s.memory.lifecycles[a.id], s'.memory.lifecycles[a.id], s'.memory.queue != rest, t, s.maxRetries)
            && (s'.memory.queue != rest ==> s'.memory.queue == rest + [a])
  {
    var a, rest := s.memory.queue[0], s.memory.queue[1..];
    var s1 := s.(memory := s.memory.(queue := rest));
    R.GateExactly(s1.memory, a);
    R.SettlesExactly(R.Begin(s1.memory, a).memory, a, t.outcome, s.maxRetries);
    assert |rest + [a]| == |rest| + 1;
  }

  /** And for a canonical head whose claim was left behind, as for an exact execution. */
  lemma ClaimedHeadReports(s: System, t: Attempt, n: nat)
    requires T.Reachable(s) && s.memory.queue != [] && s.memory.queue[0].canonical && n >= 5
    requires ClaimedUnstarted(s, s.memory.queue[0].id)
    ensures var id := s.memory.queue[0].id;
            id in s.memory.lifecycles
            && Reported(s, id, t, s.memory.lifecycles[id], s.memory.queue[1..], RunNextCall(s, t, n))
  {
    T.ReachableIsGood(s);
    var a := s.memory.queue[0];
    ClaimedHeadFacts(s);
    T.HeadIsReady(s);
    CanonicalRunReports(s.(memory := s.memory.(queue := s.memory.queue[1..])), a, t, n);
  }

  // ------------------------------------------------------------------ refused and cut off

  /** The execution of an id is accepted: nothing in memory is against it and its record can be claimed. */
  predicate Executable(s: System, id: ActionId) {
    && (id in s.memory.lifecycles ==>
          s.memory.lifecycles[id].status == R.Queued || s.memory.lifecycles[id].status == R.Approved)
    && (R.Find(s.memory.queue, id).Some? ==> R.Find(s.memory.queue, id).value.canonical)
    && id in s.durable
    && var r := s.durable[id];
       && r.role == "software_engineering" && r.capability == "code.implement"
       && r.approval == Some(Approval.Approved) && r.claim.None? && r.execution.None?
       && r.objective.Some? && Meant(r.objective.value).Some?
  }

  /** An execution first claims the record, and where it is not accepted it does nothing at all. */
  lemma ExecutionRefuses(s: System, id: ActionId, t: Attempt, n: nat)
    ensures !Executable(s, id) ==> ExecuteCall(s, id, t, n) == s
    ensures Executable(s, id) && s.durable[id].actionId == id ==>
              var s' := ExecuteCall(s, id, t, 1);
              && s'.memory == s.memory && s'.worktrees == s.worktrees && s'.events == s.events
              && s'.durable == s.durable[id := s.durable[id].(
                   claim := Some(s.clock), claimedAt := Some(s.clock), updated := Some(s.clock),
                   resolution := None, reconciledAt := None)]
  {
    if id in s.durable {
      ClaimsExactly(s.durable[id], s.clock, s.clock);
    }
  }

  /** A claim on a run that already has a result: its action leaves the queue and nothing is run. */
  lemma FinishedRunsRest(s: System, a: R.Action, r: RunState, t: Attempt, n: nat)
    requires r.claim.Some? && r.started.None? && r.execution.Some?
    ensures RunObserved(s, a, r, t, n) == s
  {
  }

  /** A start marker was added and nothing else but the version changed. */
  predicate MarkedStarted(r: RunState, r': RunState) {
    r'.started.Some? && r'.(started := r.started, updated := r.updated) == r
  }

  lemma MarkedShows(r: RunState, r': RunState)
    requires MarkedStarted(r, r') && C.PhaseOf(r) == C.ClaimedPhase
    ensures C.PhaseOf(r') == C.RunningOrAmbiguous
  {
  }

  lemma ClaimShows(r: RunState, claim: ClaimId, now: Stamp)
    requires Consistent(r) && Claim(r, claim, now).Ok?
    ensures C.PhaseOf(Claim(r, claim, now).value) == C.ClaimedPhase
  {
    ClaimsExactly(r, claim, now);
  }

  /**
   A process that dies around the worker's run: just before it and just after it the records are
   the same, started and without a result, so only an operator can tell the two apart.
   */
  lemma CutOffIsAmbiguous(s: System, a: R.Action, t: Attempt)
    requires a.canonical && a.id in s.memory.lifecycles && s.memory.lifecycles[a.id].status == R.Approved
    requires Register(Get(s.durable, a.id), ObserverRegistration(a), s.clock).Ok?
    requires a.id in s.durable && s.durable[a.id].actionId == a.id
    requires s.durable[a.id].claim.Some? && s.durable[a.id].execution.None?
    ensures var before, after := RunDequeued(s, a, t, 2), RunDequeued(s, a, t, 3);
            && before.durable == after.durable && a.id in after.durable
            && MarkedStarted(s.durable[a.id], after.durable[a.id])
            && EventsOf(before, a.id) == EventsOf(s, a.id)
            && EventsOf(after, a.id) == EventsOf(s, a.id) + [Invoked(a)]
  {
    R.GateExactly(s.memory, a);
    var s1 := s.(memory := R.Begin(s.memory, a).memory);
    var r := Register(Get(s1.durable, a.id), ObserverRegistration(a), s1.clock).value;
    RegistersAgain(s1.durable[a.id], ObserverRegistration(a), s1.clock);
    var s2 := Put(s1, r);
    MarkingStarts(s2, r);
    var s3 := MarkStarted(s2, r);
    assert RunStarted(s3, a, t, 0) == s3;
    assert RunStarted(s3, a, t, 1) == Invoke(s3, a, t.leavesWorktree);
  }

  lemma MarkingStarts(s: System, r: RunState)
    requires r.claim.Some? && r.execution.None? && r.actionId in s.durable && s.durable[r.actionId] == r
    ensures var s' := MarkStarted(s, r);
            && s'.events == s.events && r.actionId in s'.durable
            && MarkedStarted(r, s'.durable[r.actionId])
  {
  }

  /** The record shows a started run either way; only the history knows whether the worker ran. */
  ghost predicate CutOff(s: System, a: R.Action, before: System, after: System) {
    && before.durable == after.durable && a.id in after.durable
    && C.PhaseOf(after.durable[a.id]) == C.RunningOrAmbiguous
    && EventsOf(before, a.id) == EventsOf(s, a.id)
    && EventsOf(after, a.id) == EventsOf(s, a.id) + [Invoked(a)]
  }

  /** The micro-step of an execution in which its worker runs, after claim, observation and start marker. */
  const WORKER_STEP: nat := 5

  /** The same of a whole execution of a queued action, claimed and run in one call. */
  lemma ExecutionCutOff(s: System, id: ActionId, t: Attempt)
    requires T.Reachable(s) && T.WarmAndClaimable(s, id)
    requires var a := ViewOf(s, id).queued[0]; a.objective.Some? && Text.Unpadded(a.objective.value)
    ensures var before, after := ExecuteCall(s, id, t, WORKER_STEP - 1), ExecuteCall(s, id, t, WORKER_STEP);
            && CutOff(s, ViewOf(s, id).queued[0], before, after)
            && Runs(EventsOf(before, id)) == 0 && Runs(EventsOf(after, id)) == 1
  {
    T.ReachableIsGood(s);
    var a := ViewOf(s, id).queued[0];
    var r := Claim(s.durable[id], s.clock, s.clock).value;
    T.WarmFacts(s, id, r);
    ClaimedFacts(s, id, r);
    assert Good(s, id);
    ClaimShows(s.durable[id], s.clock, s.clock);
    WarmCutOff(s, id, r, a, t, WORKER_STEP - 1, WORKER_STEP);
    EventAppended(EventsOf(s, id), Invoked(a));
  }

  lemma WarmCutOff(s: System, id: ActionId, r: RunState, a: R.Action, t: Attempt, n: nat, m: nat)
    requires n == WORKER_STEP - 1 && m == WORKER_STEP
    requires id in s.durable && IsCanonical(s.durable[id]) && Claim(s.durable[id], s.clock, s.clock) == Ok(r)
    requires r.objective.Some? && r.actionId == id && C.PhaseOf(r) == C.ClaimedPhase
    requires r.claim.Some? && r.execution.None?
    requires R.Find(s.memory.queue, id) == Some(a) && a.canonical && a.id == id
    requires a.target == Recovered(r).target && a.objective == Recovered(r).objective
    requires id in s.memory.lifecycles && s.memory.lifecycles[id].status == R.Approved
    ensures CutOff(s, a, ExecuteCall(s, id, t, n), ExecuteCall(s, id, t, m))
  {
    T.WarmCall(s, id, r, a, t, n);
    T.WarmCall(s, id, r, a, t, m);
    ClaimedCutOff(s, r, a, t, ExecuteCall(s, id, t, n), ExecuteCall(s, id, t, m));
  }

  lemma ClaimedCutOff(s: System, r: RunState, a: R.Action, t: Attempt, before: System, after: System)
    requires a.canonical && a.id == r.actionId && IsCanonical(r) && r.target == a.target
    requires C.PhaseOf(r) == C.ClaimedPhase && r.claim.Some? && r.execution.None?
    requires a.id in s.memory.lifecycles && s.memory.lifecycles[a.id].status == R.Approved
    requires before == RunDequeued(Dequeued(Put(s, r), a.id), a, t, 2)
    requires after == RunDequeued(Dequeued(Put(s, r), a.id), a, t, 3)
    ensures CutOff(s, a, before, after)
  {
    var s1 := Dequeued(Put(s, r), a.id);
    assert s1.durable[a.id] == r;
    CutOffIsAmbiguous(s1, a, t);
    MarkedShows(r, after.durable[a.id]);
  }

  // ------------------------------------------------------------- delegation and planning

  /** What permission does to memory: lifecycle, queue and registry of a new action. */
  ghost predicate EvaluatedAs(m: R.Memory, m': R.Memory, a: R.Action, permission: Permission) {
    && a.id in m'.lifecycles && R.TouchesOnly(m, m'.(registry := m.registry), a)
    && m'.lifecycles[a.id] == (
         match permission
         case Allow => R.Lifecycle(R.Approved, false, 0)
         case Hold => R.Lifecycle(R.Queued, true, 0)
         case Deny => R.Lifecycle(R.Rejected, false, 0))
    && m'.queue == (if permission == Allow then m.queue + [a] else m.queue)
    && m'.registry == (if permission == Hold then m.registry[a.id := a] else m.registry)
  }

  /** A planned action is evaluated once and never recorded; an id already used is left alone. */
  lemma PlanningOutcome(s: System, a: R.Action, permission: Permission)
    ensures var s' := PlanCall(s, a, permission);
            if a.id in s.born then s' == s
            else
              && s'.durable == s.durable && s'.born == s.born[a.id := a]
              && EvaluatedAs(s.memory, s'.memory, a, permission)
              && EventsOf(s', a.id) == EventsOf(s, a.id) +
                 (match permission case Allow => [Permitted] case Hold => [] case Deny => [Refused])
  {
    assert EventsOf(s, a.id) + [] == EventsOf(s, a.id);
  }

  /**
   A delegation with text for objective and target is evaluated like any action if it has a route,
   and put on record with what was decided: approved or awaiting with its stripped objective, or
   denied or without a route and with none.
   */
  lemma DelegationOutcome(s: System, id: ActionId, objective: string, target: string, routed: bool, permission: Permission, n: nat)
    requires n >= 2 && Inv(s) && id !in s.born
    ensures var s' := DelegateCall(s, id, objective, target, routed, permission, n);
            if Text.Strip(objective) == "" || Text.Strip(target) == "" then s' == s
            else
              var a := R.Action(id, true, target, Some(objective));
              && s'.born == s.born[id := a]
              && (if routed then EvaluatedAs(s.memory, s'.memory, a, permission) else s'.memory == s.memory)
              && id in s'.durable
              && var r := s'.durable[id];
                 && r.actionId == id && r.target == target && IsCanonical(r) && Pristine(r)
                 && r.created == Some(s.clock) && r.updated == Some(s.clock)
                 && r.delegation == Some(
                      if !routed then RouteRejected
                      else match permission
                           case Allow => DelegationQueued
                           case Hold => DelegationAwaiting
                           case Deny => DelegationDenied)
                 && r.approval == (
                      if routed && permission == Allow then Some(Approval.Approved)
                      else if routed && permission == Hold then Some(Awaiting)
                      else None)
                 && r.objective == (if routed && permission != Deny then Some(Text.Strip(objective)) else None)
  {
    Text.BlankExactly(objective);
    Text.BlankExactly(target);
    if !Text.Blank(objective) && !Text.Blank(target) {
      assert id !in s.durable by {
        assert Good(s, id);
      }
      var a := R.Action(id, true, target, Some(objective));
      DelegationRecords(a, routed, permission, s.clock);
      PlanningOutcome(s, a, permission);
    }
  }

  lemma DelegationRecords(a: R.Action, routed: bool, permission: Permission, now: Stamp)
    requires a.objective.Some? && Text.Strip(a.objective.value) != ""
    ensures var reg := Register(None, DelegationRecord(a, routed, permission), now);
            && reg.Ok? && reg.value.actionId == a.id && reg.value.target == a.target
            && IsCanonical(reg.value) && Pristine(reg.value)
            && reg.value.created == Some(now) && reg.value.updated == Some(now)
            && reg.value.delegation == Some(
                 if !routed then RouteRejected
                 else match permission
                      case Allow => DelegationQueued
                      case Hold => DelegationAwaiting
                      case Deny => DelegationDenied)
            && reg.value.approval == (
                 if routed && permission == Allow then Some(Approval.Approved)
                 else if routed && permission == Hold then Some(Awaiting)
                 else None)
            && reg.value.objective ==
               (if routed && permission != Deny then Some(Text.Strip(a.objective.value)) else None)
  {
    RegistersNew(DelegationRecord(a, routed, permission), now);
  }

  // ------------------------------------------------------------------------- decisions

  /**
   What is pending under an id: the held action, or else the one an undecided canonical record
   tells of, with its objective stripped. Nothing else can be decided.
   */
  lemma ResolvesExactly(s: System, id: ActionId, a: R.Action)
    ensures Resolve(s, id) == Some(a) <==>
              if id in s.memory.registry then a == s.memory.registry[id]
              else
                && id in s.durable
                && var r := s.durable[id];
                   && r.role == "software_engineering" && r.capability == "code.implement"
                   && r.approval == Some(Awaiting) && r.claim.None? && r.execution.None?
                   && r.objective.Some? && Meant(r.objective.value).Some?
                   && a == R.Action(r.actionId, true, r.target, Meant(r.objective.value))
  {
    if id in s.durable && s.durable[id].objective.Some? {
      Text.BlankExactly(s.durable[id].objective.value);
    }
  }

  /** Nothing to decide: no pending action, or one past its decision. */
  lemma DecisionsRefuse(s: System, id: ActionId, n: nat)
    requires || (id !in s.memory.registry && (id !in s.durable || s.durable[id].approval != Some(Awaiting)))
             || (id in s.memory.lifecycles && s.memory.lifecycles[id].status != R.Queued)
    ensures ApproveCall(s, id, n) == s && RejectCall(s, id, n) == s
  {
  }

  /** The pending action of an undecided canonical record registers, whatever padding it carries. */
  lemma PendingRegisters(s: System, id: ActionId, a: R.Action)
    requires Inv(s) && T.Undecided(s, id) && Resolve(s, id) == Some(a) && a.canonical && HasObjective(a)
    ensures var reg := Register(Get(s.durable, id), DecisionRegistration(s, a), s.clock);
            && reg.Ok? && reg.value.actionId == id && a.id == id && id in s.born
            && reg.value.objective == Some(Text.Strip(a.objective.value))
            && reg.value.approval == Some(Awaiting) && reg.value.claim.None? && reg.value.execution.None?
  {
    assert Good(s, id);
    S.ResolvedIsBorn(s, id);
    Text.StripNormalises(s.born[id].objective.value);
    Text.StripNormalises(a.objective.value);
    Text.BlankExactly(a.objective.value);
  }

  /** Approval: on record, claimable, noted; in memory, approved, out of the registry, at the end of the queue. */
  lemma ApprovalOutcome(s: System, id: ActionId, a: R.Action, n: nat)
    requires n >= 3 && Inv(s) && T.Undecided(s, id) && Resolve(s, id) == Some(a)
    requires id in s.memory.lifecycles ==> s.memory.lifecycles[id].status == R.Queued
    requires a.canonical ==> HasObjective(a)
    ensures var s' := ApproveCall(s, id, n);
            && s'.memory.queue == s.memory.queue + [a]
            && s'.memory.registry == s.memory.registry - {id}
            && s'.memory.lifecycles == s.memory.lifecycles[id :=
                 if id in s.memory.lifecycles then s.memory.lifecycles[id].(status := R.Approved)
                 else R.Lifecycle(R.Approved, true, 0)]
            && EventsOf(s', id) == EventsOf(s, id) + [Granted]
            && (!a.canonical ==> s'.durable == s.durable)
            && (a.canonical ==>
                  && id in s'.durable && s'.durable[id].approval == Some(Approval.Approved)
                  && s'.durable[id].objective == Some(Text.Strip(a.objective.value))
                  && Claim(s'.durable[id], s'.clock, s'.clock).Ok?)
  {
    if a.canonical {
      PendingRegisters(s, id, a);
      var r := Register(Get(s.durable, id), DecisionRegistration(s, a), s.clock).value;
      AwaitedIsApproved(r, a.objective.value, s.clock + 1);
      var approved := RunRecord.Approve(r, a.objective.value, s.clock + 1, s.clock + 1).value;
      ApprovalCompletes(s, id, a, r, Put(s, r), approved, n);
    }
  }

  /** Two durable writes, the note, and only then memory. */
  lemma ApprovalCompletes(s: System, id: ActionId, a: R.Action, r1: RunState, s1: System, r2: RunState, n: nat)
    requires n >= 3 && HasObjective(a)
    requires Register(Get(s.durable, id), DecisionRegistration(s, a), s.clock) == Ok(r1) && s1 == Put(s, r1)
    requires RunRecord.Approve(r1, a.objective.value, s1.clock, s1.clock) == Ok(r2)
    ensures ApproveOnRecord(s, id, a, n) == Admit(Note(Put(s1, r2), id, Granted), id, a)
  {
  }

  /** An unclaimed record awaiting approval under its objective is approved, and can then be claimed at any time. */
  lemma AwaitedIsApproved(r: RunState, objective: string, now: Stamp)
    requires !Text.Blank(objective) && r.objective == Some(Text.Strip(objective))
    requires r.approval == Some(Awaiting) && r.claim.None? && r.execution.None?
    ensures var approved := RunRecord.Approve(r, objective, now, now);
            && approved.Ok? && approved.value.actionId == r.actionId
            && approved.value.approval == Some(Approval.Approved)
            && approved.value.objective == Some(Text.Strip(objective))
            && forall later :: Claim(approved.value, later, later).Ok?
  {
    Text.StripNormalises(objective);
    Text.BlankExactly(objective);
    ApprovesExactly(r, objective, now, now);
    var approved := RunRecord.Approve(r, objective, now, now).value;
    forall later
      ensures Claim(approved, later, later).Ok?
    {
      ClaimsExactly(approved, later, later);
    }
  }

  /** Rejection: on record, objective erased, noted; in memory, rejected, out of the registry, not queued. */
  lemma RejectionOutcome(s: System, id: ActionId, a: R.Action, n: nat)
    requires n >= 3 && Inv(s) && T.Undecided(s, id) && Resolve(s, id) == Some(a)
    requires id in s.memory.lifecycles ==> s.memory.lifecycles[id].status == R.Queued
    requires a.canonical ==> HasObjective(a)
    ensures var s' := RejectCall(s, id, n);
            && s'.memory.queue == s.memory.queue
            && s'.memory.registry == s.memory.registry - {id}
            && s'.memory.lifecycles == s.memory.lifecycles[id :=
                 if id in s.memory.lifecycles then s.memory.lifecycles[id].(status := R.Rejected)
                 else R.Lifecycle(R.Rejected, true, 0)]
            && EventsOf(s', id) == EventsOf(s, id) + [Declined]
            && (!a.canonical ==> s'.durable == s.durable)
            && (a.canonical ==>
                  && id in s'.durable && s'.durable[id].approval == Some(Approval.Rejected)
                  && s'.durable[id].objective.None?)
  {
    if a.canonical {
      PendingRegisters(s, id, a);
      var r := Register(Get(s.durable, id), DecisionRegistration(s, a), s.clock).value;
      RejectsExactly(r, s.clock + 1, s.clock + 1);
    }
  }

  // ---------------------------------------------- reconciliation, disposition, promotion

  /** A reconciliation replaces the record it was accepted for, or changes nothing. */
  lemma ReconciliationOutcome(s: System, id: ActionId, q: C.Request)
    requires id in s.durable ==> s.durable[id].actionId == id
    ensures var s' := ReconcileCall(s, id, q);
            && s'.memory == s.memory && s'.worktrees == s.worktrees
            && (if id in s.durable && C.Reconcile(s.durable[id], q, s.clock).Ok?
                then s'.durable == s.durable[id := C.Reconcile(s.durable[id], q, s.clock).value]
                else s' == s)
  {
    if id in s.durable && C.Reconcile(s.durable[id], q, s.clock).Ok? {
      C.ReconciliationWrites(s.durable[id], q, s.clock);
    }
  }

  /** A finished run of the canonical route whose work product is still there. */
  predicate Disposable(s: System, id: ActionId) {
    && id in s.durable && IsCanonical(s.durable[id])
    && s.durable[id].execution.Some? && s.durable[id].finished.Some? && id in s.worktrees
  }

  /**
   Keeping records the product as it stands. A discard is refused outright while its branch has
   commits of its own; otherwise the worktree goes as reported, and the discard is recorded
   exactly when nothing is left and the canonical checkout is as it was.
   */
  lemma DispositionOutcome(s: System, id: ActionId, report: DispositionReport, unmerged: bool, n: nat)
    requires n >= 2
    requires id in s.durable ==> s.durable[id].actionId == id
    ensures var s' := DisposeCall(s, id, report, unmerged, n);
            && s'.memory == s.memory
            && (if !Disposable(s, id) || (report.disposition == Discard && unmerged) then s' == s
                else if report.disposition == Keep then
                  && s'.worktrees == s.worktrees
                  && s'.durable == s.durable[id := s.durable[id].(
                       disposition := Some(Keep), dispositionSucceeded := Some(true), worktreePresent := Some(true),
                       branchPresent := Some(true), canonicalUnchanged := Some(true), updated := Some(s.clock))]
                else
                  && s'.worktrees == (if report.worktreePresent then s.worktrees else s.worktrees - {id})
                  && s'.durable == (
                       if !report.worktreePresent && !report.branchPresent && report.canonicalUnchanged then
                         s.durable[id := s.durable[id].(
                           disposition := Some(Discard), dispositionSucceeded := Some(true),
                           worktreePresent := Some(false), branchPresent := Some(false),
                           canonicalUnchanged := Some(true), updated := Some(s.clock))]
                       else s.durable))
  {
  }

  /** A kept product of a successful canonical run, everything still in place, not promoted yet. */
  predicate ReadyForRecord(s: System, id: ActionId) {
    && id in s.durable && id in s.worktrees
    && var r := s.durable[id];
       && r.role == "software_engineering" && r.capability == "code.implement"
       && r.execution == Some(Succeeded) && r.finished.Some?
       && r.disposition == Some(Keep) && r.dispositionSucceeded == Some(true)
       && r.worktreePresent == Some(true) && r.branchPresent == Some(true) && r.canonicalUnchanged == Some(true)
       && r.promoted.None?
  }

  /** A promotion is recorded with its publication exactly there; anywhere else nothing changes. */
  lemma PromotionOutcome(s: System, id: ActionId, p: Publication)
    requires id in s.durable ==> s.durable[id].actionId == id
    ensures var s' := PromoteCall(s, id, p);
            && s'.memory == s.memory && s'.worktrees == s.worktrees
            && (if !ReadyForRecord(s, id) then s' == s
                else s'.durable == s.durable[id := s.durable[id].(
                       promotionSha := Some(p.sha), prNumber := Some(p.number), prUrl := Some(p.url),
                       promotionBase := Some(p.base), promotionHead := Some(p.head),
                       promoted := Some(s.clock), updated := Some(s.clock))])
  {
  }

  /** The publication a promotion's identity stands for, given how commits are spelled. */
  function PublicationOf(r: P.Record, spell: P.Commit -> string): Publication {
    Publication(spell(r.sha), r.number, r.url, r.base, r.head)
  }

  /**
   From the first step of a promotion to its durable record: what is recorded is the one commit
   and the one pull request that were made, on the trusted base, from the action's own branch.
   */
  lemma PromotionIsRecorded(
    k: P.Config, w: P.World, steps: seq<P.Step>, origin: P.Commit, spell: P.Commit -> string, s: System, id: ActionId)
    requires P.Fresh(k, w, origin) && P.Undisturbed(k, w, steps) && P.Run(k, w, steps).recorded.Some?
    requires Inv(s) && ReadyForRecord(s, id)
    ensures var end := P.Run(k, w, steps);
            var r := PromoteCall(s, id, PublicationOf(end.recorded.value, spell)).durable[id];
            && |end.made| == 1 && end.made[0].parents == [origin]
            && r.promotionSha == Some(spell(end.made[0]))
            && r.promotionBase == Some(k.base) && r.promotionHead == Some(k.branch)
            && r.prNumber.Some? && r.prUrl.Some? && r.promoted.Some?
            && P.Ours(k, end.pulls) == [P.PullRequest(r.prNumber.value, r.prUrl.value, k.base, k.branch)]
  {
    assert Good(s, id);
    P.RunKeepsInv(k, w, steps, origin);
    PromotionOutcome(s, id, PublicationOf(P.Run(k, w, steps).recorded.value, spell));
  }

  // ------------------------------------------------------------------------ how steps end

  /**
   A call that completes, or stops with an error, leaves memory as it made it; one that dies leaves
   what it wrote and an empty memory, and a crash between calls leaves all that was written.
   */
  lemma StepsEnd(s: System, id: ActionId, t: Attempt, a: R.Action, permission: Permission, q: C.Request, n: nat)
    ensures Apply(s, Crash) == s.(memory := R.Memory([], map[], map[]))
    ensures Apply(s, Execute(id, t, Fails(n))) == ExecuteCall(s, id, t, n)
    ensures Apply(s, Execute(id, t, Dies(n))) == ExecuteCall(s, id, t, n).(memory := R.Memory([], map[], map[]))
    ensures Apply(s, Plan(a, permission)) == PlanCall(s, a, permission)
    ensures Apply(s, Reconcile(id, q)) == ReconcileCall(s, id, q)
  {
  }
}
