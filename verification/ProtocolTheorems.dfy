/** What the run protocol guarantees over whole runs, crashes and restarts included. */
module ProtocolTheorems {
  import opened Common
  import opened RunRecord
  import opened RunProtocol
  import opened ProtocolInvariant
  import opened ProtocolExecution
  import C = RunControl
  import R = ActionRuntime
  import S = RunStore
  import Text

  /** A state some admissible run from a fresh server ends in. */
  ghost predicate Reachable(s: System) {
    exists maxRetries, steps ::
      AdmissibleRun(Initial(maxRetries), steps) && s == Run(Initial(maxRetries), steps)
  }

  lemma ReachableIsGood(s: System)
    requires Reachable(s)
    ensures Inv(s)
  {
    var maxRetries, steps :|
      AdmissibleRun(Initial(maxRetries), steps) && s == Run(Initial(maxRetries), steps);
    InitialGood(maxRetries);
    RunKeepsInv(Initial(maxRetries), steps);
  }

  // ------------------------------------------------------------------- at most once

  /**
   With any executor outcomes, storage errors, crashes, restarts and reconciliations, the
   worker of a Software Engineering action is invoked at most once, and only with its
   start marker already durable.
   */
  lemma WorkerRunsAtMostOnce(s: System, id: ActionId)
    requires Reachable(s) && id in s.born && s.born[id].canonical
    ensures Runs(EventsOf(s, id)) <= 1
    ensures Runs(EventsOf(s, id)) == 1 ==> id in s.durable && s.durable[id].started.Some?
  {
    ReachableIsGood(s);
    assert Good(s, id);
  }

  /** A started record can neither be claimed again nor released. */
  lemma StartedBlocks(s: System, id: ActionId, claim: ClaimId, expected: Stamp, now: Stamp)
    requires Reachable(s) && id in s.durable && s.durable[id].started.Some?
    ensures Claim(s.durable[id], claim, now).Err?
    ensures Release(s.durable[id], expected, now).Err?
  {
    ReachableIsGood(s);
    assert Good(s, id);
  }

  /** Other actions run at most once more than the retry limit. */
  lemma RetriesAreBounded(s: System, id: ActionId)
    requires Reachable(s) && id in s.born && !s.born[id].canonical
    ensures Runs(EventsOf(s, id)) <= Cap(s.maxRetries) + 1
  {
    ReachableIsGood(s);
    assert Good(s, id);
  }

  /**
   Every invocation in the history of an action was preceded by a permission or an explicit
   approval and by no denial or rejection, and ran the id, route and target that were asked
   for, with the objective as asked or stripped.
   */
  lemma OnlyAuthorisedWorkRuns(s: System, id: ActionId, k: nat)
    requires Reachable(s) && k < |EventsOf(s, id)| && EventsOf(s, id)[k].Invoked?
    ensures Authorized(EventsOf(s, id)[..k]) && !Blocked(EventsOf(s, id)[..k])
    ensures id in s.born && SameTask(EventsOf(s, id)[k].action, s.born[id])
  {
    ReachableIsGood(s);
    assert Good(s, id);
  }

  // ------------------------------------------------------------- records and status

  lemma RecordsAreConsistent(s: System, id: ActionId)
    requires Reachable(s) && id in s.durable
    ensures Consistent(s.durable[id]) && IsCanonical(s.durable[id]) && s.durable[id].actionId == id
    ensures s.durable[id].updated.value < s.clock
  {
    ReachableIsGood(s);
    assert Good(s, id);
  }

  /** What the status view shows of a reachable record is what the service would do. */
  lemma StatusTellsTheTruth(s: System, id: ActionId, choice: C.Reconciliation, claim: ClaimId, now: Stamp)
    requires Reachable(s) && id in s.durable
    ensures var r := s.durable[id];
            && (C.Retriable(r) <==> Claim(r, claim, now).Ok?)
            && C.TokenOf(r).Ok?
            && (choice in C.Options(r) <==>
                  C.Reconcile(r, C.Request(choice, C.TokenOf(r).value, true, true), now).Ok?)
            && |C.Options(r)| <= 1
  {
    RecordsAreConsistent(s, id);
    C.RetriableExactly(s.durable[id], claim, now);
    C.OptionsExactly(s.durable[id], choice, now);
  }

  /**
   The recovered pending list is exactly the registered undecided actions, and each of them
   is rebuilt as it was delegated.
   */
  lemma PendingListIsExact(s: System, id: ActionId)
    requires Reachable(s)
    ensures id in S.PendingIds(s.durable) <==> id in s.durable && s.durable[id].approval == Some(Awaiting)
    ensures id in S.PendingIds(s.durable) ==>
              && id in s.born
              && ActionFromRecord(s.durable[id]).Some?
              && Faithful(ActionFromRecord(s.durable[id]).value, s.born[id])
  {
    ReachableIsGood(s);
    assert Good(s, id);
    if id in s.durable && s.durable[id].approval == Some(Awaiting) {
      Text.StripNormalises(s.durable[id].objective.value);
    }
  }

  // ----------------------------------------------------------------------- phases

  /** Write by write, the phase of an action follows the one fixed graph. */
  lemma PhasesFollowTheGraph(s: System, id: ActionId)
    requires Reachable(s)
    ensures C.Walk(PhasesOf(s, id))
    ensures id in s.durable ==>
              && PhasesOf(s, id) != []
              && PhasesOf(s, id)[|PhasesOf(s, id)| - 1] == C.PhaseOf(s.durable[id])
  {
    ReachableIsGood(s);
    assert Good(s, id);
  }

  /** A promoted action went through approved, claimed, running, succeeded and kept, in order. */
  lemma PromotionClimbsTheLadder(s: System, id: ActionId)
    requires Reachable(s) && id in s.durable && C.PhaseOf(s.durable[id]) == C.PromotedPhase
    ensures Subsequence(LADDER, PhasesOf(s, id))
  {
    ReachableIsGood(s);
    assert Good(s, id);
    assert LADDER[..6] == LADDER;
  }

  predicate Terminal(p: C.Phase) {
    p in {C.RejectedPhase, C.AbandonedPhase, C.Discarded, C.PromotedPhase, C.Registered, C.RoutingRejected}
  }

  /** Rejected, abandoned, discarded and promoted are never left. */
  lemma {:induction false} TerminalPhasesStay(s: System, id: ActionId, i: nat, j: nat)
    requires Reachable(s) && i <= j < |PhasesOf(s, id)| && Terminal(PhasesOf(s, id)[i])
    ensures PhasesOf(s, id)[j] == PhasesOf(s, id)[i]
    decreases j
  {
    if i < j {
      TerminalPhasesStay(s, id, i, j - 1);
      PhasesFollowTheGraph(s, id);
      var t := PhasesOf(s, id);
      assert t[j - 1] == t[j] || C.Edge(t[j - 1], t[j]);
      TerminalHasNoEdge(t[j - 1], t[j]);
    }
  }

  lemma TerminalHasNoEdge(p: C.Phase, q: C.Phase)
    requires Terminal(p)
    ensures !C.Edge(p, q)
  {
  }

  // ------------------------------------------------------------ markers and versions

  /** A later version of a record: a fresh stamp if anything changed, and its start marker kept. */
  ghost predicate Succeeds(r: RunState, r': RunState, clock: Stamp) {
    && (r' == r || (r'.updated.Some? && clock <= r'.updated.value))
    && (r.started.Some? ==> r'.started == r.started)
  }

  /** Seen from one action: its record is not lost and only moves forward. */
  ghost predicate Evolves(s: System, s': System, id: ActionId) {
    && s.clock <= s'.clock
    && (id in s.durable ==> id in s'.durable && Succeeds(s.durable[id], s'.durable[id], s.clock))
  }

  lemma EvolvesTransitive(s: System, s1: System, s2: System, id: ActionId)
    requires Evolves(s, s1, id) && Evolves(s1, s2, id)
    ensures Evolves(s, s2, id)
  {
  }

  lemma PutEvolves(s: System, r: RunState, id: ActionId)
    requires r.updated == Some(s.clock)
    requires r.actionId in s.durable && s.durable[r.actionId].started.Some? ==>
               r.started == s.durable[r.actionId].started
    ensures Evolves(s, Put(s, r), id)
  {
  }

  /** Registry and records are filed under their own id. */
  predicate Keyed(s: System, id: ActionId) {
    && (id in s.durable ==> s.durable[id].actionId == id)
    && (id in s.memory.registry ==> s.memory.registry[id].id == id)
    && (id !in s.born ==> id !in s.durable)
  }

  lemma GoodIsKeyed(s: System, id: ActionId)
    requires Good(s, id)
    ensures Keyed(s, id)
  {
  }

  /** Registering before a decision stamps the record and keeps its start marker. */
  lemma RegistersForDecision(s: System, of: ActionId, a: R.Action)
    requires Keyed(s, of) && Resolve(s, of) == Some(a)
    requires Register(Get(s.durable, of), DecisionRegistration(s, a), s.clock).Ok?
    ensures var r := Register(Get(s.durable, of), DecisionRegistration(s, a), s.clock).value;
            && r.actionId == of && r.updated == Some(s.clock)
            && (of in s.durable ==> r.started == s.durable[of].started)
  {
  }

  /** Two writes to one record, the second of which keeps the first's start marker. */
  lemma TwoWritesEvolve(s: System, r1: RunState, r2: RunState, id: ActionId)
    requires r1.updated == Some(s.clock) && r2.updated == Some(Put(s, r1).clock)
    requires r1.actionId in s.durable ==> r1.started == s.durable[r1.actionId].started
    requires r2.actionId == r1.actionId && r2.started == r1.started
    ensures Evolves(s, Put(s, r1), id) && Evolves(s, Put(Put(s, r1), r2), id)
  {
    PutEvolves(s, r1, id);
    PutEvolves(Put(s, r1), r2, id);
    EvolvesTransitive(s, Put(s, r1), Put(Put(s, r1), r2), id);
  }

  /** Wherever a decision call stops, the records it leaves are later versions. */
  lemma DecisionEvolves(
    s: System, of: ActionId, decided: Result<RunState, StateError>, e: Event, s': System, id: ActionId)
    requires Keyed(s, of) && DecisionEnds(s, of, decided, e, s')
    requires decided.Ok? && Resolve(s, of).Some? ==>
               var reg := Register(Get(s.durable, of), DecisionRegistration(s, Resolve(s, of).value), s.clock);
               reg.Ok? ==>
                 && decided.value.actionId == reg.value.actionId && decided.value.started == reg.value.started
                 && decided.value.updated == Some(s.clock + 1)
    ensures Evolves(s, s', id)
  {
    if s' != s && s' != Note(s, of, e) {
      var a := Resolve(s, of).value;
      RegistersForDecision(s, of, a);
      var r := Register(Get(s.durable, of), DecisionRegistration(s, a), s.clock).value;
      PutEvolves(s, r, id);
      if decided.Ok? {
        TwoWritesEvolve(s, r, decided.value, id);
      }
    }
  }

  lemma ApprovalEvolves(s: System, of: ActionId, n: nat, id: ActionId)
    requires Keyed(s, of)
    ensures Evolves(s, ApproveCall(s, of, n), id)
  {
    ApprovalEnds(s, of, n);
    DecisionEvolves(s, of, Approving(s, of), Granted, ApproveCall(s, of, n).(memory := s.memory), id);
  }

  lemma RejectionEvolves(s: System, of: ActionId, n: nat, id: ActionId)
    requires Keyed(s, of)
    ensures Evolves(s, RejectCall(s, of, n), id)
  {
    RejectionEnds(s, of, n);
    DecisionEvolves(s, of, Rejecting(s, of), Declined, RejectCall(s, of, n).(memory := s.memory), id);
  }

  lemma MarkStartedEvolves(s: System, r: RunState, id: ActionId)
    requires r.actionId in s.durable && s.durable[r.actionId] == r
    ensures var s' := MarkStarted(s, r);
            Evolves(s, s', id) && r.actionId in s'.durable && s'.durable[r.actionId].actionId == r.actionId
  {
    if r.claim.Some? && r.started.None? && Start(r, s.clock, s.clock).Ok? {
      PutEvolves(s, Start(r, s.clock, s.clock).value, id);
    }
  }

  lemma RunObservedEvolves(s: System, a: R.Action, r: RunState, t: Attempt, n: nat, id: ActionId)
    requires a.id in s.durable && s.durable[a.id] == r && r.actionId == a.id
    ensures Evolves(s, RunObserved(s, a, r, t, n), id)
  {
    if n > 0 && !StartRefused(r) {
      MarkStartedEvolves(s, r, id);
      var s3 := MarkStarted(s, r);
      if n > 2 {
        var s4 := Invoke(s3, a, t.leavesWorktree);
        var r5 := Finish(s4.durable[a.id], ExecutionOf(t.outcome), s4.clock, t.external, s4.clock);
        PutEvolves(s4, r5, id);
        EvolvesTransitive(s, s4, Put(s4, r5), id);
      }
    }
  }

  lemma RunDequeuedEvolves(s: System, a: R.Action, t: Attempt, n: nat, id: ActionId)
    requires a.id in s.durable ==> s.durable[a.id].actionId == a.id
    ensures Evolves(s, RunDequeued(s, a, t, n), id)
  {
    var b := R.Begin(s.memory, a);
    if b.Underway? && a.canonical && n > 0 {
      ObservedRunEvolves(s, s.(memory := b.memory), a, t, n, id);
    }
  }

  /** The observer's registration stamps the record and keeps its start marker. */
  lemma ObserverRegisters(s: System, a: R.Action)
    requires a.id in s.durable ==> s.durable[a.id].actionId == a.id
    ensures var reg := Register(Get(s.durable, a.id), ObserverRegistration(a), s.clock);
            reg.Ok? ==>
              && reg.value.actionId == a.id && reg.value.updated == Some(s.clock)
              && (a.id in s.durable ==> reg.value.started == s.durable[a.id].started)
  {
  }

  lemma ObservedRunEvolves(s: System, s1: System, a: R.Action, t: Attempt, n: nat, id: ActionId)
    requires n > 0 && s1.durable == s.durable && s1.clock == s.clock
    requires a.id in s.durable ==> s.durable[a.id].actionId == a.id
    ensures var reg := Register(Get(s1.durable, a.id), ObserverRegistration(a), s1.clock);
            reg.Ok? ==> Evolves(s, RunObserved(Put(s1, reg.value), a, reg.value, t, n - 1), id)
  {
    var reg := Register(Get(s1.durable, a.id), ObserverRegistration(a), s1.clock);
    if reg.Ok? {
      ObserverRegisters(s1, a);
      var s2 := Put(s1, reg.value);
      assert a.id in s2.durable && s2.durable[a.id] == reg.value;
      PutEvolves(s1, reg.value, id);
      RunObservedEvolves(s2, a, reg.value, t, n - 1, id);
      EvolvesTransitive(s, s2, RunObserved(s2, a, reg.value, t, n - 1), id);
    }
  }

  lemma RunQueuedEvolves(s: System, of: ActionId, t: Attempt, n: nat, id: ActionId)
    requires of in s.durable ==> s.durable[of].actionId == of
    ensures Evolves(s, RunQueued(s, of, t, n), id)
  {
    var found := R.Find(s.memory.queue, of);
    if found.Some? {
      R.FindIsFirstOccurrence(s.memory.queue, of);
      RunDequeuedEvolves(
        s.(memory := s.memory.(queue := R.RemoveFirst(s.memory.queue, of))), found.value, t, n, id);
    }
  }

  lemma ClaimEvolves(s: System, of: ActionId, r: RunState, id: ActionId)
    requires Keyed(s, of) && of in s.durable && Claim(s.durable[of], s.clock, s.clock) == Ok(r)
    ensures r.actionId == of && Evolves(s, Put(s, r), id)
  {
    PutEvolves(s, r, id);
  }

  lemma ExecutionEvolves(s: System, of: ActionId, t: Attempt, n: nat, id: ActionId)
    requires Keyed(s, of)
    ensures Evolves(s, ExecuteCall(s, of, t, n), id)
  {
    if ExecuteCall(s, of, t, n) != s {
      ExecuteClaims(s, of, t, n);
      var r := Claim(s.durable[of], s.clock, s.clock).value;
      if ExecuteCall(s, of, t, n) != Put(s, r) {
        PreparedRunEvolves(
          Put(s, r), of, R.Find(s.memory.queue, of), Recovered(r), t, n - 2, ExecuteCall(s, of, t, n), id);
      }
      AfterClaimEvolves(s, of, r, ExecuteCall(s, of, t, n), id);
    }
  }

  /** Whatever follows a claim, the record has only moved forward since before it. */
  lemma AfterClaimEvolves(s: System, of: ActionId, r: RunState, s': System, id: ActionId)
    requires Keyed(s, of) && of in s.durable && Claim(s.durable[of], s.clock, s.clock) == Ok(r)
    requires s' == Put(s, r) || Evolves(Put(s, r), s', id)
    ensures Evolves(s, s', id)
  {
    ClaimEvolves(s, of, r, id);
    if s' != Put(s, r) {
      EvolvesTransitive(s, Put(s, r), s', id);
    }
  }

  lemma PreparedRunEvolves(
    s: System, of: ActionId, queued: Option<R.Action>, a: R.Action, t: Attempt, n: nat, s': System, id: ActionId)
    requires of in s.durable && s.durable[of].actionId == of
    requires s' == RunQueued(Prepare(s, of, queued, a), of, t, n)
    ensures Evolves(s, s', id)
  {
    PreparedMemory(s, of, queued, a);
    RunQueuedEvolves(Prepare(s, of, queued, a), of, t, n, id);
  }

  lemma ReconcileEvolves(s: System, of: ActionId, q: C.Request, id: ActionId)
    requires Keyed(s, of)
    ensures Evolves(s, ReconcileCall(s, of, q), id)
  {
    if of in s.durable && C.Reconcile(s.durable[of], q, s.clock).Ok? {
      PutEvolves(s, C.Reconcile(s.durable[of], q, s.clock).value, id);
    }
  }

  lemma DisposeEvolves(s: System, of: ActionId, report: DispositionReport, unmerged: bool, n: nat, id: ActionId)
    requires Keyed(s, of)
    ensures Evolves(s, DisposeCall(s, of, report, unmerged, n), id)
  {
  }

  lemma PromoteEvolves(s: System, of: ActionId, p: Publication, id: ActionId)
    requires Keyed(s, of)
    ensures Evolves(s, PromoteCall(s, of, p), id)
  {
  }

  lemma DelegateEvolves(
    s: System, of: ActionId, objective: string, target: string, routed: bool, permission: Permission, n: nat, id: ActionId)
    requires Keyed(s, of)
    ensures Evolves(s, DelegateCall(s, of, objective, target, routed, permission, n), id)
  {
    if of !in s.born {
      assert of !in s.durable;
    }
  }

  lemma CallEvolves(s: System, step: Step, id: ActionId)
    requires Inv(s)
    ensures Evolves(s, Call(s, step), id)
  {
    match step {
      case Delegate(of, objective, target, routed, permission, f) =>
        GoodIsKeyed(s, of);
        DelegateEvolves(s, of, objective, target, routed, permission, Budget(f), id);
      case Approve(of, f) =>
        GoodIsKeyed(s, of);
        ApprovalEvolves(s, of, Budget(f), id);
      case Reject(of, f) =>
        GoodIsKeyed(s, of);
        RejectionEvolves(s, of, Budget(f), id);
      case Execute(of, t, f) =>
        GoodIsKeyed(s, of);
        ExecutionEvolves(s, of, t, Budget(f), id);
      case RunNext(t, f) =>
        if s.memory.queue != [] {
          var a := s.memory.queue[0];
          GoodIsKeyed(s, a.id);
          RunDequeuedEvolves(s.(memory := s.memory.(queue := s.memory.queue[1..])), a, t, Budget(f), id);
        }
      case Reconcile(of, q) =>
        GoodIsKeyed(s, of);
        ReconcileEvolves(s, of, q, id);
      case Dispose(of, report, unmerged, f) =>
        GoodIsKeyed(s, of);
        DisposeEvolves(s, of, report, unmerged, Budget(f), id);
      case Promote(of, p) =>
        GoodIsKeyed(s, of);
        PromoteEvolves(s, of, p, id);
      case Plan(_, _) =>
      case Crash =>
    }
  }

  /** Seen from any action, every step moves its record forward or leaves it alone. */
  lemma StepEvolves(s: System, step: Step, id: ActionId)
    requires Inv(s)
    ensures Evolves(s, Apply(s, step), id)
  {
    CallEvolves(s, step, id);
  }

  /** Across any number of further steps a start marker stays where it is. */
  lemma {:induction false} StartMarkerStays(s: System, steps: seq<Step>, id: ActionId)
    requires Inv(s) && AdmissibleRun(s, steps) && id in s.durable && s.durable[id].started.Some?
    ensures id in Run(s, steps).durable && Run(s, steps).durable[id].started == s.durable[id].started
    decreases |steps|
  {
    if steps != [] {
      StepEvolves(s, steps[0], id);
      StepKeepsInv(s, steps[0]);
      StartMarkerStays(Apply(s, steps[0]), steps[1..], id);
    }
  }

  /** A record that changed has a version it never had before. */
  lemma VersionsOnlyGrow(s: System, s': System, id: ActionId)
    requires Good(s, id) && Evolves(s, s', id) && id in s.durable
    ensures s'.durable[id] == s.durable[id] ||
            (s'.durable[id].updated.Some? && s.durable[id].updated.value < s'.durable[id].updated.value)
  {
  }

  /** However the run goes on, a token is valid again only if nothing was written in between. */
  lemma {:induction false} TokensNeverReturn(s: System, steps: seq<Step>, id: ActionId)
    requires Inv(s) && AdmissibleRun(s, steps) && id in s.durable
    ensures var s' := Run(s, steps);
            && id in s'.durable
            && s'.durable[id].updated.Some?
            && s.durable[id].updated.Some?
            && s.durable[id].updated.value <= s'.durable[id].updated.value
            && (s'.durable[id] == s.durable[id] || C.TokenOf(s'.durable[id]) != C.TokenOf(s.durable[id]))
            && (s'.durable[id] == s.durable[id] || s.durable[id].updated.value < s'.durable[id].updated.value)
    decreases |steps|
  {
    assert Good(s, id);
    if steps != [] {
      var s1 := Apply(s, steps[0]);
      StepEvolves(s, steps[0], id);
      VersionsOnlyGrow(s, s1, id);
      StepKeepsInv(s, steps[0]);
      TokensNeverReturn(s1, steps[1..], id);
    }
  }

  // ------------------------------------------------------------------------ decisions

  /** Not decided yet: no record, or one that awaits approval. */
  predicate Undecided(s: System, id: ActionId) {
    id in s.durable ==> s.durable[id].approval == Some(Awaiting)
  }

  /** What a restarted server makes of an undecided record: the pending action that was delegated. */
  ghost predicate StillPending(s: System, id: ActionId) {
    && id in s.durable && s.durable[id].approval == Some(Awaiting)
    && id in s.born && Resolve(s, id).Some? && Faithful(Resolve(s, id).value, s.born[id])
  }

  /** What it makes of an approved one: nothing pending, the approval in the history, a claim away from running. */
  ghost predicate ApprovedForGood(s: System, id: ActionId) {
    && id in s.durable && s.durable[id].approval == Some(Approval.Approved)
    && Granted in EventsOf(s, id) && Resolve(s, id).None?
    && Claim(s.durable[id], s.clock, s.clock).Ok?
  }

  /** And of a rejected one: nothing pending, the objective gone, never to be claimed. */
  ghost predicate RejectedForGood(s: System, id: ActionId) {
    && id in s.durable && s.durable[id].approval == Some(Approval.Rejected)
    && Declined in EventsOf(s, id) && Resolve(s, id).None?
    && s.durable[id].objective.None? && Claim(s.durable[id], s.clock, s.clock).Err?
  }

  /**
   A crash at any point of an approval leaves either the old decision or the new one: after the
   restart the action is pending as it was delegated, or approved, noted and claimable. It is
   unrecorded only if it was so before.
   */
  lemma ApprovalIsAtomic(s: System, id: ActionId, n: nat)
    requires Inv(s) && Undecided(s, id)
    ensures var s' := Apply(s, Approve(id, Dies(n)));
            && (id in s.durable ==> id in s'.durable)
            && (id in s'.durable ==> StillPending(s', id) || ApprovedForGood(s', id))
  {
    var s' := Apply(s, Approve(id, Dies(n)));
    StepKeepsInv(s, Approve(id, Dies(n)));
    ApprovalEnds(s, id, n);
    DecidedRecords(s, id);
    DecisionLeaves(s, id, Approving(s, id), Granted, ApproveCall(s, id, n).(memory := s.memory));
    AfterRestart(ApproveCall(s, id, n).(memory := s.memory), s', id, Approving(s, id), Granted);
  }

  lemma RejectionIsAtomic(s: System, id: ActionId, n: nat)
    requires Inv(s) && Undecided(s, id)
    ensures var s' := Apply(s, Reject(id, Dies(n)));
            && (id in s.durable ==> id in s'.durable)
            && (id in s'.durable ==> StillPending(s', id) || RejectedForGood(s', id))
  {
    var s' := Apply(s, Reject(id, Dies(n)));
    StepKeepsInv(s, Reject(id, Dies(n)));
    RejectionEnds(s, id, n);
    DecidedRecords(s, id);
    DecisionLeaves(s, id, Rejecting(s, id), Declined, RejectCall(s, id, n).(memory := s.memory));
    AfterRestart(RejectCall(s, id, n).(memory := s.memory), s', id, Rejecting(s, id), Declined);
  }

  /** What recovery makes of an unclaimed record without a result. */
  lemma UnclaimedAfterRestart(s: System, id: ActionId)
    requires Inv(s) && s.memory == R.Blank && id in s.durable && s.durable[id].claim.None?
    ensures s.durable[id].approval == Some(Awaiting) ==> StillPending(s, id)
    ensures s.durable[id].approval != Some(Awaiting) ==> Resolve(s, id).None?
    ensures Claim(s.durable[id], s.clock, s.clock).Ok? <==> s.durable[id].approval == Some(Approval.Approved)
  {
    assert Good(s, id);
    ClaimableExactly(s.durable[id], s.clock, s.clock);
    if s.durable[id].approval == Some(Awaiting) {
      Text.StripNormalises(s.durable[id].objective.value);
      Text.BlankExactly(s.durable[id].objective.value);
    }
  }

  /** What recovery makes of the record once memory is gone. */
  lemma AfterRestart(s: System, s': System, id: ActionId, decided: Result<RunState, StateError>, e: Event)
    requires s' == s.(memory := R.Blank) && Inv(s') && Shows(s, id, decided, e)
    ensures id in s'.durable && s'.durable[id].approval == Some(Awaiting) ==> StillPending(s', id)
    ensures id in s'.durable && s'.durable[id].approval != Some(Awaiting) ==>
              && decided.Ok? && s'.durable[id] == decided.value && e in EventsOf(s', id) && Resolve(s', id).None?
              && (Claim(s'.durable[id], s'.clock, s'.clock).Ok? <==> decided.value.approval == Some(Approval.Approved))
  {
    if id in s'.durable {
      UnclaimedAfterRestart(s', id);
    }
  }

  /** The records the two decisions write. */
  lemma DecidedRecords(s: System, id: ActionId)
    requires Inv(s) && Undecided(s, id)
    ensures Approving(s, id).Ok? ==>
              && Approving(s, id).value.claim.None? && Approving(s, id).value.approval == Some(Approval.Approved)
              && Approving(s, id).value.actionId == id
    ensures Rejecting(s, id).Ok? ==>
              && Rejecting(s, id).value.claim.None? && Rejecting(s, id).value.approval == Some(Approval.Rejected)
              && Rejecting(s, id).value.objective.None? && Rejecting(s, id).value.actionId == id
  {
    assert Good(s, id);
  }

  lemma RegisteredUndecided(s: System, id: ActionId, a: R.Action)
    requires Inv(s) && Undecided(s, id) && Resolve(s, id) == Some(a) && a.canonical
    requires Register(Get(s.durable, id), DecisionRegistration(s, a), s.clock).Ok?
    ensures var r := Register(Get(s.durable, id), DecisionRegistration(s, a), s.clock).value;
            r.actionId == id && r.approval == Some(Awaiting) && r.claim.None? && r.execution.None?
  {
    assert Good(s, id);
  }

  /**
   The states a decision call can leave, memory aside, wherever it stops: the one it found,
   perhaps with the decision noted, the one with its registration, or the one with the
   decision written and noted.
   */
  ghost predicate DecisionEnds(s: System, id: ActionId, decided: Result<RunState, StateError>, e: Event, rest: System) {
    || rest == s
    || rest == Note(s, id, e)
    || (&& Resolve(s, id).Some? && Resolve(s, id).value.canonical
        && var reg := Register(Get(s.durable, id), DecisionRegistration(s, Resolve(s, id).value), s.clock);
           && reg.Ok?
           && (|| rest == Put(s, reg.value)
               || (decided.Ok? && rest == Note(Put(Put(s, reg.value), decided.value), id, e))))
  }

  /** The record an approval writes, if it gets to write one. */
  function Approving(s: System, id: ActionId): Result<RunState, StateError> {
    if Resolve(s, id).None? || !HasObjective(Resolve(s, id).value) then Err(NoSuchRun)
    else
      var a := Resolve(s, id).value;
      match Register(Get(s.durable, id), DecisionRegistration(s, a), s.clock)
      case Err(e) => Err(e)
      case Ok(r) => RunRecord.Approve(r, a.objective.value, s.clock + 1, s.clock + 1)
  }

  function Rejecting(s: System, id: ActionId): Result<RunState, StateError> {
    if Resolve(s, id).None? then Err(NoSuchRun)
    else
      match Register(Get(s.durable, id), DecisionRegistration(s, Resolve(s, id).value), s.clock)
      case Err(e) => Err(e)
      case Ok(r) => RunRecord.Reject(r, s.clock + 1, s.clock + 1)
  }

  lemma ApprovalEnds(s: System, id: ActionId, n: nat)
    ensures DecisionEnds(s, id, Approving(s, id), Granted, ApproveCall(s, id, n).(memory := s.memory))
  {
  }

  lemma RejectionEnds(s: System, id: ActionId, n: nat)
    ensures DecisionEnds(s, id, Rejecting(s, id), Declined, RejectCall(s, id, n).(memory := s.memory))
  {
  }

  /** What the record shows in each of those states. */
  ghost predicate Shows(s': System, id: ActionId, decided: Result<RunState, StateError>, e: Event) {
    id in s'.durable ==>
      && s'.durable[id].claim.None?
      && (s'.durable[id].approval == Some(Awaiting)
          || (decided.Ok? && s'.durable[id] == decided.value && e in EventsOf(s', id)))
  }

  lemma RegistrationShows(s: System, r: RunState, decided: Result<RunState, StateError>, e: Event)
    requires r.approval == Some(Awaiting) && r.claim.None?
    ensures Shows(Put(s, r), r.actionId, decided, e)
  {
  }

  lemma DecisionShows(s: System, r: RunState, decided: Result<RunState, StateError>, e: Event)
    requires decided.Ok? && decided.value.claim.None? && decided.value.actionId == r.actionId
    ensures Shows(Note(Put(Put(s, r), decided.value), r.actionId, e), r.actionId, decided, e)
  {
  }

  lemma UndecidedIsUnclaimed(s: System, id: ActionId)
    requires Inv(s) && Undecided(s, id)
    ensures id in s.durable ==> s.durable[id].claim.None?
  {
    assert Good(s, id);
  }

  /** Ending undecided or decided, and unclaimed either way. */
  lemma DecisionLeaves(s: System, id: ActionId, decided: Result<RunState, StateError>, e: Event, s': System)
    requires Inv(s) && Undecided(s, id) && DecisionEnds(s, id, decided, e, s')
    requires decided.Ok? ==> decided.value.claim.None? && decided.value.actionId == id
    ensures id in s.durable ==> id in s'.durable
    ensures Shows(s', id, decided, e)
  {
    UndecidedIsUnclaimed(s, id);
    if s' != s && s' != Note(s, id, e) {
      var a := Resolve(s, id).value;
      RegisteredUndecided(s, id, a);
      WrittenShows(s, Register(Get(s.durable, id), DecisionRegistration(s, a), s.clock).value, decided, e, s');
    }
  }

  lemma WrittenShows(s: System, r: RunState, decided: Result<RunState, StateError>, e: Event, s': System)
    requires r.approval == Some(Awaiting) && r.claim.None?
    requires decided.Ok? ==> decided.value.claim.None? && decided.value.actionId == r.actionId
    requires s' == Put(s, r) || (decided.Ok? && s' == Note(Put(Put(s, r), decided.value), r.actionId, e))
    ensures r.actionId in s'.durable && Shows(s', r.actionId, decided, e)
  {
    RegistrationShows(s, r, decided, e);
    if decided.Ok? {
      DecisionShows(s, r, decided, e);
    }
  }

  // --------------------------------------------------------------- the warm path and padding

  /** Ready to run and waiting in the queue, with nothing in the way but the objective. */
  ghost predicate WarmAndClaimable(s: System, id: ActionId) {
    && id in s.durable
    && Claim(s.durable[id], s.clock, s.clock).Ok?
    && ViewOf(s, id).queued != []
    && ViewOf(s, id).queued[0].canonical
  }

  /**
   A queued action is run exactly when its raw objective is what the record holds. A padded
   objective is claimed and then refused, and the claim stays behind.
   */
  lemma WarmPathNeedsUnpadded(s: System, id: ActionId, t: Attempt)
    requires Reachable(s) && WarmAndClaimable(s, id)
    ensures var a := ViewOf(s, id).queued[0];
            var s' := Apply(s, Execute(id, t, Completes));
            && a.objective.Some?
            && id in s'.durable
            && Runs(EventsOf(s', id)) == (if Text.Unpadded(a.objective.value) then 1 else 0)
            && (!Text.Unpadded(a.objective.value) ==>
                  s'.durable[id].claim.Some? && s'.durable[id].started.None? && s'.memory == s.memory)
  {
    ReachableIsGood(s);
    var a := ViewOf(s, id).queued[0];
    var r := Claim(s.durable[id], s.clock, s.clock).value;
    WarmFacts(s, id, r);
    if Text.Unpadded(a.objective.value) {
      WarmRunInvokes(s, id, r, t, ALL_STEPS);
    } else {
      assert ExecuteCall(s, id, t, ALL_STEPS) == Put(s, r);
    }
  }

  /** The queued objective matches the claimed one exactly when it is unpadded. */
  lemma WarmFacts(s: System, id: ActionId, r: RunState)
    requires Inv(s) && WarmAndClaimable(s, id) && Claim(s.durable[id], s.clock, s.clock) == Ok(r)
    ensures var a := ViewOf(s, id).queued[0];
            && ViewOf(s, id).queued == [a] && R.Find(s.memory.queue, id) == Some(a) && a.id == id
            && HasStatus(ViewOf(s, id), R.Approved)
            && IsCanonical(s.durable[id]) && r.actionId == id && r.objective.Some? && a.objective.Some?
            && a.target == Recovered(r).target
            && (a.objective == Recovered(r).objective <==> Text.Unpadded(a.objective.value))
            && Runs(EventsOf(s, id)) == 0 && r.claim.Some? && r.started.None?
  {
    assert Good(s, id);
    R.FindIsFirstOccurrence(s.memory.queue, id);
    ClaimedFacts(s, id, r);
    var a := ViewOf(s, id).queued[0];
    Text.StripNormalises(s.born[id].objective.value);
    Text.StripNormalises(a.objective.value);
    Text.StripNormalises(r.objective.value);
  }

  /** Past the gate, and far enough along, the worker is invoked exactly once. */
  lemma RunObservedInvokes(s: System, a: R.Action, r: RunState, t: Attempt, n: nat)
    requires n >= 2 && a.id in s.durable && r.actionId == a.id && !StartRefused(r)
    ensures var s' := RunObserved(s, a, r, t, n);
            EventsOf(s', a.id) == EventsOf(s, a.id) + [Invoked(a)] && a.id in s'.durable
  {
    var s3 := MarkStarted(s, r);
    assert EventsOf(s3, a.id) == EventsOf(s, a.id) && a.id in s3.durable;
  }

  lemma RunDequeuedInvokes(s: System, a: R.Action, t: Attempt, n: nat)
    requires R.Begin(s.memory, a).Underway? && a.canonical && n >= 3
    requires Register(Get(s.durable, a.id), ObserverRegistration(a), s.clock).Ok?
    requires a.id in s.durable ==> s.durable[a.id].actionId == a.id && !StartRefused(s.durable[a.id])
    ensures var s' := RunDequeued(s, a, t, n);
            EventsOf(s', a.id) == EventsOf(s, a.id) + [Invoked(a)] && a.id in s'.durable
  {
    var s1 := s.(memory := R.Begin(s.memory, a).memory);
    var r := Register(Get(s1.durable, a.id), ObserverRegistration(a), s1.clock).value;
    RunObservedInvokes(Put(s1, r), a, r, t, n - 1);
  }

  /** With the claimed action queued as the record holds it, that entry leaves the queue and runs. */
  lemma WarmCall(s: System, id: ActionId, r: RunState, a: R.Action, t: Attempt, n: nat)
    requires n > 1 && id in s.durable && IsCanonical(s.durable[id]) && Claim(s.durable[id], s.clock, s.clock) == Ok(r)
    requires r.objective.Some? && R.Find(s.memory.queue, id) == Some(a) && a.canonical
    requires a.target == Recovered(r).target && a.objective == Recovered(r).objective
    requires id in s.memory.lifecycles && s.memory.lifecycles[id].status == R.Approved
    ensures ExecuteCall(s, id, t, n) == RunDequeued(Dequeued(Put(s, r), id), a, t, n - 2)
  {
    assert Prepare(Put(s, r), id, Some(a), Recovered(r)) == Put(s, r);
  }

  lemma WarmRunInvokes(s: System, id: ActionId, r: RunState, t: Attempt, n: nat)
    requires Inv(s) && WarmAndClaimable(s, id) && Claim(s.durable[id], s.clock, s.clock) == Ok(r)
    requires ViewOf(s, id).queued[0].objective.Some? && Text.Unpadded(ViewOf(s, id).queued[0].objective.value)
    requires n >= 5
    ensures var s' := ExecuteCall(s, id, t, n);
            id in s'.durable && Runs(EventsOf(s', id)) == 1
  {
    var a := ViewOf(s, id).queued[0];
    WarmFacts(s, id, r);
    WarmCall(s, id, r, a, t, n);
    ClaimedFacts(s, id, r);
    RunDequeuedInvokes(Dequeued(Put(s, r), id), a, t, n - 2);
    EventAppended(EventsOf(s, id), Invoked(a));
  }

  /**
   After a restart nothing is queued to compare with: whatever padding the objective had, an
   execution of a claimable action that memory has forgotten runs it, once it gets as far as
   its fifth step.
   */
  lemma ColdPathAlwaysRuns(s: System, id: ActionId, t: Attempt, n: nat)
    requires Reachable(s) && id in s.durable && Claim(s.durable[id], s.clock, s.clock).Ok?
    requires id !in s.memory.lifecycles && n >= 5
    ensures Runs(EventsOf(ExecuteCall(s, id, t, n), id)) == 1
  {
    ReachableIsGood(s);
    var r := Claim(s.durable[id], s.clock, s.clock).value;
    ColdFacts(s, id, r);
    ColdCall(s, id, r, t, n);
    ColdRunInvokes(Put(s, r), Recovered(r), t, n - 2);
  }

  /** With nothing queued, the claimed action itself is prepared and run. */
  lemma ColdCall(s: System, id: ActionId, r: RunState, t: Attempt, n: nat)
    requires n > 1 && id in s.durable && IsCanonical(s.durable[id]) && Claim(s.durable[id], s.clock, s.clock) == Ok(r)
    requires id !in s.memory.lifecycles && R.Find(s.memory.queue, id) == None && r.objective.Some?
    ensures ExecuteCall(s, id, t, n) == RunQueued(Prepare(Put(s, r), id, None, Recovered(r)), id, t, n - 2)
  {
  }

  lemma ColdFacts(s: System, id: ActionId, r: RunState)
    requires Inv(s) && id in s.durable && Claim(s.durable[id], s.clock, s.clock) == Ok(r)
    requires id !in s.memory.lifecycles
    ensures R.Find(s.memory.queue, id) == None && IsCanonical(s.durable[id])
    ensures r.objective.Some? && r.actionId == id
    ensures Inv(Put(s, r)) && ColdReady(Put(s, r), Recovered(r))
  {
    assert Good(s, id);
    R.FindIsFirstOccurrence(s.memory.queue, id);
    ClaimedFacts(s, id, r);
  }

  /** Claimed on record, unknown to memory, never run. */
  ghost predicate ColdReady(s: System, a: R.Action) {
    && a.canonical && a.id in s.born && s.born[a.id].canonical && Faithful(a, s.born[a.id])
    && a.id in s.durable && s.durable[a.id].approval == Some(Approval.Approved)
    && s.durable[a.id].started.None? && s.durable[a.id].target == a.target
    && a.id !in s.memory.lifecycles && R.Find(s.memory.queue, a.id) == None
    && Runs(EventsOf(s, a.id)) == 0
  }

  lemma ColdRunInvokes(s: System, a: R.Action, t: Attempt, n: nat)
    requires Inv(s) && ColdReady(s, a) && n >= 3
    ensures Runs(EventsOf(RunQueued(Prepare(s, a.id, None, a), a.id, t, n), a.id)) == 1
  {
    var s1 := Prepare(s, a.id, None, a);
    PrepareGood(s, a.id, None, a);
    var s2 := Dequeued(s1, a.id);
    assert Good(s1, a.id);
    R.FindIsFirstOccurrence(s1.memory.queue, a.id);
    GateGood(s1, a);
    ReobserveWritable(ViewOf(s1, a.id), s1.durable[a.id], a, s1.clock, s1.maxRetries);
    RunDequeuedInvokes(s2, a, t, n);
    EventAppended(EventsOf(s, a.id), Invoked(a));
  }

  // -------------------------------------------------------------- outside the protocol

  /** The promise about one action: run at most once, and then with its start marker durable. */
  predicate AtMostOnce(s: System, id: ActionId) {
    && Runs(EventsOf(s, id)) <= 1
    && (Runs(EventsOf(s, id)) == 1 ==> id in s.durable && s.durable[id].started.Some?)
  }

  /**
   The FIFO entry takes no claim. Of a canonical action at the head of the queue it keeps the
   promise exactly when the record happens to hold an unstarted claim; otherwise it runs an
   action without a start marker, or runs it again. `n` is how far the call gets, from the
   worker's invocation on.
   */
  lemma FifoKeepsThePromiseExactly(s: System, t: Attempt, n: nat)
    requires Reachable(s) && s.memory.queue != [] && s.memory.queue[0].canonical && n >= 3
    ensures var id := s.memory.queue[0].id;
            var s' := RunNextCall(s, t, n);
            && Runs(EventsOf(s', id)) == Runs(EventsOf(s, id)) + 1
            && (AtMostOnce(s', id) <==> ClaimedUnstarted(s, id))
  {
    ReachableIsGood(s);
    var a := s.memory.queue[0];
    HeadIsReady(s);
    var s1 := s.(memory := s.memory.(queue := s.memory.queue[1..]));
    FifoEffect(s1, a, t, n);
    EventAppended(EventsOf(s, a.id), Invoked(a));
  }

  /** What the run does to the history and the start marker. */
  lemma FifoEffect(s: System, a: R.Action, t: Attempt, n: nat)
    requires R.Begin(s.memory, a).Underway? && a.canonical && n >= 3
    requires Register(Get(s.durable, a.id), ObserverRegistration(a), s.clock).Ok?
    requires a.id in s.durable ==> s.durable[a.id].actionId == a.id && Consistent(s.durable[a.id])
    ensures var s' := RunDequeued(s, a, t, n);
            && EventsOf(s', a.id) == EventsOf(s, a.id) + [Invoked(a)]
            && a.id in s'.durable
            && (s'.durable[a.id].started.Some? <==>
                  a.id in s.durable && (s.durable[a.id].claim.Some? || s.durable[a.id].started.Some?))
  {
    RunDequeuedInvokes(s, a, t, n);
    var s1 := s.(memory := R.Begin(s.memory, a).memory);
    var r := Register(Get(s1.durable, a.id), ObserverRegistration(a), s1.clock).value;
    RunObservedMarks(Put(s1, r), a, r, t, n - 1);
  }

  lemma RunObservedMarks(s: System, a: R.Action, r: RunState, t: Attempt, n: nat)
    requires n >= 1 && a.id in s.durable && s.durable[a.id] == r && r.actionId == a.id
    requires !StartRefused(r)
    ensures var s' := RunObserved(s, a, r, t, n);
            a.id in s'.durable && (s'.durable[a.id].started.Some? <==> r.claim.Some? || r.started.Some?)
  {
    MarkStartedMarks(s, r);
    var s3 := MarkStarted(s, r);
    if n > 2 {
      var s4 := Invoke(s3, a, t.leavesWorktree);
      assert s4.durable == s3.durable;
      var r5 := Finish(s4.durable[a.id], ExecutionOf(t.outcome), s4.clock, t.external, s4.clock);
      assert RunObserved(s, a, r, t, n).durable == Put(s4, r5).durable;
    }
  }

  lemma MarkStartedMarks(s: System, r: RunState)
    requires r.actionId in s.durable && s.durable[r.actionId] == r
    requires !StartRefused(r)
    ensures var s' := MarkStarted(s, r);
            && r.actionId in s'.durable && s'.durable[r.actionId].actionId == r.actionId
            && (s'.durable[r.actionId].started.Some? <==> r.claim.Some? || r.started.Some?)
  {
  }

  /** A canonical action at the head of the queue passes the gate and the observer. */
  lemma HeadIsReady(s: System)
    requires Inv(s) && s.memory.queue != [] && s.memory.queue[0].canonical
    ensures var a := s.memory.queue[0];
            && R.Begin(s.memory.(queue := s.memory.queue[1..]), a).Underway?
            && Register(Get(s.durable, a.id), ObserverRegistration(a), s.clock).Ok?
            && Runs(EventsOf(s, a.id)) ==
               (if a.id in s.durable && s.durable[a.id].started.Some? then 1 else 0)
            && (a.id in s.durable ==> s.durable[a.id].actionId == a.id && Consistent(s.durable[a.id]))
  {
    var a := s.memory.queue[0];
    assert Good(s, a.id);
    HeadOccurs(s.memory.queue);
  }
}
