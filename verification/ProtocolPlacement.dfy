/**
 Status decides location: in runs without storage errors, where an action is kept follows
 from its lifecycle status alone.
 */
module ProtocolPlacement {
  import opened Common
  import opened RunRecord
  import opened RunProtocol
  import opened ProtocolInvariant
  import opened ProtocolSteps
  import opened ProtocolExecution
  import C = RunControl
  import R = ActionRuntime
  import Text

  /**
   Approved exactly when queued (once), held for approval exactly when in the registry,
   anything else in neither place; and what is held is durably undecided.
   */
  ghost predicate Placed(v: View) {
    && (HasStatus(v, R.Approved) <==> |v.queued| == 1)
    && (HasStatus(v, R.Queued) <==> v.pending.Some?)
    && (v.pending.Some? && v.record.Some? ==> v.record.value.approval == Some(Awaiting))
  }

  ghost predicate AllPlaced(s: System) {
    forall id :: Placed(ViewOf(s, id))
  }

  lemma LocalPlacement(s: System, s': System, id: ActionId)
    requires AllPlaced(s) && OnlyTouches(s, s', id) && Placed(ViewOf(s', id))
    ensures AllPlaced(s')
  {
    forall other ensures Placed(ViewOf(s', other)) {
      if other != id {
        assert Placed(ViewOf(s, other));
        assert ViewOf(s', other) == ViewOf(s, other);
      }
    }
  }

  // ------------------------------------------------------------------------ new actions

  lemma EvaluatePlaces(s: System, a: R.Action, permission: Permission)
    requires Inv(s) && AllPlaced(s) && a.id !in s.born
    ensures AllPlaced(Evaluate(Bear(s, a), a, permission))
  {
    var id := a.id;
    var s0 := Bear(s, a);
    var s' := Evaluate(s0, a, permission);
    FreshIsUntouched(s, id);
    BearView(s, a);
    match permission {
      case Allow =>
        NoteView(s0, id, Permitted);
        EnqueueView(Note(s0, id, Permitted), a, s'.memory);
        TouchesTransitive(s, s0, Note(s0, id, Permitted), id);
        TouchesTransitive(s, Note(s0, id, Permitted), s', id);
      case Hold =>
        MemoryView(s0, id, s'.memory);
        TouchesTransitive(s, s0, s', id);
      case Deny =>
        NoteView(s0, id, Refused);
        MemoryView(Note(s0, id, Refused), id, s'.memory);
        TouchesTransitive(s, s0, Note(s0, id, Refused), id);
        TouchesTransitive(s, Note(s0, id, Refused), s', id);
    }
    LocalPlacement(s, s', id);
  }

  lemma DecidedPlaces(s: System, a: R.Action, routed: bool, permission: Permission)
    requires Inv(s) && AllPlaced(s) && a.id !in s.born
    ensures AllPlaced(Decided(s, a, routed, permission))
    ensures ViewOf(Decided(s, a, routed, permission), a.id).pending.Some? ==> routed && permission.Hold?
  {
    FreshIsUntouched(s, a.id);
    if routed {
      EvaluatePlaces(s, a, permission);
    } else {
      BearView(s, a);
      assert Placed(ViewOf(s, a.id));
      LocalPlacement(s, Bear(s, a), a.id);
    }
  }

  lemma DelegatePlaces(
    s: System, id: ActionId, objective: string, target: string, routed: bool, permission: Permission, n: nat)
    requires Inv(s) && AllPlaced(s)
    ensures AllPlaced(DelegateCall(s, id, objective, target, routed, permission, n))
  {
    if id !in s.born && !Text.Blank(objective) && !Text.Blank(target) && n > 0 {
      var a := R.Action(id, true, target, Some(objective));
      var s1 := Decided(s, a, routed, permission);
      DecidedGood(s, a, routed, permission);
      DecidedPlaces(s, a, routed, permission);
      assert Get(s1.durable, id) == None;
      DelegationRecordPlaces(s1, a, routed, permission);
    }
  }

  lemma DelegationRecordPlaces(s: System, a: R.Action, routed: bool, permission: Permission)
    requires AllPlaced(s) && HasObjective(a)
    requires ViewOf(s, a.id).pending.Some? ==> routed && permission.Hold?
    ensures var reg := Register(None, DelegationRecord(a, routed, permission), s.clock);
            reg.Ok? && reg.value.actionId == a.id && AllPlaced(Put(s, reg.value))
  {
    var r := Register(None, DelegationRecord(a, routed, permission), s.clock).value;
    PutView(s, r);
    assert Placed(ViewOf(s, a.id));
    LocalPlacement(s, Put(s, r), a.id);
  }

  // -------------------------------------------------------------------------- decisions

  /** A held action leaves the registry for the queue. */
  lemma AdmitPlaces(s: System, s': System, id: ActionId, a: R.Action)
    requires AllPlaced(s) && a.id == id && ViewOf(s, id).queued == []
    requires OnlyTouches(s, s', id) && s'.memory == s.memory
    ensures AllPlaced(Admit(s', id, a))
  {
    var s2 := Admit(s', id, a);
    EnqueueView(s', a, s2.memory);
    assert [] + [a] == [a];
    TouchesTransitive(s, s', s2, id);
    LocalPlacement(s, s2, id);
  }

  lemma TurnAwayPlaces(s: System, s': System, id: ActionId)
    requires AllPlaced(s) && ViewOf(s, id).queued == []
    requires OnlyTouches(s, s', id) && s'.memory == s.memory
    ensures AllPlaced(TurnAway(s', id))
  {
    var s2 := TurnAway(s', id);
    MemoryView(s', id, s2.memory);
    TouchesTransitive(s, s', s2, id);
    LocalPlacement(s, s2, id);
  }

  /** The registration a decision starts with changes nothing but the version. */
  lemma DecisionRegistered(s: System, id: ActionId)
    requires Inv(s) && AllPlaced(s) && Resolve(s, id).Some? && HeldLifecycle(s, id).status == R.Queued
    requires var a := Resolve(s, id).value; a.canonical && HasObjective(a)
    requires Register(Get(s.durable, id), DecisionRegistration(s, Resolve(s, id).value), s.clock).Ok?
    ensures var r := Register(Get(s.durable, id), DecisionRegistration(s, Resolve(s, id).value), s.clock).value;
            && r.actionId == id && r.approval == Some(Awaiting) && r.claim.None? && r.execution.None?
            && r.objective == Some(Text.Strip(Resolve(s, id).value.objective.value))
            && OnlyTouches(s, Put(s, r), id) && AllPlaced(Put(s, r)) && ViewOf(s, id).queued == []
  {
    var a := Resolve(s, id).value;
    ResolvedIsBorn(s, id);
    UndecidedIsUnstarted(s, id);
    DecisionRegisterGood(s, id);
    var r := Register(Get(s.durable, id), DecisionRegistration(s, a), s.clock).value;
    assert Good(s, id) && Placed(ViewOf(s, id)) && Good(Put(s, r), id);
    PutView(s, r);
    LocalPlacement(s, Put(s, r), id);
  }

  lemma ApprovePlaces(s: System, id: ActionId)
    requires Inv(s) && AllPlaced(s)
    ensures AllPlaced(ApproveCall(s, id, ALL_STEPS))
  {
    if Resolve(s, id).Some? && R.Transition(HeldLifecycle(s, id), R.Approved).Some? {
      var a := Resolve(s, id).value;
      ResolvedIsBorn(s, id);
      UndecidedIsUnstarted(s, id);
      if !a.canonical {
        NoteView(s, id, Granted);
        AdmitPlaces(s, Note(s, id, Granted), id, a);
      } else if HasObjective(a) && Register(Get(s.durable, id), DecisionRegistration(s, a), s.clock).Ok? {
        ApproveCanonicalPlaces(s, id, a);
      }
    }
  }

  /** Writing a decision and noting it touches its action only, and no memory. */
  lemma DecisionTouches(s: System, s1: System, r: RunState, e: Event)
    requires OnlyTouches(s, s1, r.actionId) && s1.memory == s.memory
    ensures var s2 := Note(Put(s1, r), r.actionId, e);
            OnlyTouches(s, s2, r.actionId) && s2.memory == s.memory
  {
    PutView(s1, r);
    NoteView(Put(s1, r), r.actionId, e);
    TouchesTransitive(s, s1, Put(s1, r), r.actionId);
    TouchesTransitive(s, Put(s1, r), Note(Put(s1, r), r.actionId, e), r.actionId);
  }

  lemma ApproveCanonicalPlaces(s: System, id: ActionId, a: R.Action)
    requires Inv(s) && AllPlaced(s) && Resolve(s, id) == Some(a) && HeldLifecycle(s, id).status == R.Queued
    requires a.canonical && HasObjective(a) && a.id == id
    requires Register(Get(s.durable, id), DecisionRegistration(s, a), s.clock).Ok?
    ensures AllPlaced(ApproveCall(s, id, ALL_STEPS))
  {
    DecisionRegistered(s, id);
    var r1 := Register(Get(s.durable, id), DecisionRegistration(s, a), s.clock).value;
    var s1 := Put(s, r1);
    var r2 := RunRecord.Approve(r1, a.objective.value, s1.clock, s1.clock);
    if r2.Ok? {
      DecisionTouches(s, s1, r2.value, Granted);
      var s2 := Note(Put(s1, r2.value), id, Granted);
      AdmitPlaces(s, s2, id, a);
      assert ApproveCall(s, id, ALL_STEPS) == Admit(s2, id, a);
    }
  }

  lemma RejectPlaces(s: System, id: ActionId)
    requires Inv(s) && AllPlaced(s)
    ensures AllPlaced(RejectCall(s, id, ALL_STEPS))
  {
    if Resolve(s, id).Some? && R.Transition(HeldLifecycle(s, id), R.Rejected).Some? {
      var a := Resolve(s, id).value;
      ResolvedIsBorn(s, id);
      UndecidedIsUnstarted(s, id);
      if !a.canonical {
        NoteView(s, id, Declined);
        TurnAwayPlaces(s, Note(s, id, Declined), id);
      } else if HasObjective(a) && Register(Get(s.durable, id), DecisionRegistration(s, a), s.clock).Ok? {
        RejectCanonicalPlaces(s, id, a);
      }
    }
  }

  lemma RejectCanonicalPlaces(s: System, id: ActionId, a: R.Action)
    requires Inv(s) && AllPlaced(s) && Resolve(s, id) == Some(a) && HeldLifecycle(s, id).status == R.Queued
    requires a.canonical && HasObjective(a) && a.id == id
    requires Register(Get(s.durable, id), DecisionRegistration(s, a), s.clock).Ok?
    ensures AllPlaced(RejectCall(s, id, ALL_STEPS))
  {
    DecisionRegistered(s, id);
    var r1 := Register(Get(s.durable, id), DecisionRegistration(s, a), s.clock).value;
    var s1 := Put(s, r1);
    var r2 := RunRecord.Reject(r1, s1.clock, s1.clock);
    if r2.Ok? {
      DecisionTouches(s, s1, r2.value, Declined);
      var s2 := Note(Put(s1, r2.value), id, Declined);
      TurnAwayPlaces(s, s2, id);
      assert RejectCall(s, id, ALL_STEPS) == TurnAway(s2, id);
    }
  }

  // -------------------------------------------------------------------------- execution

  /** A write to an action that is not held moves nothing. */
  lemma PutPlaces(s: System, r: RunState)
    requires AllPlaced(s) && ViewOf(s, r.actionId).pending.None?
    ensures AllPlaced(Put(s, r))
  {
    assert Placed(ViewOf(s, r.actionId));
    PutView(s, r);
    LocalPlacement(s, Put(s, r), r.actionId);
  }

  /** Settling puts an executing action back in the queue as approved, or nowhere. */
  lemma SettlePlaces(s: System, s': System, a: R.Action, outcome: R.Outcome)
    requires AllPlaced(s) && OnlyTouches(s, s', a.id) && a.id in s'.memory.lifecycles
    requires ViewOf(s', a.id).queued == [] && ViewOf(s', a.id).pending.None?
    ensures AllPlaced(s'.(memory := R.Settle(s'.memory, a, outcome, s'.maxRetries)))
  {
    var s2 := s'.(memory := R.Settle(s'.memory, a, outcome, s'.maxRetries));
    SettleView(s', a, outcome);
    TouchesTransitive(s, s', s2, a.id);
    LocalPlacement(s, s2, a.id);
  }

  /** The state right before a canonical run is settled. */
  function Recorded(s: System, a: R.Action, r: RunState, t: Attempt): System {
    var s4 := Invoke(MarkStarted(s, r), a, t.leavesWorktree);
    if a.id !in s4.durable then s4
    else Put(s4, Finish(s4.durable[a.id], ExecutionOf(t.outcome), s4.clock, t.external, s4.clock))
  }

  lemma MarkStartedTouches(s: System, r: RunState)
    requires r.actionId in s.durable && s.durable[r.actionId] == r
    ensures var s' := MarkStarted(s, r);
            OnlyTouches(s, s', r.actionId) && s'.memory == s.memory && r.actionId in s'.durable
            && s'.durable[r.actionId].actionId == r.actionId
  {
    if r.claim.Some? && r.started.None? && Start(r, s.clock, s.clock).Ok? {
      PutView(s, Start(r, s.clock, s.clock).value);
    }
  }

  /** From the observer's registration to the end, memory changes only by settling. */
  lemma RecordedTouches(s: System, a: R.Action, r: RunState, t: Attempt)
    requires a.canonical && a.id in s.durable && s.durable[a.id] == r && r.actionId == a.id
    ensures OnlyTouches(s, Recorded(s, a, r, t), a.id) && Recorded(s, a, r, t).memory == s.memory
  {
    MarkStartedTouches(s, r);
    var s3 := MarkStarted(s, r);
    var s4 := Invoke(s3, a, t.leavesWorktree);
    InvokeShows(s3, a, t.leavesWorktree);
    TouchesTransitive(s, s3, s4, a.id);
    var r5 := Finish(s4.durable[a.id], ExecutionOf(t.outcome), s4.clock, t.external, s4.clock);
    PutView(s4, r5);
    TouchesTransitive(s, s4, Put(s4, r5), a.id);
  }

  lemma RunObservedSettles(s: System, a: R.Action, r: RunState, t: Attempt, n: nat)
    requires n >= 4 && a.id in s.durable && s.durable[a.id] == r && r.actionId == a.id && !StartRefused(r)
    ensures RunObserved(s, a, r, t, n) ==
            Recorded(s, a, r, t).(memory := R.Settle(Recorded(s, a, r, t).memory, a, t.outcome, s.maxRetries))
  {
    MarkStartedTouches(s, r);
  }

  lemma RunObservedPlaces(s0: System, s: System, a: R.Action, r: RunState, t: Attempt, n: nat)
    requires n >= 4 && a.canonical && a.id in s.durable && s.durable[a.id] == r && r.actionId == a.id
    requires !StartRefused(r)
    requires AllPlaced(s0) && OnlyTouches(s0, s, a.id) && a.id in s.memory.lifecycles
    requires ViewOf(s, a.id).queued == [] && ViewOf(s, a.id).pending.None?
    ensures AllPlaced(RunObserved(s, a, r, t, n))
  {
    var s4 := Recorded(s, a, r, t);
    RecordedTouches(s, a, r, t);
    TouchesTransitive(s0, s, s4, a.id);
    RunObservedSettles(s, a, r, t, n);
    SettlePlaces(s0, s4, a, t.outcome);
  }

  /** A claimed action standing alone in the queue is run to its end. */
  lemma RunQueuedPlaces(s: System, s0: System, a: R.Action, t: Attempt, n: nat)
    requires Inv(s) && AllPlaced(s0) && OnlyTouches(s0, s, a.id) && n >= 5
    requires ViewOf(s, a.id).queued == [a] && HasStatus(ViewOf(s, a.id), R.Approved) && ViewOf(s, a.id).pending.None?
    requires a.canonical && a.id in s.durable && a.target == s.durable[a.id].target
    ensures AllPlaced(RunQueued(s, a.id, t, n))
  {
    R.FindIsFirstOccurrence(s.memory.queue, a.id);
    GateGood(s, a);
    var s1 := Dequeued(s, a.id);
    var s2 := s1.(memory := R.Begin(s1.memory, a).memory);
    TouchesTransitive(s0, s, s2, a.id);
    ReobservedRunPlaces(s0, s2, a, t, n);
  }

  lemma ReobservedRunPlaces(s0: System, s: System, a: R.Action, t: Attempt, n: nat)
    requires Inv(s) && AllPlaced(s0) && OnlyTouches(s0, s, a.id) && n >= 5
    requires a.canonical && a.id in s.durable && a.target == s.durable[a.id].target
    requires a.id in s.memory.lifecycles && ViewOf(s, a.id).queued == [] && ViewOf(s, a.id).pending.None?
    ensures var reg := Register(Get(s.durable, a.id), ObserverRegistration(a), s.clock);
            reg.Ok? && AllPlaced(RunObserved(Put(s, reg.value), a, reg.value, t, n - 1))
  {
    assert Good(s, a.id);
    var r := s.durable[a.id];
    ReobserveWritable(ViewOf(s, a.id), r, a, s.clock, s.maxRetries);
    var r' := r.(updated := Some(s.clock));
    PutView(s, r');
    TouchesTransitive(s0, s, Put(s, r'), a.id);
    RunObservedPlaces(s0, Put(s, r'), a, r', t, n - 1);
  }

  lemma ExecutePlaces(s: System, id: ActionId, t: Attempt)
    requires Inv(s) && AllPlaced(s)
    ensures AllPlaced(ExecuteCall(s, id, t, ALL_STEPS))
  {
    if ExecuteCall(s, id, t, ALL_STEPS) != s {
      ExecuteClaims(s, id, t, ALL_STEPS);
      var r := Claim(s.durable[id], s.clock, s.clock).value;
      ClaimPlaces(s, id, r);
      if ExecuteCall(s, id, t, ALL_STEPS) != Put(s, r) {
        ExecuteRunPlaces(s, id, r, t);
      }
    }
  }

  /** A claim moves nothing: what can be claimed is not held. */
  lemma ClaimPlaces(s: System, id: ActionId, r: RunState)
    requires Inv(s) && AllPlaced(s) && id in s.durable && Claim(s.durable[id], s.clock, s.clock) == Ok(r)
    ensures r.actionId == id && ViewOf(s, id).pending.None?
    ensures AllPlaced(Put(s, r)) && OnlyTouches(s, Put(s, r), id)
  {
    assert Good(s, id) && Placed(ViewOf(s, id));
    PutView(s, r);
    PutPlaces(s, r);
  }

  lemma ExecuteRunPlaces(s: System, id: ActionId, r: RunState, t: Attempt)
    requires Inv(s) && AllPlaced(s) && id in s.durable && Claim(s.durable[id], s.clock, s.clock) == Ok(r)
    requires id in s.memory.lifecycles ==> s.memory.lifecycles[id].status in {R.Queued, R.Approved}
    requires r.objective.Some?
    requires var queued := R.Find(s.memory.queue, id);
             queued.Some? ==>
               && queued.value.canonical
               && queued.value.target == Recovered(r).target && queued.value.objective == Recovered(r).objective
    ensures AllPlaced(
              RunQueued(Prepare(Put(s, r), id, R.Find(s.memory.queue, id), Recovered(r)), id, t, ALL_STEPS - 2))
  {
    var queued, a, s1 := R.Find(s.memory.queue, id), Recovered(r), Put(s, r);
    ClaimedFacts(s, id, r);
    ClaimPlaces(s, id, r);
    assert s1.memory == s.memory && s1.born == s.born && id in s1.durable && s1.durable[id] == r;
    PrepareGood(s1, id, queued, a);
    assert Good(s1, id);
    R.FindIsFirstOccurrence(s1.memory.queue, id);
    PrepareShows(s1, id, queued, a);
    TouchesTransitive(s, s1, Prepare(s1, id, queued, a), id);
    RunQueuedPlaces(Prepare(s1, id, queued, a), s, a, t, ALL_STEPS - 2);
  }

  lemma PlainRunPlaces(s: System, t: Attempt)
    requires Inv(s) && AllPlaced(s) && s.memory.queue != [] && !s.memory.queue[0].canonical
    ensures forall n: nat :: AllPlaced(RunNextCall(s, t, n))
  {
    var a := s.memory.queue[0];
    HeadOccurs(s.memory.queue);
    assert Good(s, a.id) && Placed(ViewOf(s, a.id));
    GateGood(s, a);
    var s1 := s.(memory := s.memory.(queue := s.memory.queue[1..]));
    var s2 := s1.(memory := R.Begin(s1.memory, a).memory);
    var s3 := Invoke(s2, a, t.leavesWorktree);
    NoteView(s2, a.id, Invoked(a));
    TouchesTransitive(s, s2, s3, a.id);
    SettlePlaces(s, s3, a, t.outcome);
    assert forall n: nat ::
        RunNextCall(s, t, n) == s3.(memory := R.Settle(s3.memory, a, t.outcome, s3.maxRetries));
  }

  lemma ClaimedHeadPlaces(s: System, t: Attempt)
    requires Inv(s) && AllPlaced(s) && s.memory.queue != [] && s.memory.queue[0].canonical
    requires Admissible(s, RunNext(t, Completes))
    ensures AllPlaced(RunNextCall(s, t, ALL_STEPS))
  {
    var a := s.memory.queue[0];
    ClaimedHeadFacts(s);
    assert Placed(ViewOf(s, a.id));
    RunQueuedPlaces(s, s, a, t, ALL_STEPS);
  }

  // ----------------------------------------------------------- the rest, and whole runs

  lemma ReconcilePlaces(s: System, id: ActionId, q: C.Request)
    requires Inv(s) && AllPlaced(s)
    ensures AllPlaced(ReconcileCall(s, id, q))
  {
    if id in s.durable && C.Reconcile(s.durable[id], q, s.clock).Ok? {
      assert Good(s, id) && Placed(ViewOf(s, id));
      PutPlaces(s, C.Reconcile(s.durable[id], q, s.clock).value);
    }
  }

  lemma DisposePlaces(s: System, id: ActionId, report: DispositionReport, unmerged: bool, n: nat)
    requires Inv(s) && AllPlaced(s)
    ensures AllPlaced(DisposeCall(s, id, report, unmerged, n))
  {
    if id in s.durable && Finished(s.durable[id]) {
      assert Good(s, id) && Placed(ViewOf(s, id));
      var s1 := s.(worktrees := s.worktrees - {id});
      LocalPlacement(s, s1, id);
      var kept := DispositionReport(id, Keep, true, true, true);
      PutPlaces(s, RunRecord.Dispose(s.durable[id], kept, s.clock));
      PutPlaces(s, RunRecord.Dispose(s.durable[id], report.(id := id), s.clock));
      PutPlaces(s1, RunRecord.Dispose(s1.durable[id], report.(id := id), s1.clock));
    }
  }

  lemma PromotePlaces(s: System, id: ActionId, p: Publication)
    requires Inv(s) && AllPlaced(s)
    ensures AllPlaced(PromoteCall(s, id, p))
  {
    if id in s.durable && Promotable(s.durable[id]) {
      assert Good(s, id) && Placed(ViewOf(s, id));
      PutPlaces(s, RunRecord.Promote(s.durable[id], p, s.clock, s.clock));
    }
  }

  /** Calls complete or the whole process dies; no write is reported as failed on its own. */
  predicate StorageHolds(step: Step) {
    !FateOf(step).Fails?
  }

  lemma CrashPlaces(s: System)
    ensures AllPlaced(s.(memory := R.Blank))
  {
  }

  lemma StepPlaces(s: System, step: Step)
    requires Inv(s) && AllPlaced(s) && Admissible(s, step) && StorageHolds(step)
    ensures AllPlaced(Apply(s, step))
  {
    if FateOf(step).Dies? {
      CrashPlaces(Call(s, step));
    } else {
      match step {
        case Delegate(id, objective, target, routed, permission, _) =>
          DelegatePlaces(s, id, objective, target, routed, permission, ALL_STEPS);
        case Plan(a, permission) =>
          if a.id !in s.born {
            EvaluatePlaces(s, a, permission);
          }
        case Approve(id, _) => ApprovePlaces(s, id);
        case Reject(id, _) => RejectPlaces(s, id);
        case Execute(id, t, _) => ExecutePlaces(s, id, t);
        case RunNext(t, _) =>
          if s.memory.queue != [] {
            if s.memory.queue[0].canonical {
              ClaimedHeadPlaces(s, t);
            } else {
              PlainRunPlaces(s, t);
            }
          }
        case Reconcile(id, q) => ReconcilePlaces(s, id, q);
        case Dispose(id, report, unmerged, _) => DisposePlaces(s, id, report, unmerged, ALL_STEPS);
        case Promote(id, p) => PromotePlaces(s, id, p);
        case Crash =>
      }
    }
  }

  predicate StorageHoldsThroughout(steps: seq<Step>) {
    forall i :: 0 <= i < |steps| ==> StorageHolds(steps[i])
  }

  lemma {:induction false} RunPlaces(s: System, steps: seq<Step>)
    requires Inv(s) && AllPlaced(s) && AdmissibleRun(s, steps) && StorageHoldsThroughout(steps)
    ensures AllPlaced(Run(s, steps))
    decreases |steps|
  {
    if steps != [] {
      assert StorageHolds(steps[0]);
      StepPlaces(s, steps[0]);
      StepKeepsInv(s, steps[0]);
      RunPlaces(Apply(s, steps[0]), steps[1..]);
    }
  }

  /**
   At every call boundary of every run without storage errors, crashes included: an action is
   approved exactly when it is in the queue, once; queued for approval exactly when it is in
   the registry; and in any other status it is in neither.
   */
  lemma StatusDecidesLocation(maxRetries: int, steps: seq<Step>, id: ActionId)
    requires AdmissibleRun(Initial(maxRetries), steps) && StorageHoldsThroughout(steps)
    ensures var m := Run(Initial(maxRetries), steps).memory;
            var status := if id in m.lifecycles then Some(m.lifecycles[id].status) else None;
            && (status == Some(R.Approved) <==> |R.Occurrences(m.queue, id)| == 1)
            && |R.Occurrences(m.queue, id)| <= 1
            && (status == Some(R.Queued) <==> id in m.registry)
            && (status == Some(R.Queued) ==> m.lifecycles[id].approvalRequired)
  {
    var s0 := Initial(maxRetries);
    InitialGood(maxRetries);
    CrashPlaces(s0);
    assert s0.(memory := R.Blank) == s0;
    RunPlaces(s0, steps);
    RunKeepsInv(s0, steps);
    assert Good(Run(s0, steps), id) && Placed(ViewOf(Run(s0, steps), id));
  }
}
