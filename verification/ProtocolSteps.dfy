/** Every call of the run protocol keeps the per-action invariant, wherever it stops. */
module ProtocolSteps {
  import opened Common
  import opened RunRecord
  import opened RunProtocol
  import opened ProtocolInvariant
  import C = RunControl
  import R = ActionRuntime
  import Text

  // ------------------------------------------------------------- durable writes, one view

  /** The step from one record to the next is one the phase graph and the ladder allow. */
  predicate Climbs(record: Option<RunState>, r: RunState) {
    && (record.Some? ==>
          C.PhaseOf(record.value) == C.PhaseOf(r) || C.Edge(C.PhaseOf(record.value), C.PhaseOf(r)))
    && var before := if record.Some? then Reached(record.value) else 0;
       Reached(r) <= before || (Reached(r) == before + 1 && LADDER[before] == C.PhaseOf(r))
  }

  /** A record that may be written for this action in a view with the given events. */
  ghost predicate Writable(v: View, r: RunState, es: seq<Event>, clock: Stamp) {
    && v.born.Some?
    && v.born.value.canonical
    && Consistent(r)
    && IsCanonical(r)
    && r.actionId == v.id
    && r.target == v.born.value.target
    && (r.objective.Some? ==>
          v.born.value.objective.Some? && r.objective.value == Text.Strip(v.born.value.objective.value))
    && r.updated == Some(clock)
    && (r.disposition == Some(Discard) ==> !v.worktree)
    && (r.execution.None? ==> r.disposition.None?)
    && (HasStatus(v, R.Queued) ==> Unstarted(r) && r.approval.Some?)
    && (Runs(v.events) == 1 ==> r.started.Some?)
    && (v.queued != [] && r.started.Some? ==> Runs(v.events) == 1)
    && (r.approval == Some(Approval.Approved) ==> Authorized(es) && !Blocked(es))
    && (r.approval == Some(Awaiting) ==> !Blocked(es))
    && Climbs(v.record, r)
  }

  lemma WriteKeeps(v: View, r: RunState, clock: Stamp, maxRetries: int)
    requires GoodView(v, clock, maxRetries) && Writable(v, r, v.events, clock)
    ensures GoodView(v.(record := Some(r), phases := v.phases + [C.PhaseOf(r)]), clock + 1, maxRetries)
  {
    PhaseRecorded(v.record, v.phases, r);
  }

  /** A write together with the decision it makes durable. */
  lemma DecisionKeeps(v: View, r: RunState, e: Event, clock: Stamp, maxRetries: int)
    requires GoodView(v, clock, maxRetries) && Writable(v, r, v.events + [e], clock)
    requires e.Granted? || (e.Declined? && !(v.lifecycle.Some? && v.lifecycle.value.status in
               {R.Approved, R.Executing, R.Completed, R.Skipped, R.Failed}))
    ensures GoodView(
              v.(record := Some(r), phases := v.phases + [C.PhaseOf(r)], events := v.events + [e]),
              clock + 1, maxRetries)
  {
    PhaseRecorded(v.record, v.phases, r);
    EventAppended(v.events, e);
    RightfulAppended(v.events, e, v.born.value);
  }

  lemma PutGood(s: System, r: RunState)
    requires Inv(s) && Writable(ViewOf(s, r.actionId), r, EventsOf(s, r.actionId), s.clock)
    ensures Inv(Put(s, r))
  {
    assert Good(s, r.actionId);
    WriteKeeps(ViewOf(s, r.actionId), r, s.clock, s.maxRetries);
    PutView(s, r);
    LocalStep(s, Put(s, r), r.actionId);
  }

  lemma DecideGood(s: System, r: RunState, e: Event)
    requires Inv(s)
    requires var v := ViewOf(s, r.actionId);
             && Writable(v, r, v.events + [e], s.clock)
             && (e.Granted? || (e.Declined? && !(v.lifecycle.Some? && v.lifecycle.value.status in
                   {R.Approved, R.Executing, R.Completed, R.Skipped, R.Failed})))
    ensures Inv(Note(Put(s, r), r.actionId, e))
  {
    var id := r.actionId;
    assert Good(s, id);
    DecisionKeeps(ViewOf(s, id), r, e, s.clock, s.maxRetries);
    PutView(s, r);
    NoteView(Put(s, r), id, e);
    TouchesTransitive(s, Put(s, r), Note(Put(s, r), id, e), id);
    LocalStep(s, Note(Put(s, r), id, e), id);
  }

  // ---------------------------------------------------------------- delegate and plan

  /** A new action enters in one of three ways. */
  lemma AllowedView(v: View, a: R.Action, clock: Stamp, maxRetries: int)
    requires Untouched(v) && a.id == v.id
    ensures GoodView(
              v.(born := Some(a), lifecycle := Some(R.Lifecycle(R.Approved, false, 0)), queued := [a], events := [Permitted]),
              clock, maxRetries)
  {
    EventAppended([], Permitted);
    assert [] + [Permitted] == [Permitted];
  }

  lemma HeldView(v: View, a: R.Action, clock: Stamp, maxRetries: int)
    requires Untouched(v) && a.id == v.id
    ensures GoodView(
              v.(born := Some(a), lifecycle := Some(R.Lifecycle(R.Queued, true, 0)), pending := Some(a)),
              clock, maxRetries)
  {
  }

  lemma DeniedView(v: View, a: R.Action, clock: Stamp, maxRetries: int)
    requires Untouched(v) && a.id == v.id
    ensures GoodView(
              v.(born := Some(a), lifecycle := Some(R.Lifecycle(R.Rejected, false, 0)), events := [Refused]),
              clock, maxRetries)
  {
    EventAppended([], Refused);
    assert [] + [Refused] == [Refused];
  }

  lemma BearView(s: System, a: R.Action)
    ensures ViewOf(Bear(s, a), a.id) == ViewOf(s, a.id).(born := Some(a))
    ensures OnlyTouches(s, Bear(s, a), a.id)
  {
  }

  lemma FreshIsUntouched(s: System, id: ActionId)
    requires Inv(s) && id !in s.born
    ensures Untouched(ViewOf(s, id))
  {
    assert Good(s, id);
  }

  lemma EvaluateGood(s: System, a: R.Action, permission: Permission)
    requires Inv(s) && a.id !in s.born
    ensures Inv(Evaluate(Bear(s, a), a, permission))
    ensures EventsOf(Evaluate(Bear(s, a), a, permission), a.id) ==
            (match permission case Allow => [Permitted] case Hold => [] case Deny => [Refused])
  {
    var id := a.id;
    var s0 := Bear(s, a);
    var s' := Evaluate(s0, a, permission);
    var v := ViewOf(s, id);
    FreshIsUntouched(s, id);
    BearView(s, a);
    match permission {
      case Allow =>
        var s1 := Note(s0, id, Permitted);
        NoteView(s0, id, Permitted);
        EnqueueView(s1, a, s'.memory);
        TouchesTransitive(s, s0, s1, id);
        TouchesTransitive(s, s1, s', id);
        AllowedView(v, a, s'.clock, s'.maxRetries);
      case Hold =>
        MemoryView(s0, id, s'.memory);
        TouchesTransitive(s, s0, s', id);
        HeldView(v, a, s'.clock, s'.maxRetries);
      case Deny =>
        var s1 := Note(s0, id, Refused);
        NoteView(s0, id, Refused);
        MemoryView(s1, id, s'.memory);
        TouchesTransitive(s, s0, s1, id);
        TouchesTransitive(s, s1, s', id);
        DeniedView(v, a, s'.clock, s'.maxRetries);
    }
    LocalStep(s, s', id);
  }

  lemma BearGood(s: System, a: R.Action)
    requires Inv(s) && a.id !in s.born
    ensures Inv(Bear(s, a))
  {
    assert Good(s, a.id);
    LocalStep(s, Bear(s, a), a.id);
  }

  /** What a delegation leaves in the history. */
  function FirstEvents(routed: bool, permission: Permission): seq<Event> {
    if !routed || permission.Hold? then [] else if permission.Allow? then [Permitted] else [Refused]
  }

  lemma FirstEventsTell(routed: bool, permission: Permission)
    ensures var es := FirstEvents(routed, permission);
            && Runs(es) == 0
            && (Authorized(es) <==> routed && permission.Allow?)
            && (Blocked(es) <==> routed && permission.Deny?)
  {
    EventAppended([], Permitted);
    EventAppended([], Refused);
    assert [] + [Permitted] == [Permitted] && [] + [Refused] == [Refused];
  }

  /** A first record in which nothing has happened yet may be written. */
  lemma FirstWritable(v: View, r: RunState, clock: Stamp)
    requires v.record.None? && v.born.Some? && v.born.value.canonical && Runs(v.events) == 0
    requires Consistent(r) && IsCanonical(r) && Unstarted(r) && r.claim.None? && r.resolution.None?
    requires r.actionId == v.id && r.target == v.born.value.target && r.updated == Some(clock)
    requires r.objective.Some? ==>
               v.born.value.objective.Some? && r.objective.value == Text.Strip(v.born.value.objective.value)
    requires HasStatus(v, R.Queued) ==> r.approval.Some?
    requires r.approval == Some(Approval.Approved) ==> Authorized(v.events) && !Blocked(v.events)
    requires r.approval == Some(Awaiting) ==> !Blocked(v.events)
    ensures Writable(v, r, v.events, clock)
  {
  }

  /** The first durable record of a delegation agrees with what was just decided in memory. */
  lemma DelegationWritable(v: View, a: R.Action, routed: bool, permission: Permission, clock: Stamp)
    requires v.record.None? && v.born == Some(a) && a.id == v.id && a.canonical && !v.worktree
    requires a.objective.Some? && !Text.Blank(a.objective.value)
    requires v.events == FirstEvents(routed, permission)
    requires HasStatus(v, R.Queued) ==> routed && permission.Hold?
    ensures var r := Register(None, DelegationRecord(a, routed, permission), clock);
            r.Ok? && Writable(v, r.value, v.events, clock)
  {
    var g := DelegationRecord(a, routed, permission);
    RegisterKeeps(None, g, clock);
    FirstEventsTell(routed, permission);
    FirstWritable(v, Register(None, g, clock).value, clock);
  }

  function Decided(s: System, a: R.Action, routed: bool, permission: Permission): System {
    if routed then Evaluate(Bear(s, a), a, permission) else Bear(s, a)
  }

  lemma DecidedGood(s: System, a: R.Action, routed: bool, permission: Permission)
    requires Inv(s) && a.id !in s.born && a.canonical
    ensures var s1 := Decided(s, a, routed, permission);
            var v := ViewOf(s1, a.id);
            && Inv(s1) && s1.durable == s.durable && s1.clock == s.clock
            && v.record.None? && v.born == Some(a) && !v.worktree
            && v.events == FirstEvents(routed, permission)
            && (HasStatus(v, R.Queued) ==> routed && permission.Hold?)
  {
    FreshIsUntouched(s, a.id);
    if routed {
      EvaluateGood(s, a, permission);
    } else {
      BearGood(s, a);
    }
  }

  lemma DelegateGood(
    s: System, id: ActionId, objective: string, target: string, routed: bool, permission: Permission, n: nat)
    requires Inv(s)
    ensures Inv(DelegateCall(s, id, objective, target, routed, permission, n))
  {
    if id !in s.born && !Text.Blank(objective) && !Text.Blank(target) && n > 0 {
      var a := R.Action(id, true, target, Some(objective));
      var s1 := Decided(s, a, routed, permission);
      var reg := Register(None, DelegationRecord(a, routed, permission), s1.clock);
      DelegatedGood(s, a, routed, permission);
      assert DelegateCall(s, id, objective, target, routed, permission, n) == if n == 1 then s1 else Put(s1, reg.value);
    }
  }

  /** Decided in memory, and then recorded. */
  lemma DelegatedGood(s: System, a: R.Action, routed: bool, permission: Permission)
    requires Inv(s) && a.id !in s.born && a.canonical && a.objective.Some? && !Text.Blank(a.objective.value)
    ensures var s1 := Decided(s, a, routed, permission);
            var reg := Register(None, DelegationRecord(a, routed, permission), s1.clock);
            Inv(s1) && a.id !in s1.durable && reg.Ok? && Inv(Put(s1, reg.value))
  {
    var s1 := Decided(s, a, routed, permission);
    DecidedGood(s, a, routed, permission);
    DelegationWritable(ViewOf(s1, a.id), a, routed, permission, s1.clock);
    PutGood(s1, Register(None, DelegationRecord(a, routed, permission), s1.clock).value);
  }

  // ----------------------------------------------------------------- approve and reject

  /** The action a decision is about is the one that was born, perhaps with its objective stripped. */
  lemma ResolvedIsBorn(s: System, id: ActionId)
    requires Inv(s) && Resolve(s, id).Some?
    ensures var a := Resolve(s, id).value;
            && id in s.born && a.id == id && s.born[id].id == id && SameTask(a, s.born[id])
            && (id !in s.memory.registry ==> a.canonical)
  {
    assert Good(s, id);
    if id !in s.memory.registry {
      Text.StripNormalises(s.durable[id].objective.value);
    }
  }

  /** While a decision is possible the record, if there is one, has not gone past the claim. */
  lemma UndecidedIsUnstarted(s: System, id: ActionId)
    requires Inv(s) && Resolve(s, id).Some? && HeldLifecycle(s, id).status == R.Queued
    ensures id in s.durable ==> Unstarted(s.durable[id]) && s.durable[id].approval.Some?
    ensures ViewOf(s, id).queued == []
    ensures Blocked(EventsOf(s, id)) ==> id in s.durable && s.durable[id].approval == Some(Approval.Rejected)
  {
    assert Good(s, id);
    var v := ViewOf(s, id);
    if id in s.memory.registry {
      assert v.pending.Some? && HasStatus(v, R.Queued);
      if id in s.durable {
        match s.durable[id].approval.value {
          case Awaiting =>
          case Approved =>
          case Rejected =>
        }
      }
    } else if v.lifecycle.None? {
      ConsistentUnstarted(s.durable[id]);
    }
  }

  lemma DecisionRegisterGood(s: System, id: ActionId)
    requires Inv(s) && Resolve(s, id).Some? && HeldLifecycle(s, id).status == R.Queued
    requires var a := Resolve(s, id).value; a.canonical && HasObjective(a)
    requires Register(Get(s.durable, id), DecisionRegistration(s, Resolve(s, id).value), s.clock).Ok?
    ensures var r := Register(Get(s.durable, id), DecisionRegistration(s, Resolve(s, id).value), s.clock).value;
            && Inv(Put(s, r))
            && r.actionId == id
            && Unstarted(r)
            && r.approval.Some?
            && r.objective == Some(Text.Strip(Resolve(s, id).value.objective.value))
            && (r.approval == Some(Approval.Rejected) <==>
                  id in s.durable && s.durable[id].approval == Some(Approval.Rejected))
  {
    var a := Resolve(s, id).value;
    ResolvedIsBorn(s, id);
    UndecidedIsUnstarted(s, id);
    assert Good(s, id);
    var g := DecisionRegistration(s, a);
    var r := Register(Get(s.durable, id), g, s.clock).value;
    RegisterKeeps(Get(s.durable, id), g, s.clock);
    Text.StripNormalises(s.born[id].objective.value);
    assert r.objective == Some(Text.Strip(a.objective.value));
    PutGood(s, r);
  }

  lemma AdmitGood(s: System, id: ActionId, a: R.Action)
    requires Inv(s) && id in s.born && a.id == id && SameTask(a, s.born[id])
    requires ViewOf(s, id).queued == []
    requires Authorized(EventsOf(s, id)) && !Blocked(EventsOf(s, id))
    requires HeldLifecycle(s, id).status == R.Queued
    requires !a.canonical ==> id in s.memory.lifecycles
    requires id in s.durable ==> s.durable[id].started.None?
    ensures Inv(Admit(s, id, a))
  {
    assert Good(s, id);
    var s' := Admit(s, id, a);
    EnqueueView(s, a, s'.memory);
    assert [] + [a] == [a];
    assert ViewOf(s', id).queued == [a];
    LocalStep(s, s', id);
  }

  lemma TurnAwayGood(s: System, id: ActionId)
    requires Inv(s) && id in s.born && ViewOf(s, id).queued == []
    requires HeldLifecycle(s, id).status == R.Queued
    requires !s.born[id].canonical ==> id in s.memory.lifecycles
    ensures Inv(TurnAway(s, id))
  {
    assert Good(s, id);
    MemoryView(s, id, TurnAway(s, id).memory);
    LocalStep(s, TurnAway(s, id), id);
  }

  /** A decision in memory only: actions outside the canonical route. */
  lemma NoteDecisionGood(s: System, id: ActionId, e: Event)
    requires Inv(s) && id in s.born && !s.born[id].canonical
    requires HeldLifecycle(s, id).status == R.Queued && id in s.memory.lifecycles
    requires e.Granted?
    ensures Inv(Note(s, id, e))
  {
    assert Good(s, id);
    NoteView(s, id, e);
    EventAppended(EventsOf(s, id), e);
    RightfulAppended(EventsOf(s, id), e, s.born[id]);
    LocalStep(s, Note(s, id, e), id);
  }

  lemma DeclinedView(v: View, clock: Stamp, maxRetries: int)
    requires GoodView(v, clock, maxRetries) && v.born.Some? && !v.born.value.canonical
    requires HasStatus(v, R.Queued)
    ensures GoodView(
              v.(events := v.events + [Declined],
                 lifecycle := Some(v.lifecycle.value.(status := R.Rejected)),
                 pending := None),
              clock, maxRetries)
  {
    EventAppended(v.events, Declined);
    RightfulAppended(v.events, Declined, v.born.value);
  }

  lemma DeclineInMemoryGood(s: System, id: ActionId)
    requires Inv(s) && id in s.born && !s.born[id].canonical
    requires HeldLifecycle(s, id).status == R.Queued && id in s.memory.lifecycles
    ensures Inv(TurnAway(Note(s, id, Declined), id))
  {
    assert Good(s, id);
    var s1 := Note(s, id, Declined);
    var s2 := TurnAway(s1, id);
    DeclinedView(ViewOf(s, id), s.clock, s.maxRetries);
    NoteView(s, id, Declined);
    MemoryView(s1, id, s2.memory);
    TouchesTransitive(s, s1, s2, id);
    LocalStep(s, s2, id);
  }

  lemma ApproveGood(s: System, id: ActionId, n: nat)
    requires Inv(s)
    ensures Inv(ApproveCall(s, id, n))
  {
    if Resolve(s, id).Some? && R.Transition(HeldLifecycle(s, id), R.Approved).Some? && n > 0 {
      var a := Resolve(s, id).value;
      ResolvedIsBorn(s, id);
      UndecidedIsUnstarted(s, id);
      assert Good(s, id);
      if !a.canonical {
        NoteDecisionGood(s, id, Granted);
        NoteView(s, id, Granted);
        EventAppended(EventsOf(s, id), Granted);
        AdmitGood(Note(s, id, Granted), id, a);
      } else if HasObjective(a) && Register(Get(s.durable, id), DecisionRegistration(s, a), s.clock).Ok? {
        ApproveCanonicalGood(s, id, n);
      }
    }
  }

  /** Recording an approval over a registered, undecided or already approved record. */
  lemma ApprovalWritable(v: View, r: RunState, objective: string, clock: Stamp, maxRetries: int)
    requires GoodView(v, clock, maxRetries) && v.record == Some(r) && Unstarted(r) && r.approval.Some?
    requires r.objective == Some(Text.Strip(objective))
    requires RunRecord.Approve(r, objective, clock, clock).Ok?
    ensures Writable(v, RunRecord.Approve(r, objective, clock, clock).value, v.events + [Granted], clock)
  {
    ApproveKeeps(r, objective, clock, clock);
    EventAppended(v.events, Granted);
    match r.approval.value {
      case Awaiting =>
      case Approved =>
      case Rejected =>
    }
  }

  lemma RejectionWritable(v: View, r: RunState, clock: Stamp, maxRetries: int)
    requires GoodView(v, clock, maxRetries) && v.record == Some(r) && Unstarted(r) && r.approval.Some?
    requires RunRecord.Reject(r, clock, clock).Ok?
    ensures Writable(v, RunRecord.Reject(r, clock, clock).value, v.events + [Declined], clock)
  {
    EventAppended(v.events, Declined);
    RejectionClimbs(r, clock);
  }

  lemma RejectionClimbs(r: RunState, clock: Stamp)
    requires Consistent(r) && Unstarted(r) && r.approval.Some? && RunRecord.Reject(r, clock, clock).Ok?
    ensures Climbs(Some(r), RunRecord.Reject(r, clock, clock).value)
  {
    match r.approval.value {
      case Awaiting =>
      case Approved =>
      case Rejected =>
    }
  }

  lemma ApproveCanonicalGood(s: System, id: ActionId, n: nat)
    requires Inv(s) && n > 0 && Resolve(s, id).Some? && HeldLifecycle(s, id).status == R.Queued
    requires var a := Resolve(s, id).value; a.canonical && HasObjective(a)
    requires Register(Get(s.durable, id), DecisionRegistration(s, Resolve(s, id).value), s.clock).Ok?
    ensures Inv(ApproveCall(s, id, n))
  {
    var a := Resolve(s, id).value;
    ResolvedIsBorn(s, id);
    UndecidedIsUnstarted(s, id);
    DecisionRegisterGood(s, id);
    var r1 := Register(Get(s.durable, id), DecisionRegistration(s, a), s.clock).value;
    var s1 := Put(s, r1);
    var r2 := RunRecord.Approve(r1, a.objective.value, s1.clock, s1.clock);
    assert ApproveCall(s, id, n) == ApproveOnRecord(s, id, a, n);
    if r2.Ok? && n > 1 {
      ApprovedGood(s1, id, a, r1, r2.value, n);
    }
  }

  lemma ApprovedGood(s1: System, id: ActionId, a: R.Action, r1: RunState, r2: RunState, n: nat)
    requires Inv(s1) && n > 1 && id in s1.durable && s1.durable[id] == r1 && r1.actionId == id
    requires Unstarted(r1) && r1.approval.Some? && ViewOf(s1, id).queued == []
    requires HasObjective(a) && a.canonical && a.id == id && id in s1.born && SameTask(a, s1.born[id])
    requires r1.objective == Some(Text.Strip(a.objective.value))
    requires RunRecord.Approve(r1, a.objective.value, s1.clock, s1.clock) == Ok(r2)
    requires HeldLifecycle(s1, id).status == R.Queued
    ensures var s2 := Note(Put(s1, r2), id, Granted);
            Inv(s2) && Inv(Admit(s2, id, a))
  {
    assert Good(s1, id);
    var v := ViewOf(s1, id);
    ApprovalWritable(v, r1, a.objective.value, s1.clock, s1.maxRetries);
    DecideGood(s1, r2, Granted);
    PutView(s1, r2);
    NoteView(Put(s1, r2), id, Granted);
    AdmitGood(Note(Put(s1, r2), id, Granted), id, a);
  }

  lemma RejectGood(s: System, id: ActionId, n: nat)
    requires Inv(s)
    ensures Inv(RejectCall(s, id, n))
  {
    if Resolve(s, id).Some? && R.Transition(HeldLifecycle(s, id), R.Rejected).Some? && n > 0 {
      var a := Resolve(s, id).value;
      ResolvedIsBorn(s, id);
      UndecidedIsUnstarted(s, id);
      assert Good(s, id);
      if !a.canonical {
        DeclineInMemoryGood(s, id);
      } else if HasObjective(a) && Register(Get(s.durable, id), DecisionRegistration(s, a), s.clock).Ok? {
        RejectCanonicalGood(s, id, n);
      }
    }
  }

  lemma RejectCanonicalGood(s: System, id: ActionId, n: nat)
    requires Inv(s) && n > 0 && Resolve(s, id).Some? && HeldLifecycle(s, id).status == R.Queued
    requires var a := Resolve(s, id).value; a.canonical && HasObjective(a)
    requires Register(Get(s.durable, id), DecisionRegistration(s, Resolve(s, id).value), s.clock).Ok?
    ensures Inv(RejectCall(s, id, n))
  {
    var a := Resolve(s, id).value;
    ResolvedIsBorn(s, id);
    UndecidedIsUnstarted(s, id);
    DecisionRegisterGood(s, id);
    var r1 := Register(Get(s.durable, id), DecisionRegistration(s, a), s.clock).value;
    var s1 := Put(s, r1);
    var r2 := RunRecord.Reject(r1, s1.clock, s1.clock);
    if r2.Ok? && n > 1 {
      RejectedGood(s1, id, r1, r2.value);
    }
  }

  lemma RejectedGood(s1: System, id: ActionId, r1: RunState, r2: RunState)
    requires Inv(s1) && id in s1.durable && s1.durable[id] == r1 && r1.actionId == id
    requires Unstarted(r1) && r1.approval.Some? && ViewOf(s1, id).queued == []
    requires RunRecord.Reject(r1, s1.clock, s1.clock) == Ok(r2)
    requires HeldLifecycle(s1, id).status == R.Queued
    ensures var s2 := Note(Put(s1, r2), id, Declined);
            Inv(s2) && Inv(TurnAway(s2, id))
  {
    assert Good(s1, id);
    var v := ViewOf(s1, id);
    RejectionWritable(v, r1, s1.clock, s1.maxRetries);
    DecideGood(s1, r2, Declined);
    PutView(s1, r2);
    NoteView(Put(s1, r2), id, Declined);
    TurnAwayGood(Note(Put(s1, r2), id, Declined), id);
  }
}
