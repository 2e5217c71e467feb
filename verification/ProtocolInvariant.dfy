/**
 What every action satisfies in every reachable state of the run protocol. The invariant
 speaks about one action at a time, through its view of the system.
 */
module ProtocolInvariant {
  import opened Common
  import opened RunRecord
  import opened RunProtocol
  import C = RunControl
  import R = ActionRuntime
  import Text

  /** Everything the system knows about one action. */
  datatype View = View(
    id: ActionId,
    record: Option<RunState>,
    lifecycle: Option<R.Lifecycle>,
    queued: seq<R.Action>,
    pending: Option<R.Action>,
    worktree: bool,
    born: Option<R.Action>,
    events: seq<Event>,
    phases: seq<C.Phase>)

  function ViewOf(s: System, id: ActionId): View {
    View(
      id,
      Get(s.durable, id),
      Get(s.memory.lifecycles, id),
      R.Occurrences(s.memory.queue, id),
      Get(s.memory.registry, id),
      id in s.worktrees,
      Get(s.born, id),
      EventsOf(s, id),
      PhasesOf(s, id))
  }

  // ------------------------------------------------------------------- event history

  function Runs(es: seq<Event>): nat {
    if es == [] then 0 else Runs(es[..|es| - 1]) + if es[|es| - 1].Invoked? then 1 else 0
  }

  predicate Authorized(es: seq<Event>) {
    Permitted in es || Granted in es
  }

  predicate Blocked(es: seq<Event>) {
    Refused in es || Declined in es
  }

  /** The action that ran is the one that was asked for; a canonical objective runs stripped. */
  predicate Faithful(ran: R.Action, born: R.Action) {
    && ran.id == born.id
    && ran.canonical == born.canonical
    && ran.target == born.target
    && (born.canonical ==> born.objective.Some? && ran.objective == Some(Text.Strip(born.objective.value)))
    && (!born.canonical ==> ran.objective == born.objective)
  }

  /** Every invocation came after an authorisation, after no refusal, and ran the right thing. */
  ghost predicate RightfulRuns(es: seq<Event>, born: R.Action) {
    forall k {:trigger es[k]} :: 0 <= k < |es| && es[k].Invoked? ==>
      && Authorized(es[..k])
      && !Blocked(es[..k])
      && SameTask(es[k].action, born)
  }

  lemma EventAppended(es: seq<Event>, e: Event)
    ensures Runs(es + [e]) == Runs(es) + if e.Invoked? then 1 else 0
    ensures Authorized(es + [e]) <==> Authorized(es) || e.Permitted? || e.Granted?
    ensures Blocked(es + [e]) <==> Blocked(es) || e.Refused? || e.Declined?
  {
    assert (es + [e])[..|es|] == es;
  }

  lemma RightfulAppended(es: seq<Event>, e: Event, born: R.Action)
    requires RightfulRuns(es, born)
    requires e.Invoked? ==> Authorized(es) && !Blocked(es) && SameTask(e.action, born)
    ensures RightfulRuns(es + [e], born)
  {
    forall k | 0 <= k < |es + [e]| && (es + [e])[k].Invoked?
      ensures Authorized((es + [e])[..k]) && !Blocked((es + [e])[..k]) && SameTask((es + [e])[k].action, born)
    {
      assert (es + [e])[..k] == es[..k];
      if k == |es| {
        assert es[..k] == es;
      } else {
        assert (es + [e])[k] == es[k];
      }
    }
  }

  // ------------------------------------------------------------------------- phases

  const LADDER := [C.ApprovedPhase, C.ClaimedPhase, C.RunningOrAmbiguous, C.SucceededPhase, C.Kept, C.PromotedPhase]

  /** How many rungs of the ladder a record stands on. */
  function Reached(r: RunState): nat {
    if r.promoted.Some? then 6
    else if r.execution == Some(Succeeded) && r.disposition == Some(Keep) then 5
    else if r.execution == Some(Succeeded) then 4
    else if r.started.Some? then 3
    else if r.claim.Some? then 2
    else if r.approval == Some(Approval.Approved) then 1
    else 0
  }

  /** The recorded phases walk the graph, end where the record stands, and climbed the ladder. */
  ghost predicate Traced(record: Option<RunState>, t: seq<C.Phase>) {
    && C.Walk(t)
    && (record.None? <==> t == [])
    && (record.Some? ==>
          && t[|t| - 1] == C.PhaseOf(record.value)
          && Subsequence(LADDER[..Reached(record.value)], t))
  }

  lemma {:induction false} LadderPrefix(k: nat, j: nat, t: seq<C.Phase>)
    requires k <= j <= 6 && Subsequence(LADDER[..j], t)
    ensures Subsequence(LADDER[..k], t)
    decreases j
  {
    if k < j {
      assert LADDER[..j][..j - 1] == LADDER[..j - 1];
      SubsequenceOfPrefix(LADDER[..j], t);
      LadderPrefix(k, j - 1, t);
    }
  }

  /** One durable write: the phase stays or follows an edge, and climbs at most one rung. */
  lemma PhaseRecorded(record: Option<RunState>, t: seq<C.Phase>, r: RunState)
    requires Traced(record, t)
    requires record.Some? ==>
               C.PhaseOf(record.value) == C.PhaseOf(r) || C.Edge(C.PhaseOf(record.value), C.PhaseOf(r))
    requires var before := if record.Some? then Reached(record.value) else 0;
             Reached(r) <= before || (Reached(r) == before + 1 && LADDER[before] == C.PhaseOf(r))
    ensures Traced(Some(r), t + [C.PhaseOf(r)])
  {
    var p := C.PhaseOf(r);
    var before := if record.Some? then Reached(record.value) else 0;
    assert LADDER[..0] == [];
    if Reached(r) <= before {
      LadderPrefix(Reached(r), before, t);
      SubsequenceSkips(LADDER[..Reached(r)], t, p);
    } else {
      SubsequenceExtends(LADDER[..before], t, p);
      assert LADDER[..before] + [p] == LADDER[..before + 1];
    }
    var t' := t + [p];
    forall i | 0 < i < |t'| ensures t'[i - 1] == t'[i] || C.Edge(t'[i - 1], t'[i]) {
      if i < |t| {
        assert t'[i] == t[i] && t'[i - 1] == t[i - 1];
      }
    }
  }

  // ------------------------------------------------------------------- the invariant

  function Cap(maxRetries: int): nat {
    if maxRetries > 0 then maxRetries else 0
  }

  predicate SameTask(a: R.Action, born: R.Action) {
    && a.id == born.id
    && a.canonical == born.canonical
    && a.target == born.target
    && (a.objective == born.objective
        || (born.canonical && born.objective.Some? && a.objective == Some(Text.Strip(born.objective.value))))
  }

  predicate Untouched(v: View) {
    && v.record.None? && v.lifecycle.None? && v.queued == [] && v.pending.None?
    && !v.worktree && v.events == [] && v.phases == []
  }

  /** The durable record: consistent, canonical, and about the action that was delegated. */
  ghost predicate RecordOk(v: View, clock: Stamp) {
    v.record.Some? ==>
      var r := v.record.value;
      && v.born.Some?
      && v.born.value.canonical
      && Consistent(r)
      && IsCanonical(r)
      && r.actionId == v.id
      && r.target == v.born.value.target
      && (r.objective.Some? ==>
            v.born.value.objective.Some? && r.objective.value == Text.Strip(v.born.value.objective.value))
      && r.updated.value < clock
      && (r.disposition == Some(Discard) ==> !v.worktree)
      && (r.execution.None? ==> r.disposition.None?)
  }

  predicate HasStatus(v: View, status: R.Status) {
    v.lifecycle.Some? && v.lifecycle.value.status == status
  }

  /** Process memory: at most one queue entry, only of approved actions, never of something else. */
  ghost predicate MemoryOk(v: View) {
    && |v.queued| <= 1
    && (v.queued != [] ==> HasStatus(v, R.Approved) && v.born.Some? && SameTask(v.queued[0], v.born.value))
    && (v.pending.Some? ==> v.lifecycle.Some? && v.pending == v.born)
    && (HasStatus(v, R.Queued) ==>
          && v.lifecycle.value.approvalRequired
          && (v.record.Some? ==> Unstarted(v.record.value) && v.record.value.approval.Some?))
    && !HasStatus(v, R.Planned)
  }

  /** How often the worker was invoked. */
  ghost predicate RunsOk(v: View, maxRetries: int) {
    v.born.Some? ==>
      && RightfulRuns(v.events, v.born.value)
      && (v.born.value.canonical ==>
            && Runs(v.events) <= 1
            && (Runs(v.events) == 1 ==> v.record.Some? && v.record.value.started.Some?)
            && (v.queued != [] && v.record.Some? && v.record.value.started.Some? ==> Runs(v.events) == 1))
      && (!v.born.value.canonical ==>
            && Runs(v.events) <= Cap(maxRetries) + 1
            && (v.lifecycle.Some? ==>
                  && v.lifecycle.value.retries <= Cap(maxRetries)
                  && Runs(v.events) <= v.lifecycle.value.retries + 1
                  && (HasStatus(v, R.Queued) || HasStatus(v, R.Approved) ==>
                        Runs(v.events) <= v.lifecycle.value.retries)))
  }

  /** Nothing runs or may run without authorisation, and a refusal is final. */
  ghost predicate AuthorityOk(v: View) {
    && (v.lifecycle.Some? && v.lifecycle.value.status in {R.Approved, R.Executing, R.Completed, R.Skipped, R.Failed} ==>
          Authorized(v.events) && !Blocked(v.events))
    && (v.record.Some? && v.record.value.approval == Some(Approval.Approved) ==>
          Authorized(v.events) && !Blocked(v.events))
    && (v.record.Some? && v.record.value.approval == Some(Awaiting) ==> !Blocked(v.events))
    && (HasStatus(v, R.Queued) && v.record.None? ==> !Blocked(v.events))
  }

  ghost predicate GoodView(v: View, clock: Stamp, maxRetries: int) {
    && (v.born.None? ==> Untouched(v))
    && (v.born.Some? ==> v.born.value.id == v.id)
    && RecordOk(v, clock)
    && MemoryOk(v)
    && RunsOk(v, maxRetries)
    && AuthorityOk(v)
    && Traced(v.record, v.phases)
  }

  ghost predicate Good(s: System, id: ActionId) {
    GoodView(ViewOf(s, id), s.clock, s.maxRetries)
  }

  ghost predicate Inv(s: System) {
    forall id :: Good(s, id)
  }

  // ------------------------------------------------- locality: one action at a time

  /** `s'` differs from `s` in nothing that concerns an action other than `id`. */
  ghost predicate OnlyTouches(s: System, s': System, id: ActionId) {
    && s.clock <= s'.clock
    && s.maxRetries == s'.maxRetries
    && forall other :: other != id ==> ViewOf(s', other) == ViewOf(s, other)
  }

  lemma LocalStep(s: System, s': System, id: ActionId)
    requires Inv(s) && OnlyTouches(s, s', id) && Good(s', id)
    ensures Inv(s')
  {
    forall other ensures Good(s', other) {
      if other != id {
        assert Good(s, other);
        assert ViewOf(s', other) == ViewOf(s, other);
      }
    }
  }

  lemma TouchesTransitive(s: System, s1: System, s2: System, id: ActionId)
    requires OnlyTouches(s, s1, id) && OnlyTouches(s1, s2, id)
    ensures OnlyTouches(s, s2, id)
  {
    forall other | other != id ensures ViewOf(s2, other) == ViewOf(s, other) {
      assert ViewOf(s1, other) == ViewOf(s, other);
    }
  }

  // How the elementary writes show up in a view.

  lemma PutView(s: System, r: RunState)
    ensures var v := ViewOf(s, r.actionId);
            ViewOf(Put(s, r), r.actionId) == v.(record := Some(r), phases := v.phases + [C.PhaseOf(r)])
    ensures OnlyTouches(s, Put(s, r), r.actionId)
  {
  }

  lemma NoteView(s: System, id: ActionId, e: Event)
    ensures var v := ViewOf(s, id); ViewOf(Note(s, id, e), id) == v.(events := v.events + [e])
    ensures OnlyTouches(s, Note(s, id, e), id)
  {
  }

  /** Append an action to the queue and set its lifecycle. */
  lemma EnqueueView(s: System, a: R.Action, m: R.Memory)
    requires m.queue == s.memory.queue + [a]
    requires m.lifecycles.Keys <= s.memory.lifecycles.Keys + {a.id}
    requires forall id :: id != a.id ==> Get(m.lifecycles, id) == Get(s.memory.lifecycles, id)
    requires forall id :: id != a.id ==> Get(m.registry, id) == Get(s.memory.registry, id)
    ensures var v := ViewOf(s, a.id);
            ViewOf(s.(memory := m), a.id) ==
            v.(queued := v.queued + [a], lifecycle := Get(m.lifecycles, a.id), pending := Get(m.registry, a.id))
    ensures OnlyTouches(s, s.(memory := m), a.id)
  {
    forall id ensures R.Occurrences(m.queue, id) ==
                      R.Occurrences(s.memory.queue, id) + if id == a.id then [a] else []
    {
      R.OccurrencesAppend(s.memory.queue, a, id);
    }
  }

  /** Change lifecycle and registry of one action, leaving the queue alone. */
  lemma MemoryView(s: System, id: ActionId, m: R.Memory)
    requires m.queue == s.memory.queue
    requires forall other :: other != id ==> Get(m.lifecycles, other) == Get(s.memory.lifecycles, other)
    requires forall other :: other != id ==> Get(m.registry, other) == Get(s.memory.registry, other)
    ensures ViewOf(s.(memory := m), id) ==
            ViewOf(s, id).(lifecycle := Get(m.lifecycles, id), pending := Get(m.registry, id))
    ensures OnlyTouches(s, s.(memory := m), id)
  {
  }

  /** Take an action out of the queue. */
  lemma DequeueView(s: System, id: ActionId)
    requires R.Find(s.memory.queue, id).Some?
    ensures var s' := s.(memory := s.memory.(queue := R.RemoveFirst(s.memory.queue, id)));
            var v := ViewOf(s, id);
            v.queued != [] && ViewOf(s', id) == v.(queued := v.queued[1..]) && OnlyTouches(s, s', id)
  {
    R.FindIsFirstOccurrence(s.memory.queue, id);
    R.OccurrencesRemoveFirst(s.memory.queue, id, id);
    forall other | other != id
      ensures R.Occurrences(R.RemoveFirst(s.memory.queue, id), other) == R.Occurrences(s.memory.queue, other)
    {
      R.OccurrencesRemoveFirst(s.memory.queue, id, other);
    }
  }
}
