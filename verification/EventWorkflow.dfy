/**
 * Accepting and processing events: an append-only store, an inbox of events still to be
 * processed, a lifecycle status per event and one planning run per processed event.
 */
module EventWorkflow {
  import opened Common
  import opened Text

  type EventId = nat

  datatype Event = Event(id: EventId, source: string, kind: string, payload: string)

  datatype Status = Accepted | Pending | Processing | Processed | Failed

  datatype Lifecycle = Lifecycle(status: Status, reason: Option<string>)

  predicate ValidTransition(from: Status, to: Status) {
    || (from == Accepted && to == Pending)
    || (from == Pending && to == Processing)
    || (from == Processing && to == Processed)
    || (from == Processing && to == Failed)
    || (from == Failed && to == Processing)
  }

  /** A transition, or none when it is not allowed; only a failure carries a reason. */
  function Transition(state: Lifecycle, to: Status, reason: Option<string>): Option<Lifecycle> {
    if !ValidTransition(state.status, to) then None
    else if reason.Some? && to != Failed then None
    else Some(Lifecycle(to, NonBlank(reason)))
  }

  /** A blank reason is no reason. */
  function NonBlank(reason: Option<string>): Option<string> {
    if reason.Some? && Blank(reason.value) then None else reason
  }

  /** How the parts around the workflow behave while one event is processed. */
  datatype Behaviour = PipelineFails(reason: string) | PlannerFails | Plans(actions: seq<string>)

  datatype ProcessResult =
    | NotFound
    | Conflict
    | PipelineFailed
    | PlanningFailed
    | Planned(actions: seq<string>)

  // ----- State and steps -----

  datatype World = World(
    store: seq<Event>,
    inbox: seq<Event>,
    states: map<EventId, Lifecycle>,
    planned: seq<EventId>)

  const EMPTY := World([], [], map[], [])

  /** The first event with an id. */
  function Find(events: seq<Event>, id: EventId): Option<Event> {
    if events == [] then None
    else if events[0].id == id then Some(events[0])
    else Find(events[1..], id)
  }

  /** The events without the first one that has an id. */
  function Without(events: seq<Event>, id: EventId): seq<Event> {
    if events == [] then []
    else if events[0].id == id then events[1..]
    else [events[0]] + Without(events[1..], id)
  }

  function StateOf(w: World, id: EventId): Lifecycle {
    if id in w.states then w.states[id] else Lifecycle(Pending, None)
  }

  function AcceptCall(w: World, e: Event): World {
    if Find(w.store, e.id).Some? then w
    else
      w.(store := w.store + [e], inbox := w.inbox + [e], states := w.states[e.id := Lifecycle(Pending, None)])
  }

  function ProcessCall(w: World, id: EventId, b: Behaviour): (World, ProcessResult) {
    if Find(w.store, id).None? then (w, NotFound)
    else if Transition(StateOf(w, id), Processing, None).None? then (w, Conflict)
    else if b.PipelineFails? then
      (w.(states := w.states[id := Lifecycle(Failed, NonBlank(Some(b.reason)))]), PipelineFailed)
    else
      var w' := w.(
        states := w.states[id := Lifecycle(Processed, None)],
        inbox := Without(w.inbox, id),
        planned := w.planned + [id]);
      (w', if b.PlannerFails? then PlanningFailed else Planned(b.actions))
  }

  datatype Step = AcceptStep(event: Event) | ProcessStep(id: EventId, behaviour: Behaviour)

  function Take(w: World, step: Step): World {
    match step
    case AcceptStep(e) => AcceptCall(w, e)
    case ProcessStep(id, b) => ProcessCall(w, id, b).0
  }

  function Run(steps: seq<Step>): World {
    if steps == [] then EMPTY else Take(Run(steps[..|steps| - 1]), steps[|steps| - 1])
  }

  // ----- What a run should leave, read off its steps alone -----

  /** The events of the run, each id at its first acceptance, in arrival order. */
  function Arrivals(steps: seq<Step>): seq<Event> {
    if steps == [] then []
    else
      var before, last := Arrivals(steps[..|steps| - 1]), steps[|steps| - 1];
      if last.AcceptStep? && Find(before, last.event.id).None? then before + [last.event] else before
  }

  /** Some step processed the event after it had arrived, and the pipeline did not fail. */
  predicate Handled(steps: seq<Step>, id: EventId) {
    exists i, j :: 0 <= i < j < |steps| && steps[i].AcceptStep? && steps[i].event.id == id
      && steps[j].ProcessStep? && steps[j].id == id && !steps[j].behaviour.PipelineFails?
  }

  // ----- The invariant -----

  predicate DistinctIds(events: seq<Event>) {
    forall i, j :: 0 <= i < j < |events| ==> events[i].id != events[j].id
  }

  predicate NoRepeats(ids: seq<EventId>) {
    forall i, j :: 0 <= i < j < |ids| ==> ids[i] != ids[j]
  }

  function Unprocessed(w: World): Event -> bool {
    (e: Event) => StateOf(w, e.id).status != Processed
  }

  ghost predicate Inv(w: World) {
    && DistinctIds(w.store)
    && (forall id :: id in w.states <==> Find(w.store, id).Some?)
    && (forall id :: id in w.states ==> w.states[id].status in {Pending, Failed, Processed})
    && w.inbox == Filter(w.store, Unprocessed(w))
    && PlannedExactly(w)
  }

  lemma {:induction false} FindExactly(events: seq<Event>, id: EventId)
    ensures Find(events, id).Some? <==> exists i :: 0 <= i < |events| && events[i].id == id
    ensures Find(events, id).Some? ==> Find(events, id).value.id == id && Find(events, id).value in events
  {
    if events != [] && events[0].id != id {
      FindExactly(events[1..], id);
      if i :| 0 <= i < |events| && events[i].id == id {
        assert events[1..][i - 1] == events[i];
      }
    }
  }

  lemma FindConcat(events: seq<Event>, e: Event, id: EventId)
    ensures Find(events + [e], id).Some? <==> Find(events, id).Some? || e.id == id
  {
    FindExactly(events, id);
    FindExactly(events + [e], id);
    assert (events + [e])[|events|] == e;
    if i :| 0 <= i < |events| && events[i].id == id {
      assert (events + [e])[i] == events[i];
    }
  }

  lemma {:induction false} FilterAgrees(events: seq<Event>, f: Event -> bool, g: Event -> bool)
    requires forall e :: e in events ==> f(e) == g(e)
    ensures Filter(events, f) == Filter(events, g)
  {
    if events != [] {
      FilterAgrees(events[1..], f, g);
    }
  }

  lemma {:induction false} FilterKeepsFrom(events: seq<Event>, f: Event -> bool)
    ensures forall e :: e in Filter(events, f) <==> e in events && f(e)
  {
    if events != [] {
      FilterKeepsFrom(events[1..], f);
    }
  }

  lemma {:induction false} WithoutAbsent(events: seq<Event>, id: EventId)
    requires forall e :: e in events ==> e.id != id
    ensures Without(events, id) == events
  {
    if events != [] {
      WithoutAbsent(events[1..], id);
    }
  }

  lemma {:induction false} WithoutAt(events: seq<Event>, id: EventId, k: nat)
    requires k < |events| && events[k].id == id
    requires forall i :: 0 <= i < k ==> events[i].id != id
    ensures Without(events, id) == events[..k] + events[k + 1..]
    ensures Find(events, id) == Some(events[k])
  {
    if k > 0 {
      WithoutAt(events[1..], id, k - 1);
      assert events[..k] == [events[0]] + events[1..][..k - 1];
    }
  }

  /** Ruling out one id drops that event from a filtered list, and only that one. */
  lemma {:induction false} FilterDrops(events: seq<Event>, id: EventId, f: Event -> bool, g: Event -> bool)
    requires DistinctIds(events)
    requires forall e :: e in events ==> g(e) == (f(e) && e.id != id)
    ensures Filter(events, g) == Without(Filter(events, f), id)
  {
    if events != [] {
      var e, rest := events[0], events[1..];
      FilterDrops(rest, id, f, g);
      if e.id == id {
        FilterKeepsFrom(rest, f);
        WithoutAbsent(Filter(rest, f), id);
      }
    }
  }

  lemma AcceptKeepsInbox(w: World, e: Event)
    requires Inv(w) && Find(w.store, e.id).None?
    ensures var w' := AcceptCall(w, e); w'.inbox == Filter(w'.store, Unprocessed(w'))
  {
    var w' := AcceptCall(w, e);
    FindExactly(w.store, e.id);
    FilterConcat(w.store, [e], Unprocessed(w'));
    FilterAgrees(w.store, Unprocessed(w), Unprocessed(w'));
    assert Filter([e], Unprocessed(w')) == [e];
  }

  /** A new event is filed under its own id and no other. */
  lemma AcceptKeepsStore(w: World, e: Event)
    requires Inv(w) && Find(w.store, e.id).None?
    ensures var w' := AcceptCall(w, e);
            && DistinctIds(w'.store)
            && (forall id :: id in w'.states <==> Find(w'.store, id).Some?)
  {
    FindExactly(w.store, e.id);
    forall id
      ensures id in AcceptCall(w, e).states <==> Find(AcceptCall(w, e).store, id).Some?
    {
      FindConcat(w.store, e, id);
    }
  }

  lemma AcceptKeeps(w: World, e: Event)
    requires Inv(w)
    ensures Inv(AcceptCall(w, e))
  {
    if Find(w.store, e.id).None? {
      AcceptKeepsInbox(w, e);
      AcceptKeepsStore(w, e);
    }
  }

  lemma ProcessKeepsInbox(w: World, id: EventId, b: Behaviour)
    requires Inv(w)
    ensures var w' := ProcessCall(w, id, b).0; w'.inbox == Filter(w'.store, Unprocessed(w'))
  {
    var w' := ProcessCall(w, id, b).0;
    if w' != w {
      if b.PipelineFails? {
        FilterAgrees(w.store, Unprocessed(w), Unprocessed(w'));
      } else {
        FilterDrops(w.store, id, Unprocessed(w), Unprocessed(w'));
      }
    }
  }

  lemma ProcessKeeps(w: World, id: EventId, b: Behaviour)
    requires Inv(w)
    ensures Inv(ProcessCall(w, id, b).0)
  {
    ProcessKeepsInbox(w, id, b);
    ProcessKeepsPlans(w, id, b);
    FindExactly(w.store, id);
  }

  /** Planning has run once for each processed event, and for no other. */
  predicate PlannedExactly(w: World) {
    && NoRepeats(w.planned)
    && (forall id :: id in w.planned ==> id in w.states && w.states[id].status == Processed)
    && (forall id :: id in w.states && w.states[id].status == Processed ==> id in w.planned)
  }

  lemma ProcessKeepsPlans(w: World, id: EventId, b: Behaviour)
    requires PlannedExactly(w)
    ensures PlannedExactly(ProcessCall(w, id, b).0)
  {
    var w' := ProcessCall(w, id, b).0;
    if w'.planned != w.planned {
      assert id !in w.planned;
      assert w'.planned[|w.planned|] == id;
      assert forall i :: i in w.planned ==> i in w'.planned;
    }
  }

  /** Every run keeps the invariant. */
  lemma {:induction false} RunKeepsInv(steps: seq<Step>)
    ensures Inv(Run(steps))
  {
    if steps != [] {
      var before, last := steps[..|steps| - 1], steps[|steps| - 1];
      RunKeepsInv(before);
      match last
      case AcceptStep(e) => AcceptKeeps(Run(before), e);
      case ProcessStep(id, b) => ProcessKeeps(Run(before), id, b);
    }
  }

  // ----- Runs against their steps -----

  /** The store holds the first arrival of every id, in order, whatever is processed. */
  lemma {:induction false} StoreIsArrivals(steps: seq<Step>)
    ensures Run(steps).store == Arrivals(steps)
  {
    if steps != [] {
      StoreIsArrivals(steps[..|steps| - 1]);
    }
  }

  lemma {:induction false} ArrivedExactly(steps: seq<Step>, id: EventId)
    ensures Find(Arrivals(steps), id).Some? <==> exists i :: 0 <= i < |steps| && steps[i].AcceptStep? && steps[i].event.id == id
  {
    if steps != [] {
      var before, last := steps[..|steps| - 1], steps[|steps| - 1];
      ArrivedExactly(before, id);
      if last.AcceptStep? {
        FindConcat(Arrivals(before), last.event, id);
      }
      if i :| 0 <= i < |before| && before[i].AcceptStep? && before[i].event.id == id {
        assert steps[i] == before[i];
      }
      assert forall i :: 0 <= i < |before| ==> before[i] == steps[i];
    }
  }

  lemma HandledStep(steps: seq<Step>, id: EventId)
    requires steps != []
    ensures
      var before, last := steps[..|steps| - 1], steps[|steps| - 1];
      Handled(steps, id) <==>
        || Handled(before, id)
        || (last.ProcessStep? && last.id == id && !last.behaviour.PipelineFails? && Find(Arrivals(before), id).Some?)
  {
    var before, last := steps[..|steps| - 1], steps[|steps| - 1];
    ArrivedExactly(before, id);
    assert forall i :: 0 <= i < |before| ==> before[i] == steps[i];
  }

  /** An event is marked processed exactly when the run handled it. */
  lemma {:induction false} ProcessedExactly(steps: seq<Step>, id: EventId)
    ensures StateOf(Run(steps), id).status == Processed <==> Handled(steps, id)
  {
    if steps != [] {
      var before, last := steps[..|steps| - 1], steps[|steps| - 1];
      ProcessedExactly(before, id);
      HandledStep(steps, id);
      StoreIsArrivals(before);
      RunKeepsInv(before);
      ProcessedStep(Run(before), last, id);
    }
  }

  /** The one way an event becomes processed; nothing undoes it. */
  lemma ProcessedStep(w: World, step: Step, id: EventId)
    requires Inv(w)
    ensures StateOf(Take(w, step), id).status == Processed <==>
      || StateOf(w, id).status == Processed
      || (step.ProcessStep? && step.id == id && !step.behaviour.PipelineFails? && Find(w.store, id).Some?)
  {
  }

  /**
   * Whatever is accepted twice, replayed or failing: stored ids are distinct, the inbox is
   * exactly the arrivals not yet handled, in arrival order, and planning has run once for
   * each handled event and never for another.
   */
  lemma RunsAreExact(steps: seq<Step>)
    ensures
      var w := Run(steps);
      && DistinctIds(w.store) && w.store == Arrivals(steps)
      && w.inbox == Filter(Arrivals(steps), (e: Event) => !Handled(steps, e.id))
      && NoRepeats(w.planned)
      && (forall id :: id in w.planned <==> Handled(steps, id))
  {
    var w := Run(steps);
    RunKeepsInv(steps);
    StoreIsArrivals(steps);
    forall id
      ensures StateOf(w, id).status == Processed <==> Handled(steps, id)
    {
      ProcessedExactly(steps, id);
    }
    FilterAgrees(w.store, Unprocessed(w), (e: Event) => !Handled(steps, e.id));
  }

  /** What processing answers, and what a failed pipeline leaves, by the state it is called in. */
  lemma ProcessingAnswers(w: World, id: EventId, b: Behaviour)
    requires Inv(w)
    ensures
      ProcessCall(w, id, b).1 ==
      if Find(w.store, id).None? then NotFound
      else if StateOf(w, id).status == Processed then Conflict
      else if b.PipelineFails? then PipelineFailed
      else if b.PlannerFails? then PlanningFailed
      else Planned(b.actions)
    ensures ProcessCall(w, id, b).1 == PipelineFailed ==>
      b.PipelineFails? && ProcessCall(w, id, b).0 == w.(states := w.states[id := Lifecycle(Failed, NonBlank(Some(b.reason)))])
  {
  }

  /** What processing answers, by the run that came before it. */
  lemma AnswersExactly(steps: seq<Step>, id: EventId, b: Behaviour)
    ensures
      ProcessCall(Run(steps), id, b).1 ==
      if Find(Arrivals(steps), id).None? then NotFound
      else if Handled(steps, id) then Conflict
      else if b.PipelineFails? then PipelineFailed
      else if b.PlannerFails? then PlanningFailed
      else Planned(b.actions)
  {
    var w := Run(steps);
    assert w.store == Arrivals(steps) by {
      StoreIsArrivals(steps);
    }
    RunKeepsInv(steps);
    ProcessedExactly(steps, id);
    ProcessingAnswers(w, id, b);
  }

  /** The transitions of an event, and that only a failure is given a reason. */
  lemma TransitionsExactly(state: Lifecycle, to: Status, reason: Option<string>)
    ensures Transition(state, to, reason).Some? <==>
      && (state.status, to) in {
           (Accepted, Pending), (Pending, Processing), (Processing, Processed), (Processing, Failed), (Failed, Processing)}
      && (reason.Some? ==> to == Failed)
    ensures Transition(state, to, reason).Some? ==>
      && Transition(state, to, reason).value.status == to
      && Transition(state, to, reason).value.reason ==
         (if reason.Some? && Strip(reason.value) == "" then None else reason)
  {
    if reason.Some? {
      BlankExactly(reason.value);
    }
  }

  /** A failed pipeline leaves the event where it is, failed for the reason given, to be processed again. */
  lemma FailuresAreNoted(steps: seq<Step>, id: EventId, reason: string)
    requires Find(Arrivals(steps), id).Some? && !Handled(steps, id)
    ensures
      var w, w' := Run(steps), ProcessCall(Run(steps), id, PipelineFails(reason)).0;
      && w'.store == w.store && w'.inbox == w.inbox && w'.planned == w.planned
      && w'.states == w.states[id := Lifecycle(Failed, if Strip(reason) == "" then None else Some(reason))]
  {
    AnswersExactly(steps, id, PipelineFails(reason));
    RunKeepsInv(steps);
    ProcessingAnswers(Run(steps), id, PipelineFails(reason));
    BlankExactly(reason);
  }

  // ----- The objects -----

  class EventStore {
    var events: seq<Event>

    constructor ()
      ensures events == []
    {
      events := [];
    }

    method Append(e: Event)
      modifies this
      ensures events == old(events) + [e]
    {
      events := events + [e];
    }

    method GetEvent(id: EventId) returns (found: Option<Event>)
      ensures found == Find(events, id)
    {
      for k := 0 to |events|
        invariant Find(events, id) == Find(events[k..], id)
      {
        if events[k].id == id {
          return Some(events[k]);
        }
      }
      return None;
    }
  }

  class EventInbox {
    var pending: seq<Event>

    constructor ()
      ensures pending == []
    {
      pending := [];
    }

    method Enqueue(e: Event)
      modifies this
      ensures pending == old(pending) + [e]
    {
      pending := pending + [e];
    }

    method MarkProcessed(id: EventId) returns (removed: Option<Event>)
      modifies this
      ensures pending == Without(old(pending), id)
      ensures removed == Find(old(pending), id)
    {
      for k := 0 to |pending|
        invariant pending == old(pending)
        invariant forall i :: 0 <= i < k ==> pending[i].id != id
      {
        if pending[k].id == id {
          WithoutAt(pending, id, k);
          removed := Some(pending[k]);
          pending := pending[..k] + pending[k + 1..];
          return;
        }
      }
      WithoutAbsent(pending, id);
      FindExactly(pending, id);
      return None;
    }
  }

  class EventWorkflowService {
    const store: EventStore
    const inbox: EventInbox
    var states: map<EventId, Lifecycle>
    ghost var planned: seq<EventId>

    ghost function State(): World
      reads this, store, inbox
    {
      World(store.events, inbox.pending, states, planned)
    }

    constructor ()
      ensures fresh(store) && fresh(inbox) && State() == EMPTY
    {
      store := new EventStore();
      inbox := new EventInbox();
      states := map[];
      planned := [];
    }

    method Accept(e: Event) returns (accepted: bool)
      modifies this, store, inbox
      ensures State() == AcceptCall(old(State()), e)
      ensures accepted <==> Find(old(store.events), e.id).None?
    {
      var known := store.GetEvent(e.id);
      if known.Some? {
        return false;
      }
      store.Append(e);
      inbox.Enqueue(e);
      var pending := Transition(Lifecycle(Accepted, None), Pending, None);
      states := states[e.id := pending.value];
      return true;
    }

    method Process(id: EventId, b: Behaviour) returns (result: ProcessResult)
      modifies this, store, inbox
      ensures (State(), result) == ProcessCall(old(State()), id, b)
    {
      var event := store.GetEvent(id);
      if event.None? {
        return NotFound;
      }
      var state := if id in states then states[id] else Lifecycle(Pending, None);
      var processing := Transition(state, Processing, None);
      if processing.None? {
        return Conflict;
      }
      states := states[id := processing.value];
      if b.PipelineFails? {
        var failed := Transition(processing.value, Failed, Some(b.reason));
        states := states[id := failed.value];
        assert states == old(states)[id := failed.value];
        return PipelineFailed;
      }
      var processed := Transition(processing.value, Processed, None);
      states := states[id := processed.value];
      assert states == old(states)[id := processed.value];
      var _ := inbox.MarkProcessed(id);
      planned := planned + [id];
      if b.PlannerFails? {
        return PlanningFailed;
      }
      return Planned(b.actions);
    }
  }
}
