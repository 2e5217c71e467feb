/**
 The process-local runtime: the FIFO queue, the lifecycle map and the registry of
 actions awaiting approval, and how the worker runtime moves an action through them.
 */
module ActionRuntime {
  import opened Common

  type ActionId = nat

  datatype Status = Planned | Queued | Approved | Rejected | Executing | Completed | Skipped | Failed

  /** A lifecycle state with the two metadata entries the runtime reads. */
  datatype Lifecycle = Lifecycle(status: Status, approvalRequired: bool, retries: nat)

  /** `canonical` marks the Software Engineering implementation route. */
  datatype Action = Action(id: ActionId, canonical: bool, target: string, objective: Option<string>)

  datatype Outcome = Success | Skip | Failure(transient: bool)

  datatype Memory = Memory(
    queue: seq<Action>,
    lifecycles: map<ActionId, Lifecycle>,
    registry: map<ActionId, Action>)

  const Blank := Memory([], map[], map[])

  // ------------------------------------------------------------- lifecycle manager

  predicate ValidTransition(a: Status, b: Status) {
    || (a == Planned && b == Queued)
    || (a == Queued && (b == Approved || b == Rejected))
    || (a == Approved && b == Executing)
    || (a == Executing && (b == Completed || b == Skipped || b == Failed))
    || (a == Failed && b == Queued)
  }

  /** A valid transition keeps all metadata; an invalid one is refused. */
  function Transition(l: Lifecycle, to: Status): Option<Lifecycle> {
    if ValidTransition(l.status, to) then Some(l.(status := to)) else None
  }

  /** The transitions there are, and that none of them loses the metadata. */
  lemma TransitionsExactly(l: Lifecycle, to: Status)
    ensures Transition(l, to).Some? <==>
              (l.status, to) in {
                (Planned, Queued), (Queued, Approved), (Queued, Rejected), (Approved, Executing),
                (Executing, Completed), (Executing, Skipped), (Executing, Failed), (Failed, Queued)}
    ensures Transition(l, to).Some? ==>
              var l' := Transition(l, to).value;
              l'.status == to && l'.approvalRequired == l.approvalRequired && l'.retries == l.retries
  {
  }

  // --------------------------------------------------------------------- the queue

  function Find(q: seq<Action>, id: ActionId): Option<Action> {
    if q == [] then None
    else if q[0].id == id then Some(q[0])
    else Find(q[1..], id)
  }

  /** The queue without its first action of this id; every other position is kept. */
  function RemoveFirst(q: seq<Action>, id: ActionId): seq<Action> {
    if q == [] then []
    else if q[0].id == id then q[1..]
    else [q[0]] + RemoveFirst(q[1..], id)
  }

  /** The queued actions with this id, in queue order. */
  function Occurrences(q: seq<Action>, id: ActionId): seq<Action> {
    Filter(q, (a: Action) => a.id == id)
  }

  lemma OccurrencesAppend(q: seq<Action>, a: Action, id: ActionId)
    ensures Occurrences(q + [a], id) == if a.id == id then Occurrences(q, id) + [a] else Occurrences(q, id)
  {
    FilterConcat(q, [a], (b: Action) => b.id == id);
    assert Occurrences([a], id) == if a.id == id then [a] else [];
  }

  lemma {:induction false} OccurrencesRemoveFirst(q: seq<Action>, gone: ActionId, id: ActionId)
    ensures id != gone ==> Occurrences(RemoveFirst(q, gone), id) == Occurrences(q, id)
    ensures id == gone && Occurrences(q, id) != [] ==>
              Occurrences(RemoveFirst(q, gone), id) == Occurrences(q, id)[1..]
    ensures id == gone && Occurrences(q, id) == [] ==> RemoveFirst(q, gone) == q
  {
    if q != [] && q[0].id != gone {
      OccurrencesRemoveFirst(q[1..], gone, id);
    }
  }

  lemma {:induction false} FindIsFirstOccurrence(q: seq<Action>, id: ActionId)
    ensures Find(q, id) == if Occurrences(q, id) == [] then None else Some(Occurrences(q, id)[0])
    ensures forall a :: a in Occurrences(q, id) ==> a.id == id && a in q
  {
    if q != [] {
      FindIsFirstOccurrence(q[1..], id);
    }
  }

  /** Where the first action of an id stands. */
  lemma {:induction false} FirstAt(q: seq<Action>, i: nat, id: ActionId)
    requires i < |q| && q[i].id == id && forall j :: 0 <= j < i ==> q[j].id != id
    ensures Find(q, id) == Some(q[i]) && RemoveFirst(q, id) == q[..i] + q[i + 1..]
  {
    if i > 0 {
      FirstAt(q[1..], i - 1, id);
    }
  }

  lemma {:induction false} Nowhere(q: seq<Action>, id: ActionId)
    requires forall j :: 0 <= j < |q| ==> q[j].id != id
    ensures Find(q, id) == None && RemoveFirst(q, id) == q
  {
    if q != [] {
      Nowhere(q[1..], id);
    }
  }

  // -------------------------------------------------- running one dequeued action

  datatype Begun = HeldBack(memory: Memory) | Dropped(memory: Memory) | Underway(memory: Memory)

  function LifecycleOf(m: Memory, id: ActionId): Lifecycle {
    if id in m.lifecycles then m.lifecycles[id] else Lifecycle(Queued, false, 0)
  }

  /** Still waiting for a person: the runtime must not run it. */
  predicate AwaitsApproval(m: Memory, id: ActionId) {
    LifecycleOf(m, id).status == Queued && LifecycleOf(m, id).approvalRequired
  }

  /** Gate an action that has just left the queue. */
  function Begin(m: Memory, a: Action): Begun {
    var l := LifecycleOf(m, a.id);
    if AwaitsApproval(m, a.id) then HeldBack(m.(queue := m.queue + [a]))
    else if l.status == Queued || l.status == Approved then
      Underway(m.(lifecycles := m.lifecycles[a.id := l.(status := Executing)]))
    else Dropped(m)
  }

  /** Record the outcome, and put a transiently failed action back while it has retries left. */
  function Settle(m: Memory, a: Action, outcome: Outcome, maxRetries: int): Memory {
    var l := LifecycleOf(m, a.id);
    var final := l.(status := match outcome case Success => Completed case Skip => Skipped case Failure(_) => Failed);
    if outcome == Failure(true) && l.retries < maxRetries then
      m.(lifecycles := m.lifecycles[a.id := final.(status := Approved, retries := l.retries + 1)],
         queue := m.queue + [a])
    else m.(lifecycles := m.lifecycles[a.id := final])
  }

  /** Only the action itself is touched: its lifecycle, and at most one new place at the end of the queue. */
  ghost predicate TouchesOnly(m: Memory, m': Memory, a: Action) {
    && m'.registry == m.registry
    && (m'.queue == m.queue || m'.queue == m.queue + [a])
    && forall id :: id != a.id ==> Get(m'.lifecycles, id) == Get(m.lifecycles, id)
  }

  /**
   The gate: an action queued for approval goes back, an approved one (or one queued without
   need of approval, as an unknown one counts) goes on as executing, anything else is dropped
   as it is.
   */
  lemma GateExactly(m: Memory, a: Action)
    ensures var l := if a.id in m.lifecycles then m.lifecycles[a.id] else Lifecycle(Queued, false, 0);
            var m' := Begin(m, a).memory;
            && (Begin(m, a).HeldBack? <==> l.status == Queued && l.approvalRequired)
            && (Begin(m, a).Underway? <==> l.status == Approved || (l.status == Queued && !l.approvalRequired))
            && TouchesOnly(m, m', a)
            && m'.queue == (if Begin(m, a).HeldBack? then m.queue + [a] else m.queue)
            && Get(m'.lifecycles, a.id) ==
               (if Begin(m, a).Underway? then Some(l.(status := Executing)) else Get(m.lifecycles, a.id))
  {
  }

  /**
   Settlement: a success completes, a skip skips; a transient failure with retries left goes back
   to the queue as approved with one retry used, and any other failure fails.
   */
  lemma SettlesExactly(m: Memory, a: Action, o: Outcome, maxRetries: int)
    requires a.id in m.lifecycles
    ensures var l, m' := m.lifecycles[a.id], Settle(m, a, o, maxRetries);
            && TouchesOnly(m, m', a) && a.id in m'.lifecycles
            && var l' := m'.lifecycles[a.id];
               var again := o == Failure(true) && l.retries < maxRetries;
               && (l'.status == Completed <==> o == Success)
               && (l'.status == Skipped <==> o == Skip)
               && (l'.status == Approved <==> again)
               && (l'.status == Failed <==> o.Failure? && !again)
               && l'.retries == (if again then l.retries + 1 else l.retries)
               && l'.approvalRequired == l.approvalRequired
               && m'.queue == (if again then m.queue + [a] else m.queue)
  {
  }

  /**
   What one `process_next` does to memory. Without an outcome the attempt was cut off between
   the gate and its settlement: the observer refused it, or a storage error stopped it.
   */
  function ProcessNext(m: Memory, outcome: Option<Outcome>, maxRetries: int): Memory {
    if m.queue == [] then m
    else
      match Begin(m.(queue := m.queue[1..]), m.queue[0])
      case HeldBack(m') => m'
      case Dropped(m') => m'
      case Underway(m') => if outcome.None? then m' else Settle(m', m.queue[0], outcome.value, maxRetries)
  }

  // ------------------------------------------------------------- draining terminates

  /** How often an action may still run. */
  function Allowance(m: Memory, id: ActionId, maxRetries: int): nat {
    var l := LifecycleOf(m, id);
    if l.retries < maxRetries then maxRetries - l.retries + 1 else 1
  }

  /** The work left in the queue: remaining retries plus one, summed over its actions. */
  function WorkLeft(m: Memory, q: seq<Action>, maxRetries: int): nat {
    if q == [] then 0 else Allowance(m, q[0].id, maxRetries) + WorkLeft(m, q[1..], maxRetries)
  }

  lemma {:induction false} WorkLeftAppend(m: Memory, q: seq<Action>, a: Action, maxRetries: int)
    ensures WorkLeft(m, q + [a], maxRetries) == WorkLeft(m, q, maxRetries) + Allowance(m, a.id, maxRetries)
  {
    if q == [] {
      assert q + [a] == [a];
    } else {
      assert (q + [a])[1..] == q[1..] + [a];
      WorkLeftAppend(m, q[1..], a, maxRetries);
    }
  }

  lemma {:induction false} WorkLeftMonotone(m: Memory, m': Memory, q: seq<Action>, maxRetries: int)
    requires forall id :: Allowance(m', id, maxRetries) <= Allowance(m, id, maxRetries)
    ensures WorkLeft(m', q, maxRetries) <= WorkLeft(m, q, maxRetries)
  {
    if q != [] {
      WorkLeftMonotone(m, m', q[1..], maxRetries);
    }
  }

  /**
   Whatever the executor answers and wherever the attempt is cut off, processing the head uses
   up work, except exactly when the head still awaits approval and is put back.
   */
  lemma ProcessNextUsesWork(m: Memory, outcome: Option<Outcome>, maxRetries: int)
    requires m.queue != []
    ensures var m' := ProcessNext(m, outcome, maxRetries);
            WorkLeft(m', m'.queue, maxRetries) < WorkLeft(m, m.queue, maxRetries)
            <==> !AwaitsApproval(m, m.queue[0].id)
  {
    var a := m.queue[0];
    var rest := m.queue[1..];
    var m' := ProcessNext(m, outcome, maxRetries);
    if AwaitsApproval(m, a.id) {
      WorkLeftMonotone(m, m', rest, maxRetries);
      WorkLeftMonotone(m', m, rest, maxRetries);
      WorkLeftAppend(m', rest, a, maxRetries);
    } else {
      WorkLeftMonotone(m, m', rest, maxRetries);
      if m'.queue != rest {
        WorkLeftAppend(m', rest, a, maxRetries);
      }
    }
  }

  /** Nothing in the queue still waits for a person. */
  ghost predicate QueueReady(m: Memory) {
    forall a :: a in m.queue ==> !AwaitsApproval(m, a.id)
  }

  lemma ProcessNextKeepsReady(m: Memory, outcome: Option<Outcome>, maxRetries: int)
    requires QueueReady(m)
    ensures QueueReady(ProcessNext(m, outcome, maxRetries))
  {
    if m.queue != [] {
      assert !AwaitsApproval(m, m.queue[0].id);
      var m' := ProcessNext(m, outcome, maxRetries);
      forall a | a in m'.queue ensures !AwaitsApproval(m', a.id) {
        assert a in m.queue;
      }
    }
  }

  // ------------------------------------------------------------------------ classes

  class ActionQueue {
    var actions: seq<Action>

    constructor ()
      ensures actions == []
    {
      actions := [];
    }

    method Enqueue(a: Action)
      modifies this
      ensures actions == old(actions) + [a]
    {
      actions := actions + [a];
    }

    method EnqueueMany(batch: seq<Action>)
      modifies this
      ensures actions == old(actions) + batch
    {
      for i := 0 to |batch|
        invariant actions == old(actions) + batch[..i]
      {
        Enqueue(batch[i]);
      }
    }

    method Dequeue() returns (head: Option<Action>)
      modifies this
      ensures old(actions) == [] ==> head == None && actions == []
      ensures old(actions) != [] ==> head == Some(old(actions)[0]) && actions == old(actions)[1..]
    {
      if actions == [] {
        return None;
      }
      head := Some(actions[0]);
      actions := actions[1..];
    }

    method Lookup(id: ActionId) returns (found: Option<Action>)
      ensures found == Find(actions, id)
    {
      var i := 0;
      while i < |actions|
        invariant 0 <= i <= |actions|
        invariant forall j :: 0 <= j < i ==> actions[j].id != id
      {
        if actions[i].id == id {
          FirstAt(actions, i, id);
          return Some(actions[i]);
        }
        i := i + 1;
      }
      Nowhere(actions, id);
      found := None;
    }

    method Remove(id: ActionId) returns (removed: Option<Action>)
      modifies this
      ensures removed == Find(old(actions), id)
      ensures actions == RemoveFirst(old(actions), id)
    {
      var i := 0;
      while i < |actions|
        invariant 0 <= i <= |actions| && actions == old(actions)
        invariant forall j :: 0 <= j < i ==> actions[j].id != id
      {
        if actions[i].id == id {
          FirstAt(actions, i, id);
          removed := Some(actions[i]);
          actions := actions[..i] + actions[i + 1..];
          return;
        }
        i := i + 1;
      }
      Nowhere(actions, id);
      removed := None;
    }
  }

  class LifecycleRepository {
    var states: map<ActionId, Lifecycle>

    constructor ()
      ensures states == map[]
    {
      states := map[];
    }

    method Set(id: ActionId, l: Lifecycle)
      modifies this
      ensures states == old(states)[id := l]
    {
      states := states[id := l];
    }
  }

  class ApprovalRegistry {
    var actions: map<ActionId, Action>

    constructor ()
      ensures actions == map[]
    {
      actions := map[];
    }

    method Add(a: Action)
      modifies this
      ensures actions == old(actions)[a.id := a]
    {
      actions := actions[a.id := a];
    }

    method Remove(id: ActionId)
      modifies this
      ensures actions == old(actions) - {id}
    {
      actions := actions - {id};
    }
  }
}
