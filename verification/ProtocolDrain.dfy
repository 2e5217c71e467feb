/**
 Draining the queue through the runtime's own entry: every call, canonical or not, observed or
 refused, completed or cut off after any step, uses up work unless its head awaits approval.
 */
module ProtocolDrain {
  import opened Common
  import opened RunRecord
  import opened RunProtocol
  import Services
  import R = ActionRuntime

  /** The outcome a call settles its head with, if it gets that far. */
  function Settlement(s: System, t: Attempt, n: nat): Option<R.Outcome> {
    if s.memory.queue == [] then None
    else
      var a := s.memory.queue[0];
      if !a.canonical then Some(t.outcome)
      else
        match Register(Get(s.durable, a.id), ObserverRegistration(a), s.clock)
        case Err(_) => None
        case Ok(r) => if n <= 4 || StartRefused(r) then None else Some(t.outcome)
  }

  /** The attempt at a canonical action ends before its settlement. */
  predicate CutOff(s: System, a: R.Action, n: nat) {
    var reg := Register(Get(s.durable, a.id), ObserverRegistration(a), s.clock);
    n <= 4 || reg.Err? || StartRefused(reg.value)
  }

  lemma MarkStartedKeeps(s: System, r: RunState, id: ActionId)
    ensures MarkStarted(s, r).memory == s.memory && MarkStarted(s, r).maxRetries == s.maxRetries
    ensures id in s.durable ==> id in MarkStarted(s, r).durable
  {
  }

  lemma RunObservedMemory(s: System, a: R.Action, r: RunState, t: Attempt, n: nat)
    requires a.id in s.durable
    ensures RunObserved(s, a, r, t, n).maxRetries == s.maxRetries
    ensures RunObserved(s, a, r, t, n).memory ==
            if n <= 3 || StartRefused(r) then s.memory else R.Settle(s.memory, a, t.outcome, s.maxRetries)
  {
    MarkStartedKeeps(s, r, a.id);
  }

  /** A call does to memory what the runtime's step does, settled or cut off. */
  lemma RunNextMemory(s: System, t: Attempt, n: nat)
    ensures RunNextCall(s, t, n).memory == R.ProcessNext(s.memory, Settlement(s, t, n), s.maxRetries)
    ensures RunNextCall(s, t, n).maxRetries == s.maxRetries
  {
    if s.memory.queue != [] {
      RunDequeuedMemory(s.(memory := s.memory.(queue := s.memory.queue[1..])), s.memory.queue[0], t, n);
    }
  }

  lemma RunDequeuedMemory(s: System, a: R.Action, t: Attempt, n: nat)
    ensures RunDequeued(s, a, t, n).maxRetries == s.maxRetries
    ensures RunDequeued(s, a, t, n).memory ==
            match R.Begin(s.memory, a)
            case HeldBack(m) => m
            case Dropped(m) => m
            case Underway(m) =>
              if a.canonical && CutOff(s, a, n) then m else R.Settle(m, a, t.outcome, s.maxRetries)
  {
    var b := R.Begin(s.memory, a);
    if b.Underway? && a.canonical && n > 0 {
      RegisteredRunMemory(s.(memory := b.memory), a, t, n);
    }
  }

  lemma RegisteredRunMemory(s: System, a: R.Action, t: Attempt, n: nat)
    requires n > 0
    ensures var reg := Register(Get(s.durable, a.id), ObserverRegistration(a), s.clock);
            reg.Ok? ==>
              var s' := RunObserved(Put(s, reg.value), a, reg.value, t, n - 1);
              && s'.maxRetries == s.maxRetries
              && s'.memory == if CutOff(s, a, n) then s.memory else R.Settle(s.memory, a, t.outcome, s.maxRetries)
  {
    var reg := Register(Get(s.durable, a.id), ObserverRegistration(a), s.clock);
    if reg.Ok? {
      assert a.id in Put(s, reg.value).durable;
      RunObservedMemory(Put(s, reg.value), a, reg.value, t, n - 1);
    }
  }

  function Work(s: System): nat {
    R.WorkLeft(s.memory, s.memory.queue, s.maxRetries)
  }

  /**
   For every state, executor answer and cut-off: one `process_next` strictly lowers the sum over
   queued actions of remaining retries plus one, exactly when the head is not awaiting approval.
   */
  lemma RunNextUsesWork(s: System, t: Attempt, n: nat)
    requires s.memory.queue != []
    ensures Work(RunNextCall(s, t, n)) < Work(s) <==> !R.AwaitsApproval(s.memory, s.memory.queue[0].id)
  {
    RunNextMemory(s, t, n);
    R.ProcessNextUsesWork(s.memory, Settlement(s, t, n), s.maxRetries);
  }

  /** Calls of the FIFO entry one after the other, each with its answer and how far it gets. */
  function Calls(s: System, calls: seq<(Attempt, nat)>): System
    decreases |calls|
  {
    if calls == [] then s else Calls(RunNextCall(s, calls[0].0, calls[0].1), calls[1..])
  }

  /** With nothing new and nothing awaiting approval, as many calls as there is work empty the queue. */
  lemma {:induction false} CallsDrain(s: System, calls: seq<(Attempt, nat)>)
    requires R.QueueReady(s.memory) && |calls| >= Work(s)
    ensures Calls(s, calls).memory.queue == []
    decreases |calls|
  {
    if calls != [] {
      var (t, n) := calls[0];
      RunNextMemory(s, t, n);
      R.ProcessNextKeepsReady(s.memory, Settlement(s, t, n), s.maxRetries);
      if s.memory.queue != [] {
        assert !R.AwaitsApproval(s.memory, s.memory.queue[0].id);
        RunNextUsesWork(s, t, n);
      }
      CallsDrain(RunNextCall(s, t, n), calls[1..]);
    }
  }

  /** A batch never adds work, and a batch that has anything to do uses some up. */
  lemma {:induction false} BatchUsesWork(s: System, attempts: seq<Attempt>)
    requires R.QueueReady(s.memory)
    ensures var s' := Services.InvokeMany(s, attempts);
            && R.QueueReady(s'.memory) && Work(s') <= Work(s)
            && (attempts != [] && s.memory.queue != [] ==> Work(s') < Work(s))
    decreases |attempts|
  {
    if attempts != [] {
      var s1 := RunNextCall(s, attempts[0], ALL_STEPS);
      RunNextMemory(s, attempts[0], ALL_STEPS);
      R.ProcessNextKeepsReady(s.memory, Settlement(s, attempts[0], ALL_STEPS), s.maxRetries);
      if s.memory.queue != [] {
        assert !R.AwaitsApproval(s.memory, s.memory.queue[0].id);
        RunNextUsesWork(s, attempts[0], ALL_STEPS);
      }
      BatchUsesWork(s1, attempts[1..]);
    }
  }
}
