/**
 Why the run protocol's theorems keep canonical actions away from the FIFO entry: what that
 entry does to them, as runs from the initial state.
 */
module ProtocolLimits {
  import opened Common
  import opened RunRecord
  import opened RunProtocol
  import opened ProtocolInvariant
  import T = ProtocolTheorems
  import P = ProtocolPlacement
  import R = ActionRuntime
  import Text

  /** A canonical action alone in the queue, approved in memory and on record. */
  predicate Waiting(s: System, a: R.Action) {
    && s.memory.queue == [a] && a.canonical
    && a.id in s.memory.lifecycles && s.memory.lifecycles[a.id].status == R.Approved
    && a.id in s.durable && s.durable[a.id].actionId == a.id
    && SameIdentity(s.durable[a.id], a.target, SE_ROLE, SE_CAPABILITY) && s.durable[a.id].claim.None?
  }

  function RetriesOf(s: System, id: ActionId): nat {
    if id in s.memory.lifecycles then s.memory.lifecycles[id].retries else 0
  }

  /** Past the gate and the observer's registration. */
  function Observed(s: System, a: R.Action): System
    requires Waiting(s, a)
  {
    var m := s.memory.(queue := [], lifecycles := s.memory.lifecycles[a.id := s.memory.lifecycles[a.id].(status := R.Executing)]);
    Put(s.(memory := m), s.durable[a.id].(updated := Some(s.clock)))
  }

  lemma FifoReaches(s: System, a: R.Action, t: Attempt)
    requires Waiting(s, a)
    ensures var s2 := Observed(s, a);
            && a.id in s2.durable && s2.durable[a.id].actionId == a.id && s2.durable[a.id].claim.None?
            && Apply(s, RunNext(t, Completes)) == RunObserved(s2, a, s2.durable[a.id], t, ALL_STEPS - 1)
  {
    assert s.memory.queue[1..] == [];
  }

  lemma RecordedKeepsIdentity(s: System, a: R.Action, t: Attempt)
    requires a.id in s.durable && s.durable[a.id].actionId == a.id
    requires SameIdentity(s.durable[a.id], a.target, SE_ROLE, SE_CAPABILITY) && s.durable[a.id].claim.None?
    ensures var s' := P.Recorded(s, a, s.durable[a.id], t);
            && a.id in s'.durable && s'.durable[a.id].actionId == a.id
            && SameIdentity(s'.durable[a.id], a.target, SE_ROLE, SE_CAPABILITY) && s'.durable[a.id].claim.None?
  {
  }

  /** The call runs to its settlement. */
  lemma FifoSettles(s: System, a: R.Action, t: Attempt)
    requires Waiting(s, a)
    ensures var s2 := Observed(s, a);
            var s' := Apply(s, RunNext(t, Completes));
            && a.id in s2.durable && s2.durable[a.id].actionId == a.id
            && s'.memory == R.Settle(s2.memory, a, t.outcome, s.maxRetries)
            && s'.durable == P.Recorded(s2, a, s2.durable[a.id], t).durable
            && s'.maxRetries == s.maxRetries
            && EventsOf(s', a.id) == EventsOf(s2, a.id) + [Invoked(a)]
  {
    FifoReaches(s, a, t);
    var s2 := Observed(s, a);
    var r := s2.durable[a.id];
    P.RunObservedSettles(s2, a, r, t, ALL_STEPS - 1);
    P.RecordedTouches(s2, a, r, t);
    T.RunObservedInvokes(s2, a, r, t, ALL_STEPS - 1);
    RecordedKeepsLimits(s2, a, r, t);
  }

  lemma RecordedKeepsLimits(s: System, a: R.Action, r: RunState, t: Attempt)
    ensures P.Recorded(s, a, r, t).maxRetries == s.maxRetries
  {
  }

  lemma ObservedShows(s: System, a: R.Action)
    requires Waiting(s, a)
    ensures var s2 := Observed(s, a);
            && s2.memory.queue == [] && a.id in s2.memory.lifecycles
            && s2.memory.lifecycles[a.id] == s.memory.lifecycles[a.id].(status := R.Executing)
            && EventsOf(s2, a.id) == EventsOf(s, a.id)
            && a.id in s2.durable && s2.durable[a.id].actionId == a.id
            && SameIdentity(s2.durable[a.id], a.target, SE_ROLE, SE_CAPABILITY) && s2.durable[a.id].claim.None?
  {
  }

  /** A transient failure puts it back, ready to be run once more. */
  lemma FifoRoundTrip(s: System, a: R.Action, t: Attempt)
    requires Waiting(s, a) && t.outcome == R.Failure(true) && RetriesOf(s, a.id) < s.maxRetries
    ensures var s' := Apply(s, RunNext(t, Completes));
            && Waiting(s', a) && s'.maxRetries == s.maxRetries
            && RetriesOf(s', a.id) == RetriesOf(s, a.id) + 1
            && Runs(EventsOf(s', a.id)) == Runs(EventsOf(s, a.id)) + 1
  {
    FifoSettles(s, a, t);
    ObservedShows(s, a);
    RoundEnds(s, Observed(s, a), Apply(s, RunNext(t, Completes)), a, t);
  }

  lemma RoundEnds(s: System, s2: System, s': System, a: R.Action, t: Attempt)
    requires Waiting(s, a) && t.outcome == R.Failure(true) && RetriesOf(s, a.id) < s.maxRetries
    requires s2.memory.queue == [] && a.id in s2.memory.lifecycles
    requires s2.memory.lifecycles[a.id] == s.memory.lifecycles[a.id].(status := R.Executing)
    requires a.id in s2.durable && s2.durable[a.id].actionId == a.id
    requires SameIdentity(s2.durable[a.id], a.target, SE_ROLE, SE_CAPABILITY) && s2.durable[a.id].claim.None?
    requires s'.memory == R.Settle(s2.memory, a, t.outcome, s.maxRetries)
    requires s'.durable == P.Recorded(s2, a, s2.durable[a.id], t).durable
    requires EventsOf(s', a.id) == EventsOf(s, a.id) + [Invoked(a)]
    ensures Waiting(s', a) && RetriesOf(s', a.id) == RetriesOf(s, a.id) + 1
    ensures Runs(EventsOf(s', a.id)) == Runs(EventsOf(s, a.id)) + 1
  {
    RecordedKeepsIdentity(s2, a, t);
    EventAppended(EventsOf(s, a.id), Invoked(a));
    assert [] + [a] == [a];
  }

  function Rounds(step: Step, k: nat): seq<Step> {
    if k == 0 then [] else [step] + Rounds(step, k - 1)
  }

  function Applying(step: Step): System -> System {
    (s: System) => Apply(s, step)
  }

  lemma {:induction false} RoundsIterate(s: System, step: Step, k: nat)
    ensures Run(s, Rounds(step, k)) == Iterate(s, Applying(step), k)
    decreases k
  {
    if k > 0 {
      RunCons(s, step, Rounds(step, k - 1));
      RoundsIterate(Apply(s, step), step, k - 1);
    }
  }

  /** Enough retries are left for `k` rounds. */
  function ReadyFor(a: R.Action): (System, nat) -> bool {
    (s: System, k: nat) => Waiting(s, a) && RetriesOf(s, a.id) + k <= s.maxRetries
  }

  function RunsOf(id: ActionId): System -> nat {
    (s: System) => Runs(EventsOf(s, id))
  }

  /** Each round from a state ready for it counts as one more run. */
  ghost predicate RoundsCount(a: R.Action, step: Step) {
    forall s: System, k: nat :: ReadyFor(a)(s, k + 1) ==>
      ReadyFor(a)(Applying(step)(s), k) && RunsOf(a.id)(Applying(step)(s)) == RunsOf(a.id)(s) + 1
  }

  lemma RepeatedRounds(s: System, a: R.Action, step: Step, k: nat)
    requires ReadyFor(a)(s, k) && RoundsCount(a, step)
    ensures RunsOf(a.id)(Run(s, Rounds(step, k))) == RunsOf(a.id)(s) + k
  {
    IterateCounts(s, Applying(step), k, ReadyFor(a), RunsOf(a.id));
    RoundsIterate(s, step, k);
  }

  lemma FifoRepeats(s: System, a: R.Action, t: Attempt, k: nat)
    requires Waiting(s, a) && t.outcome == R.Failure(true) && RetriesOf(s, a.id) + k <= s.maxRetries
    ensures Runs(EventsOf(Run(s, Rounds(RunNext(t, Completes), k)), a.id)) == Runs(EventsOf(s, a.id)) + k
  {
    EveryRoundCounts(a, t);
    RepeatedRounds(s, a, RunNext(t, Completes), k);
  }

  lemma EveryRoundCounts(a: R.Action, t: Attempt)
    requires t.outcome == R.Failure(true)
    ensures RoundsCount(a, RunNext(t, Completes))
  {
    forall s: System, k: nat | ReadyFor(a)(s, k + 1)
      ensures var s' := Apply(s, RunNext(t, Completes));
              ReadyFor(a)(s', k) && RunsOf(a.id)(s') == RunsOf(a.id)(s) + 1
    {
      FifoRoundTrip(s, a, t);
    }
  }

  lemma RunCons(s: System, step: Step, rest: seq<Step>)
    ensures Run(s, [step] + rest) == Run(Apply(s, step), rest)
  {
    assert ([step] + rest)[1..] == rest;
  }

  lemma DelegationWaits(maxRetries: int, id: ActionId, objective: string, target: string)
    requires !Text.Blank(objective) && !Text.Blank(target)
    ensures var s := Apply(Initial(maxRetries), Delegate(id, objective, target, true, Allow, Completes));
            var a := R.Action(id, true, target, Some(objective));
            && Waiting(s, a) && s.maxRetries == maxRetries && RetriesOf(s, id) == 0 && Runs(EventsOf(s, id)) == 0
            && s.durable[id].approval == Some(Approval.Approved)
            && s.durable[id].claim.None? && s.durable[id].execution.None?
  {
    EventAppended([], Permitted);
    assert [] + [Permitted] == [Permitted];
  }

  /**
   Through the FIFO entry, one delegated canonical action is executed as often as the retry
   setting allows, without a claim: the exact-action entry is what makes it at most once.
   */
  lemma FifoRunsAgainAndAgain(k: nat, id: ActionId, objective: string, target: string, t: Attempt)
    requires !Text.Blank(objective) && !Text.Blank(target) && t.outcome == R.Failure(true)
    ensures var steps := [Delegate(id, objective, target, true, Allow, Completes)] + Rounds(RunNext(t, Completes), k);
            Runs(EventsOf(Run(Initial(k), steps), id)) == k
  {
    var first := Delegate(id, objective, target, true, Allow, Completes);
    var s := Apply(Initial(k), first);
    var a := R.Action(id, true, target, Some(objective));
    DelegationWaits(k, id, objective, target);
    FifoRepeats(s, a, t, k);
    RunCons(Initial(k), first, Rounds(RunNext(t, Completes), k));
  }

  /** A delegated, permitted action is reachable, claimable and queued with its raw objective. */
  lemma DelegationIsWarm(maxRetries: int, id: ActionId, objective: string, target: string)
    requires !Text.Blank(objective) && !Text.Blank(target)
    ensures var s := Apply(Initial(maxRetries), Delegate(id, objective, target, true, Allow, Completes));
            && T.Reachable(s) && T.WarmAndClaimable(s, id)
            && ViewOf(s, id).queued[0].objective == Some(objective)
  {
    var first := Delegate(id, objective, target, true, Allow, Completes);
    var s := Apply(Initial(maxRetries), first);
    DelegationWaits(maxRetries, id, objective, target);
    DelegationReaches(maxRetries, first, s);
    T.RecordsAreConsistent(s, id);
    ClaimableExactly(s.durable[id], s.clock, s.clock);
    R.FindIsFirstOccurrence(s.memory.queue, id);
  }

  lemma DelegationReaches(maxRetries: int, step: Step, s: System)
    requires step.Delegate? && s == Apply(Initial(maxRetries), step)
    ensures T.Reachable(s)
  {
    RunCons(Initial(maxRetries), step, []);
    assert [step] + [] == [step];
    assert [step][1..] == [] && AdmissibleRun(s, []);
    assert AdmissibleRun(Initial(maxRetries), [step]) && s == Run(Initial(maxRetries), [step]);
  }

  /**
   So a padded objective does get stuck: delegated and permitted on a fresh server, the action's
   first execution claims it, does not run it, and leaves the claim behind.
   */
  lemma PaddedObjectiveGetsStuck(maxRetries: int, id: ActionId, objective: string, target: string, t: Attempt)
    requires !Text.Blank(objective) && !Text.Blank(target) && !Text.Unpadded(objective)
    ensures var s := Apply(Initial(maxRetries), Delegate(id, objective, target, true, Allow, Completes));
            var s' := Apply(s, Execute(id, t, Completes));
            && Runs(EventsOf(s', id)) == 0
            && ClaimedUnstarted(s', id) && s'.memory == s.memory
  {
    DelegationIsWarm(maxRetries, id, objective, target);
    T.WarmPathNeedsUnpadded(
      Apply(Initial(maxRetries), Delegate(id, objective, target, true, Allow, Completes)), id, t);
  }
}
