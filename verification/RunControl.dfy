/**
 Run status and operator reconciliation: the derived phase, the listed options, the
 optimistic-concurrency token, and what a reconciliation may do with them.
 */
module RunControl {
  import opened Common
  import opened RunRecord
  import opened RunStore

  datatype Phase =
    | Registered | RoutingRejected | AwaitingApproval | ApprovedPhase | ClaimedPhase
    | RunningOrAmbiguous | AbandonedPhase | RejectedPhase | SucceededPhase | FailedPhase
    | SkippedPhase | Kept | Discarded | PromotedPhase

  datatype Reconciliation = ReleaseIt | AbandonIt

  datatype ControlError = NotFound | StateChanged | NotReconcilable | NotAcknowledged | InspectionUnavailable | FailedClosed

  /** The digest of the six fields it covers; SHA-256 is taken to be injective. */
  datatype Token = Token(
    id: ActionId,
    version: Stamp,
    claim: Option<ClaimId>,
    started: Option<Stamp>,
    execution: Option<ExecutionStatus>,
    resolution: Option<Resolution>)

  function PhaseOf(r: RunState): Phase {
    if r.promoted.Some? then PromotedPhase
    else if r.dispositionSucceeded == Some(true) && r.disposition == Some(Keep) then Kept
    else if r.dispositionSucceeded == Some(true) && r.disposition == Some(Discard) then Discarded
    else if r.execution == Some(Succeeded) then SucceededPhase
    else if r.execution == Some(Failed) then FailedPhase
    else if r.execution == Some(Skipped) then SkippedPhase
    else if r.resolution == Some(AbandonedAfterStart) then AbandonedPhase
    else if r.claim.Some? && r.started.Some? then RunningOrAmbiguous
    else if r.claim.Some? then ClaimedPhase
    else if r.approval == Some(Approval.Rejected) then RejectedPhase
    else if r.approval == Some(Approval.Approved) then ApprovedPhase
    else if r.approval == Some(Approval.Awaiting) then AwaitingApproval
    else if r.delegation == Some(RouteRejected) then RoutingRejected
    else Registered
  }

  function Options(r: RunState): seq<Reconciliation> {
    if r.execution.Some? || r.claim.None? then []
    else if r.resolution == Some(AbandonedAfterStart) then []
    else if r.started.None? then [ReleaseIt]
    else [AbandonIt]
  }

  predicate Retriable(r: RunState) {
    && r.approval == Some(Approval.Approved)
    && r.claim.None?
    && r.execution.None?
    && r.resolution != Some(AbandonedAfterStart)
  }

  function TokenOf(r: RunState): Result<Token, ControlError> {
    if r.updated.None? then Err(StateChanged)
    else Ok(Token(r.actionId, r.updated.value, r.claim, r.started, r.execution, r.resolution))
  }

  predicate Releasable(r: RunState) {
    && r.claim.Some?
    && r.started.None?
    && r.execution.None?
    && r.approval == Some(Approval.Approved)
  }

  predicate Abandonable(r: RunState) {
    && r.claim.Some?
    && r.started.Some?
    && r.execution.None?
    && r.resolution != Some(AbandonedAfterStart)
  }

  /** Everything the operator submits, and whether the work-product inspector is configured. */
  datatype Request = Request(resolution: Reconciliation, token: Token, acknowledged: bool, inspector: bool)

  /** The checks made on the record that was read, before the conditional update. */
  function Precheck(r: RunState, q: Request): Result<(), ControlError> {
    if !IsCanonical(r) then Err(NotFound)
    else if TokenOf(r) != Ok(q.token) then Err(StateChanged)
    else if q.resolution.ReleaseIt? then
      if Releasable(r) then Ok(()) else Err(NotReconcilable)
    else if !q.acknowledged then Err(NotAcknowledged)
    else if !Abandonable(r) then Err(NotReconcilable)
    else if !q.inspector then Err(InspectionUnavailable)
    else Ok(())
  }

  /** The conditional update, guarded by the version that was read. */
  function ConditionalUpdate(r: RunState, q: Request, expected: Stamp, now: Stamp): Result<RunState, StateError> {
    if q.resolution.ReleaseIt? then Release(r, expected, now) else Abandon(r, expected, now)
  }

  /** A reconciliation with nothing in between: the next record, or why it is refused. */
  function Reconcile(r: RunState, q: Request, now: Stamp): Result<RunState, ControlError> {
    match Precheck(r, q)
    case Err(e) => Err(e)
    case Ok(_) =>
      if r.updated.None? then Err(StateChanged)
      else
        match ConditionalUpdate(r, q, r.updated.value, now)
        case Ok(r') => Ok(r')
        case Err(_) => Err(FailedClosed)
  }

  // ------------------------------------------------------------ status tells the truth

  /** `retriable` is shown exactly when a claim would now succeed. */
  lemma RetriableExactly(r: RunState, claim: ClaimId, now: Stamp)
    requires Consistent(r)
    ensures Retriable(r) <==> Claim(r, claim, now).Ok?
  {
    ClaimableExactly(r, claim, now);
  }

  /**
   An option is listed exactly when reconciling with the current token, acknowledgement
   and an inspector would be accepted; at most one option is ever listed.
   */
  lemma OptionsExactly(r: RunState, choice: Reconciliation, now: Stamp)
    requires Consistent(r) && IsCanonical(r)
    ensures choice in Options(r) <==>
            Reconcile(r, Request(choice, TokenOf(r).value, true, true), now).Ok?
    ensures |Options(r)| <= 1
  {
  }

  /** A token names the record and its present version, claim, start, result and resolution. */
  predicate TokenFits(r: RunState, t: Token) {
    && t.id == r.actionId && r.updated == Some(t.version) && t.claim == r.claim
    && t.started == r.started && t.execution == r.execution && t.resolution == r.resolution
  }

  /**
   A reconciliation goes through exactly when it is about a canonical record, names its present
   state, and asks for what fits: release of an approved, unstarted claim, or abandonment of a
   started, unfinished one that was not abandoned before, acknowledged and with an inspector.
   */
  lemma ReconcilesExactly(r: RunState, q: Request, now: Stamp)
    ensures Reconcile(r, q, now).Ok? <==>
              && r.role == "software_engineering" && r.capability == "code.implement"
              && TokenFits(r, q.token) && r.claim.Some? && r.execution.None?
              && (if q.resolution == ReleaseIt
                  then r.started.None? && r.approval == Some(Approval.Approved)
                  else r.started.Some? && r.resolution != Some(AbandonedAfterStart) && q.acknowledged && q.inspector)
  {
  }

  /** A release clears the claim, an abandonment the objective; both are dated and versioned. */
  lemma ReconciliationWrites(r: RunState, q: Request, now: Stamp)
    requires Reconcile(r, q, now).Ok?
    ensures var r' := Reconcile(r, q, now).value;
            && r'.updated == Some(now) && r'.reconciledAt == Some(now)
            && (if q.resolution == ReleaseIt
                then && r'.claim.None? && r'.claimedAt.None? && r'.resolution == Some(ReleasedBeforeStart)
                     && r'.objective == r.objective && r'.started == r.started
                else && r'.claim == r.claim && r'.started == r.started && r'.objective.None?
                     && r'.resolution == Some(AbandonedAfterStart))
            && r'.approval == r.approval && r'.execution == r.execution && r'.actionId == r.actionId
            && r'.target == r.target && r'.role == r.role && r'.capability == r.capability
  {
  }

  /** Why a reconciliation is refused: the first condition that fails, in this order. */
  lemma ReconcileRefusals(r: RunState, q: Request, now: Stamp)
    ensures Reconcile(r, q, now) == Err(NotFound) <==> r.role != "software_engineering" || r.capability != "code.implement"
    ensures Reconcile(r, q, now) == Err(StateChanged) <==> IsCanonical(r) && !TokenFits(r, q.token)
    ensures IsCanonical(r) && TokenFits(r, q.token) && q.resolution == AbandonIt ==>
              && (Reconcile(r, q, now) == Err(NotAcknowledged) <==> !q.acknowledged)
              && (Reconcile(r, q, now) == Err(NotReconcilable) <==>
                    && q.acknowledged
                    && (r.claim.None? || r.started.None? || r.execution.Some? || r.resolution == Some(AbandonedAfterStart)))
    ensures Reconcile(r, q, now) == Err(InspectionUnavailable) ==> q.resolution == AbandonIt && !q.inspector
    ensures Reconcile(r, q, now).Err? && q.resolution == ReleaseIt ==>
              Reconcile(r, q, now).error in {NotFound, StateChanged, NotReconcilable}
    ensures Reconcile(r, q, now) != Err(FailedClosed)
  {
  }

  /** `retriable` means that nothing but a missing objective could stop a claim, and that nobody gave the run up. */
  lemma RetriableMeans(r: RunState, objective: string, claim: ClaimId, now: Stamp)
    requires Meant(objective).Some?
    ensures Retriable(r) <==>
              r.resolution != Some(AbandonedAfterStart) && Claim(r.(objective := Some(objective)), claim, now).Ok?
  {
    ClaimsExactly(r.(objective := Some(objective)), claim, now);
  }

  /** How the phases of any record take precedence: each shows unless a later one does. */
  lemma PhasePrecedence(r: RunState)
    ensures var phase := PhaseOf(r);
            && (phase == PromotedPhase <==> r.promoted.Some?)
            && (r.promoted.None? ==>
                  && (phase == Kept <==> r.dispositionSucceeded == Some(true) && r.disposition == Some(Keep))
                  && (phase == Discarded <==> r.dispositionSucceeded == Some(true) && r.disposition == Some(Discard)))
            && (r.promoted.None? && (r.dispositionSucceeded != Some(true) || r.disposition.None?) ==>
                  && (phase == SucceededPhase <==> r.execution == Some(Succeeded))
                  && (phase == FailedPhase <==> r.execution == Some(Failed))
                  && (phase == SkippedPhase <==> r.execution == Some(Skipped))
                  && (r.execution.None? ==>
                        && (phase == AbandonedPhase <==> r.resolution == Some(AbandonedAfterStart))
                        && (r.resolution != Some(AbandonedAfterStart) ==>
                              && (phase == RunningOrAmbiguous <==> r.claim.Some? && r.started.Some?)
                              && (phase == ClaimedPhase <==> r.claim.Some? && r.started.None?)
                              && (phase == RejectedPhase <==> r.claim.None? && r.approval == Some(Approval.Rejected)))))
  {
  }

  /** The phase of a consistent record, field by field: the last thing that happened to it. */
  lemma PhaseExactly(r: RunState)
    requires Consistent(r)
    ensures PhaseOf(r) == PromotedPhase <==> r.promoted.Some?
    ensures PhaseOf(r) == Kept <==> r.promoted.None? && r.disposition == Some(Keep)
    ensures PhaseOf(r) == Discarded <==> r.promoted.None? && r.disposition == Some(Discard)
    ensures r.promoted.None? && r.disposition.None? ==>
              && (PhaseOf(r) == SucceededPhase <==> r.execution == Some(Succeeded))
              && (PhaseOf(r) == FailedPhase <==> r.execution == Some(Failed))
              && (PhaseOf(r) == SkippedPhase <==> r.execution == Some(Skipped))
              && (PhaseOf(r) == AbandonedPhase <==> r.resolution == Some(AbandonedAfterStart))
              && (PhaseOf(r) == RunningOrAmbiguous <==>
                    r.started.Some? && r.execution.None? && r.resolution != Some(AbandonedAfterStart))
              && (PhaseOf(r) == ClaimedPhase <==> r.claim.Some? && r.started.None?)
              && (PhaseOf(r) == RejectedPhase <==> r.claim.None? && r.approval == Some(Approval.Rejected))
              && (PhaseOf(r) == ApprovedPhase <==> r.claim.None? && r.approval == Some(Approval.Approved))
              && (PhaseOf(r) == AwaitingApproval <==> r.approval == Some(Approval.Awaiting))
              && (PhaseOf(r) == RoutingRejected <==> r.approval.None? && r.delegation == Some(RouteRejected))
              && (PhaseOf(r) == Registered <==> r.approval.None? && r.delegation != Some(RouteRejected))
  {
    if r.execution.Some? {
      match r.execution.value {
        case Succeeded =>
        case Skipped =>
        case Failed =>
      }
    }
    if r.approval.Some? {
      match r.approval.value {
        case Awaiting =>
        case Approved =>
        case Rejected =>
      }
    }
    if r.disposition.Some? {
      match r.disposition.value {
        case Keep =>
        case Discard =>
      }
    }
  }

  /** Off consistent records the claim would fail although `retriable` says otherwise. */
  lemma RetriableNeedsTheInvariant(r: RunState, claim: ClaimId, now: Stamp)
    requires Retriable(r) && r.objective.None?
    ensures Claim(r, claim, now).Err?
  {
  }

  // ----------------------------------------------------------------- the phase graph

  /** The edges a phase may take, one durable write at a time. */
  predicate Edge(a: Phase, b: Phase) {
    match a
    case AwaitingApproval => b in {ApprovedPhase, RejectedPhase}
    case ApprovedPhase => b in {ClaimedPhase, RejectedPhase}
    case ClaimedPhase => b in {RunningOrAmbiguous, ApprovedPhase}
    case RunningOrAmbiguous => b in {SucceededPhase, FailedPhase, SkippedPhase, AbandonedPhase}
    case SucceededPhase => b in {Kept, Discarded}
    case FailedPhase => b in {Kept, Discarded}
    case SkippedPhase => b in {Kept, Discarded}
    case Kept => b in {Discarded, PromotedPhase}
    case _ => false
  }

  function Rank(p: Phase): nat {
    match p
    case Registered => 0
    case RoutingRejected => 0
    case AwaitingApproval => 1
    case ApprovedPhase => 2
    case ClaimedPhase => 3
    case RunningOrAmbiguous => 4
    case SucceededPhase => 5
    case FailedPhase => 5
    case SkippedPhase => 5
    case Kept => 6
    case _ => 7
  }

  predicate IsReleaseEdge(a: Phase, b: Phase) {
    a == ClaimedPhase && b == ApprovedPhase
  }

  /** A list of phases in which each step stays put or follows an edge. */
  ghost predicate Walk(t: seq<Phase>) {
    forall i {:trigger t[i]} :: 0 < i < |t| ==> t[i - 1] == t[i] || Edge(t[i - 1], t[i])
  }

  /** Every edge but a release goes up. */
  lemma EdgesClimb(a: Phase, b: Phase)
    requires Edge(a, b) && !IsReleaseEdge(a, b)
    ensures Rank(a) < Rank(b)
  {
  }

  /** A walk without a release never goes down, so it can only return to where it is standing. */
  lemma {:induction false} OnlyReleaseCycles(t: seq<Phase>, i: nat, j: nat)
    requires Walk(t) && i <= j < |t|
    requires forall k :: i < k <= j ==> !IsReleaseEdge(t[k - 1], t[k])
    ensures Rank(t[i]) <= Rank(t[j])
    ensures t[i] == t[j] ==> forall k :: i <= k <= j ==> t[k] == t[i]
    decreases j - i
  {
    if i < j {
      OnlyReleaseCycles(t, i, j - 1);
      assert t[j - 1] == t[j] || Edge(t[j - 1], t[j]);
      if t[j - 1] != t[j] {
        EdgesClimb(t[j - 1], t[j]);
      }
    }
  }

  // ------------------------------------------------------------------ linearizability

  /** Successive durable versions of one record, oldest first. */
  type History = seq<RunState>

  /** Every version stamp of the record is used once. */
  ghost predicate FreshVersions(h: History) {
    && (forall i :: 0 <= i < |h| ==> h[i].updated.Some?)
    && (forall i, j :: 0 <= i < j < |h| ==> h[i].updated != h[j].updated)
  }

  /** An operator's session: it looks at status, later reads again, later updates. */
  datatype Operator =
    | Away
    | Inspected(token: Token, issuedAt: nat)
    | ReadBack(request: Request, seen: RunState, seenAt: nat, issued: nat)

  datatype World = World(history: History, operator: Operator, commits: seq<Commit>)

  /** A reconciliation that went through: where the token was issued and what it replaced. */
  datatype Commit = Commit(issuedAt: nat, replaced: nat, result: RunState)

  datatype Move =
    | OtherWriter(next: RunState)
    | Inspect
    | Submit(resolution: Reconciliation, acknowledged: bool, inspector: bool)
    | Update(now: Stamp)
    | Leave

  /** Other writers, crashes and the operator take turns in any order. */
  function Act(w: World, m: Move): World
    requires w.history != []
  {
    var last := w.history[|w.history| - 1];
    match m
    case OtherWriter(next) => w.(history := w.history + [next])
    case Leave => w.(operator := Away)
    case Inspect =>
      (match TokenOf(last)
       case Ok(token) => w.(operator := Inspected(token, |w.history| - 1))
       case Err(_) => w)
    case Submit(resolution, acknowledged, inspector) =>
      if !w.operator.Inspected? then w
      else
        var q := Request(resolution, w.operator.token, acknowledged, inspector);
        if Precheck(last, q).Ok? then
          w.(operator := ReadBack(q, last, |w.history| - 1, w.operator.issuedAt))
        else w.(operator := Away)
    case Update(now) =>
      if !w.operator.ReadBack? || w.operator.seen.updated.None? then w
      else
        match ConditionalUpdate(last, w.operator.request, w.operator.seen.updated.value, now)
        case Err(_) => w.(operator := Away)
        case Ok(r) => World(w.history + [r], Away,
                            w.commits + [Commit(w.operator.issued, |w.history| - 1, r)])
  }

  function Acts(w: World, ms: seq<Move>): World
    requires w.history != []
    decreases |ms|
  {
    if ms == [] then w else Acts(Act(w, ms[0]), ms[1..])
  }

  /** The version stamps stay fresh after every move of the run. */
  ghost predicate FreshRun(w: World, ms: seq<Move>)
    requires w.history != []
    decreases |ms|
  {
    FreshVersions(w.history) && (ms != [] ==> FreshRun(Act(w, ms[0]), ms[1..]))
  }

  ghost predicate Tracked(w: World) {
    && FreshVersions(w.history)
    && (w.operator.Inspected? ==>
          && w.operator.issuedAt < |w.history|
          && TokenOf(w.history[w.operator.issuedAt]) == Ok(w.operator.token))
    && (w.operator.ReadBack? ==>
          && w.operator.issued == w.operator.seenAt < |w.history|
          && w.operator.seen == w.history[w.operator.seenAt]
          && Precheck(w.operator.seen, w.operator.request).Ok?)
    && (forall c :: c in w.commits ==>
          && c.issuedAt == c.replaced
          && c.replaced + 1 < |w.history|
          && w.history[c.replaced + 1] == c.result)
  }

  /** Two versions of a record never share a token. */
  lemma TokensAreUnique(h: History, i: nat, j: nat)
    requires FreshVersions(h) && i < |h| && j < |h|
    requires TokenOf(h[i]) == TokenOf(h[j])
    ensures i == j
  {
    VersionsArePositions(h, i, j);
  }

  lemma VersionsArePositions(h: History, i: nat, j: nat)
    requires FreshVersions(h) && i < |h| && j < |h| && h[i].updated == h[j].updated
    ensures i == j
  {
  }

  lemma ActKeepsTracked(w: World, m: Move)
    requires w.history != [] && Tracked(w) && FreshVersions(Act(w, m).history)
    ensures Tracked(Act(w, m))
  {
    var last := |w.history| - 1;
    match m {
      case Submit(resolution, acknowledged, inspector) =>
        if w.operator.Inspected? {
          var q := Request(resolution, w.operator.token, acknowledged, inspector);
          if Precheck(w.history[last], q).Ok? {
            TokensAreUnique(w.history, w.operator.issuedAt, last);
          }
        }
      case Update(now) =>
        if w.operator.ReadBack? && w.operator.seen.updated.Some? {
          if ConditionalUpdate(w.history[last], w.operator.request, w.operator.seen.updated.value, now).Ok? {
            VersionsArePositions(w.history, w.operator.seenAt, last);
          }
        }
      case _ =>
    }
  }

  /**
   A session nobody interferes with is one reconciliation with the token of the day: it adds the
   version that reconciliation computes, or nothing, and the operator is done either way.
   */
  lemma QuietSession(w: World, resolution: Reconciliation, acknowledged: bool, inspector: bool, now: Stamp)
    requires w.history != [] && w.history[|w.history| - 1].updated.Some?
    ensures var last := w.history[|w.history| - 1];
            var r := Reconcile(last, Request(resolution, TokenOf(last).value, acknowledged, inspector), now);
            var w' := Act(Act(Act(w, Inspect), Submit(resolution, acknowledged, inspector)), Update(now));
            && w'.operator == Away
            && w'.history == w.history + (if r.Ok? then [r.value] else [])
            && w'.commits == w.commits +
               (if r.Ok? then [Commit(|w.history| - 1, |w.history| - 1, r.value)] else [])
  {
    assert w.history + [] == w.history && w.commits + [] == w.commits;
  }

  /** The update commits exactly when nothing was written since the record was read. */
  lemma CommitsExactlyUndisturbed(w: World, now: Stamp)
    requires w.history != [] && Tracked(w) && w.operator.ReadBack?
    ensures |Act(w, Update(now)).commits| == |w.commits| + 1 <==> w.operator.seenAt == |w.history| - 1
  {
    var last := |w.history| - 1;
    if ConditionalUpdate(w.history[last], w.operator.request, w.operator.seen.updated.value, now).Ok? {
      VersionsArePositions(w.history, w.operator.seenAt, last);
    }
  }

  /**
   However writers interleave with inspection, reading and updating: a reconciliation that
   commits replaced the very version its token was issued for, so nothing was written in
   between.
   */
  lemma {:induction false} ReconciliationIsLinearizable(w: World, ms: seq<Move>)
    requires w.history != [] && w.operator == Away && w.commits == []
    requires FreshRun(w, ms)
    ensures forall c :: c in Acts(w, ms).commits ==>
              && c.issuedAt == c.replaced
              && c.replaced + 1 < |Acts(w, ms).history|
              && Acts(w, ms).history[c.replaced + 1] == c.result
  {
    TrackedThroughout(w, ms);
  }

  lemma {:induction false} TrackedThroughout(w: World, ms: seq<Move>)
    requires w.history != [] && Tracked(w) && FreshRun(w, ms)
    ensures Tracked(Acts(w, ms))
    decreases |ms|
  {
    if ms != [] {
      assert FreshVersions(Act(w, ms[0]).history);
      ActKeepsTracked(w, ms[0]);
      TrackedThroughout(Act(w, ms[0]), ms[1..]);
    }
  }

  /**
   After a release, the token that released it is refused by every later version: it can
   never release the successor of the claim it was issued for.
   */
  lemma StaleTokenRefused(h: History, i: nat, j: nat, q: Request, now: Stamp)
    requires FreshVersions(h) && i < j < |h|
    requires Ok(q.token) == TokenOf(h[i])
    ensures Reconcile(h[j], q, now).Err?
  {
    if TokenOf(h[j]) == Ok(q.token) {
      TokensAreUnique(h, i, j);
    }
  }

  class RunControlService {
    const repository: InMemoryRunRepository
    const inspector: bool

    constructor (repository: InMemoryRunRepository, inspector: bool)
      ensures this.repository == repository && this.inspector == inspector
    {
      this.repository := repository;
      this.inspector := inspector;
    }

    /** Apply one evidence-gated reconciliation; a refused one changes no record. */
    method ReconcileClaim(id: ActionId, resolution: Reconciliation, token: Token, acknowledged: bool, now: Stamp)
      returns (result: Result<RunState, ControlError>)
      modifies repository
      ensures result == (
                if id in old(repository.states)
                then Reconcile(old(repository.states)[id], Request(resolution, token, acknowledged, inspector), now)
                else Err(NotFound))
      ensures repository.states == (
                if result.Ok? then old(repository.states)[id := result.value] else old(repository.states))
      ensures result.Ok? ==> TokenFits(old(repository.states)[id], token)
      ensures result.Ok? && resolution == AbandonIt ==> acknowledged && inspector
    {
      var found := repository.Lookup(id);
      if found.None? || !IsCanonical(found.value) {
        return Err(NotFound);
      }
      var state := found.value;
      if TokenOf(state) != Ok(token) {
        return Err(StateChanged);
      }
      var written: Result<RunState, StateError>;
      if resolution.ReleaseIt? {
        if !Releasable(state) {
          return Err(NotReconcilable);
        }
        written := repository.Do(ReleaseClaim(id, Moment(state.updated.value, 0), now), now);
      } else {
        if !acknowledged {
          return Err(NotAcknowledged);
        }
        if !Abandonable(state) {
          return Err(NotReconcilable);
        }
        if !inspector {
          return Err(InspectionUnavailable);
        }
        written := repository.Do(AbandonClaim(id, Moment(state.updated.value, 0), now), now);
      }
      result := if written.Ok? then Ok(written.value) else Err(FailedClosed);
    }
  }
}
