/**
 The durable evidence kept for one Software Engineering action and the operations
 the run repositories offer on it. Every operation is given as a function from the
 current record to the next one, or to the error the repository raises.
 */
module RunRecord {
  import opened Common
  import Text

  type ActionId = nat
  type ClaimId = nat
  /** Timestamps double as record versions: `updated` is the version of a record. */
  type Stamp = nat

  const SE_ROLE := "software_engineering"
  const SE_CAPABILITY := "code.implement"

  datatype Approval = Awaiting | Approved | Rejected
  datatype Resolution = ReleasedBeforeStart | AbandonedAfterStart
  datatype Disposition = Keep | Discard
  datatype ExecutionStatus = Succeeded | Skipped | Failed
  datatype Delegation = DelegationQueued | DelegationAwaiting | DelegationDenied | RouteRejected

  datatype RunState = RunState(
    actionId: ActionId,
    role: string,
    capability: string,
    target: string,
    delegation: Option<Delegation>,
    objective: Option<string>,
    approval: Option<Approval>,
    approvedAt: Option<Stamp>,
    rejectedAt: Option<Stamp>,
    claim: Option<ClaimId>,
    claimedAt: Option<Stamp>,
    started: Option<Stamp>,
    resolution: Option<Resolution>,
    reconciledAt: Option<Stamp>,
    execution: Option<ExecutionStatus>,
    finished: Option<Stamp>,
    external: Option<bool>,
    disposition: Option<Disposition>,
    dispositionSucceeded: Option<bool>,
    worktreePresent: Option<bool>,
    branchPresent: Option<bool>,
    canonicalUnchanged: Option<bool>,
    promotionSha: Option<string>,
    prNumber: Option<int>,
    prUrl: Option<string>,
    promotionBase: Option<string>,
    promotionHead: Option<string>,
    promoted: Option<Stamp>,
    created: Option<Stamp>,
    updated: Option<Stamp>)

  datatype StateError =
    | NoSuchRun | BlankObjective | ObjectiveUnavailable | ObjectiveConflict | IdentityConflict
    | RejectedCannotBeApproved | ClaimedCannotBeRejected | NotApproved | AlreadyFinished
    | AlreadyClaimed | NoClaim | StaleVersion | AlreadyStarted | NeverStarted | NotReleasable
    | NotAbandonable | CorruptRow

  /** What the caller passes to `register_action`. */
  datatype Registration = Registration(
    id: ActionId,
    target: string,
    role: string,
    capability: string,
    delegation: Option<Delegation>,
    objective: Option<string>,
    approval: Option<Approval>)

  datatype DispositionReport = DispositionReport(
    id: ActionId,
    disposition: Disposition,
    worktreePresent: bool,
    branchPresent: bool,
    canonicalUnchanged: bool)
  {
    /** A discard must leave neither worktree nor branch; a keep leaves both on purpose. */
    predicate Succeeded() {
      && canonicalUnchanged
      && (disposition.Discard? ==> !worktreePresent && !branchPresent)
    }
  }

  datatype Publication = Publication(
    sha: string, number: int, url: string, base: string, head: string)

  // ---------------------------------------------------------------- guards

  function NormalizeObjective(value: Option<string>): Result<Option<string>, StateError> {
    match value
    case None => Ok(None)
    case Some(text) =>
      if Text.Blank(text) then Err(BlankObjective) else Ok(Some(Text.Strip(text)))
  }

  function NormalizeRequiredObjective(value: Option<string>): Result<string, StateError> {
    match NormalizeObjective(value)
    case Err(e) => Err(e)
    case Ok(None) => Err(ObjectiveUnavailable)
    case Ok(Some(text)) => Ok(text)
  }

  predicate CompatibleObjective(r: RunState, objective: Option<string>) {
    objective.Some? && r.objective.Some? ==> r.objective == objective
  }

  predicate SameIdentity(r: RunState, target: string, role: string, capability: string) {
    r.target == target && r.role == role && r.capability == capability
  }

  predicate IsCanonical(r: RunState) {
    r.role == SE_ROLE && r.capability == SE_CAPABILITY
  }

  // ------------------------------------------------------------ operations

  function NewRun(g: Registration, objective: Option<string>, now: Stamp): RunState {
    RunState(
      g.id, g.role, g.capability, g.target, g.delegation, objective, g.approval,
      None, None, None, None, None, None, None, None, None, None, None, None, None,
      None, None, None, None, None, None, None, None, Some(now), Some(now))
  }

  function Register(current: Option<RunState>, g: Registration, now: Stamp)
    : Result<RunState, StateError>
  {
    match NormalizeObjective(g.objective)
    case Err(e) => Err(e)
    case Ok(objective) =>
      match current
      case None => Ok(NewRun(g, objective, now))
      case Some(r) =>
        if !SameIdentity(r, g.target, g.role, g.capability) then Err(IdentityConflict)
        else if !CompatibleObjective(r, objective) then Err(ObjectiveConflict)
        else Ok(r.(
                delegation := if g.delegation.Some? then g.delegation else r.delegation,
                objective := if objective.Some? && r.objective.None? then objective else r.objective,
                approval := if g.approval.Some? then g.approval else r.approval,
                updated := Some(now)))
  }

  function Approve(r: RunState, objective: string, at: Stamp, now: Stamp)
    : Result<RunState, StateError>
  {
    match NormalizeRequiredObjective(Some(objective))
    case Err(e) => Err(e)
    case Ok(text) =>
      if !CompatibleObjective(r, Some(text)) then Err(ObjectiveConflict)
      else if r.approval == Some(Approval.Rejected) then Err(RejectedCannotBeApproved)
      else Ok(r.(
              objective := Some(text),
              approval := Some(Approval.Approved),
              approvedAt := Some(at),
              updated := Some(now)))
  }

  function Reject(r: RunState, at: Stamp, now: Stamp): Result<RunState, StateError> {
    if r.claim.Some? || r.execution.Some? then Err(ClaimedCannotBeRejected)
    else Ok(r.(
            objective := None,
            approval := Some(Approval.Rejected),
            rejectedAt := Some(at),
            updated := Some(now)))
  }

  function Claim(r: RunState, claim: ClaimId, now: Stamp): Result<RunState, StateError> {
    if r.approval != Some(Approval.Approved) then Err(NotApproved)
    else if r.execution.Some? then Err(AlreadyFinished)
    else if r.claim.Some? then Err(AlreadyClaimed)
    else
      match NormalizeRequiredObjective(r.objective)
      case Err(e) => Err(e)
      case Ok(_) => Ok(r.(
                       claim := Some(claim),
                       claimedAt := Some(now),
                       resolution := None,
                       reconciledAt := None,
                       updated := Some(now)))
  }

  function Start(r: RunState, at: Stamp, now: Stamp): Result<RunState, StateError> {
    if r.claim.None? then Err(NoClaim)
    else if r.execution.Some? then Err(AlreadyFinished)
    else Ok(r.(started := Some(at), updated := Some(now)))
  }

  function Release(r: RunState, expected: Stamp, at: Stamp): Result<RunState, StateError> {
    if r.updated != Some(expected) then Err(StaleVersion)
    else if r.claim.None? then Err(NoClaim)
    else if r.started.Some? then Err(AlreadyStarted)
    else if r.execution.Some? then Err(AlreadyFinished)
    else Ok(r.(
            claim := None,
            claimedAt := None,
            resolution := Some(ReleasedBeforeStart),
            reconciledAt := Some(at),
            updated := Some(at)))
  }

  function Abandon(r: RunState, expected: Stamp, at: Stamp): Result<RunState, StateError> {
    if r.updated != Some(expected) then Err(StaleVersion)
    else if r.claim.None? then Err(NoClaim)
    else if r.started.None? then Err(NeverStarted)
    else if r.execution.Some? then Err(AlreadyFinished)
    else Ok(r.(
            objective := None,
            resolution := Some(AbandonedAfterStart),
            reconciledAt := Some(at),
            updated := Some(at)))
  }

  function Finish(r: RunState, status: ExecutionStatus, at: Stamp, external: bool, now: Stamp): RunState {
    r.(
    objective := None,
    execution := Some(status),
    finished := Some(at),
    external := Some(external),
    updated := Some(now))
  }

  function Dispose(r: RunState, d: DispositionReport, now: Stamp): RunState {
    r.(
    disposition := Some(d.disposition),
    dispositionSucceeded := Some(d.Succeeded()),
    worktreePresent := Some(d.worktreePresent),
    branchPresent := Some(d.branchPresent),
    canonicalUnchanged := Some(d.canonicalUnchanged),
    updated := Some(now))
  }

  function Promote(r: RunState, p: Publication, at: Stamp, now: Stamp): RunState {
    r.(
    promotionSha := Some(p.sha),
    prNumber := Some(p.number),
    prUrl := Some(p.url),
    promotionBase := Some(p.base),
    promotionHead := Some(p.head),
    promoted := Some(at),
    updated := Some(now))
  }

  // ------------------------------------------------------------- invariant

  ghost predicate NoPromotion(r: RunState) {
    && r.promotionSha.None? && r.prNumber.None? && r.prUrl.None?
    && r.promotionBase.None? && r.promotionHead.None? && r.promoted.None?
  }

  ghost predicate FullPromotion(r: RunState) {
    && r.promotionSha.Some? && r.prNumber.Some? && r.prUrl.Some?
    && r.promotionBase.Some? && r.promotionHead.Some? && r.promoted.Some?
  }

  ghost predicate NoDisposition(r: RunState) {
    && r.disposition.None? && r.dispositionSucceeded.None? && r.worktreePresent.None?
    && r.branchPresent.None? && r.canonicalUnchanged.None?
  }

  /** What the services only ever record: a disposition that went through. */
  ghost predicate CleanDisposition(r: RunState) {
    && r.disposition.Some? && r.dispositionSucceeded == Some(true) && r.canonicalUnchanged == Some(true)
    && r.worktreePresent.Some? && r.branchPresent.Some?
  }

  /** The shape every durable record keeps in every run of the protocol. */
  ghost predicate Consistent(r: RunState) {
    && (r.claim.Some? ==> r.approval == Some(Approval.Approved))
    && (r.claim.Some? <==> r.claimedAt.Some?)
    && (r.started.Some? ==> r.claim.Some?)
    && (r.execution.Some? ==> r.started.Some? && r.objective.None? && r.finished.Some? && r.external.Some?)
    && (r.execution.None? ==> r.finished.None? && r.external.None?)
    && (r.resolution == Some(AbandonedAfterStart) ==>
          r.claim.Some? && r.started.Some? && r.execution.None? && r.objective.None?)
    && (r.resolution == Some(ReleasedBeforeStart) ==> r.claim.None? && r.started.None?)
    && (r.approval == Some(Approval.Approved) && r.started.None? ==> r.objective.Some?)
    && (r.approval == Some(Approval.Awaiting) ==> r.objective.Some?)
    && (r.objective.Some? ==> r.objective.value != [] && Text.Unpadded(r.objective.value))
    && (NoDisposition(r) || (CleanDisposition(r) && r.execution.Some?))
    && (NoPromotion(r) || (FullPromotion(r) && r.execution == Some(Succeeded)))
    && r.created.Some? && r.updated.Some?
  }

  /** Nothing has happened past the claim: no start, no result, nothing after it. */
  ghost predicate Unstarted(r: RunState) {
    r.started.None? && r.execution.None? && NoDisposition(r) && NoPromotion(r)
  }

  lemma ConsistentUnstarted(r: RunState)
    requires Consistent(r) && r.started.None?
    ensures Unstarted(r)
  {
  }

  // Each operation keeps the invariant in the situation the services use it in.

  lemma RegisterKeeps(current: Option<RunState>, g: Registration, now: Stamp)
    requires Register(current, g, now).Ok?
    requires current.Some? ==> Consistent(current.value) && g.approval.None?
    requires current.None? ==>
               g.approval != Some(Approval.Rejected) && (g.approval.Some? ==> g.objective.Some?)
    requires current.Some? && g.objective.Some? ==> Unstarted(current.value)
    ensures Consistent(Register(current, g, now).value)
  {
    if g.objective.Some? {
      Text.StripNormalises(g.objective.value);
      Text.BlankExactly(g.objective.value);
    }
  }

  lemma ApproveKeeps(r: RunState, objective: string, at: Stamp, now: Stamp)
    requires Consistent(r) && Unstarted(r) && Approve(r, objective, at, now).Ok?
    ensures Consistent(Approve(r, objective, at, now).value)
  {
    Text.StripNormalises(objective);
    Text.BlankExactly(objective);
  }

  lemma DisposeKeeps(r: RunState, d: DispositionReport, now: Stamp)
    requires Consistent(r) && r.execution.Some? && d.Succeeded()
    ensures Consistent(Dispose(r, d, now))
  {
  }

  /**
   On consistent records the claim guard collapses to three fields: the objective it
   also needs is always there.
   */
  lemma ClaimableExactly(r: RunState, claim: ClaimId, now: Stamp)
    requires Consistent(r)
    ensures Claim(r, claim, now).Ok? <==>
            r.approval == Some(Approval.Approved) && r.claim.None? && r.execution.None?
  {
    if r.objective.Some? {
      Text.StripNormalises(r.objective.value);
    }
  }

  // ------------------------------------------------------ what each operation does to a record

  /** The objective a caller's text stands for, or none for text that is only padding. */
  function Meant(text: string): Option<string> {
    if Text.Strip(text) == "" then None else Some(Text.Strip(text))
  }

  /** Nothing has been decided, claimed, run, disposed of or promoted. */
  predicate Pristine(r: RunState) {
    && r.approvedAt.None? && r.rejectedAt.None? && r.claim.None? && r.claimedAt.None? && r.started.None?
    && r.resolution.None? && r.reconciledAt.None? && r.execution.None? && r.finished.None? && r.external.None?
    && r.disposition.None? && r.dispositionSucceeded.None? && r.worktreePresent.None? && r.branchPresent.None?
    && r.canonicalUnchanged.None? && r.promotionSha.None? && r.prNumber.None? && r.prUrl.None?
    && r.promotionBase.None? && r.promotionHead.None? && r.promoted.None?
  }

  /** A first registration is refused exactly for a blank objective, and records what it was given. */
  lemma RegistersNew(g: Registration, now: Stamp)
    ensures Register(None, g, now).Err? <==> g.objective.Some? && Meant(g.objective.value).None?
    ensures Register(None, g, now).Ok? ==>
              var r := Register(None, g, now).value;
              && r.actionId == g.id && r.role == g.role && r.capability == g.capability && r.target == g.target
              && r.delegation == g.delegation && r.approval == g.approval
              && r.objective == (if g.objective.None? then None else Meant(g.objective.value))
              && r.created == Some(now) && r.updated == Some(now) && Pristine(r)
  {
    if g.objective.Some? {
      Text.BlankExactly(g.objective.value);
    }
  }

  /**
   A repeated one is refused exactly for a blank objective, another identity or another
   objective; it fills in what it is given and changes nothing else.
   */
  lemma RegistersAgain(r: RunState, g: Registration, now: Stamp)
    ensures Register(Some(r), g, now).Ok? <==>
              && r.target == g.target && r.role == g.role && r.capability == g.capability
              && (g.objective.Some? ==>
                    Meant(g.objective.value).Some? && (r.objective.Some? ==> r.objective == Meant(g.objective.value)))
    ensures Register(Some(r), g, now).Ok? ==>
              var r' := Register(Some(r), g, now).value;
              && r'.updated == Some(now)
              && r'.delegation == (if g.delegation.Some? then g.delegation else r.delegation)
              && r'.approval == (if g.approval.Some? then g.approval else r.approval)
              && r'.objective == (if g.objective.Some? then Meant(g.objective.value) else r.objective)
              && r'.(updated := r.updated, delegation := r.delegation, approval := r.approval, objective := r.objective) == r
  {
    if g.objective.Some? {
      Text.BlankExactly(g.objective.value);
    }
  }

  /** The reason each refused decision gives. */
  lemma DecisionRefusals(r: RunState, g: Registration, objective: string, at: Stamp, now: Stamp)
    ensures Register(Some(r), g, now) == Err(BlankObjective) <==> g.objective.Some? && Meant(g.objective.value).None?
    ensures Register(Some(r), g, now) == Err(IdentityConflict) <==>
              && (g.objective.Some? ==> Meant(g.objective.value).Some?)
              && (r.target != g.target || r.role != g.role || r.capability != g.capability)
    ensures Approve(r, objective, at, now) == Err(BlankObjective) <==> Meant(objective).None?
    ensures Approve(r, objective, at, now) == Err(RejectedCannotBeApproved) <==>
              && Meant(objective).Some? && (r.objective.Some? ==> r.objective == Meant(objective))
              && r.approval == Some(Approval.Rejected)
    ensures Register(Some(r), g, now).Err? ==>
              Register(Some(r), g, now).error in {BlankObjective, IdentityConflict, ObjectiveConflict}
    ensures Approve(r, objective, at, now).Err? ==>
              Approve(r, objective, at, now).error in {BlankObjective, ObjectiveConflict, RejectedCannotBeApproved}
    ensures Register(None, g, now).Err? ==> Register(None, g, now) == Err(BlankObjective)
    ensures Reject(r, at, now).Err? ==> Reject(r, at, now) == Err(ClaimedCannotBeRejected)
  {
    Text.BlankExactly(objective);
    if g.objective.Some? {
      Text.BlankExactly(g.objective.value);
    }
  }

  /** The reason each refused step of a run gives: the first of its conditions that fails. */
  lemma RunRefusals(r: RunState, claim: ClaimId, expected: Stamp, now: Stamp)
    ensures Claim(r, claim, now) == Err(NotApproved) <==> r.approval != Some(Approval.Approved)
    ensures Claim(r, claim, now) == Err(AlreadyFinished) <==> r.approval == Some(Approval.Approved) && r.execution.Some?
    ensures Claim(r, claim, now) == Err(AlreadyClaimed) <==>
              r.approval == Some(Approval.Approved) && r.execution.None? && r.claim.Some?
    ensures Claim(r, claim, now) == Err(ObjectiveUnavailable) <==>
              r.approval == Some(Approval.Approved) && r.execution.None? && r.claim.None? && r.objective.None?
    ensures Start(r, now, now) == Err(NoClaim) <==> r.claim.None?
    ensures Start(r, now, now) == Err(AlreadyFinished) <==> r.claim.Some? && r.execution.Some?
    ensures Release(r, expected, now) == Err(StaleVersion) <==> r.updated != Some(expected)
    ensures Abandon(r, expected, now) == Err(StaleVersion) <==> r.updated != Some(expected)
    ensures r.updated == Some(expected) ==>
              && (Release(r, expected, now) == Err(NoClaim) <==> r.claim.None?)
              && (Abandon(r, expected, now) == Err(NoClaim) <==> r.claim.None?)
              && (Release(r, expected, now) == Err(AlreadyStarted) <==> r.claim.Some? && r.started.Some?)
              && (Abandon(r, expected, now) == Err(NeverStarted) <==> r.claim.Some? && r.started.None?)
              && (Release(r, expected, now) == Err(AlreadyFinished) <==>
                    r.claim.Some? && r.started.None? && r.execution.Some?)
              && (Abandon(r, expected, now) == Err(AlreadyFinished) <==>
                    r.claim.Some? && r.started.Some? && r.execution.Some?)
  {
  }

  /** Approval is refused exactly for a blank or another objective, or after a rejection. */
  lemma ApprovesExactly(r: RunState, objective: string, at: Stamp, now: Stamp)
    ensures Approve(r, objective, at, now).Ok? <==>
              && Meant(objective).Some?
              && (r.objective.Some? ==> r.objective == Meant(objective))
              && r.approval != Some(Approval.Rejected)
    ensures Approve(r, objective, at, now).Ok? ==>
              var r' := Approve(r, objective, at, now).value;
              && r'.objective == Meant(objective) && r'.approval == Some(Approval.Approved)
              && r'.approvedAt == Some(at) && r'.updated == Some(now)
              && r'.(objective := r.objective, approval := r.approval, approvedAt := r.approvedAt, updated := r.updated) == r
  {
    Text.BlankExactly(objective);
  }

  /** Rejection is refused exactly for a claimed or finished run, and erases the objective. */
  lemma RejectsExactly(r: RunState, at: Stamp, now: Stamp)
    ensures Reject(r, at, now).Ok? <==> r.claim.None? && r.execution.None?
    ensures Reject(r, at, now).Ok? ==>
              var r' := Reject(r, at, now).value;
              && r'.objective.None? && r'.approval == Some(Approval.Rejected)
              && r'.rejectedAt == Some(at) && r'.updated == Some(now)
              && r'.(objective := r.objective, approval := r.approval, rejectedAt := r.rejectedAt, updated := r.updated) == r
  {
  }

  /** A claim needs an approved, unclaimed, unfinished run with an objective; it forgets an earlier release. */
  lemma ClaimsExactly(r: RunState, claim: ClaimId, now: Stamp)
    ensures Claim(r, claim, now).Ok? <==>
              && r.approval == Some(Approval.Approved) && r.claim.None? && r.execution.None?
              && r.objective.Some? && Meant(r.objective.value).Some?
    ensures Claim(r, claim, now).Ok? ==>
              var r' := Claim(r, claim, now).value;
              && r'.claim == Some(claim) && r'.claimedAt == Some(now) && r'.updated == Some(now)
              && r'.resolution.None? && r'.reconciledAt.None?
              && r'.(claim := r.claim, claimedAt := r.claimedAt, updated := r.updated, resolution := r.resolution,
                     reconciledAt := r.reconciledAt) == r
  {
    if r.objective.Some? {
      Text.BlankExactly(r.objective.value);
    }
  }

  /** A start marker needs a claim and no result. */
  lemma StartsExactly(r: RunState, at: Stamp, now: Stamp)
    ensures Start(r, at, now).Ok? <==> r.claim.Some? && r.execution.None?
    ensures Start(r, at, now).Ok? ==>
              var r' := Start(r, at, now).value;
              && r'.started == Some(at) && r'.updated == Some(now)
              && r'.(started := r.started, updated := r.updated) == r
  {
  }

  /** Release takes back an unstarted claim of the expected version. */
  lemma ReleasesExactly(r: RunState, expected: Stamp, at: Stamp)
    ensures Release(r, expected, at).Ok? <==>
              r.updated == Some(expected) && r.claim.Some? && r.started.None? && r.execution.None?
    ensures Release(r, expected, at).Ok? ==>
              var r' := Release(r, expected, at).value;
              && r'.claim.None? && r'.claimedAt.None? && r'.resolution == Some(ReleasedBeforeStart)
              && r'.reconciledAt == Some(at) && r'.updated == Some(at)
              && r'.(claim := r.claim, claimedAt := r.claimedAt, resolution := r.resolution,
                     reconciledAt := r.reconciledAt, updated := r.updated) == r
  {
  }

  /** Abandonment closes a started claim of the expected version and erases the objective. */
  lemma AbandonsExactly(r: RunState, expected: Stamp, at: Stamp)
    ensures Abandon(r, expected, at).Ok? <==>
              r.updated == Some(expected) && r.claim.Some? && r.started.Some? && r.execution.None?
    ensures Abandon(r, expected, at).Ok? ==>
              var r' := Abandon(r, expected, at).value;
              && r'.objective.None? && r'.resolution == Some(AbandonedAfterStart)
              && r'.reconciledAt == Some(at) && r'.updated == Some(at)
              && r'.(objective := r.objective, resolution := r.resolution, reconciledAt := r.reconciledAt,
                     updated := r.updated) == r
  {
  }

  /** The three unconditional records: a result, a disposition, a promotion, each as it was reported. */
  lemma ReportsAreRecorded(
    r: RunState, status: ExecutionStatus, external: bool, d: DispositionReport, p: Publication, at: Stamp, now: Stamp)
    ensures var r' := Finish(r, status, at, external, now);
            && r'.execution == Some(status) && r'.external == Some(external) && r'.finished == Some(at)
            && r'.objective.None? && r'.updated == Some(now)
            && r'.(execution := r.execution, external := r.external, finished := r.finished, objective := r.objective,
                   updated := r.updated) == r
    ensures var r' := Dispose(r, d, now);
            && r'.disposition == Some(d.disposition) && r'.worktreePresent == Some(d.worktreePresent)
            && r'.branchPresent == Some(d.branchPresent) && r'.canonicalUnchanged == Some(d.canonicalUnchanged)
            && r'.dispositionSucceeded == Some(
                 d.canonicalUnchanged && (d.disposition == Keep || (!d.worktreePresent && !d.branchPresent)))
            && r'.updated == Some(now)
            && r'.(disposition := r.disposition, worktreePresent := r.worktreePresent, branchPresent := r.branchPresent,
                   canonicalUnchanged := r.canonicalUnchanged, dispositionSucceeded := r.dispositionSucceeded,
                   updated := r.updated) == r
    ensures var r' := Promote(r, p, at, now);
            && r'.promotionSha == Some(p.sha) && r'.prNumber == Some(p.number) && r'.prUrl == Some(p.url)
            && r'.promotionBase == Some(p.base) && r'.promotionHead == Some(p.head)
            && r'.promoted == Some(at) && r'.updated == Some(now)
            && r'.(promotionSha := r.promotionSha, prNumber := r.prNumber, prUrl := r.prUrl,
                   promotionBase := r.promotionBase, promotionHead := r.promotionHead, promoted := r.promoted,
                   updated := r.updated) == r
  {
  }

  /** The one route whose runs are durable. */
  lemma CanonicalRoute(r: RunState)
    ensures IsCanonical(r) <==> r.role == "software_engineering" && r.capability == "code.implement"
  {
  }
}
