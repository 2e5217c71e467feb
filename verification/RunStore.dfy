/**
 The repository interface as data: one constructor per call, the meaning of a call on
 the process-local dictionary of runs, and the in-memory repository itself.
 */
module RunStore {
  import opened Common
  import opened RunRecord

  type Runs = map<ActionId, RunState>

  /** An instant as a caller spells it: `offset` is its distance from UTC, zero for UTC itself. */
  datatype Moment = Moment(at: Stamp, offset: int)

  datatype Call =
    | RegisterAction(registration: Registration)
    | RecordApproval(id: ActionId, objective: string, at: Stamp)
    | RecordRejection(id: ActionId, at: Stamp)
    | ClaimApproved(id: ActionId, claim: ClaimId)
    | RecordStarted(id: ActionId, at: Stamp)
    | ReleaseClaim(id: ActionId, expected: Moment, at: Stamp)
    | AbandonClaim(id: ActionId, expected: Moment, at: Stamp)
    | RecordExecution(id: ActionId, status: ExecutionStatus, at: Stamp, external: bool)
    | RecordDisposition(report: DispositionReport)
    | RecordPromotion(id: ActionId, publication: Publication, at: Stamp)
  {
    function Target(): ActionId {
      match this
      case RegisterAction(g) => g.id
      case RecordDisposition(d) => d.id
      case RecordApproval(i, _, _) => i
      case RecordRejection(i, _) => i
      case ClaimApproved(i, _) => i
      case RecordStarted(i, _) => i
      case ReleaseClaim(i, _, _) => i
      case AbandonClaim(i, _, _) => i
      case RecordExecution(i, _, _, _) => i
      case RecordPromotion(i, _, _) => i
    }
  }

  /** What a call makes of the record it addresses, if there is one. */
  function Evaluate(current: Option<RunState>, call: Call, now: Stamp): Result<RunState, StateError> {
    if call.RegisterAction? then Register(current, call.registration, now)
    else if current.None? then Err(NoSuchRun)
    else
      var r := current.value;
      match call
      case RecordApproval(_, objective, at) => Approve(r, objective, at, now)
      case RecordRejection(_, at) => Reject(r, at, now)
      case ClaimApproved(_, claim) => Claim(r, claim, now)
      case RecordStarted(_, at) => Start(r, at, now)
      case ReleaseClaim(_, expected, at) => Release(r, expected.at, at)
      case AbandonClaim(_, expected, at) => Abandon(r, expected.at, at)
      case RecordExecution(_, status, at, external) => Ok(Finish(r, status, at, external, now))
      case RecordDisposition(d) => Ok(RunRecord.Dispose(r, d, now))
      case RecordPromotion(_, p, at) => Ok(RunRecord.Promote(r, p, at, now))
  }

  /** A call on a record goes through exactly when the record is where the call expects it. */
  lemma AcceptsExactly(r: RunState, call: Call, now: Stamp)
    ensures Evaluate(Some(r), call, now).Ok? <==>
              match call
              case RegisterAction(g) => Register(Some(r), g, now).Ok?
              case RecordApproval(_, text, _) =>
                && Meant(text).Some? && (r.objective.Some? ==> r.objective == Meant(text))
                && r.approval != Some(Approval.Rejected)
              case RecordRejection(_, _) => r.claim.None? && r.execution.None?
              case ClaimApproved(_, _) =>
                && r.approval == Some(Approval.Approved) && r.claim.None? && r.execution.None?
                && r.objective.Some? && Meant(r.objective.value).Some?
              case RecordStarted(_, _) => r.claim.Some? && r.execution.None?
              case ReleaseClaim(_, expected, _) =>
                r.updated == Some(expected.at) && r.claim.Some? && r.started.None? && r.execution.None?
              case AbandonClaim(_, expected, _) =>
                r.updated == Some(expected.at) && r.claim.Some? && r.started.Some? && r.execution.None?
              case _ => true
    ensures !call.RegisterAction? ==> Evaluate(None, call, now) == Err(NoSuchRun)
  {
    match call
    case RecordApproval(_, text, at) => ApprovesExactly(r, text, at, now);
    case ClaimApproved(_, claim) => ClaimsExactly(r, claim, now);
    case _ =>
  }

  /** And then it writes what it was given, dated as the caller says and versioned as the repository does. */
  lemma CallsWrite(r: RunState, call: Call, now: Stamp)
    requires Evaluate(Some(r), call, now).Ok?
    ensures var r' := Evaluate(Some(r), call, now).value;
            && r'.actionId == r.actionId
            && match call
               case RegisterAction(_) => r'.updated == Some(now)
               case RecordApproval(_, text, at) =>
                 && r'.approval == Some(Approval.Approved) && r'.approvedAt == Some(at)
                 && r'.objective == Meant(text) && r'.updated == Some(now)
               case RecordRejection(_, at) =>
                 r'.approval == Some(Approval.Rejected) && r'.rejectedAt == Some(at) && r'.updated == Some(now)
               case ClaimApproved(_, claim) => r'.claim == Some(claim) && r'.claimedAt == Some(now) && r'.updated == Some(now)
               case RecordStarted(_, at) => r'.started == Some(at) && r'.updated == Some(now)
               case ReleaseClaim(_, _, at) =>
                 r'.claim.None? && r'.resolution == Some(ReleasedBeforeStart) && r'.updated == Some(at)
               case AbandonClaim(_, _, at) =>
                 r'.claim == r.claim && r'.resolution == Some(AbandonedAfterStart) && r'.updated == Some(at)
               case RecordExecution(_, status, at, external) =>
                 && r'.execution == Some(status) && r'.finished == Some(at)
                 && r'.external == Some(external) && r'.updated == Some(now)
               case RecordDisposition(d) =>
                 r'.disposition == Some(d.disposition) && r'.worktreePresent == Some(d.worktreePresent) && r'.updated == Some(now)
               case RecordPromotion(_, p, at) =>
                 r'.promotionSha == Some(p.sha) && r'.promoted == Some(at) && r'.updated == Some(now)
  {
    match call
    case RecordApproval(_, text, at) => ApprovesExactly(r, text, at, now);
    case _ =>
  }

  /** A successful call replaces exactly the addressed record; a failed one changes nothing. */
  function Perform(runs: Runs, call: Call, now: Stamp): (Runs, Result<RunState, StateError>) {
    var result := Evaluate(Get(runs, call.Target()), call, now);
    match result
    case Ok(r) => (runs[call.Target() := r], result)
    case Err(_) => (runs, result)
  }

  /**
   What the services promise the repositories: a status is registered only for a new row, and
   a version is named as it was read, in UTC.
   */
  predicate Proper(runs: Runs, call: Call) {
    && (call.RegisterAction? && call.registration.approval.Some? ==> call.registration.id !in runs)
    && (call.ReleaseClaim? || call.AbandonClaim? ==> call.expected.offset == 0)
  }

  /** Every claimed record was approved: the fact the two repositories' release guards rely on. */
  ghost predicate ClaimsApproved(runs: Runs) {
    forall id :: id in runs && runs[id].claim.Some? ==> runs[id].approval == Some(Approval.Approved)
  }

  lemma ProperCallsKeepClaimsApproved(runs: Runs, call: Call, now: Stamp)
    requires ClaimsApproved(runs) && Proper(runs, call)
    ensures ClaimsApproved(Perform(runs, call, now).0)
  {
    var current := Get(runs, call.Target());
    var result := Evaluate(current, call, now);
    if result.Ok? {
      assert result.value.claim.Some? ==> result.value.approval == Some(Approval.Approved) by {
        match call {
          case RegisterAction(g) =>
          case _ => assert current.Some?;
        }
      }
    }
  }

  class InMemoryRunRepository {
    var states: Runs

    constructor ()
      ensures states == map[]
    {
      states := map[];
    }

    method Lookup(id: ActionId) returns (found: Option<RunState>)
      ensures found == Get(states, id)
    {
      found := if id in states then Some(states[id]) else None;
    }

    /** Every write: look the record up, guard, replace it, or raise and leave it alone. */
    method Do(call: Call, now: Stamp) returns (result: Result<RunState, StateError>)
      modifies this
      ensures (states, result) == Perform(old(states), call, now)
    {
      var current := Lookup(call.Target());
      match call {
        case RegisterAction(g) =>
          result := Register(current, g, now);
        case _ =>
          if current.None? {
            return Err(NoSuchRun);
          }
          result := Evaluate(current, call, now);
      }
      if result.Ok? {
        states := states[call.Target() := result.value];
      }
    }

    /** The undecided records, each listed once; `ids` says under which ids they are filed. */
    method ListPending() returns (pending: seq<RunState>, ghost ids: seq<ActionId>)
      ensures |ids| == |pending|
      ensures forall i :: 0 <= i < |ids| ==> ids[i] in states && pending[i] == states[ids[i]]
      ensures forall i, j :: 0 <= i < j < |ids| ==> ids[i] != ids[j]
      ensures forall id :: id in ids <==> id in PendingIds(states)
      ensures forall id :: id in ids <==>
                && id in states && states[id].approval == Some(Awaiting)
                && states[id].claim.None? && states[id].execution.None?
    {
      pending, ids := [], [];
      var rest := states.Keys;
      while rest != {}
        invariant rest <= states.Keys
        invariant |ids| == |pending|
        invariant forall i :: 0 <= i < |ids| ==> ids[i] in states && pending[i] == states[ids[i]]
        invariant forall i, j :: 0 <= i < j < |ids| ==> ids[i] != ids[j]
        invariant forall id :: id in ids <==> id in PendingIds(states) && id !in rest
      {
        var id :| id in rest;
        rest := rest - {id};
        if IsPending(states[id]) {
          pending, ids := pending + [states[id]], ids + [id];
        }
      }
    }
  }

  predicate IsPending(r: RunState) {
    r.approval == Some(Approval.Awaiting) && r.claim.None? && r.execution.None?
  }

  function PendingIds(runs: Runs): set<ActionId> {
    set id | id in runs && IsPending(runs[id]) :: id
  }
}
