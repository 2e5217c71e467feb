/**
 The SQLite repository: rows of loosely typed cells, statements with their WHERE
 clauses, the row decoder, and the proof that it refines the in-memory repository.
 */
module RunSqlite {
  import opened Common
  import opened RunRecord
  import opened RunStore

  /** A stored value. UUIDs and timestamps are kept as their canonical text. */
  datatype Cell = Null | Str(text: string) | Int(number: int) | UuidText(id: nat) | IsoText(at: Stamp)

  datatype Row = Row(
    actionId: Cell,
    role: Cell,
    capability: Cell,
    target: Cell,
    delegation: Cell,
    objective: Cell,
    approval: Cell,
    approvedAt: Cell,
    rejectedAt: Cell,
    claim: Cell,
    claimedAt: Cell,
    started: Cell,
    resolution: Cell,
    reconciledAt: Cell,
    execution: Cell,
    finished: Cell,
    external: Cell,
    disposition: Cell,
    dispositionSucceeded: Cell,
    worktreePresent: Cell,
    branchPresent: Cell,
    canonicalUnchanged: Cell,
    promotionSha: Cell,
    prNumber: Cell,
    prUrl: Cell,
    promotionBase: Cell,
    promotionHead: Cell,
    promoted: Cell,
    created: Cell,
    updated: Cell)

  type Table = map<ActionId, Row>

  // ----------------------------------------------------------------- writing cells

  function TextCell(v: Option<string>): Cell { if v.Some? then Str(v.value) else Null }
  function StampCell(v: Option<Stamp>): Cell { if v.Some? then IsoText(v.value) else Null }
  function UuidCell(v: Option<nat>): Cell { if v.Some? then UuidText(v.value) else Null }
  function IntCell(v: Option<int>): Cell { if v.Some? then Int(v.value) else Null }
  function BoolCell(v: Option<bool>): Cell {
    if v.Some? then Int(if v.value then 1 else 0) else Null
  }

  function ApprovalText(a: Approval): string {
    match a case Awaiting => "awaiting_approval" case Approved => "approved" case Rejected => "rejected"
  }

  function ResolutionText(c: Resolution): string {
    match c case ReleasedBeforeStart => "released_before_start" case AbandonedAfterStart => "abandoned_after_start"
  }

  function DispositionText(d: Disposition): string {
    match d case Keep => "keep" case Discard => "discard"
  }

  function ExecutionText(e: ExecutionStatus): string {
    match e case Succeeded => "succeeded" case Skipped => "skipped" case Failed => "failed"
  }

  function DelegationText(d: Delegation): string {
    match d
    case DelegationQueued => "queued"
    case DelegationAwaiting => "awaiting_approval"
    case DelegationDenied => "denied"
    case RouteRejected => "route_rejected"
  }

  function ApprovalCell(v: Option<Approval>): Cell { if v.Some? then Str(ApprovalText(v.value)) else Null }
  function ResolutionCell(v: Option<Resolution>): Cell { if v.Some? then Str(ResolutionText(v.value)) else Null }
  function DispositionCell(v: Option<Disposition>): Cell { if v.Some? then Str(DispositionText(v.value)) else Null }
  function ExecutionCell(v: Option<ExecutionStatus>): Cell { if v.Some? then Str(ExecutionText(v.value)) else Null }
  function DelegationCell(v: Option<Delegation>): Cell { if v.Some? then Str(DelegationText(v.value)) else Null }

  /** The row that holds a record. */
  function Encode(r: RunState): Row {
    Row(
      UuidText(r.actionId), Str(r.role), Str(r.capability), Str(r.target),
      DelegationCell(r.delegation), TextCell(r.objective), ApprovalCell(r.approval),
      StampCell(r.approvedAt), StampCell(r.rejectedAt), UuidCell(r.claim), StampCell(r.claimedAt),
      StampCell(r.started), ResolutionCell(r.resolution), StampCell(r.reconciledAt),
      ExecutionCell(r.execution), StampCell(r.finished), BoolCell(r.external),
      DispositionCell(r.disposition), BoolCell(r.dispositionSucceeded), BoolCell(r.worktreePresent),
      BoolCell(r.branchPresent), BoolCell(r.canonicalUnchanged), TextCell(r.promotionSha),
      IntCell(r.prNumber), TextCell(r.prUrl), TextCell(r.promotionBase), TextCell(r.promotionHead),
      StampCell(r.promoted), StampCell(r.created), StampCell(r.updated))
  }

  // ----------------------------------------------------------------- reading cells

  /** Readers give the value, or nothing at all when the cell is malformed. */
  function ReadText(c: Cell): Option<Option<string>> {
    match c case Null => Some(None) case Str(s) => Some(Some(s)) case _ => None
  }
  function ReadStamp(c: Cell): Option<Option<Stamp>> {
    match c case Null => Some(None) case IsoText(t) => Some(Some(t)) case _ => None
  }
  function ReadUuid(c: Cell): Option<Option<nat>> {
    match c case Null => Some(None) case UuidText(u) => Some(Some(u)) case _ => None
  }
  function ReadInt(c: Cell): Option<Option<int>> {
    match c case Null => Some(None) case Int(n) => Some(Some(n)) case _ => None
  }
  function ReadBool(c: Cell): Option<Option<bool>> {
    match c case Null => Some(None) case Int(n) => Some(Some(n != 0)) case _ => None
  }

  function ReadApproval(c: Cell): Option<Option<Approval>> {
    match c
    case Null => Some(None)
    case Str(s) =>
      if s == "awaiting_approval" then Some(Some(Awaiting))
      else if s == "approved" then Some(Some(Approval.Approved))
      else if s == "rejected" then Some(Some(Approval.Rejected))
      else None
    case _ => None
  }

  function ReadResolution(c: Cell): Option<Option<Resolution>> {
    match c
    case Null => Some(None)
    case Str(s) =>
      if s == "released_before_start" then Some(Some(ReleasedBeforeStart))
      else if s == "abandoned_after_start" then Some(Some(AbandonedAfterStart))
      else None
    case _ => None
  }

  function ReadDisposition(c: Cell): Option<Option<Disposition>> {
    match c
    case Null => Some(None)
    case Str(s) =>
      if s == "keep" then Some(Some(Keep)) else if s == "discard" then Some(Some(Discard)) else None
    case _ => None
  }

  function ReadExecution(c: Cell): Option<Option<ExecutionStatus>> {
    match c
    case Null => Some(None)
    case Str(s) =>
      if s == "succeeded" then Some(Some(Succeeded))
      else if s == "skipped" then Some(Some(Skipped))
      else if s == "failed" then Some(Some(Failed))
      else None
    case _ => None
  }

  function ReadDelegation(c: Cell): Option<Option<Delegation>> {
    match c
    case Null => Some(None)
    case Str(s) =>
      if s == "queued" then Some(Some(DelegationQueued))
      else if s == "awaiting_approval" then Some(Some(DelegationAwaiting))
      else if s == "denied" then Some(Some(DelegationDenied))
      else if s == "route_rejected" then Some(Some(RouteRejected))
      else None
    case _ => None
  }

  /** The texts the columns hold. */
  lemma ColumnTexts()
    ensures ApprovalCell(Some(Awaiting)) == Str("awaiting_approval")
    ensures ApprovalCell(Some(Approval.Approved)) == Str("approved")
    ensures ApprovalCell(Some(Approval.Rejected)) == Str("rejected")
    ensures ResolutionCell(Some(ReleasedBeforeStart)) == Str("released_before_start")
    ensures ResolutionCell(Some(AbandonedAfterStart)) == Str("abandoned_after_start")
    ensures DispositionCell(Some(Keep)) == Str("keep") && DispositionCell(Some(Discard)) == Str("discard")
    ensures ExecutionCell(Some(Succeeded)) == Str("succeeded") && ExecutionCell(Some(Skipped)) == Str("skipped")
    ensures ExecutionCell(Some(Failed)) == Str("failed")
    ensures DelegationCell(Some(DelegationQueued)) == Str("queued")
    ensures DelegationCell(Some(DelegationAwaiting)) == Str("awaiting_approval")
    ensures DelegationCell(Some(DelegationDenied)) == Str("denied")
    ensures DelegationCell(Some(RouteRejected)) == Str("route_rejected")
    ensures BoolCell(Some(true)) == Int(1) && BoolCell(Some(false)) == Int(0)
  {
  }

  lemma EnumsRoundTrip(
    a: Option<Approval>, c: Option<Resolution>, d: Option<Disposition>, e: Option<ExecutionStatus>, g: Option<Delegation>)
    ensures ReadApproval(ApprovalCell(a)) == Some(a)
    ensures ReadResolution(ResolutionCell(c)) == Some(c)
    ensures ReadDisposition(DispositionCell(d)) == Some(d)
    ensures ReadExecution(ExecutionCell(e)) == Some(e)
    ensures ReadDelegation(DelegationCell(g)) == Some(g)
  {
    assert "approved"[1] == 'p' && "awaiting_approval"[1] == 'w' && "rejected"[1] == 'e';
    assert "released_before_start"[0] != "abandoned_after_start"[0];
    assert "keep"[0] != "discard"[0];
    assert "succeeded"[1] == 'u' && "skipped"[1] == 'k' && "failed"[1] == 'a';
    assert "queued"[0] == 'q' && "awaiting_approval"[0] == 'a' && "denied"[0] == 'd' && "route_rejected"[0] == 'r';
  }

  /** The columns a row needs to be readable, in two halves. */
  predicate RunColumnsReadable(w: Row) {
    && w.actionId.UuidText? && w.role.Str? && w.capability.Str? && w.target.Str?
    && ReadDelegation(w.delegation).Some? && ReadText(w.objective).Some? && ReadApproval(w.approval).Some?
    && ReadStamp(w.approvedAt).Some? && ReadStamp(w.rejectedAt).Some? && ReadUuid(w.claim).Some?
    && ReadStamp(w.claimedAt).Some? && ReadStamp(w.started).Some? && ReadResolution(w.resolution).Some?
    && ReadStamp(w.reconciledAt).Some? && ReadExecution(w.execution).Some? && ReadStamp(w.finished).Some?
    && ReadBool(w.external).Some?
  }

  predicate ProductColumnsReadable(w: Row) {
    && ReadDisposition(w.disposition).Some? && ReadBool(w.dispositionSucceeded).Some?
    && ReadBool(w.worktreePresent).Some? && ReadBool(w.branchPresent).Some?
    && ReadBool(w.canonicalUnchanged).Some? && ReadText(w.promotionSha).Some?
    && ReadInt(w.prNumber).Some? && ReadText(w.prUrl).Some? && ReadText(w.promotionBase).Some?
    && ReadText(w.promotionHead).Some? && ReadStamp(w.promoted).Some?
    && ReadStamp(w.created).Some? && ReadStamp(w.updated).Some?
  }

  function Rebuild(w: Row): RunState
    requires RunColumnsReadable(w) && ProductColumnsReadable(w)
  {
    RunState(
      w.actionId.id, w.role.text, w.capability.text, w.target.text,
      ReadDelegation(w.delegation).value, ReadText(w.objective).value, ReadApproval(w.approval).value,
      ReadStamp(w.approvedAt).value, ReadStamp(w.rejectedAt).value, ReadUuid(w.claim).value,
      ReadStamp(w.claimedAt).value, ReadStamp(w.started).value, ReadResolution(w.resolution).value,
      ReadStamp(w.reconciledAt).value, ReadExecution(w.execution).value, ReadStamp(w.finished).value,
      ReadBool(w.external).value, ReadDisposition(w.disposition).value,
      ReadBool(w.dispositionSucceeded).value, ReadBool(w.worktreePresent).value,
      ReadBool(w.branchPresent).value, ReadBool(w.canonicalUnchanged).value,
      ReadText(w.promotionSha).value, ReadInt(w.prNumber).value, ReadText(w.prUrl).value,
      ReadText(w.promotionBase).value, ReadText(w.promotionHead).value,
      ReadStamp(w.promoted).value, ReadStamp(w.created).value, ReadStamp(w.updated).value)
  }

  /** `_state_from_row`: rebuild a record, or report the row as invalid. */
  function Decode(w: Row): Result<RunState, StateError> {
    if RunColumnsReadable(w) && ProductColumnsReadable(w) then Ok(Rebuild(w)) else Err(CorruptRow)
  }

  lemma TextReadsBack(v: Option<string>) ensures ReadText(TextCell(v)) == Some(v) {}
  lemma StampReadsBack(v: Option<Stamp>) ensures ReadStamp(StampCell(v)) == Some(v) {}
  lemma BoolReadsBack(v: Option<bool>) ensures ReadBool(BoolCell(v)) == Some(v) {}

  lemma RunColumnsReadBack(r: RunState)
    ensures RunColumnsReadable(Encode(r))
  {
    EnumsRoundTrip(r.approval, r.resolution, None, r.execution, r.delegation);
  }

  lemma ProductColumnsReadBack(r: RunState)
    ensures ProductColumnsReadable(Encode(r))
  {
    EnumsRoundTrip(None, None, r.disposition, None, None);
  }

  /** The codec loses nothing, so distinct records have distinct rows. */
  lemma DecodeEncode(r: RunState)
    ensures Decode(Encode(r)) == Ok(r)
  {
    RunColumnsReadBack(r);
    ProductColumnsReadBack(r);
    var w := Encode(r);
    var r' := Rebuild(w);
    assert r'.delegation == r.delegation && r'.approval == r.approval && r'.resolution == r.resolution
        && r'.execution == r.execution && r'.disposition == r.disposition by {
      EnumsRoundTrip(r.approval, r.resolution, r.disposition, r.execution, r.delegation);
    }
    assert r'.objective == r.objective by { TextReadsBack(r.objective); }
    assert r'.approvedAt == r.approvedAt by { StampReadsBack(r.approvedAt); }
    assert r'.rejectedAt == r.rejectedAt by { StampReadsBack(r.rejectedAt); }
    assert r'.claimedAt == r.claimedAt by { StampReadsBack(r.claimedAt); }
    assert r'.started == r.started by { StampReadsBack(r.started); }
    assert r'.reconciledAt == r.reconciledAt by { StampReadsBack(r.reconciledAt); }
    assert r'.finished == r.finished by { StampReadsBack(r.finished); }
    assert r'.promoted == r.promoted by { StampReadsBack(r.promoted); }
    assert r'.created == r.created by { StampReadsBack(r.created); }
    assert r'.updated == r.updated by { StampReadsBack(r.updated); }
    assert r'.external == r.external by { BoolReadsBack(r.external); }
    assert r'.dispositionSucceeded == r.dispositionSucceeded by { BoolReadsBack(r.dispositionSucceeded); }
    assert r'.worktreePresent == r.worktreePresent by { BoolReadsBack(r.worktreePresent); }
    assert r'.branchPresent == r.branchPresent by { BoolReadsBack(r.branchPresent); }
    assert r'.canonicalUnchanged == r.canonicalUnchanged by { BoolReadsBack(r.canonicalUnchanged); }
    assert r'.promotionSha == r.promotionSha by { TextReadsBack(r.promotionSha); }
    assert r'.prUrl == r.prUrl by { TextReadsBack(r.prUrl); }
    assert r'.promotionBase == r.promotionBase by { TextReadsBack(r.promotionBase); }
    assert r'.promotionHead == r.promotionHead by { TextReadsBack(r.promotionHead); }
  }

  // ---------------------------------------------------------------------- statements

  /** What a call decides to do to the addressed row: write a new version or raise. */
  datatype Statement = Write(row: Row) | Raise(error: StateError)

  function InsertStatement(g: Registration, objective: Option<string>, now: Stamp): Statement {
    Write(Row(
            UuidText(g.id), Str(g.role), Str(g.capability), Str(g.target),
            DelegationCell(g.delegation), TextCell(objective), ApprovalCell(g.approval),
            Null, Null, Null, Null, Null, Null, Null, Null, Null, Null, Null, Null, Null,
            Null, Null, Null, Null, Null, Null, Null, Null, IsoText(now), IsoText(now)))
  }

  /** The assignments of a repeated registration are collected one by one. */
  function ReregisterStatement(w: Row, r: RunState, g: Registration, objective: Option<string>, now: Stamp): Statement {
    if !SameIdentity(r, g.target, g.role, g.capability) then Raise(IdentityConflict)
    else if !CompatibleObjective(r, objective) then Raise(ObjectiveConflict)
    else
      var w0 := w.(updated := IsoText(now));
      var w1 := if g.delegation.Some? then w0.(delegation := DelegationCell(g.delegation)) else w0;
      var w2 := if objective.Some? && r.objective.None? then w1.(objective := TextCell(objective)) else w1;
      Write(if g.approval.Some? then w2.(approval := ApprovalCell(g.approval)) else w2)
  }

  function ApproveStatement(w: Row, r: RunState, objective: string, at: Stamp, now: Stamp): Statement {
    match NormalizeRequiredObjective(Some(objective))
    case Err(e) => Raise(e)
    case Ok(text) =>
      if !CompatibleObjective(r, Some(text)) then Raise(ObjectiveConflict)
      else if r.approval == Some(Approval.Rejected) then Raise(RejectedCannotBeApproved)
      else Write(w.(
                 objective := Str(text),
                 approval := Str("approved"),
                 approvedAt := IsoText(at),
                 updated := IsoText(now)))
  }

  function RejectStatement(w: Row, r: RunState, at: Stamp, now: Stamp): Statement {
    if r.claim.Some? || r.execution.Some? then Raise(ClaimedCannotBeRejected)
    else Write(w.(
               objective := Null,
               approval := Str("rejected"),
               rejectedAt := IsoText(at),
               updated := IsoText(now)))
  }

  /** Guards on the selected record, then an UPDATE whose WHERE clause asks again. */
  function ClaimStatement(w: Row, r: RunState, claim: ClaimId, now: Stamp): Statement {
    if r.approval != Some(Approval.Approved) then Raise(NotApproved)
    else if r.execution.Some? then Raise(AlreadyFinished)
    else if r.claim.Some? then Raise(AlreadyClaimed)
    else
      match NormalizeRequiredObjective(r.objective)
      case Err(e) => Raise(e)
      case Ok(_) =>
        if w.approval == Str("approved") && w.claim.Null? && w.execution.Null? then
          Write(w.(
                claim := UuidText(claim),
                claimedAt := IsoText(now),
                resolution := Null,
                reconciledAt := Null,
                updated := IsoText(now)))
        else Raise(AlreadyClaimed)
  }

  function StartStatement(w: Row, r: RunState, at: Stamp, now: Stamp): Statement {
    if r.claim.None? then Raise(NoClaim)
    else if r.execution.Some? then Raise(AlreadyFinished)
    else Write(w.(started := IsoText(at), updated := IsoText(now)))
  }

  /** Comparing texts: stored times are in UTC, so another spelling of the same instant differs. */
  predicate SameText(c: Cell, m: Moment) {
    m.offset == 0 && c == IsoText(m.at)
  }

  /** One conditional UPDATE on the raw row. Its WHERE clause also asks for an approved row. */
  function ReleaseStatement(w: Row, expected: Moment, at: Stamp): Statement {
    if && w.approval == Str("approved")
       && !w.claim.Null?
       && w.started.Null?
       && w.execution.Null?
       && SameText(w.updated, expected)
    then Write(w.(
               claim := Null,
               claimedAt := Null,
               resolution := Str("released_before_start"),
               reconciledAt := IsoText(at),
               updated := IsoText(at)))
    else Raise(NotReleasable)
  }

  function AbandonStatement(w: Row, expected: Moment, at: Stamp): Statement {
    if && !w.claim.Null?
       && !w.started.Null?
       && w.execution.Null?
       && SameText(w.updated, expected)
    then Write(w.(
               objective := Null,
               resolution := Str("abandoned_after_start"),
               reconciledAt := IsoText(at),
               updated := IsoText(at)))
    else Raise(NotAbandonable)
  }

  function FinishStatement(w: Row, status: ExecutionStatus, at: Stamp, external: bool, now: Stamp): Statement {
    Write(w.(
          objective := Null,
          execution := Str(ExecutionText(status)),
          finished := IsoText(at),
          external := Int(if external then 1 else 0),
          updated := IsoText(now)))
  }

  function DisposeStatement(w: Row, d: DispositionReport, now: Stamp): Statement {
    Write(w.(
          disposition := Str(DispositionText(d.disposition)),
          dispositionSucceeded := Int(if d.Succeeded() then 1 else 0),
          worktreePresent := Int(if d.worktreePresent then 1 else 0),
          branchPresent := Int(if d.branchPresent then 1 else 0),
          canonicalUnchanged := Int(if d.canonicalUnchanged then 1 else 0),
          updated := IsoText(now)))
  }

  function PromoteStatement(w: Row, p: Publication, at: Stamp, now: Stamp): Statement {
    Write(w.(
          promotionSha := Str(p.sha),
          prNumber := Int(p.number),
          prUrl := Str(p.url),
          promotionBase := Str(p.base),
          promotionHead := Str(p.head),
          promoted := IsoText(at),
          updated := IsoText(now)))
  }

  /** The statement for a row that was found and decoded to `r`. */
  function Prepare(w: Row, r: RunState, call: Call, now: Stamp): Statement {
    match call
    case RegisterAction(g) =>
      (match NormalizeObjective(g.objective)
       case Err(e) => Raise(e)
       case Ok(objective) => ReregisterStatement(w, r, g, objective, now))
    case RecordApproval(_, objective, at) => ApproveStatement(w, r, objective, at, now)
    case RecordRejection(_, at) => RejectStatement(w, r, at, now)
    case ClaimApproved(_, claim) => ClaimStatement(w, r, claim, now)
    case RecordStarted(_, at) => StartStatement(w, r, at, now)
    case ReleaseClaim(_, expected, at) => ReleaseStatement(w, expected, at)
    case AbandonClaim(_, expected, at) => AbandonStatement(w, expected, at)
    case RecordExecution(_, status, at, external) => FinishStatement(w, status, at, external, now)
    case RecordDisposition(d) => DisposeStatement(w, d, now)
    case RecordPromotion(_, p, at) => PromoteStatement(w, p, at, now)
  }

  /** Run the statement on the row with this key and read the row back. */
  function Commit(t: Table, id: ActionId, statement: Statement): (Table, Result<RunState, StateError>) {
    match statement
    case Raise(e) => (t, Err(e))
    case Write(row) => (t[id := row], Decode(row))
  }

  function SqlPerform(t: Table, call: Call, now: Stamp): (Table, Result<RunState, StateError>) {
    var id := call.Target();
    if id !in t then
      if call.ReleaseClaim? then (t, Err(NotReleasable))
      else if call.AbandonClaim? then (t, Err(NotAbandonable))
      else if !call.RegisterAction? then (t, Err(NoSuchRun))
      else
        match NormalizeObjective(call.registration.objective)
        case Err(e) => (t, Err(e))
        case Ok(objective) => Commit(t, id, InsertStatement(call.registration, objective, now))
    else if call.ReleaseClaim? then Commit(t, id, ReleaseStatement(t[id], call.expected, call.at))
    else if call.AbandonClaim? then Commit(t, id, AbandonStatement(t[id], call.expected, call.at))
    else
      match Decode(t[id])
      case Err(e) => (t, Err(e))
      case Ok(r) => Commit(t, id, Prepare(t[id], r, call, now))
  }

  // ---------------------------------------------------------------------- refinement

  /** The table holds exactly the records of the dictionary. */
  ghost predicate Holds(t: Table, runs: Runs) {
    t.Keys == runs.Keys && forall id :: id in runs ==> t[id] == Encode(runs[id])
  }

  /** Same verdict, and on success the same record. The error texts may differ. */
  ghost predicate SameAnswer(a: Result<RunState, StateError>, b: Result<RunState, StateError>) {
    a.Ok? == b.Ok? && (a.Ok? ==> a.value == b.value)
  }

  /** Release of a claim that is not approved: only the table's statement asks for approval. */
  predicate ReleaseGap(runs: Runs, call: Call) {
    && call.ReleaseClaim?
    && call.id in runs
    && Release(runs[call.id], call.expected.at, call.at).Ok?
    && runs[call.id].approval != Some(Approval.Approved)
  }

  /** The right version named in another time zone: the dictionary compares instants, the table texts. */
  predicate SpellingGap(runs: Runs, call: Call) {
    && (call.ReleaseClaim? || call.AbandonClaim?)
    && call.id in runs
    && call.expected.offset != 0
    && Evaluate(Some(runs[call.id]), call, 0).Ok?
  }

  /** The places where the two repositories part. */
  predicate Gap(runs: Runs, call: Call) {
    ReleaseGap(runs, call) || SpellingGap(runs, call)
  }

  /** The two repositories answer this call alike and stay in step. */
  ghost predicate Agree(t: Table, runs: Runs, call: Call, now: Stamp) {
    var (t', a) := SqlPerform(t, call, now);
    var (runs', b) := Perform(runs, call, now);
    Holds(t', runs') && SameAnswer(a, b)
  }

  /** A statement writes the row of the record the in-memory operation computes, or both raise. */
  ghost predicate Mirrors(s: Statement, b: Result<RunState, StateError>) {
    s.Write? == b.Ok? && (b.Ok? ==> s.row == Encode(b.value))
  }

  lemma CellsTellPresence(r: RunState)
    ensures Encode(r).claim.Null? <==> r.claim.None?
    ensures Encode(r).started.Null? <==> r.started.None?
    ensures Encode(r).execution.Null? <==> r.execution.None?
    ensures Encode(r).approval == Str("approved") <==> r.approval == Some(Approval.Approved)
  {
    EnumsRoundTrip(r.approval, None, None, None, None);
    EnumsRoundTrip(Some(Approval.Approved), None, None, None, None);
  }

  lemma ReregisterMirrors(r: RunState, g: Registration, objective: Option<string>, now: Stamp)
    requires NormalizeObjective(g.objective) == Ok(objective)
    ensures Mirrors(ReregisterStatement(Encode(r), r, g, objective, now), Register(Some(r), g, now))
  {
    if SameIdentity(r, g.target, g.role, g.capability) && CompatibleObjective(r, objective) {
      var r0 := r.(updated := Some(now));
      var r1 := if g.delegation.Some? then r0.(delegation := g.delegation) else r0;
      var r2 := if objective.Some? && r.objective.None? then r1.(objective := objective) else r1;
      var r3 := if g.approval.Some? then r2.(approval := g.approval) else r2;
      assert Register(Some(r), g, now) == Ok(r3);
      assert Encode(r0) == Encode(r).(updated := IsoText(now));
      assert Encode(r1) == if g.delegation.Some? then Encode(r0).(delegation := DelegationCell(g.delegation)) else Encode(r0);
    }
  }

  lemma GuardedMirrors(r: RunState, call: Call, now: Stamp)
    requires call.RecordApproval? || call.RecordRejection? || call.ClaimApproved? || call.RecordStarted?
    ensures Mirrors(Prepare(Encode(r), r, call, now), Evaluate(Some(r), call, now))
  {
    CellsTellPresence(r);
  }

  lemma RecordMirrors(r: RunState, call: Call, now: Stamp)
    requires call.RecordExecution? || call.RecordDisposition? || call.RecordPromotion?
    ensures Mirrors(Prepare(Encode(r), r, call, now), Evaluate(Some(r), call, now))
  {
  }

  lemma ReconciliationMirrors(r: RunState, expected: Moment, at: Stamp)
    ensures expected.offset == 0 ==> Mirrors(AbandonStatement(Encode(r), expected, at), Abandon(r, expected.at, at))
    ensures expected.offset == 0 && r.approval == Some(Approval.Approved) ==>
              Mirrors(ReleaseStatement(Encode(r), expected, at), Release(r, expected.at, at))
    ensures r.approval != Some(Approval.Approved) ==> ReleaseStatement(Encode(r), expected, at).Raise?
  {
    CellsTellPresence(r);
  }

  /** Committing a mirroring statement keeps table and dictionary in step. */
  lemma CommitAgrees(t: Table, runs: Runs, id: ActionId, s: Statement, b: Result<RunState, StateError>)
    requires Holds(t, runs) && Mirrors(s, b)
    ensures SameAnswer(Commit(t, id, s).1, b)
    ensures Holds(Commit(t, id, s).0, if b.Ok? then runs[id := b.value] else runs)
  {
    if b.Ok? {
      DecodeEncode(b.value);
    }
  }

  lemma PrepareMirrors(r: RunState, call: Call, now: Stamp)
    requires !call.ReleaseClaim? && !call.AbandonClaim?
    ensures Mirrors(Prepare(Encode(r), r, call, now), Evaluate(Some(r), call, now))
  {
    match call {
      case RegisterAction(g) =>
        match NormalizeObjective(g.objective) {
          case Err(_) =>
          case Ok(objective) => ReregisterMirrors(r, g, objective, now);
        }
      case RecordExecution(_, _, _, _) => RecordMirrors(r, call, now);
      case RecordDisposition(_) => RecordMirrors(r, call, now);
      case RecordPromotion(_, _, _) => RecordMirrors(r, call, now);
      case _ => GuardedMirrors(r, call, now);
    }
  }

  lemma InsertAgrees(t: Table, runs: Runs, g: Registration, now: Stamp)
    requires Holds(t, runs) && g.id !in runs
    ensures Agree(t, runs, RegisterAction(g), now)
  {
    match NormalizeObjective(g.objective) {
      case Err(_) =>
      case Ok(objective) =>
        CommitAgrees(t, runs, g.id, InsertStatement(g, objective, now), Register(None, g, now));
    }
  }

  /**
   Call by call, the two repositories agree exactly outside the two gaps: there the dictionary
   reconciles and the table refuses and stays as it was.
   */
  lemma RefinesExactly(t: Table, runs: Runs, call: Call, now: Stamp)
    requires Holds(t, runs)
    ensures Agree(t, runs, call, now) <==> !Gap(runs, call)
    ensures Gap(runs, call) ==>
              Perform(runs, call, now).1.Ok? && SqlPerform(t, call, now).1.Err? && SqlPerform(t, call, now).0 == t
  {
    var id := call.Target();
    if id !in runs {
      if call.RegisterAction? {
        InsertAgrees(t, runs, call.registration, now);
      }
    } else {
      var r := runs[id];
      var b := Evaluate(Some(r), call, now);
      if call.ReleaseClaim? || call.AbandonClaim? {
        ReconciliationMirrors(r, call.expected, call.at);
        if !Gap(runs, call) {
          var s := if call.ReleaseClaim? then ReleaseStatement(t[id], call.expected, call.at)
                   else AbandonStatement(t[id], call.expected, call.at);
          CommitAgrees(t, runs, id, s, b);
        }
      } else {
        DecodeEncode(r);
        PrepareMirrors(r, call, now);
        CommitAgrees(t, runs, id, Prepare(t[id], r, call, now), b);
      }
    }
  }

  /**
   Outside reconciliation the two answer identically, errors included; a refused reconciliation
   has one error of its own in SQLite, whatever the reason.
   */
  lemma RefusalsAgree(t: Table, runs: Runs, call: Call, now: Stamp)
    requires Holds(t, runs)
    ensures !call.ReleaseClaim? && !call.AbandonClaim? ==> SqlPerform(t, call, now).1 == Perform(runs, call, now).1
    ensures call.ReleaseClaim? && SqlPerform(t, call, now).1.Err? ==> SqlPerform(t, call, now).1 == Err(NotReleasable)
    ensures call.AbandonClaim? && SqlPerform(t, call, now).1.Err? ==> SqlPerform(t, call, now).1 == Err(NotAbandonable)
  {
    var id := call.Target();
    RefinesExactly(t, runs, call, now);
    if id in runs {
      var r := runs[id];
      DecodeEncode(r);
      if call.ReleaseClaim? || call.AbandonClaim? {
        ReconciliationRefusals(t, id, r, call);
      } else {
        PrepareRefuses(r, call, now);
      }
    }
  }

  lemma ReconciliationRefusals(t: Table, id: ActionId, r: RunState, call: Call)
    requires call.ReleaseClaim? || call.AbandonClaim?
    ensures call.ReleaseClaim? ==>
              var answer := Commit(t, id, ReleaseStatement(Encode(r), call.expected, call.at)).1;
              answer.Err? ==> answer == Err(NotReleasable)
    ensures call.AbandonClaim? ==>
              var answer := Commit(t, id, AbandonStatement(Encode(r), call.expected, call.at)).1;
              answer.Err? ==> answer == Err(NotAbandonable)
  {
    CellsTellPresence(r);
    var released := r.(claim := None, claimedAt := None, resolution := Some(ReleasedBeforeStart),
                       reconciledAt := Some(call.at), updated := Some(call.at));
    var abandoned := r.(objective := None, resolution := Some(AbandonedAfterStart),
                        reconciledAt := Some(call.at), updated := Some(call.at));
    DecodeEncode(released);
    DecodeEncode(abandoned);
  }

  lemma PrepareRefuses(r: RunState, call: Call, now: Stamp)
    requires !call.ReleaseClaim? && !call.AbandonClaim?
    ensures var b := Evaluate(Some(r), call, now);
            b.Err? ==> Prepare(Encode(r), r, call, now) == Raise(b.error)
  {
    CellsTellPresence(r);
  }

  /** Callers that keep their promises never meet a gap where every claim is approved. */
  lemma ProperCallsMeetNoGap(runs: Runs, call: Call)
    requires ClaimsApproved(runs) && Proper(runs, call)
    ensures !Gap(runs, call)
  {
  }

  // ------------------------------------------------------------------ whole sessions

  /** A timed sequence of repository calls. */
  type Session = seq<(Call, Stamp)>

  function RunMemory(runs: Runs, calls: Session): (Runs, seq<Result<RunState, StateError>>)
    decreases |calls|
  {
    if calls == [] then (runs, [])
    else
      var (runs', answer) := Perform(runs, calls[0].0, calls[0].1);
      var (end, rest) := RunMemory(runs', calls[1..]);
      (end, [answer] + rest)
  }

  function RunSql(t: Table, calls: Session): (Table, seq<Result<RunState, StateError>>)
    decreases |calls|
  {
    if calls == [] then (t, [])
    else
      var (t', answer) := SqlPerform(t, calls[0].0, calls[0].1);
      var (end, rest) := RunSql(t', calls[1..]);
      (end, [answer] + rest)
  }

  /** Along the whole session the services' promises are kept. */
  predicate ProperSession(runs: Runs, calls: Session)
    decreases |calls|
  {
    calls != [] ==>
      && Proper(runs, calls[0].0)
      && ProperSession(Perform(runs, calls[0].0, calls[0].1).0, calls[1..])
  }

  ghost predicate SameAnswers(a: seq<Result<RunState, StateError>>, b: seq<Result<RunState, StateError>>) {
    |a| == |b| && forall i :: 0 <= i < |a| ==> SameAnswer(a[i], b[i])
  }

  /**
   Whatever the repositories are asked, in whatever order, by callers that keep the
   registration promise: every answer and the final contents agree.
   */
  lemma {:induction false} SessionRefines(t: Table, runs: Runs, calls: Session)
    requires Holds(t, runs) && ClaimsApproved(runs) && ProperSession(runs, calls)
    ensures Holds(RunSql(t, calls).0, RunMemory(runs, calls).0)
    ensures SameAnswers(RunSql(t, calls).1, RunMemory(runs, calls).1)
    decreases |calls|
  {
    if calls != [] {
      var (call, now) := calls[0];
      ProperCallsMeetNoGap(runs, call);
      RefinesExactly(t, runs, call, now);
      ProperCallsKeepClaimsApproved(runs, call, now);
      SessionRefines(SqlPerform(t, call, now).0, Perform(runs, call, now).0, calls[1..]);
    }
  }

  /**
   Without the registration promise the repositories do part: registering a claimed
   action again as awaiting opens the release gap.
   */
  lemma BrokenPromiseParts(t: Table, runs: Runs, r: RunState, now: Stamp)
    requires Holds(t, runs)
    requires r.actionId in runs && runs[r.actionId] == r
    requires r.claim.Some? && r.started.None? && r.execution.None?
    ensures var again := RegisterAction(
                           Registration(r.actionId, r.target, r.role, r.capability, None, None, Some(Awaiting)));
            var release := ReleaseClaim(r.actionId, Moment(now, 0), now + 1);
            && !Proper(runs, again)
            && Agree(t, runs, again, now)
            && !Agree(SqlPerform(t, again, now).0, Perform(runs, again, now).0, release, now + 1)
  {
    var g := Registration(r.actionId, r.target, r.role, r.capability, None, None, Some(Awaiting));
    RefinesExactly(t, runs, RegisterAction(g), now);
    var t1 := SqlPerform(t, RegisterAction(g), now).0;
    var runs1 := Perform(runs, RegisterAction(g), now).0;
    assert ReleaseGap(runs1, ReleaseClaim(r.actionId, Moment(now, 0), now + 1));
    RefinesExactly(t1, runs1, ReleaseClaim(r.actionId, Moment(now, 0), now + 1), now + 1);
  }

  /** And so does naming the version of a releasable claim in another time zone. */
  lemma ForeignSpellingParts(t: Table, runs: Runs, r: RunState, offset: int, now: Stamp)
    requires Holds(t, runs) && offset != 0
    requires r.actionId in runs && runs[r.actionId] == r && r.updated.Some?
    requires r.claim.Some? && r.started.None? && r.execution.None?
    ensures !Agree(t, runs, ReleaseClaim(r.actionId, Moment(r.updated.value, offset), now), now)
    ensures r.approval == Some(Approval.Approved) ==>
              Agree(t, runs, ReleaseClaim(r.actionId, Moment(r.updated.value, 0), now), now)
  {
    var foreign := ReleaseClaim(r.actionId, Moment(r.updated.value, offset), now);
    assert SpellingGap(runs, foreign);
    RefinesExactly(t, runs, foreign, now);
    var utc := ReleaseClaim(r.actionId, Moment(r.updated.value, 0), now);
    assert r.approval == Some(Approval.Approved) ==> !Gap(runs, utc);
    RefinesExactly(t, runs, utc, now);
  }

  /** The table, and beside it the in-memory repository it stands for. */
  class SqliteRunRepository {
    var table: Table
    ghost var model: Runs

    ghost predicate Valid()
      reads this
    {
      Holds(table, model)
    }

    constructor ()
      ensures Valid() && table == map[] && model == map[]
    {
      table := map[];
      model := map[];
    }

    /** One statement in one short transaction; a statement that raises leaves the table untouched. */
    method Run(id: ActionId, statement: Statement) returns (result: Result<RunState, StateError>)
      modifies this`table
      ensures (table, result) == Commit(old(table), id, statement)
    {
      if statement.Raise? {
        return Err(statement.error);
      }
      table := table[id := statement.row];
      result := Decode(table[id]);
    }

    /** A call in the table's own terms: find the row, read it where needed, run its statement. */
    method Transact(call: Call, now: Stamp) returns (result: Result<RunState, StateError>)
      modifies this`table
      ensures (table, result) == SqlPerform(old(table), call, now)
    {
      var id := call.Target();
      if id !in table {
        if call.ReleaseClaim? {
          return Err(NotReleasable);
        }
        if call.AbandonClaim? {
          return Err(NotAbandonable);
        }
        if !call.RegisterAction? {
          return Err(NoSuchRun);
        }
        var objective := NormalizeObjective(call.registration.objective);
        if objective.Err? {
          return Err(objective.error);
        }
        result := Run(id, InsertStatement(call.registration, objective.value, now));
      } else if call.ReleaseClaim? {
        result := Run(id, ReleaseStatement(table[id], call.expected, call.at));
      } else if call.AbandonClaim? {
        result := Run(id, AbandonStatement(table[id], call.expected, call.at));
      } else {
        var current := Decode(table[id]);
        if current.Err? {
          return current;
        }
        result := Run(id, Prepare(table[id], current.value, call, now));
      }
    }

    /**
     Every call outside the gaps answers like the in-memory repository and leaves the table
     standing for it; in a gap it is refused and changes nothing. Proper calls never meet a gap
     on a repository whose claims are approved, and keep it so.
     */
    method Do(call: Call, now: Stamp) returns (result: Result<RunState, StateError>)
      requires Valid()
      modifies this
      ensures Valid()
      ensures if Gap(old(model), call)
              then result.Err? && model == old(model) && table == old(table)
              else model == Perform(old(model), call, now).0 && SameAnswer(result, Perform(old(model), call, now).1)
      ensures ClaimsApproved(old(model)) && Proper(old(model), call) ==> !Gap(old(model), call) && ClaimsApproved(model)
    {
      RefinesExactly(table, model, call, now);
      if ClaimsApproved(model) && Proper(model, call) {
        ProperCallsMeetNoGap(model, call);
        ProperCallsKeepClaimsApproved(model, call, now);
      }
      result := Transact(call, now);
      model := if Gap(model, call) then model else Perform(model, call, now).0;
    }
  }
}
