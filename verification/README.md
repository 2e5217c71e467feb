# VELOX: a verified model of the run protocol and its neighbours

This project models the parts of VELOX whose correctness is hard to see from any one
function, and proves what they promise over all inputs and all runs.

- **The durable Software Engineering run protocol** (`RunRecord`, `RunStore`, `RunSqlite`,
  `RunControl`, `RunProtocol`, `ProtocolInvariant`, `ProtocolSteps`, `ProtocolExecution`,
  `ProtocolTheorems`, `ProtocolOutcomes`, `ProtocolFaithful`, `ProtocolSqlite`,
  `ProtocolPlacement`, `ProtocolDrain`, `ProtocolLimits`, `Services`). An action is delegated,
  approved or rejected, claimed, started, executed, disposed of and promoted. Durable records
  survive; queue, lifecycle map and registry are process memory and may vanish. A call is a
  list of micro-steps with every durable write a step of its own. It may complete, stop with
  an error after any number of steps, or die there and take memory with it.
- **The worker runtime** (`ActionRuntime`): FIFO queue, lifecycle map, approval registry and
  bounded transient retry.
- **Promotion** (`Promotion`): commit, push, pull request and record over an abstract git
  history and pull-request list, cut off after any sub-step and retried.
- **Calendar listing** (`JsonValues`, `CalendarBoundary`, `CalendarWalk`, `CalendarPaced`,
  `CalendarPaging`, `CalendarTransports`): request validation, query re-validation, event
  mapping, the bounded walk over pages, and both transports end to end.
- **Executor registry** (`ExecutorRegistry`, `ExecutorRouting`): manifest registration and
  route resolution.
- **Event workflow** (`EventWorkflow`): store, inbox, lifecycle and planning.

`Common` and `Text` hold shared vocabulary. Code that changes objects is modelled by classes
(`Services.Server`, the two repositories, queue, registry, store, inbox, services); each of
their methods is proved against a function of the old state, and the theorems are about those
functions. `dafny verify dfyconfig.toml` checks everything.

Where the code does not meet a property it might be taken to have, there is a lemma that shows
the failure happening and one that says exactly when the property holds:

- the FIFO entry runs a Software Engineering action without a claim of its own: it keeps the
  at-most-once promise exactly where an unstarted claim is on record
  (`ProtocolTheorems.FifoKeepsThePromiseExactly`), and elsewhere runs it as often as the retry
  setting allows (`ProtocolLimits.FifoRunsAgainAndAgain`);
- a padded objective is claimed and then refused on the warm path
  (`ProtocolTheorems.WarmPathNeedsUnpadded`, `ProtocolLimits.PaddedObjectiveGetsStuck`);
- the two repositories differ on the release of a claim that is not approved, and on a version
  named in another time zone (`RunSqlite.RefinesExactly`, `RunSqlite.BrokenPromiseParts`,
  `RunSqlite.ForeignSpellingParts`);
- a second promotion commit is made exactly when a call starts with canonical HEAD at the first
  one and the worktree dirty again (`Promotion.SecondCommitExactly`,
  `Promotion.SecondCommitHappens`);
- a padded continuation token passes every check on the page that carries it and then fails
  the whole listing (`CalendarTransports.PaddedTokenBreaksTheWalk`,
  `CalendarTransports.PaddedTokenHappens`);
- bare capability registration is not atomic (`ExecutorRegistry.RefusedBatchIsCleanExactly`,
  `ExecutorRegistry.RefusedBatchLeavesItsFirst`).

Assumptions the code itself relies on, and the model states:

- API calls do not interleave with each other; only crashes and storage errors cut them off.
  Release therefore acts on claims with no live holder. The one place where writers do
  interleave, reconciliation, is modelled with interleaving (`RunControl.Act`).
- Software Engineering actions are run through exact execution, or through the FIFO entry only
  where an exact execution left its claim behind (`RunProtocol.Admissible`). That the worker is
  given the stripped objective also needs that claim's queued action to carry no padding
  (`ProtocolFaithful.AsRecorded`).
- A registration carries an approval status only for a new row, and a version is named as it
  was read (`RunStore.Proper`).
- Action ids, claim ids and version stamps are fresh, and stamps increase. The state token
  is the tuple of the fields it digests, which takes SHA-256 to be injective.
- Nobody else opens pull requests for the action's branch (`Promotion.OthersKeepOut`), and no
  promotion is started in the relapsed situation (`Promotion.Guarded`), which is exactly where
  it would commit twice. Edits of the worktree are otherwise free.
- Clock readings, ids, permission decisions, route resolution of a delegation, executor
  outcomes, pipeline and planner behaviour, git and HTTP replies are parameters.

## Model

| member | source | states |
|---|---|---|
| `RunRecord.ClaimableExactly` | apps/server/src/integrations/software_engineering_state.py:320-355 | On every consistent record the claim guard comes down to approved, unclaimed and without a result: the objective it also demands is always there |
| `RunRecord.RegisterKeeps` | apps/server/src/integrations/software_engineering_state.py:220-273 | A registration keeps the record invariant when it carries an approval status only for a new row and an objective only for an unstarted one; the stored objective is stripped and never blank |
| `RunRecord.ApproveKeeps` | apps/server/src/integrations/software_engineering_state.py:275-297 | Approval of an unstarted record keeps the invariant, with a stripped, non-blank objective |
| `RunRecord.RegistersNew` | apps/server/src/integrations/software_engineering_state.py:220-245 | A first registration is refused exactly for an objective that is only padding, and records what it was given, the objective stripped, with nothing decided or run |
| `RunRecord.RegistersAgain` | apps/server/src/integrations/software_engineering_state.py:246-273 | A repeated one is refused exactly for a blank objective, another identity or another objective; it fills in what it is given and changes nothing else |
| `RunRecord.ApprovesExactly` | apps/server/src/integrations/software_engineering_state.py:275-297 | Approval is refused exactly for a blank or another objective or after a rejection; otherwise status, time, objective and version are written and nothing else |
| `RunRecord.ClaimsExactly` | apps/server/src/integrations/software_engineering_state.py:320-355 | A claim goes through exactly on an approved, unclaimed, unfinished record with an objective, and forgets an earlier reconciliation |
| `RunRecord.ReleasesExactly` | apps/server/src/integrations/software_engineering_state.py:380-414 | Release takes back exactly an unstarted, unfinished claim of the expected version, field by field |
| `RunRecord.AbandonsExactly` | apps/server/src/integrations/software_engineering_state.py:416-449 | Abandonment closes exactly a started, unfinished claim of the expected version, erases the objective and keeps the claim and its start |
| `RunRecord.ReportsAreRecorded` | apps/server/src/integrations/software_engineering_state.py:451-511 | Result, disposition and the five promotion values are stored as reported, each in its own field |
| `RunRecord.DecisionRefusals` | apps/server/src/integrations/software_engineering_state.py:220-318 | Which error a refused registration, approval or rejection raises, each if and only if |
| `RunRecord.RunRefusals` | apps/server/src/integrations/software_engineering_state.py:320-449 | Which error a refused claim, start marker, release or abandonment raises: the first condition that fails, each if and only if |
| `RunStore.AcceptsExactly` | apps/server/src/integrations/software_engineering_state.py:220-511 | Every repository call is accepted exactly when the record's own fields are where it expects them; a missing record is refused by all but registration |
| `RunStore.CallsWrite` | apps/server/src/integrations/software_engineering_state.py:220-511 | An accepted call writes its own arguments, dated as the caller says and versioned as the repository does |
| `RunStore.ProperCallsKeepClaimsApproved` | apps/server/src/integrations/software_engineering_state.py:220-511 | Every repository call that keeps the services' promises keeps "claimed implies approved" on all records |
| `RunStore.InMemoryRunRepository.Do` | apps/server/src/integrations/software_engineering_state.py:220-511 | A write replaces exactly the named record with what the operation computes, or raises and leaves the dictionary alone; a missing record is an error for all but registration |
| `RunStore.InMemoryRunRepository.ListPending` | apps/server/src/integrations/software_engineering_state.py:208-218 | The scan lists every record awaiting approval, unclaimed and without a result exactly once, and no other |
| `RunSqlite.DecodeEncode` | apps/server/src/integrations/software_engineering_state.py:1240-1299 | Reading a row back gives exactly the record that was written, all 30 columns, for every record |
| `RunSqlite.ColumnTexts` | apps/server/src/integrations/software_engineering_state.py:1240-1299 | The texts statuses are stored as, each status with its own |
| `RunSqlite.RefinesExactly` | apps/server/src/integrations/software_engineering_state.py:707-1139 | One call on a table and on the dictionary it holds gives the same verdict, record and contents if and only if it is neither the release of a claim that is not approved nor a reconciliation that names the right version in another time zone; in those the dictionary accepts and the table refuses unchanged |
| `RunSqlite.RefusalsAgree` | apps/server/src/integrations/software_engineering_state.py:707-1113 | Outside reconciliation the two repositories answer identically, errors included; a refused release or abandonment raises the one error of its own in SQLite, for a missing row too |
| `RunSqlite.SessionRefines` | apps/server/src/integrations/software_engineering_state.py:932-975 | Whatever sequence of calls is made by callers that keep the services' promises, all answers and the final contents of the two repositories agree: the invariant closes the guard only SQLite has |
| `RunSqlite.ProperCallsMeetNoGap` | apps/server/src/integrations/software_engineering_run_control.py:150-175 | Callers that register a status only for new rows and name versions as they read them never meet either difference |
| `RunSqlite.BrokenPromiseParts` | apps/server/src/integrations/software_engineering_state.py:380-414 | Without the registration promise they part: registering a claimed action again as awaiting is answered alike, and then the in-memory repository releases what SQLite refuses |
| `RunSqlite.ForeignSpellingParts` | apps/server/src/integrations/software_engineering_state.py:942-967 | Naming the current version in another time zone parts them on every releasable claim, in UTC it does not: the dictionary compares instants, SQLite their text |
| `RunSqlite.SqliteRunRepository.Do` | apps/server/src/integrations/software_engineering_state.py:675-1139 | Every call outside the two differences answers as the in-memory repository would and leaves the table holding exactly its records; in them it is refused and changes nothing; promised calls never meet them |
| `RunSqlite.SqliteRunRepository.Transact` | apps/server/src/integrations/software_engineering_state.py:707-1139 | Finding the row, decoding it where needed, running one guarded statement and reading back is what the statement functions say |
| `RunControl.RetriableExactly` | apps/server/src/integrations/software_engineering_run_control.py:199-242 | On consistent records `retriable` is shown if and only if a claim would now succeed |
| `RunControl.OptionsExactly` | apps/server/src/integrations/software_engineering_run_control.py:283-329 | An option is listed if and only if reconciling with the current token, acknowledgement and an inspector would be accepted; never more than one is listed |
| `RunControl.ReconcilesExactly` | apps/server/src/integrations/software_engineering_run_control.py:131-177 | For all records and requests: a reconciliation goes through if and only if the record is canonical, the token names its present state, and the request is a release of an approved, unstarted, unfinished claim or an acknowledged abandonment, with an inspector, of a started, unfinished one not abandoned before |
| `RunControl.ReconciliationWrites` | apps/server/src/integrations/software_engineering_run_control.py:150-175 | A release clears the claim and keeps the objective, an abandonment the reverse; both are dated and versioned, and nothing else moves |
| `RunControl.ReconcileRefusals` | apps/server/src/integrations/software_engineering_run_control.py:299-341 | Why a reconciliation is refused: another route, a stale token, no acknowledgement, a record that does not fit, no inspector, in this order, and never the last-resort error |
| `RunControl.RetriableMeans` | apps/server/src/integrations/software_engineering_run_control.py:233-241 | On every record, consistent or not, `retriable` means that nothing but a missing objective could stop a claim and that the run was not given up |
| `RunControl.PhasePrecedence` | apps/server/src/integrations/software_engineering_run_control.py:244-281 | On every record the phases take precedence in this order: promoted, kept or discarded by a disposition that succeeded, the result, abandoned, the claim, the decision |
| `RunControl.PhaseExactly` | apps/server/src/integrations/software_engineering_run_control.py:244-281 | The phase of a consistent record, each of the fourteen if and only if its fields say so |
| `RunControl.RetriableNeedsTheInvariant` | apps/server/src/integrations/software_engineering_run_control.py:233-241 | Off the invariant the flag can lie: an approved, unclaimed record without objective is shown retriable and cannot be claimed |
| `RunControl.OnlyReleaseCycles` | apps/server/src/integrations/software_engineering_run_control.py:244-281 | A walk through the phase graph that takes no release never descends, and returns to a phase only by standing still: release is the only cycle |
| `RunControl.TokensAreUnique` | apps/server/src/integrations/software_engineering_run_control.py:366-386 | Two versions of one record never share a state token |
| `RunControl.CommitsExactlyUndisturbed` | apps/server/src/integrations/software_engineering_run_control.py:131-177 | The conditional update goes through if and only if nothing was written since the record was read |
| `RunControl.ReconciliationIsLinearizable` | apps/server/src/integrations/software_engineering_run_control.py:131-177 | However other writers interleave with inspection, reading and updating, a reconciliation that commits replaced the very version its token was issued for |
| `RunControl.QuietSession` | apps/server/src/integrations/software_engineering_run_control.py:131-177 | A session of inspecting, submitting and updating that nobody interferes with is exactly one reconciliation with the token of the day, accepted or refused |
| `RunControl.StaleTokenRefused` | apps/server/src/integrations/software_engineering_run_control.py:131-177 | A token is refused by every later version of the record, so the token of a released claim never works on its successor |
| `RunControl.RunControlService.ReconcileClaim` | apps/server/src/integrations/software_engineering_run_control.py:131-197 | The service accepts exactly what the guards and the conditional update accept, writes exactly that record, and changes nothing when it refuses; no abandonment without acknowledgement and inspector, nothing with a token that does not fit |
| `ActionRuntime.FindIsFirstOccurrence` | apps/server/src/core/action_queue.py:31-33 | Lookup returns the first queued action of an id, and none exactly when there is none |
| `ActionRuntime.OccurrencesRemoveFirst` | apps/server/src/core/action_queue.py:35-40 | Removal takes out the first action of that id and disturbs no other id |
| `ActionRuntime.ActionQueue.Dequeue` | apps/server/src/core/action_queue.py:25-29 | FIFO: the oldest action leaves, the rest keep their order |
| `ActionRuntime.ActionQueue.Remove` | apps/server/src/core/action_queue.py:35-40 | The scanning loop removes exactly the first action of the id and returns it |
| `ActionRuntime.ActionQueue.EnqueueMany` | apps/server/src/core/action_queue.py:19-23 | A batch is appended whole and in order |
| `ActionRuntime.ProcessNextUsesWork` | apps/server/src/workers/runtime.py:279-451 | In memory, one step of the runtime, settled or cut off before its settlement, strictly lowers the sum over queued actions of remaining retries plus one, if and only if the head is not still awaiting approval |
| `ActionRuntime.TransitionsExactly` | apps/server/src/core/action_lifecycle_manager.py:12-50 | The lifecycle moves that are allowed, all of them and no other, keeping everything but the status |
| `ActionRuntime.GateExactly` | apps/server/src/workers/runtime.py:279-315 | The gate sends an action awaiting approval back to the queue, drops one that is neither queued nor approved, and lets the rest start executing |
| `ActionRuntime.SettlesExactly` | apps/server/src/workers/runtime.py:407-451 | After an attempt: completed if and only if it succeeded, skipped if and only if it was skipped, approved again with one retry used and queued at the end if and only if the failure was transient with retries left, otherwise failed |
| `ProtocolDrain.RunNextMemory` | apps/server/src/workers/runtime.py:235-451 | The protocol's run-next call, canonical head or not, observer refusal or not, stopped after any step, does exactly that to memory |
| `ProtocolDrain.RunNextUsesWork` | apps/server/src/workers/runtime.py:279-451 | So every `process_next`, from every state, with every outcome and cut-off, uses up work if and only if its head is not awaiting approval |
| `ProtocolDrain.CallsDrain` | apps/server/src/workers/runtime.py:432-451 | With no new work and nothing awaiting approval, as many `process_next` calls as there is work left empty the queue, wherever each of them stops |
| `ProtocolDrain.BatchUsesWork` | apps/server/src/workers/runtime.py:541-559 | A batch never adds work, and uses some up whenever the queue is not empty |
| `ProtocolExecution.StepKeepsInv` | apps/server/src/integrations/software_engineering_state.py:220-511 | Every call, completed or cut off after any durable write by an error or a crash, keeps the invariant of every action |
| `ProtocolExecution.RunKeepsInv` | apps/server/src/integrations/software_engineering_continuation.py:104-161 | So does every admissible run |
| `ProtocolTheorems.WorkerRunsAtMostOnce` | apps/server/src/integrations/software_engineering_state.py:837-975 | In every run of delegate, approve, reject, execute, reconcile, dispose, promote, FIFO processing, crash and restart, with any outcomes, each Software Engineering action's worker is invoked at most once, and only with its start marker durable; FIFO processing may meet such an action only where it holds an unstarted claim |
| `ProtocolTheorems.StartedBlocks` | apps/server/src/integrations/software_engineering_state.py:320-414 | Once the start marker is there, every claim and every release of that record fails |
| `ProtocolTheorems.StartMarkerStays` | apps/server/src/integrations/software_engineering_state.py:1177-1189 | No step of any run clears or changes a start marker |
| `ProtocolTheorems.RetriesAreBounded` | apps/server/src/workers/runtime.py:432-451 | In every run any other action runs at most max(0, max_transient_retries) + 1 times |
| `ProtocolTheorems.OnlyAuthorisedWorkRuns` | apps/server/src/workers/runtime.py:281-315 | Every invocation in every run came after a permission or an approval and after no denial or rejection, and ran the id, route and target that were asked for, with the objective as asked or stripped |
| `ProtocolFaithful.WorkIsWhatWasAsked` | apps/server/src/integrations/software_engineering_continuation.py:129-153 | In every run whose FIFO entry meets Software Engineering actions only with an unpadded objective, every invocation ran exactly the id, route, target and stripped objective that were asked for, rightfully |
| `ProtocolOutcomes.RunStartedRecords` | apps/server/src/integrations/software_engineering_state.py:1191-1222 | Once the worker has run, the durable result is the one it reported: succeeded, skipped or failed, each if and only if, with its external flag, the objective erased and start and claim kept |
| `ProtocolOutcomes.WarmExecutionReports` | apps/server/src/integrations/software_engineering_continuation.py:104-194 | In every reachable state the execution of a queued, claimable action with an unpadded objective records the worker's outcome durably, settles its lifecycle, and puts it back at the end of the queue only for a transient failure with retries left |
| `ProtocolOutcomes.ColdExecutionReports` | apps/server/src/integrations/software_engineering_recovery.py:101-138 | The same, from a fresh lifecycle, for a claimable action that memory has forgotten |
| `ProtocolOutcomes.ClaimedHeadReports` | apps/server/src/workers/runtime.py:235-451 | The same for the FIFO entry on a canonical head whose claim was left behind |
| `ProtocolOutcomes.PlainRunReports` | apps/server/src/workers/runtime.py:407-451 | Of any other action the outcome shows in memory alone |
| `ProtocolOutcomes.ExecutionRefuses` | apps/server/src/integrations/software_engineering_continuation.py:104-128 | An execution that is not accepted, by memory, route or record, changes nothing at all; an accepted one first claims, and that write changes only the claim |
| `ProtocolOutcomes.FinishedRunsRest` | apps/server/src/integrations/software_engineering_state.py:1177-1189 | A claim on a run that already has a result is never started: the worker does not run |
| `ProtocolOutcomes.ExecutionCutOff` | apps/server/src/integrations/software_engineering_run_control.py:37-60 | A process that dies just before the worker runs and one that dies just after leave the very same records, shown as running or ambiguous: no reader of the records can tell whether the worker ran |
| `ProtocolOutcomes.StepsEnd` | apps/server/src/core/container.py:108-157 | Process memory is rebuilt empty at a restart while what was written stays; a call that only fails keeps the memory it made |
| `ProtocolOutcomes.PlanningOutcome` | apps/server/src/core/permission.py:168-175 | A planned action is evaluated once into lifecycle, queue or registry and never recorded |
| `ProtocolOutcomes.DelegationOutcome` | apps/server/src/integrations/software_engineering_ingress.py:35-63 | A delegation is evaluated if it has a route and put on record with what was decided: approved or awaiting with its stripped objective, denied or without a route and with none |
| `ProtocolOutcomes.ResolvesExactly` | apps/server/src/core/approval_decisions.py:35-46 | What is pending under an id: the held action, or else exactly what an undecided canonical record tells of |
| `ProtocolOutcomes.DecisionsRefuse` | apps/server/src/core/approval_decisions.py:49-116 | With nothing pending, or a lifecycle past its decision, approval and rejection change nothing |
| `ProtocolOutcomes.ApprovalOutcome` | apps/server/src/core/approval_decisions.py:49-82 | An approval leaves a claimable record with the stripped objective and, in memory, an approved action out of the registry and at the end of the queue |
| `ProtocolOutcomes.RejectionOutcome` | apps/server/src/core/approval_decisions.py:85-116 | A rejection leaves a rejected record without objective and, in memory, a rejected action that is neither held nor queued |
| `ProtocolOutcomes.ReconciliationOutcome` | apps/server/src/integrations/software_engineering_run_control.py:131-177 | A reconciliation replaces the record it was accepted for, or changes nothing |
| `ProtocolOutcomes.DispositionOutcome` | apps/server/src/integrations/software_engineering_work_product.py:187-215 | Keeping records the product as it stands; a discard is refused outright while its branch has unmerged commits, otherwise the worktree goes as reported and the discard is recorded exactly when nothing is left and the canonical checkout is as it was |
| `ProtocolOutcomes.PromotionOutcome` | apps/server/src/integrations/software_engineering_promotion.py:93-120 | A promotion is recorded, its five values each in its field, exactly for a kept product of a successful canonical run with everything in place and no promotion yet; anywhere else nothing changes |
| `ProtocolOutcomes.PromotionIsRecorded` | apps/server/src/integrations/software_engineering_promotion.py:343-410 | From the first sub-step to the durable record: what is recorded is the one commit on the origin and the one pull request that were made, on the trusted base, from the action's branch |
| `ProtocolTheorems.RecordsAreConsistent` | apps/server/src/integrations/software_engineering_state.py:220-511 | One invariant holds of every reachable record: claim implies approved, started implies claimed, a result implies started with the objective erased, and so on through disposition and promotion |
| `ProtocolTheorems.StatusTellsTheTruth` | apps/server/src/integrations/software_engineering_run_control.py:199-242 | On every reachable record `retriable` and the listed options are exactly what the service would accept |
| `ProtocolTheorems.PendingListIsExact` | apps/server/src/integrations/software_engineering_recovery.py:32-66 | After any run the recovered pending list is exactly the registered undecided actions, each rebuilt as it was delegated |
| `ProtocolTheorems.PhasesFollowTheGraph` | apps/server/src/integrations/software_engineering_run_control.py:244-281 | Write by write, in every run, the derived phase stays or follows one edge of the fixed graph |
| `ProtocolTheorems.PromotionClimbsTheLadder` | apps/server/src/integrations/software_engineering_promotion.py:93-120 | A promoted action passed approved, claimed, running, succeeded and kept, in that order |
| `ProtocolTheorems.TerminalPhasesStay` | apps/server/src/integrations/software_engineering_disposition.py:57-95 | Rejected, abandoned, discarded and promoted (and a registration without a decision) are never left again |
| `ProtocolTheorems.StepEvolves` | apps/server/src/integrations/software_engineering_state.py:220-511 | Seen from any action, every step leaves its record alone or gives it a fresh version; records are never lost |
| `ProtocolTheorems.TokensNeverReturn` | apps/server/src/integrations/software_engineering_run_control.py:366-386 | However a run goes on, a record has an old token again only if nothing was written in between |
| `ProtocolTheorems.ApprovalIsAtomic` | apps/server/src/core/approval_decisions.py:49-82 | A crash at any point of an approval of an undecided action leaves, after the restart, either the pending action as it was delegated or an approved, noted and claimable record that is no longer pending |
| `ProtocolTheorems.RejectionIsAtomic` | apps/server/src/core/approval_decisions.py:85-116 | A crash at any point of a rejection leaves either the pending action as it was delegated or a rejected, noted record without objective that is neither pending nor claimable |
| `ProtocolTheorems.WarmPathNeedsUnpadded` | apps/server/src/integrations/software_engineering_continuation.py:129-153 | A queued, claimable action is run once if its queued objective is unpadded and not at all otherwise; a padded one is claimed, refused, and its claim left behind |
| `ProtocolLimits.PaddedObjectiveGetsStuck` | apps/server/src/integrations/software_engineering_continuation.py:129-153 | That happens: a permitted delegation with a padded objective on a fresh server is claimed by its first execution, not run, and left claimed |
| `ProtocolTheorems.ColdPathAlwaysRuns` | apps/server/src/integrations/software_engineering_recovery.py:101-138 | A claimable action that memory has forgotten is run by its next execution, whatever padding its objective had |
| `ProtocolTheorems.FifoKeepsThePromiseExactly` | apps/server/src/workers/runtime.py:235-240 | Of a Software Engineering action at the head of the queue, in any reachable state, the FIFO entry keeps "at most once, with a durable start marker" if and only if its record holds an unstarted claim; it runs the worker in any case |
| `ProtocolLimits.FifoRunsAgainAndAgain` | apps/server/src/workers/runtime.py:235-240 | From a fresh server, through the FIFO entry, one delegated action is executed k times for every k the retry setting allows |
| `ProtocolSqlite.StepWrites` | apps/server/src/integrations/software_engineering_state.py:707-1139 | What any step of the protocol does to the records, wherever it stops, a session of repository calls does in which every call keeps the services' promises |
| `ProtocolSqlite.SqliteHoldsEveryRun` | apps/server/src/integrations/software_engineering_state.py:522-1139 | The records of every reachable state are what such a session leaves in the in-memory repository, and the same session leaves exactly those records in an empty SQLite table, answered alike throughout |
| `ProtocolPlacement.StatusDecidesLocation` | apps/server/src/core/permission.py:168-175 | At every call boundary of every run without storage errors: approved if and only if queued, exactly once; queued for approval if and only if in the registry; otherwise in neither |
| `Services.Server.PlanBatch` | apps/server/src/core/events/workflow.py:146-150 | Evaluating a whole batch and then queueing the allowed actions leaves the state of evaluating and queueing them one at a time |
| `Services.Server.EvaluateAction` | apps/server/src/core/permission.py:168-175 | Permission decides lifecycle and registry as the protocol step says; the queue is untouched |
| `Services.Server.Delegate` | apps/server/src/integrations/software_engineering_ingress.py:35-63 | Delegation refuses blank text and otherwise leaves exactly the state of the protocol's delegation step |
| `Services.Server.ResolvePending` | apps/server/src/core/approval_decisions.py:35-46 | The pending action comes from the registry, or else from an undecided, unclaimed canonical record |
| `Services.Server.RecordApproved` | apps/server/src/integrations/software_engineering_recovery.py:68-83 | Registration, then approval, each a durable write; a failure leaves the writes before it and nothing else |
| `Services.Server.RecordRejected` | apps/server/src/integrations/software_engineering_recovery.py:85-99 | Registration, then rejection with the objective erased, each a durable write |
| `Services.Server.ApprovePending` | apps/server/src/core/approval_decisions.py:49-82 | The completed call is the protocol's approval step: durable first, then lifecycle, registry and queue; it succeeds exactly when the grant was noted, and a refusal leaves memory alone |
| `Services.Server.RejectPending` | apps/server/src/core/approval_decisions.py:85-116 | The completed call is the protocol's rejection step; it succeeds exactly when the refusal was noted, and otherwise leaves memory alone |
| `Services.Server.ObserveStart` | apps/server/src/integrations/software_engineering_state.py:1152-1189 | The observer registers the identity and marks a claim that is not yet started; it fails, and nothing is run, exactly when the registration or the marker is refused |
| `Services.Server.SettleAction` | apps/server/src/workers/runtime.py:407-451 | A transient failure with retries left is approved again with one retry used and queued at the end; otherwise completed if and only if it succeeded, skipped if and only if skipped, failed if and only if it failed |
| `Services.Server.RunAction` | apps/server/src/workers/runtime.py:279-451 | One dequeued action goes through gate, observer, worker and settlement as the protocol step says, and is reported processed exactly when it got past the gate and the observer, which is exactly when the worker ran |
| `Services.Server.ProcessNext` | apps/server/src/workers/runtime.py:235-240 | The FIFO entry is the protocol's run-next step and reports an action processed exactly when a worker ran |
| `Services.Server.ProcessAction` | apps/server/src/workers/runtime.py:242-267 | Exactly the named action leaves the queue and runs, unless it awaits approval; it is reported processed exactly when its worker ran |
| `Services.Server.ExecuteAction` | apps/server/src/integrations/software_engineering_continuation.py:104-194 | The continuation is the protocol's execute step: claim, match or enqueue, prepare, process; it succeeds exactly when the worker ran |
| `Services.Server.InvokeBatch` | apps/server/src/workers/runtime.py:541-559 | A batch processes from the head until its limit or the first action that is not processed, and answers how many were |
| `Services.Server.DisposeProduct` | apps/server/src/integrations/software_engineering_disposition.py:57-95 | Only a finished canonical run with a work product is disposed of, and the call succeeds exactly when it recorded a disposition that went through |
| `Promotion.ActKeepsInv` | apps/server/src/integrations/software_engineering_promotion.py:240-410 | Every sub-step, and every move of the canonical checkout, the remote, the worktree's contents and other pull requests in between, keeps the promotion invariant, unless a call is started in the one relapsed situation |
| `Promotion.PromotionIsUnique` | apps/server/src/integrations/software_engineering_promotion.py:240-410 | However often promotion is retried, wherever it is cut off and whoever edits the worktree, at most one commit and one pull request exist for the action and what is recorded is exactly that pair, as long as no call starts with canonical HEAD at the promotion commit and the worktree dirty |
| `Promotion.RecordIsFinal` | apps/server/src/integrations/software_engineering_promotion.py:261-290 | Once recorded, commit, pull request and record never change |
| `Promotion.MovedHeadIsRefused` | apps/server/src/integrations/software_engineering_promotion.py:158-190 | If canonical HEAD is no longer where the work product started, a whole call changes nothing, if and only if it does not start in the relapsed situation |
| `Promotion.MovedBeforePush` | apps/server/src/integrations/software_engineering_promotion.py:343-351 | If canonical HEAD moves or its checkout gets dirty before the push, the rest of the call publishes and records nothing |
| `Promotion.SecondCommitExactly` | apps/server/src/integrations/software_engineering_promotion.py:158-238 | With a commit already made, a call makes a second one if and only if it starts with canonical HEAD at that commit and the worktree dirty again |
| `Promotion.SecondCommitHappens` | apps/server/src/integrations/software_engineering_promotion.py:158-238 | That is a run from a kept work product nobody has promoted: a first call cut off after its commit, a fast-forward of the base to it, an edit of the worktree, and a call that commits again |
| `Promotion.ChildCountsOne` | apps/server/src/integrations/software_engineering_promotion.py:122-156 | A commit whose only parent is HEAD is the single commit counted between HEAD and it, in every history |
| `Promotion.RetryCompletes` | apps/server/src/integrations/software_engineering_promotion.py:240-410 | From any state earlier attempts left, with canonical HEAD where the work started, an undisturbed retry records the pair if and only if there is either uncommitted work or an earlier commit, not both; it commits and opens a pull request only where none exists, and otherwise changes nothing |
| `Promotion.PullRecovers` | apps/server/src/integrations/github_pull_request.py:109-156 | Find-or-create returns the one pull request of the branch, creating it only when there is none |
| `Promotion.FindingIsOurs` | apps/server/src/integrations/github_pull_request.py:46-107 | A search finds something exactly when one pull request of the branch on the trusted base exists |
| `Promotion.UnreadyCallRests` | apps/server/src/integrations/software_engineering_promotion.py:295-333 | From a checkout that is dirty, on another branch, or not at the remote base, a whole call changes nothing |
| `Promotion.RecoversExactly` | apps/server/src/integrations/software_engineering_promotion.py:158-238 | What a call makes of the worktree it finds: changes on canonical HEAD are staged, a clean worktree one own commit ahead is taken up, everything else refused |
| `Promotion.CommitsExactly` | apps/server/src/integrations/software_engineering_promotion.py:191-238 | A commit carries the action's trailer on top of the worktree's head and counts only if that was canonical HEAD and nothing was left over |
| `Promotion.VerifiesExactly` | apps/server/src/integrations/software_engineering_promotion.py:122-156 | A commit just made is believed exactly if it is still the worktree's head, the single own commit on canonical HEAD, and left nothing behind |
| `Promotion.PushesExactly` | apps/server/src/integrations/software_engineering_promotion.py:343-351 | A push goes through exactly while nothing moved, the checkout is clean and the branch moves forward, and then moves only the action's branch |
| `Promotion.ListsExactly` | apps/server/src/integrations/github_pull_request.py:46-156 | No pull request of the branch leads to creation, one on the trusted base is taken, anything else is refused, before and after creation |
| `Promotion.PromotionService.Promote` | apps/server/src/integrations/software_engineering_promotion.py:240-410 | Every call is a run of the machine made of its own steps, ends idle where an uninterrupted call ends, succeeds exactly when the identity is on record, always where a retry completes, repeats a recorded identity without any effect, and fails without any effect unless the canonical checkout is clean, on the base branch and level with the remote |
| `CalendarBoundary.ValidateExactly` | apps/server/src/integrations/calendar.py:152-185 | Validation accepts exactly the spellings of bounded requests and never clamps a value |
| `CalendarBoundary.ValidateRefusals` | apps/server/src/integrations/calendar.py:152-185 | Which field a refusal names, each if and only if; a window out of order is the start's fault, and the times come before the rest |
| `CalendarBoundary.QueryIs` | apps/server/src/integrations/calendar.py:187-204 | The query of a request, parameter by parameter, and the fixed operation, verb and path it is sent with |
| `CalendarBoundary.QueryRoundTrip` | apps/server/src/integrations/calendar.py:187-204 | Every query built from a valid request passes the transport's re-validation and decodes to that request |
| `CalendarBoundary.RevalidateExactly` | apps/server/src/integrations/calendar.py:618-661 | Re-validation accepts nothing else: whatever reaches HTTP is the query of one valid request, up to leading zeros in the page size |
| `CalendarBoundary.AllowlistExactly` | apps/server/src/integrations/calendar.py:1426-1451 | The second allowlist is the identity on every event with a usable id and refuses every other |
| `CalendarBoundary.AllowsExactly` | apps/server/src/integrations/calendar.py:1426-1451 | Of any value whatever, the second allowlist makes an event if and only if the value says it: five fields, all texts, an id that is not blank |
| `CalendarBoundary.MapsExactly` | apps/server/src/integrations/calendar.py:743-789 | A raw item maps to an event if and only if that is what it says, field by field: id, summary or nothing, start and end by `dateTime` or else `date`, attendees by address; it maps to nothing exactly when it says no event |
| `CalendarBoundary.RawRoundTrip` | apps/server/src/integrations/calendar.py:743-789 | Every event with an id, times and addresses comes back from Google's spelling of it as it was |
| `CalendarBoundary.ReportsExactly` | apps/server/src/integrations/calendar.py:1367-1424 | A provider body is turned into a report if and only if it says that report |
| `CalendarBoundary.CoherentExactly` | apps/server/src/integrations/calendar.py:1194-1225 | The aggregation's own check accepts, of named events, exactly the reports some body is turned into |
| `CalendarBoundary.ParseEventList` | apps/server/src/integrations/calendar.py:695-728 | The mapping loop refuses exactly what is not a page, and otherwise carries what the reply says: the events its items say, in order, a count of every other item, the token untouched |
| `CalendarBoundary.LayersCompose` | apps/server/src/integrations/calendar.py:695-776 | Every page the transport could parse is reported with exactly the events its items say, in order, every other item counted as skipped and its own token, and neither the second allowlist nor the aggregation's re-check rejects it |
| `CalendarWalk.RepeatedTokenNeverEnds` | apps/server/src/integrations/calendar.py:1232-1239 | A walk that comes back to a token goes round for ever |
| `CalendarWalk.StandsWhereItStopped` | apps/server/src/integrations/calendar.py:1174-1239 | Ending or breaking within a number of steps is the same as standing there after that many steps |
| `CalendarWalk.FiniteWalks` | apps/server/src/integrations/calendar.py:1174-1255 | Against an unbounded walk that ends after n pages: exhausted if and only if n is within the limit, with the full concatenation and skip count; otherwise exactly the first max_pages pages; never a repeated token |
| `CalendarWalk.RepeatMeansNoEnd` | apps/server/src/integrations/calendar.py:1232-1239 | A repeated token is reported only when the unbounded walk never ends |
| `CalendarWalk.Collect` | apps/server/src/integrations/calendar.py:1174-1255 | For every deterministic page source the aggregation loop is right about the unbounded walk: failed iff it breaks within the limit, exhausted iff it ends, otherwise stopped by the page limit or a repeated token; tokens requested pairwise distinct, skip counts summed, no events on failure |
| `CalendarPaging.Aggregation` | apps/server/src/integrations/calendar.py:1194-1225 | The same over page executions whose reports are checked again: a failed page and an incoherent report both fail the listing, each under its own name |
| `CalendarPaging.Execute` | apps/server/src/integrations/calendar.py:1149-1255 | A faulty payload (a page token included) is refused by field; otherwise the aggregation runs over the payload's own window, and its re-check of a page never fails |
| `CalendarPaging.PageRequestExactly` | apps/server/src/integrations/calendar.py:991-1059 | A page execution forwards the window unchanged and refuses exactly the unusable tokens |
| `CalendarPaging.FaultlessExactly` | apps/server/src/integrations/calendar.py:216-235 | The faultless payloads, exactly: a readable window in order, 1 to 50 results, 1 to 10 pages, no page token |
| `CalendarPaging.FaultsInOrder` | apps/server/src/integrations/calendar.py:1149-1175 | Which field a faulty payload is refused for |
| `CalendarTransports.TokenRoundTrip` | apps/server/src/integrations/calendar.py:394-403 | An offset token parses back to its offset exactly when the offset is in range, and is never blank or padded |
| `CalendarPaced.PacedWalk` | apps/server/src/integrations/calendar.py:339-391 | The walk over the fake, position by position, for every number of pages |
| `CalendarPaced.PagesForExactly` | apps/server/src/integrations/calendar.py:1181-1239 | The page count max(1, ceil(n/r)) is the least positive number of pages that reach the end |
| `CalendarTransports.ListOverFake` | apps/server/src/integrations/calendar.py:339-403 | End to end over the fake: the first min(n, r*m) events in order, exhausted iff n <= r*m, in max(1, min(m, ceil(n/r))) pages, never a repeated token; a failure iff one of those events has a blank id |
| `CalendarTransports.GooglePage` | apps/server/src/integrations/calendar.py:452-616 | Over Google every request of the listing reaches HTTP unless the access token is blank or its continuation token is padded, and what a successful reply holds reaches the aggregation whole |
| `CalendarTransports.PagesExactly` | apps/server/src/integrations/calendar.py:566-616 | A reply holds a page if and only if it is a 2xx with a JSON object, a list of items if any, and a token that is absent, null or not blank |
| `CalendarTransports.PagesAccount` | apps/server/src/integrations/calendar.py:695-728 | And the page is what the reply says: the events of its items, the count of the others, its token |
| `CalendarTransports.SendsExactly` | apps/server/src/integrations/calendar.py:452-500 | Of any provider request, a bounded listing with credentials is sent and its reply read; anything else is refused unsent |
| `CalendarTransports.AcceptsOwnTokens` | apps/server/src/integrations/calendar.py:394-403 | The fake accepts exactly its own prefix followed by a numeral that is not past the end |
| `CalendarTransports.PaddedTokenBreaksTheWalk` | apps/server/src/integrations/calendar.py:167-180 | A token that came with a page is followed if and only if it is unpadded; a padded one fails the whole listing although its page was accepted |
| `CalendarTransports.PaddedTokenIsAccepted` | apps/server/src/integrations/calendar.py:719-728 | Such a token exists: a page carrying " next" passes every check |
| `CalendarTransports.PaddedTokenHappens` | apps/server/src/integrations/calendar.py:167-180 | With a provider that serves such a page for every query, the walk breaks at its second request |
| `ExecutorRegistry.ValidateManifest` | apps/server/src/workers/executor.py:161-220 | The validation loop accepts exactly the well-formed manifests and reports the first flawed entry with its flaw |
| `ExecutorRegistry.ManifestIsAtomic` | apps/server/src/workers/executor.py:307-355 | An admissible manifest is registered whole and nothing else is; any other leaves the registry as it was; registrations are never disturbed |
| `ExecutorRegistry.WellFormedExactly` | apps/server/src/workers/executor.py:161-220 | The well-formed manifests, exactly: a conforming executor and normalised capabilities of known roles, of one provider and no two alike |
| `ExecutorRegistry.FlawsInOrder` | apps/server/src/workers/executor.py:161-220 | Which flaw an entry is refused for |
| `ExecutorRegistry.AdmitsExactly` | apps/server/src/workers/executor.py:307-355 | A well-formed manifest is taken in exactly when its account has no blank name and all its routes are free under it |
| `ExecutorRegistry.AccountsExactly` | apps/server/src/workers/executor.py:443-466 | An account keeps both names, stripped; one with a blank name is none at all |
| `ExecutorRegistry.KeysCollideExactly` | apps/server/src/workers/executor.py:261-290 | Two registrations share a route exactly when role, capability, provider and account identifier agree |
| `ExecutorRegistry.RefusedBatchIsCleanExactly` | apps/server/src/workers/executor.py:292-305 | Bare capability registration is not atomic: a refused batch leaves the registry unchanged if and only if its first route was already taken |
| `ExecutorRegistry.RefusedBatchLeavesItsFirst` | apps/server/src/workers/executor.py:292-305 | That happens: a batch that repeats a new route is refused and leaves the route registered |
| `ExecutorRegistry.WorkerExecutorRegistry.RegisterManifest` | apps/server/src/workers/executor.py:307-355 | The method registers exactly the admissible manifests, completely, and otherwise changes nothing |
| `ExecutorRegistry.WorkerExecutorRegistry.RegisterCapabilities` | apps/server/src/workers/executor.py:292-305 | Capabilities are added in order up to the first route already taken |
| `ExecutorRegistry.WorkerExecutorRegistry.RegisterCapability` | apps/server/src/workers/executor.py:261-290 | One route is added if its account normalises and its key is free |
| `ExecutorRouting.RoutedExactly` | apps/server/src/workers/executor.py:571-669 | An action is routed to a registration if and only if that is the only one that matches role, capability, provider and account |
| `ExecutorRouting.MentionSays` | apps/server/src/workers/executor.py:468-530 | A payload entry decides alone; only where it is silent does the metadata speak |
| `ExecutorRouting.AsksExactly` | apps/server/src/workers/executor.py:468-569 | The query an action asks, exactly: role, capability, provider if any, account if any, normalised |
| `ExecutorRouting.RefusalsInOrder` | apps/server/src/workers/executor.py:571-625 | Why an action cannot be asked about, in order |
| `ExecutorRouting.UnroutedReasons` | apps/server/src/workers/executor.py:571-669 | Without a match the reason is a missing account exactly where none was named and one would have helped, and no handler otherwise |
| `ExecutorRouting.OffersKeepTheirAccount` | apps/server/src/workers/executor.py:261-355 | What an offer adds is registered under its own account, stripped, and without one only if it named none; an account with a blank name adds nothing |
| `ExecutorRouting.OffersAreTaken` | apps/server/src/workers/executor.py:292-305 | Capabilities with distinct free routes and a usable account are all registered, and nothing else is |
| `ExecutorRouting.RoutingIsMonotone` | apps/server/src/workers/executor.py:571-706 | Later registrations make a routed action ambiguous or leave it alone; ambiguous stays ambiguous |
| `ExecutorRouting.ExplicitProviderMatchesOnce` | apps/server/src/workers/executor.py:581-612 | With an explicit provider at most one registration matches, so the ambiguous branch is unreachable |
| `ExecutorRouting.ActionsAreNeverRedirected` | apps/server/src/workers/executor.py:372-441 | Over any history of registrations, accepted or refused, a routed action keeps its executor or becomes ambiguous, and the latter never when it names its provider |
| `EventWorkflow.RunKeepsInv` | apps/server/src/core/events/workflow.py:81-154 | Every run of accept and process keeps the workflow invariant |
| `EventWorkflow.RunsAreExact` | apps/server/src/core/events/workflow.py:81-154 | With any failures, replays and duplicates: stored ids are distinct and in arrival order, the inbox is exactly the arrivals not yet handled, and planning ran exactly once for each handled event |
| `EventWorkflow.AnswersExactly` | apps/server/src/core/events/workflow.py:99-139 | Processing answers by the run before it: not found, conflict if and only if already handled, otherwise what pipeline and planner did |
| `EventWorkflow.ProcessedExactly` | apps/server/src/core/events/lifecycle_manager.py:12-40 | An event is marked processed if and only if some step handled it after it arrived; replay of failed events included |
| `EventWorkflow.TransitionsExactly` | apps/server/src/core/events/lifecycle_manager.py:12-40 | The event lifecycle moves that are allowed, all of them and no other |
| `EventWorkflow.FailuresAreNoted` | apps/server/src/core/events/workflow.py:99-154 | A failed pipeline leaves the event stored, in the inbox and unplanned, failed for the reason given, to be processed again |
| `EventWorkflow.EventStore.GetEvent` | apps/server/src/core/events/store.py:29-34 | The scan finds the first event of an id |
| `EventWorkflow.EventInbox.MarkProcessed` | apps/server/src/core/events/inbox.py:28-33 | Exactly the first pending event of the id is removed and returned |
| `EventWorkflow.EventWorkflowService.Accept` | apps/server/src/core/events/workflow.py:81-97 | The completed call is the accept step; a known id is refused without effect |
| `EventWorkflow.EventWorkflowService.Process` | apps/server/src/core/events/workflow.py:99-154 | The completed call is the process step, with the same answer |

## Left out

- FastAPI routers, HTTP status codes, command lines, acceptance and pilot harnesses, settings and container wiring: plumbing without a hard property.
- Promotion's check of its own settings: a remote or base branch that is empty or starts with a dash is refused before anything is done.
- Real git, `gh`, subprocess, the SQLite engine and httpx: git is a commit history with heads and a dirty flag, SQLite a table with atomic guarded updates, HTTP a function from queries to replies.
- Claude Code argument lists, prompts and report parsing, work-product review text and worktree identity checks: the worker is an arbitrary outcome, a work product a flag.
- Google OAuth, credential stores and the Ollama resolver: thin wrappers over libraries.
- The Gmail executor, event classifier, planner tables and semantic router, and the Calendar single-event read: they would only add easy members.
- The timestamp grammar (section 5.6 of RFC 3339) and time zones: a clock parameter decides which text is an instant.
- Unicode case folding is a parameter of the registry; `str.isdigit` is read as ASCII digits, so digits outside ASCII, which Python accepts and `int` may then refuse, are not modelled.
- Schema versions and migrations of the SQLite file, and the checks that stored datetimes are timezone-aware. Times the services write are taken to be in UTC, as they are; only the version a reconciliation names may be spelled otherwise.
- The order of `list_pending_approval` (by creation time in SQLite, by insertion in memory): the model says which records are listed, each once.
- Logging, log metadata, observation metadata, and lifecycle metadata other than `approval_required` and the retry count; failure messages and categories of the Calendar boundary beyond which field or layer failed.
- The `clear` operations of stores and inboxes, which no service calls.
- Canned responses and failures of the fake transports: the fake is modelled as it answers from its events.
- Concurrent release against a live claim holder, and several server processes on one database: outside the protocol's own assumption.
- In the protocol machine promotion is its final durable write; the steps before it are in `Promotion`, which models one action's promotion at a time.
- Where an action is after a storage error (as opposed to a crash): `ProtocolPlacement.StatusDecidesLocation` speaks of runs without storage errors, because an approval whose memory update never happened leaves the action in the registry while exact execution may already run it.
- `EventWorkflow` ends with the planning run; evaluating and queueing what it planned is `Services.Server.PlanBatch`, with the permission decision of each action a parameter.
