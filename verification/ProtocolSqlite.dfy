/**
 The run protocol over either repository: every durable write of a run is a repository call that
 keeps the services' promises, so a SQLite table driven by the same calls holds exactly the
 records the protocol's theorems speak about.
 */
module ProtocolSqlite {
  import opened Common
  import opened RunRecord
  import opened RunProtocol
  import opened ProtocolInvariant
  import opened ProtocolExecution
  import C = RunControl
  import Q = RunSqlite
  import R = ActionRuntime
  import S = RunStore
  import T = ProtocolTheorems

  // -------------------------------------------------------------- sessions of proper calls

  /** `runs'` comes from `runs` by the session `calls`, in which every call keeps the promises. */
  ghost predicate Session(runs: S.Runs, calls: Q.Session, runs': S.Runs) {
    Q.ProperSession(runs, calls) && Q.RunMemory(runs, calls).0 == runs'
  }

  ghost predicate Written(runs: S.Runs, runs': S.Runs) {
    exists calls :: Session(runs, calls, runs')
  }

  lemma WrittenNothing(runs: S.Runs)
    ensures Written(runs, runs)
  {
    assert Session(runs, [], runs);
  }

  lemma {:induction false} SessionsChain(runs: S.Runs, calls: Q.Session, mid: S.Runs, more: Q.Session, runs': S.Runs)
    requires Session(runs, calls, mid) && Session(mid, more, runs')
    ensures Session(runs, calls + more, runs')
    decreases |calls|
  {
    if calls == [] {
      assert calls + more == more;
    } else {
      var (call, now) := calls[0];
      SessionsChain(S.Perform(runs, call, now).0, calls[1..], mid, more, runs');
      assert (calls + more)[0] == calls[0] && (calls + more)[1..] == calls[1..] + more;
    }
  }

  lemma WrittenTransitive(runs: S.Runs, mid: S.Runs, runs': S.Runs)
    requires Written(runs, mid) && Written(mid, runs')
    ensures Written(runs, runs')
  {
    var calls :| Session(runs, calls, mid);
    var more :| Session(mid, more, runs');
    SessionsChain(runs, calls, mid, more, runs');
  }

  /** One durable write of the machine is one proper call. */
  lemma PutIsWritten(s: System, call: S.Call, r: RunState)
    requires S.Proper(s.durable, call) && call.Target() == r.actionId
    requires S.Evaluate(Get(s.durable, r.actionId), call, s.clock) == Ok(r)
    ensures Written(s.durable, Put(s, r).durable)
  {
    var calls := [(call, s.clock)];
    assert S.Perform(s.durable, call, s.clock).0 == Put(s, r).durable;
    assert calls[1..] == [];
    assert Q.ProperSession(Put(s, r).durable, []);
    assert Session(s.durable, calls, Put(s, r).durable);
  }

  // ---------------------------------------------------------------------- call by call

  lemma RegistrationIsWritten(s: System, g: Registration)
    requires g.approval.Some? ==> g.id !in s.durable
    requires g.id in s.durable ==> s.durable[g.id].actionId == g.id
    ensures var reg := Register(Get(s.durable, g.id), g, s.clock);
            reg.Ok? ==> reg.value.actionId == g.id && Written(s.durable, Put(s, reg.value).durable)
  {
    var reg := Register(Get(s.durable, g.id), g, s.clock);
    if reg.Ok? {
      PutIsWritten(s, S.RegisterAction(g), reg.value);
    }
  }

  lemma DelegateWrites(
    s: System, id: ActionId, objective: string, target: string, routed: bool, permission: Permission, n: nat)
    requires Inv(s)
    ensures Written(s.durable, DelegateCall(s, id, objective, target, routed, permission, n).durable)
  {
    WrittenNothing(s.durable);
    if id !in s.born {
      assert id !in s.durable by {
        assert Good(s, id);
      }
      var a := R.Action(id, true, target, Some(objective));
      DecidedWrites(s, a, routed, permission);
    }
  }

  lemma DecidedWrites(s: System, a: R.Action, routed: bool, permission: Permission)
    requires a.id !in s.durable
    ensures var s1 := if routed then Evaluate(Bear(s, a), a, permission) else Bear(s, a);
            var reg := Register(None, DelegationRecord(a, routed, permission), s1.clock);
            && s1.durable == s.durable
            && (reg.Ok? ==> Written(s.durable, Put(s1, reg.value).durable))
  {
    var s1 := if routed then Evaluate(Bear(s, a), a, permission) else Bear(s, a);
    RegistrationIsWritten(s1, DelegationRecord(a, routed, permission));
  }

  /** The records a decision call can leave are written by proper calls. */
  lemma DecisionWrites(s: System, id: ActionId, decision: S.Call, decided: Result<RunState, StateError>, e: Event, rest: System)
    requires T.Keyed(s, id) && T.DecisionEnds(s, id, decided, e, rest)
    requires !decision.RegisterAction? && !decision.ReleaseClaim? && !decision.AbandonClaim? && decision.Target() == id
    requires decided.Ok? && Resolve(s, id).Some? ==>
               var reg := Register(Get(s.durable, id), DecisionRegistration(s, Resolve(s, id).value), s.clock);
               reg.Ok? ==> decided.value.actionId == id && S.Evaluate(Some(reg.value), decision, s.clock + 1) == decided
    ensures Written(s.durable, rest.durable)
  {
    WrittenNothing(s.durable);
    if rest != s && rest != Note(s, id, e) {
      var a := Resolve(s, id).value;
      var r := Register(Get(s.durable, id), DecisionRegistration(s, a), s.clock).value;
      T.RegistersForDecision(s, id, a);
      var s1 := Put(s, r);
      PutIsWritten(s, S.RegisterAction(DecisionRegistration(s, a)), r);
      if decided.Ok? && rest != s1 {
        PutIsWritten(s1, decision, decided.value);
        WrittenTransitive(s.durable, s1.durable, Put(s1, decided.value).durable);
      }
    }
  }

  lemma ApproveWrites(s: System, id: ActionId, n: nat)
    requires Inv(s)
    ensures Written(s.durable, ApproveCall(s, id, n).durable)
  {
    T.GoodIsKeyed(s, id);
    T.ApprovalEnds(s, id, n);
    var objective := if T.Approving(s, id).Ok? then Resolve(s, id).value.objective.value else "";
    DecisionWrites(
      s, id, S.RecordApproval(id, objective, s.clock + 1), T.Approving(s, id), Granted,
      ApproveCall(s, id, n).(memory := s.memory));
  }

  lemma RejectWrites(s: System, id: ActionId, n: nat)
    requires Inv(s)
    ensures Written(s.durable, RejectCall(s, id, n).durable)
  {
    T.GoodIsKeyed(s, id);
    T.RejectionEnds(s, id, n);
    DecisionWrites(
      s, id, S.RecordRejection(id, s.clock + 1), T.Rejecting(s, id), Declined,
      RejectCall(s, id, n).(memory := s.memory));
  }

  lemma MarkStartedWrites(s: System, r: RunState)
    requires r.actionId in s.durable && s.durable[r.actionId] == r
    ensures Written(s.durable, MarkStarted(s, r).durable)
    ensures r.actionId in MarkStarted(s, r).durable && MarkStarted(s, r).durable[r.actionId].actionId == r.actionId
  {
    WrittenNothing(s.durable);
    if r.claim.Some? && r.started.None? && Start(r, s.clock, s.clock).Ok? {
      PutIsWritten(s, S.RecordStarted(r.actionId, s.clock), Start(r, s.clock, s.clock).value);
    }
  }

  lemma RunStartedWrites(s: System, a: R.Action, t: Attempt, n: nat)
    requires a.id in s.durable && s.durable[a.id].actionId == a.id
    ensures Written(s.durable, RunStarted(s, a, t, n).durable)
  {
    WrittenNothing(s.durable);
    if n > 1 {
      var s1 := Invoke(s, a, t.leavesWorktree);
      assert s1.durable == s.durable && s1.clock == s.clock;
      var r := Finish(s1.durable[a.id], ExecutionOf(t.outcome), s1.clock, t.external, s1.clock);
      PutIsWritten(s1, S.RecordExecution(a.id, ExecutionOf(t.outcome), s1.clock, t.external), r);
    }
  }

  lemma RunObservedWrites(s: System, a: R.Action, r: RunState, t: Attempt, n: nat)
    requires r.actionId == a.id && a.id in s.durable && s.durable[a.id] == r
    ensures Written(s.durable, RunObserved(s, a, r, t, n).durable)
  {
    WrittenNothing(s.durable);
    if n > 0 && !StartRefused(r) {
      MarkStartedWrites(s, r);
      RunStartedWrites(MarkStarted(s, r), a, t, n - 1);
      WrittenTransitive(s.durable, MarkStarted(s, r).durable, RunObserved(s, a, r, t, n).durable);
    }
  }

  lemma RunDequeuedWrites(s: System, a: R.Action, t: Attempt, n: nat)
    requires a.id in s.durable ==> s.durable[a.id].actionId == a.id
    ensures Written(s.durable, RunDequeued(s, a, t, n).durable)
  {
    WrittenNothing(s.durable);
    var b := R.Begin(s.memory, a);
    if b.Underway? && a.canonical && n > 0 {
      ObservedRunWrites(s.(memory := b.memory), a, t, n);
    }
  }

  lemma ObservedRunWrites(s: System, a: R.Action, t: Attempt, n: nat)
    requires n > 0 && (a.id in s.durable ==> s.durable[a.id].actionId == a.id)
    ensures var reg := Register(Get(s.durable, a.id), ObserverRegistration(a), s.clock);
            reg.Ok? ==> Written(s.durable, RunObserved(Put(s, reg.value), a, reg.value, t, n - 1).durable)
  {
    var reg := Register(Get(s.durable, a.id), ObserverRegistration(a), s.clock);
    if reg.Ok? {
      RegistrationIsWritten(s, ObserverRegistration(a));
      var s1 := Put(s, reg.value);
      assert a.id in s1.durable && s1.durable[a.id] == reg.value;
      RunObservedWrites(s1, a, reg.value, t, n - 1);
      WrittenTransitive(s.durable, s1.durable, RunObserved(s1, a, reg.value, t, n - 1).durable);
    }
  }

  lemma RunNextWrites(s: System, t: Attempt, n: nat)
    requires Inv(s)
    ensures Written(s.durable, RunNextCall(s, t, n).durable)
  {
    WrittenNothing(s.durable);
    if s.memory.queue != [] {
      T.GoodIsKeyed(s, s.memory.queue[0].id);
      RunDequeuedWrites(s.(memory := s.memory.(queue := s.memory.queue[1..])), s.memory.queue[0], t, n);
    }
  }

  lemma RunQueuedWrites(s: System, id: ActionId, t: Attempt, n: nat)
    requires id in s.durable ==> s.durable[id].actionId == id
    ensures Written(s.durable, RunQueued(s, id, t, n).durable)
  {
    WrittenNothing(s.durable);
    var found := R.Find(s.memory.queue, id);
    if found.Some? {
      R.FindIsFirstOccurrence(s.memory.queue, id);
      RunDequeuedWrites(Dequeued(s, id), found.value, t, n);
    }
  }

  lemma ClaimedRunWrites(s: System, id: ActionId, r: RunState, s2: System, s': System, t: Attempt, n: nat)
    requires T.Keyed(s, id) && id in s.durable && Claim(s.durable[id], s.clock, s.clock) == Ok(r)
    requires s2.durable == Put(s, r).durable && s' == RunQueued(s2, id, t, n)
    ensures Written(s.durable, s'.durable)
  {
    PutIsWritten(s, S.ClaimApproved(id, s.clock), r);
    assert id in s2.durable && s2.durable[id] == r;
    RunQueuedWrites(s2, id, t, n);
    WrittenTransitive(s.durable, s2.durable, s'.durable);
  }

  lemma ExecuteWrites(s: System, id: ActionId, t: Attempt, n: nat)
    requires Inv(s)
    ensures Written(s.durable, ExecuteCall(s, id, t, n).durable)
  {
    WrittenNothing(s.durable);
    if ExecuteCall(s, id, t, n) != s {
      T.GoodIsKeyed(s, id);
      ExecuteClaims(s, id, t, n);
      ClaimingWrites(s, id, t, n, ExecuteCall(s, id, t, n));
    }
  }

  lemma ClaimingWrites(s: System, id: ActionId, t: Attempt, n: nat, s': System)
    requires T.Keyed(s, id) && id in s.durable && Claim(s.durable[id], s.clock, s.clock).Ok?
    requires var r := Claim(s.durable[id], s.clock, s.clock).value;
             s' != Put(s, r) ==>
               && n > 1 && r.objective.Some?
               && s' == RunQueued(Prepare(Put(s, r), id, R.Find(s.memory.queue, id), Recovered(r)), id, t, n - 2)
    ensures Written(s.durable, s'.durable)
  {
    var r := Claim(s.durable[id], s.clock, s.clock).value;
    if s' == Put(s, r) {
      PutIsWritten(s, S.ClaimApproved(id, s.clock), r);
    } else {
      var s2 := Prepare(Put(s, r), id, R.Find(s.memory.queue, id), Recovered(r));
      PreparedMemory(Put(s, r), id, R.Find(s.memory.queue, id), Recovered(r));
      ClaimedRunWrites(s, id, r, s2, s', t, n - 2);
    }
  }

  lemma ReconcileWrites(s: System, id: ActionId, q: C.Request)
    requires Inv(s)
    ensures Written(s.durable, ReconcileCall(s, id, q).durable)
  {
    WrittenNothing(s.durable);
    if id in s.durable && C.Reconcile(s.durable[id], q, s.clock).Ok? {
      T.GoodIsKeyed(s, id);
      var version := S.Moment(s.durable[id].updated.value, 0);
      var call := if q.resolution.ReleaseIt? then S.ReleaseClaim(id, version, s.clock) else S.AbandonClaim(id, version, s.clock);
      PutIsWritten(s, call, C.Reconcile(s.durable[id], q, s.clock).value);
    }
  }

  lemma DisposeWrites(s: System, id: ActionId, report: DispositionReport, unmerged: bool, n: nat)
    requires Inv(s)
    ensures Written(s.durable, DisposeCall(s, id, report, unmerged, n).durable)
  {
    WrittenNothing(s.durable);
    if id in s.durable {
      T.GoodIsKeyed(s, id);
      var kept := DispositionReport(id, Keep, true, true, true);
      PutIsWritten(s, S.RecordDisposition(kept), RunRecord.Dispose(s.durable[id], kept, s.clock));
      var s1 := s.(worktrees := s.worktrees - {id});
      var outcome := report.(id := id);
      PutIsWritten(s, S.RecordDisposition(outcome), RunRecord.Dispose(s.durable[id], outcome, s.clock));
      PutIsWritten(s1, S.RecordDisposition(outcome), RunRecord.Dispose(s1.durable[id], outcome, s1.clock));
    }
  }

  lemma PromoteWrites(s: System, id: ActionId, p: Publication)
    requires Inv(s)
    ensures Written(s.durable, PromoteCall(s, id, p).durable)
  {
    WrittenNothing(s.durable);
    if id in s.durable {
      T.GoodIsKeyed(s, id);
      PutIsWritten(s, S.RecordPromotion(id, p, s.clock), RunRecord.Promote(s.durable[id], p, s.clock, s.clock));
    }
  }

  lemma PlanWrites(s: System, a: R.Action, permission: Permission)
    ensures PlanCall(s, a, permission).durable == s.durable
  {
  }

  /** What any step does to the records, a session of proper calls does. */
  lemma StepWrites(s: System, step: Step)
    requires Inv(s)
    ensures Written(s.durable, Apply(s, step).durable)
  {
    var n := Budget(FateOf(step));
    WrittenNothing(s.durable);
    match step {
      case Delegate(id, objective, target, routed, permission, _) =>
        DelegateWrites(s, id, objective, target, routed, permission, n);
      case Plan(a, permission) => PlanWrites(s, a, permission);
      case Approve(id, _) => ApproveWrites(s, id, n);
      case Reject(id, _) => RejectWrites(s, id, n);
      case Execute(id, t, _) => ExecuteWrites(s, id, t, n);
      case RunNext(t, _) => RunNextWrites(s, t, n);
      case Reconcile(id, q) => ReconcileWrites(s, id, q);
      case Dispose(id, report, unmerged, _) => DisposeWrites(s, id, report, unmerged, n);
      case Promote(id, p) => PromoteWrites(s, id, p);
      case Crash =>
    }
  }

  lemma {:induction false} RunWrites(s: System, steps: seq<Step>)
    requires Inv(s) && AdmissibleRun(s, steps)
    ensures Written(s.durable, Run(s, steps).durable)
    decreases |steps|
  {
    if steps == [] {
      WrittenNothing(s.durable);
    } else {
      var s' := Apply(s, steps[0]);
      StepWrites(s, steps[0]);
      StepKeepsInv(s, steps[0]);
      RunWrites(s', steps[1..]);
      WrittenTransitive(s.durable, s'.durable, Run(s', steps[1..]).durable);
    }
  }

  /**
   The records of every reachable state are what some session of proper calls leaves in the
   in-memory repository; the same session leaves exactly those records in an empty SQLite table
   and is answered alike throughout.
   */
  lemma SqliteHoldsEveryRun(s: System)
    requires T.Reachable(s)
    ensures exists calls ::
              && Session(map[], calls, s.durable)
              && Q.Holds(Q.RunSql(map[], calls).0, s.durable)
              && Q.SameAnswers(Q.RunSql(map[], calls).1, Q.RunMemory(map[], calls).1)
  {
    var maxRetries, steps :|
      AdmissibleRun(Initial(maxRetries), steps) && s == Run(Initial(maxRetries), steps);
    InitialGood(maxRetries);
    RunWrites(Initial(maxRetries), steps);
    var calls :| Session(map[], calls, s.durable);
    Q.SessionRefines(map[], map[], calls);
  }
}
