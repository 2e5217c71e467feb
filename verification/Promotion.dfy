/**
 Guarded promotion of a kept work product: commit, push, pull request, record. The sequence
 is a machine over an abstract git and pull-request state; it may stop after any sub-step and
 be started again, while the canonical checkout and the remote move on their own.
 */
module Promotion {
  import opened Common

  type ActionId = nat

  datatype Commit = Commit(nonce: nat, trailer: Option<ActionId>, parents: seq<Commit>)

  datatype PullRequest = PullRequest(number: int, url: string, base: string, head: string)

  datatype Record = Record(sha: Commit, number: int, url: string, base: string, head: string)

  /** Where a promotion call currently is; `Idle` between calls. */
  datatype Session =
    | Idle
    | Checked(head: Commit, dirty: bool)
    | Staged(head: Commit)
    | Committed(head: Commit, sha: Commit)
    | Ready(head: Commit, sha: Commit)
    | Pushed(sha: Commit)
    | OnRemote(sha: Commit)
    | Unlisted(sha: Commit)
    | Opened(sha: Commit)
    | Published(sha: Commit, pull: PullRequest)

  /** Fixed by configuration and the action: its id, its branch, the trusted base. */
  datatype Config = Config(action: ActionId, branch: string, base: string)

  datatype World = World(
    canonicalHead: Commit,
    canonicalBranch: string,
    canonicalClean: bool,
    remote: map<string, Commit>,
    worktreeHead: Commit,
    dirty: bool,
    pulls: seq<PullRequest>,
    recorded: Option<Record>,
    session: Session,
    made: seq<Commit>)

  datatype Step =
    // the promotion call
    | Begin
    | CreateOrRecover
    | MakeCommit(nonce: nat, leftovers: bool)
    | VerifyMade
    | Push(accepted: bool)
    | CheckRemote
    | List
    | Open(number: int, url: string)
    | Relist
    | WriteRecord
    | Stop
    // everyone else
    | MoveCanonical(head: Commit, branch: string, clean: bool)
    | MoveRemote(name: string, to: Option<Commit>)
    | EditWorktree
    | OpenForeign(pull: PullRequest)

  // ------------------------------------------------------------------------ git history

  function Ancestry(c: Commit): set<Commit>
    decreases c, 1
  {
    {c} + AncestryOf(c.parents)
  }

  function AncestryOf(ps: seq<Commit>): set<Commit>
    decreases ps, 0
  {
    if ps == [] then {} else Ancestry(ps[0]) + AncestryOf(ps[1..])
  }

  /** `git rev-list --count from..to` */
  function CountBetween(from: Commit, to: Commit): nat {
    |Ancestry(to) - Ancestry(from)|
  }

  function Depth(c: Commit): nat
    decreases c, 1
  {
    1 + DepthOf(c.parents)
  }

  function DepthOf(ps: seq<Commit>): nat
    decreases ps, 0
  {
    if ps == [] then 0
    else if Depth(ps[0]) > DepthOf(ps[1..]) then Depth(ps[0]) else DepthOf(ps[1..])
  }

  lemma {:induction false} AncestorsAreShallower(c: Commit, x: Commit)
    requires x in Ancestry(c)
    ensures Depth(x) <= Depth(c)
    decreases c, 1
  {
    if x != c {
      AncestorsOfAreShallower(c.parents, x);
    }
  }

  lemma {:induction false} AncestorsOfAreShallower(ps: seq<Commit>, x: Commit)
    requires x in AncestryOf(ps)
    ensures Depth(x) <= DepthOf(ps)
    decreases ps, 0
  {
    if x in Ancestry(ps[0]) {
      AncestorsAreShallower(ps[0], x);
    } else {
      AncestorsOfAreShallower(ps[1..], x);
    }
  }

  /** A commit on top of `head` is the one commit that `head` does not have. */
  lemma ChildCountsOne(head: Commit, c: Commit)
    requires c.parents == [head]
    ensures CountBetween(head, c) == 1
  {
    assert AncestryOf([head][1..]) == {};
    assert Ancestry(c) == {c} + Ancestry(head);
    assert DepthOf([head][1..]) == 0;
    assert Depth(c) == 1 + Depth(head);
    if c in Ancestry(head) {
      AncestorsAreShallower(head, c);
    }
    assert Ancestry(c) - Ancestry(head) == {c};
  }

  // ------------------------------------------------------------------------- the checks

  predicate VerifiedCommit(k: Config, w: World, head: Commit, sha: Commit) {
    && CountBetween(head, sha) == 1
    && sha.parents != []
    && sha.parents[0] == head
    && sha.trailer == Some(k.action)
    && w.worktreeHead == sha
    && !w.dirty
  }

  predicate ReadyToPromote(k: Config, w: World) {
    && w.canonicalClean
    && w.canonicalBranch == k.base
    && k.base in w.remote
    && w.remote[k.base] == w.canonicalHead
  }

  function Ours(k: Config, pulls: seq<PullRequest>): seq<PullRequest> {
    Filter(pulls, (p: PullRequest) => p.head == k.branch)
  }

  /** `_find`: none, the one pull request on the right base, or an error. */
  datatype Finding = Nothing | Found(pull: PullRequest) | Refused

  function Find(k: Config, w: World): Finding {
    var ours := Ours(k, w.pulls);
    if |ours| > 1 then Refused
    else if |ours| == 0 then Nothing
    else if ours[0].base != k.base then Refused
    else Found(ours[0])
  }

  // ------------------------------------------------------------------------- the machine

  function Act(k: Config, w: World, step: Step): World {
    match step
    case Begin =>
      if w.session.Idle? && w.recorded.None? && ReadyToPromote(k, w)
      then w.(session := Checked(w.canonicalHead, w.dirty)) else w
    case CreateOrRecover =>
      if !w.session.Checked? then w
      else
        var head, dirty := w.session.head, w.session.dirty;
        if w.worktreeHead != head then
          if !dirty && VerifiedCommit(k, w, head, w.worktreeHead)
          then w.(session := Ready(head, w.worktreeHead)) else w.(session := Idle)
        else if dirty then w.(session := Staged(head)) else w.(session := Idle)
    case MakeCommit(nonce, leftovers) =>
      if !w.session.Staged? then w
      else
        var c := Commit(nonce, Some(k.action), [w.worktreeHead]);
        w.(worktreeHead := c, dirty := leftovers, made := w.made + [c], session := Committed(w.session.head, c))
    case VerifyMade =>
      if !w.session.Committed? then w
      else if VerifiedCommit(k, w, w.session.head, w.session.sha)
      then w.(session := Ready(w.session.head, w.session.sha)) else w.(session := Idle)
    case Push(accepted) =>
      if !w.session.Ready? then w
      else if w.canonicalHead != w.session.head || !w.canonicalClean || !accepted then w.(session := Idle)
      else if k.branch in w.remote && w.remote[k.branch] !in Ancestry(w.worktreeHead) then w.(session := Idle)
      else w.(remote := w.remote[k.branch := w.worktreeHead], session := Pushed(w.session.sha))
    case CheckRemote =>
      if !w.session.Pushed? then w
      else if k.branch in w.remote && w.remote[k.branch] == w.session.sha
      then w.(session := OnRemote(w.session.sha)) else w.(session := Idle)
    case List =>
      if !w.session.OnRemote? then w
      else
        (match Find(k, w)
         case Refused => w.(session := Idle)
         case Found(p) => w.(session := Published(w.session.sha, p))
         case Nothing => w.(session := Unlisted(w.session.sha)))
    case Open(number, url) =>
      if !w.session.Unlisted? then w
      else w.(pulls := w.pulls + [PullRequest(number, url, k.base, k.branch)], session := Opened(w.session.sha))
    case Relist =>
      if !w.session.Opened? then w
      else
        (match Find(k, w)
         case Found(p) => w.(session := Published(w.session.sha, p))
         case _ => w.(session := Idle))
    case WriteRecord =>
      if !w.session.Published? then w
      else
        var p := w.session.pull;
        w.(recorded := Some(Record(w.session.sha, p.number, p.url, p.base, p.head)), session := Idle)
    case Stop => w.(session := Idle)
    case MoveCanonical(head, branch, clean) =>
      w.(canonicalHead := head, canonicalBranch := branch, canonicalClean := clean)
    case MoveRemote(name, to) =>
      w.(remote := if to.Some? then w.remote[name := to.value] else w.remote - {name})
    case EditWorktree => w.(dirty := true)
    case OpenForeign(p) => w.(pulls := w.pulls + [p])
  }

  function Run(k: Config, w: World, steps: seq<Step>): World
    decreases |steps|
  {
    if steps == [] then w else Run(k, Act(k, w, steps[0]), steps[1..])
  }

  /** A kept work product, before anything was promoted. */
  ghost predicate Fresh(k: Config, w: World, origin: Commit) {
    && w.worktreeHead == origin
    && origin.trailer != Some(k.action)
    && w.made == []
    && w.session.Idle?
    && w.recorded.None?
    && Ours(k, w.pulls) == []
  }

  /** Nobody else opens pull requests for the action's own branch. */
  predicate OthersKeepOut(k: Config, step: Step) {
    step.OpenForeign? ==> step.pull.head != k.branch
  }

  /** Canonical HEAD is the very commit of an earlier call, and the worktree holds new edits. */
  predicate Relapsed(w: World) {
    w.made != [] && w.canonicalHead == w.worktreeHead && w.dirty
  }

  /** A call that is begun here gets past its first checks. */
  predicate Promotes(k: Config, w: World) {
    w.session.Idle? && w.recorded.None? && ReadyToPromote(k, w)
  }

  /** The one situation no call may start in. The worktree may be edited at any time. */
  predicate Guarded(k: Config, w: World, step: Step) {
    step.Begin? && Promotes(k, w) ==> !Relapsed(w)
  }

  predicate Undisturbed(k: Config, w: World, steps: seq<Step>)
    decreases |steps|
  {
    steps != [] ==>
      && OthersKeepOut(k, steps[0])
      && Guarded(k, w, steps[0])
      && Undisturbed(k, Act(k, w, steps[0]), steps[1..])
  }

  // -------------------------------------------------------------------------- invariant

  ghost predicate SessionOk(k: Config, w: World, origin: Commit) {
    match w.session
    case Idle => true
    case Checked(head, dirty) => w.made != [] ==> !(head == w.made[0] && dirty)
    case Staged(head) => w.made == [] && head == origin
    case Committed(_, sha) => w.made == [sha]
    case Ready(_, sha) => w.made == [sha]
    case Pushed(sha) => w.made == [sha]
    case OnRemote(sha) => w.made == [sha]
    case Unlisted(sha) => w.made == [sha] && Ours(k, w.pulls) == []
    case Opened(sha) => w.made == [sha]
    case Published(sha, p) => w.made == [sha] && Ours(k, w.pulls) == [p] && p.base == k.base && p.head == k.branch
  }

  ghost predicate Inv(k: Config, w: World, origin: Commit) {
    && origin.trailer != Some(k.action)
    && |w.made| <= 1
    && (w.made == [] ==> w.worktreeHead == origin)
    && (w.made != [] ==>
          && w.worktreeHead == w.made[0]
          && w.made[0].parents == [origin]
          && w.made[0].trailer == Some(k.action))
    && |Ours(k, w.pulls)| <= 1
    && (w.recorded.Some? ==>
          var r := w.recorded.value;
          && w.session.Idle?
          && w.made == [r.sha]
          && Ours(k, w.pulls) == [PullRequest(r.number, r.url, r.base, r.head)]
          && r.base == k.base && r.head == k.branch)
    && SessionOk(k, w, origin)
  }

  lemma OursAppend(k: Config, pulls: seq<PullRequest>, p: PullRequest)
    ensures Ours(k, pulls + [p]) == if p.head == k.branch then Ours(k, pulls) + [p] else Ours(k, pulls)
  {
    FilterConcat(pulls, [p], (q: PullRequest) => q.head == k.branch);
    assert Ours(k, [p]) == if p.head == k.branch then [p] else [];
  }

  lemma {:induction false} OursAreOurs(k: Config, pulls: seq<PullRequest>)
    ensures forall p :: p in Ours(k, pulls) ==> p.head == k.branch
  {
    if pulls != [] {
      OursAreOurs(k, pulls[1..]);
    }
  }

  predicate IsGitStep(step: Step) {
    step.Begin? || step.CreateOrRecover? || step.MakeCommit? || step.VerifyMade? || step.Push? || step.CheckRemote?
  }

  lemma GitStepKeepsInv(k: Config, w: World, step: Step, origin: Commit)
    requires Inv(k, w, origin) && IsGitStep(step) && Guarded(k, w, step)
    ensures Inv(k, Act(k, w, step), origin)
  {
    if step.MakeCommit? {
      CommittingKeepsInv(k, w, step, origin);
    }
  }

  lemma CommittingKeepsInv(k: Config, w: World, step: Step, origin: Commit)
    requires Inv(k, w, origin) && step.MakeCommit?
    ensures Inv(k, Act(k, w, step), origin)
  {
    if w.session.Staged? {
      var w' := Act(k, w, step);
      assert w'.made == [w'.worktreeHead];
    }
  }

  lemma PullStepKeepsInv(k: Config, w: World, step: Step, origin: Commit)
    requires Inv(k, w, origin) && (step.List? || step.Open? || step.Relist? || step.WriteRecord? || step.Stop?)
    ensures Inv(k, Act(k, w, step), origin)
  {
    FindingIsOurs(k, w);
    if step.Open? {
      OursAppend(k, w.pulls, PullRequest(step.number, step.url, k.base, k.branch));
    }
  }

  lemma OtherStepKeepsInv(k: Config, w: World, step: Step, origin: Commit)
    requires Inv(k, w, origin) && OthersKeepOut(k, step) && Guarded(k, w, step)
    requires step.MoveCanonical? || step.MoveRemote? || step.EditWorktree? || step.OpenForeign?
    ensures Inv(k, Act(k, w, step), origin)
  {
    if step.OpenForeign? {
      OursAppend(k, w.pulls, step.pull);
    }
  }

  lemma ActKeepsInv(k: Config, w: World, step: Step, origin: Commit)
    requires Inv(k, w, origin) && OthersKeepOut(k, step) && Guarded(k, w, step)
    ensures Inv(k, Act(k, w, step), origin)
  {
    if IsGitStep(step) {
      GitStepKeepsInv(k, w, step, origin);
    } else if step.MoveCanonical? || step.MoveRemote? || step.EditWorktree? || step.OpenForeign? {
      OtherStepKeepsInv(k, w, step, origin);
    } else {
      PullStepKeepsInv(k, w, step, origin);
    }
  }

  lemma FindingIsOurs(k: Config, w: World)
    requires |Ours(k, w.pulls)| <= 1
    ensures Find(k, w).Found? ==> Ours(k, w.pulls) == [Find(k, w).pull]
    ensures Find(k, w).Found? ==> Find(k, w).pull.base == k.base && Find(k, w).pull.head == k.branch
    ensures Find(k, w).Nothing? <==> Ours(k, w.pulls) == []
  {
    OursAreOurs(k, w.pulls);
  }

  lemma {:induction false} RunKeepsInv(k: Config, w: World, steps: seq<Step>, origin: Commit)
    requires Inv(k, w, origin) && Undisturbed(k, w, steps)
    ensures Inv(k, Run(k, w, steps), origin)
    decreases |steps|
  {
    if steps != [] {
      ActKeepsInv(k, w, steps[0], origin);
      RunKeepsInv(k, Act(k, w, steps[0]), steps[1..], origin);
    }
  }

  // --------------------------------------------------------------------------- theorems

  /**
   However often promotion is retried, cut off after any sub-step, while canonical HEAD and the
   remote move: at most one commit and one pull request exist for the action, and whatever is
   recorded is exactly that pair.
   */
  lemma PromotionIsUnique(k: Config, w: World, steps: seq<Step>, origin: Commit)
    requires Fresh(k, w, origin) && Undisturbed(k, w, steps)
    ensures var end := Run(k, w, steps);
            && |end.made| <= 1
            && |Ours(k, end.pulls)| <= 1
            && (end.recorded.Some? ==>
                  && end.made == [end.recorded.value.sha]
                  && end.recorded.value.sha.parents == [origin]
                  && Ours(k, end.pulls) == [PullRequest(end.recorded.value.number, end.recorded.value.url, k.base, k.branch)])
  {
    RunKeepsInv(k, w, steps, origin);
  }

  /** Once recorded, nothing about the promotion changes any more. */
  lemma {:induction false} RecordIsFinal(k: Config, w: World, steps: seq<Step>, origin: Commit)
    requires Inv(k, w, origin) && w.recorded.Some? && Undisturbed(k, w, steps)
    ensures var end := Run(k, w, steps);
            && end.recorded == w.recorded && end.made == w.made && Ours(k, end.pulls) == Ours(k, w.pulls)
    decreases |steps|
  {
    if steps != [] {
      ActKeepsInv(k, w, steps[0], origin);
      if steps[0].OpenForeign? {
        OursAppend(k, w.pulls, steps[0].pull);
      }
      RecordIsFinal(k, Act(k, w, steps[0]), steps[1..], origin);
    }
  }

  /**
   With a commit already made, a call makes a second one exactly when it is started with
   canonical HEAD at that very commit and the worktree dirty again: the guard is tight.
   */
  lemma SecondCommitExactly(k: Config, w: World, nonce: nat, leftovers: bool)
    requires Promotes(k, w) && |w.made| == 1 && w.worktreeHead == w.made[0]
    ensures |WithCommit(k, w, nonce, leftovers).made| == 2 <==> Relapsed(w)
    ensures |WithCommit(k, w, nonce, leftovers).made| <= 2
  {
  }

  /** Cut off right after its commit, a first call leaves that commit and nothing else. */
  lemma CutOffAfterCommit(k: Config, w: World, origin: Commit, nonce: nat, leftovers: bool)
    requires Fresh(k, w, origin) && Promotes(k, w) && w.canonicalHead == origin && w.dirty
    ensures var c := Commit(nonce, Some(k.action), [origin]);
            Run(k, w, [Begin, CreateOrRecover, MakeCommit(nonce, leftovers), Stop])
            == w.(worktreeHead := c, dirty := leftovers, made := [c])
  {
    var c := Commit(nonce, Some(k.action), [origin]);
    RunSnoc(k, w, [], Begin);
    RunSnoc(k, w, [Begin], CreateOrRecover);
    RunSnoc(k, w, [Begin, CreateOrRecover], MakeCommit(nonce, leftovers));
    RunSnoc(k, w, [Begin, CreateOrRecover, MakeCommit(nonce, leftovers)], Stop);
    assert [] + [Begin] == [Begin] && [Begin] + [CreateOrRecover] == [Begin, CreateOrRecover];
    assert [Begin, CreateOrRecover] + [MakeCommit(nonce, leftovers)]
        == [Begin, CreateOrRecover, MakeCommit(nonce, leftovers)];
    assert [Begin, CreateOrRecover, MakeCommit(nonce, leftovers)] + [Stop]
        == [Begin, CreateOrRecover, MakeCommit(nonce, leftovers), Stop];
    assert [] + [c] == [c];
  }

  /**
   And it does happen, from a kept work product nobody has promoted yet: a first call is cut off
   after its commit, the base is fast-forwarded to that commit, somebody edits the worktree, and
   the next call commits again.
   */
  lemma SecondCommitHappens(k: Config, w: World, origin: Commit, first: nat, second: nat, leftovers: bool)
    requires Fresh(k, w, origin) && Promotes(k, w) && w.canonicalHead == origin && w.dirty
    ensures var c := Commit(first, Some(k.action), [origin]);
            var cut := Run(k, w, [Begin, CreateOrRecover, MakeCommit(first, leftovers), Stop]);
            var moved := Run(k, cut, [EditWorktree, MoveCanonical(c, k.base, true), MoveRemote(k.base, Some(c))]);
            Promotes(k, moved) && |WithCommit(k, moved, second, leftovers).made| == 2
  {
    var c := Commit(first, Some(k.action), [origin]);
    CutOffAfterCommit(k, w, origin, first, leftovers);
    var cut := w.(worktreeHead := c, dirty := leftovers, made := [c]);
    Relapse(k, cut, c);
    var moved := Run(k, cut, [EditWorktree, MoveCanonical(c, k.base, true), MoveRemote(k.base, Some(c))]);
    SecondCommitExactly(k, moved, second, leftovers);
  }

  lemma Relapse(k: Config, w: World, c: Commit)
    ensures Run(k, w, [EditWorktree, MoveCanonical(c, k.base, true), MoveRemote(k.base, Some(c))])
            == w.(dirty := true, canonicalHead := c, canonicalBranch := k.base, canonicalClean := true,
                  remote := w.remote[k.base := c])
  {
    var last := [MoveRemote(k.base, Some(c))];
    RunSnoc(k, w, [], EditWorktree);
    RunSnoc(k, w, [EditWorktree], MoveCanonical(c, k.base, true));
    RunSnoc(k, w, [EditWorktree, MoveCanonical(c, k.base, true)], MoveRemote(k.base, Some(c)));
    assert [] + [EditWorktree] == [EditWorktree];
    assert [EditWorktree] + [MoveCanonical(c, k.base, true)] == [EditWorktree, MoveCanonical(c, k.base, true)];
    assert [EditWorktree, MoveCanonical(c, k.base, true)] + last
        == [EditWorktree, MoveCanonical(c, k.base, true), MoveRemote(k.base, Some(c))];
  }

  // --------------------------------------------------------------------------- recovery

  /** A call that is not interrupted: create or recover the commit, then publish, then record. */
  function WithCommit(k: Config, w: World, nonce: nat, leftovers: bool): World {
    CommitPart(k, Act(k, w, Begin), nonce, leftovers)
  }

  function CommitPart(k: Config, w: World, nonce: nat, leftovers: bool): World {
    Act(k, Act(k, Act(k, w, CreateOrRecover), MakeCommit(nonce, leftovers)), VerifyMade)
  }

  function WithRemote(k: Config, w: World, accepted: bool): World {
    Act(k, Act(k, w, Push(accepted)), CheckRemote)
  }

  function WithPull(k: Config, w: World, number: int, url: string): World {
    Act(k, Act(k, Act(k, w, List), Open(number, url)), Relist)
  }

  function Publishing(k: Config, w: World, accepted: bool, number: int, url: string): World {
    Act(k, WithPull(k, WithRemote(k, w, accepted), number, url), WriteRecord)
  }

  /** The commit part ends ready or stopped; with nothing staged, nothing is committed. */
  lemma CommitPartEnds(k: Config, w: World, nonce: nat, leftovers: bool)
    requires w.session.Checked?
    ensures var w1, w' := Act(k, w, CreateOrRecover), CommitPart(k, w, nonce, leftovers);
            && (!w1.session.Staged? ==> w' == w1)
            && (w'.session.Ready? || w'.session.Idle?)
            && w'.recorded == w.recorded
  {
    CheckEnds(k, w);
    var w1 := Act(k, w, CreateOrRecover);
    if w1.session.Staged? {
      VerificationEnds(k, Act(k, w1, MakeCommit(nonce, leftovers)));
    }
  }

  /** Publishing ends published or stopped; what is listed is not opened again. */
  lemma PullPartEnds(k: Config, w: World, number: int, url: string)
    requires w.session.OnRemote?
    ensures var w1, w' := Act(k, w, List), WithPull(k, w, number, url);
            && (!w1.session.Unlisted? ==> w' == w1)
            && (w'.session.Published? || w'.session.Idle?)
            && w'.recorded == w.recorded
  {
    ListingEnds(k, w);
    var w1 := Act(k, w, List);
    if w1.session.Unlisted? {
      RelistingEnds(k, Act(k, w1, Open(number, url)));
    }
  }

  lemma ListingEnds(k: Config, w: World)
    requires w.session.OnRemote?
    ensures var w' := Act(k, w, List);
            (w'.session.Unlisted? || w'.session.Published? || w'.session.Idle?) && w'.recorded == w.recorded
  {
  }

  lemma RelistingEnds(k: Config, w: World)
    requires w.session.Opened?
    ensures var w' := Act(k, w, Relist);
            (w'.session.Published? || w'.session.Idle?) && w'.recorded == w.recorded
  {
  }

  lemma CheckEnds(k: Config, w: World)
    requires w.session.Checked?
    ensures var w' := Act(k, w, CreateOrRecover);
            (w'.session.Staged? || w'.session.Ready? || w'.session.Idle?) && w'.recorded == w.recorded
  {
  }

  lemma VerificationEnds(k: Config, w: World)
    requires w.session.Committed?
    ensures var w' := Act(k, w, VerifyMade);
            (w'.session.Ready? || w'.session.Idle?) && w'.recorded == w.recorded
  {
  }

  /** What the outside world answers to one call. */
  datatype Luck = Luck(nonce: nat, leftovers: bool, accepted: bool, number: int, url: string)

  function WholeCall(k: Config, w: World, luck: Luck): World {
    Publishing(k, WithCommit(k, w, luck.nonce, luck.leftovers), luck.accepted, luck.number, luck.url)
  }

  /** A call that has come to a stop does nothing more. */
  lemma StoppedCallRests(k: Config, w: World, accepted: bool, number: int, url: string)
    requires w.session.Idle?
    ensures Publishing(k, w, accepted, number, url) == w
  {
  }

  /**
   If canonical HEAD is no longer where the work product started, a whole call changes nothing,
   unless it starts in the one relapsed situation.
   */
  lemma MovedHeadIsRefused(k: Config, w: World, origin: Commit, luck: Luck)
    requires Inv(k, w, origin) && w.session.Idle? && w.recorded.None? && w.canonicalHead != origin
    ensures WholeCall(k, w, luck) == w <==> !(Promotes(k, w) && Relapsed(w))
  {
    if Promotes(k, w) && Relapsed(w) {
      SecondCommitExactly(k, w, luck.nonce, luck.leftovers);
      PublishingKeepsCommits(k, WithCommit(k, w, luck.nonce, luck.leftovers), luck.accepted, luck.number, luck.url);
    } else {
      MovedHeadStops(k, w, origin, luck.nonce, luck.leftovers);
      StoppedCallRests(k, w, luck.accepted, luck.number, luck.url);
    }
  }

  lemma MovedHeadStops(k: Config, w: World, origin: Commit, nonce: nat, leftovers: bool)
    requires Inv(k, w, origin) && w.session.Idle? && w.recorded.None? && w.canonicalHead != origin
    requires !(Promotes(k, w) && Relapsed(w))
    ensures WithCommit(k, w, nonce, leftovers) == w
  {
    if Promotes(k, w) {
      var w1 := Act(k, w, Begin);
      assert Act(k, w1, CreateOrRecover) == w;
    }
  }

  lemma PublishingKeepsCommits(k: Config, w: World, accepted: bool, number: int, url: string)
    ensures Publishing(k, w, accepted, number, url).made == w.made
  {
    OnlyCommittingCommits(k, w, Push(accepted));
    var w1 := Act(k, w, Push(accepted));
    OnlyCommittingCommits(k, w1, CheckRemote);
    var w2 := WithRemote(k, w, accepted);
    OnlyCommittingCommits(k, w2, List);
    OnlyCommittingCommits(k, Act(k, w2, List), Open(number, url));
    OnlyCommittingCommits(k, Act(k, Act(k, w2, List), Open(number, url)), Relist);
    OnlyCommittingCommits(k, WithPull(k, w2, number, url), WriteRecord);
  }

  lemma OnlyCommittingCommits(k: Config, w: World, step: Step)
    requires !step.MakeCommit?
    ensures Act(k, w, step).made == w.made
  {
  }

  /** If canonical HEAD moves, or its checkout gets dirty, before the push, nothing is published. */
  lemma MovedBeforePush(k: Config, w: World, accepted: bool, number: int, url: string)
    requires w.session.Ready? && (w.canonicalHead != w.session.head || !w.canonicalClean)
    ensures Publishing(k, w, accepted, number, url) == w.(session := Idle)
  {
    assert WithRemote(k, w, accepted) == w.(session := Idle);
  }

  /** The canonical checkout is clean, on the trusted base, and level with the remote base. */
  predicate LevelWithRemote(k: Config, w: World) {
    w.canonicalBranch == k.base && w.canonicalClean && Get(w.remote, k.base) == Some(w.canonicalHead)
  }

  /** Anywhere else a call changes nothing at all. */
  lemma UnreadyCallRests(k: Config, w: World, luck: Luck)
    requires w.session.Idle? && w.recorded.None? && !LevelWithRemote(k, w)
    ensures WholeCall(k, w, luck) == w
  {
    StoppedCallRests(k, w, luck.accepted, luck.number, luck.url);
  }

  /** A commit this action may have made on top of `head`, and nothing on top of it. */
  predicate OwnCommit(k: Config, w: World, head: Commit) {
    && w.worktreeHead.parents != [] && w.worktreeHead.parents[0] == head
    && |Ancestry(w.worktreeHead) - Ancestry(head)| == 1
    && w.worktreeHead.trailer == Some(k.action) && !w.dirty
  }

  /**
   What a call makes of the worktree it finds: changes on canonical HEAD are staged, a clean
   worktree one own commit ahead is taken up, and everything else is refused.
   */
  lemma RecoversExactly(k: Config, w: World)
    requires w.session.Checked?
    ensures var head, dirty := w.session.head, w.session.dirty;
            Act(k, w, CreateOrRecover) == w.(session :=
              if w.worktreeHead == head then (if dirty then Staged(head) else Idle)
              else if !dirty && OwnCommit(k, w, head) then Ready(head, w.worktreeHead)
              else Idle)
  {
  }

  /** A commit carries the action's name on top of the worktree's head, and counts only if it checks out. */
  lemma CommitsExactly(k: Config, w: World, nonce: nat, leftovers: bool)
    requires w.session.Staged?
    ensures var c := Commit(nonce, Some(k.action), [w.worktreeHead]);
            var w1 := Act(k, w, MakeCommit(nonce, leftovers));
            && w1 == w.(worktreeHead := c, dirty := leftovers, made := w.made + [c], session := Committed(w.session.head, c))
            && Act(k, w1, VerifyMade).session ==
               (if w.worktreeHead == w.session.head && !leftovers then Ready(w.session.head, c) else Idle)
  {
    ChildCountsOne(w.worktreeHead, Commit(nonce, Some(k.action), [w.worktreeHead]));
  }

  /** A commit just made is believed only if it is still the worktree's head, the action's own and left nothing behind. */
  lemma VerifiesExactly(k: Config, w: World)
    requires w.session.Committed?
    ensures Act(k, w, VerifyMade) == w.(session :=
              if w.worktreeHead == w.session.sha && OwnCommit(k, w, w.session.head)
              then Ready(w.session.head, w.session.sha) else Idle)
  {
  }

  /** A push goes through only while nothing moved and only forward, and is believed only when seen. */
  lemma PushesExactly(k: Config, w: World, accepted: bool)
    requires w.session.Ready?
    ensures var w1 := Act(k, w, Push(accepted));
            && (w1.session.Pushed? <==>
                  && w.canonicalHead == w.session.head && w.canonicalClean && accepted
                  && (k.branch in w.remote ==> w.remote[k.branch] in Ancestry(w.worktreeHead)))
            && (w1.session.Pushed? ==>
                  w1 == w.(remote := w.remote[k.branch := w.worktreeHead], session := Pushed(w.session.sha)))
            && (!w1.session.Pushed? ==> w1 == w.(session := Idle))
  {
  }

  lemma ChecksRemoteExactly(k: Config, w: World)
    requires w.session.Pushed?
    ensures Act(k, w, CheckRemote) == w.(session :=
              if Get(w.remote, k.branch) == Some(w.session.sha) then OnRemote(w.session.sha) else Idle)
  {
  }

  /** One pull request of the branch on the trusted base is found, none is created again, anything else refused. */
  lemma ListsExactly(k: Config, w: World, number: int, url: string)
    requires w.session.OnRemote?
    ensures var ours := Ours(k, w.pulls);
            Act(k, w, List) == w.(session :=
              if ours == [] then Unlisted(w.session.sha)
              else if |ours| == 1 && ours[0].base == k.base then Published(w.session.sha, ours[0])
              else Idle)
    ensures Act(k, w.(session := Unlisted(w.session.sha)), Open(number, url)) ==
            w.(pulls := w.pulls + [PullRequest(number, url, k.base, k.branch)], session := Opened(w.session.sha))
    ensures var ours := Ours(k, w.pulls);
            Act(k, w.(session := Opened(w.session.sha)), Relist).session ==
            if |ours| == 1 && ours[0].base == k.base then Published(w.session.sha, ours[0]) else Idle
  {
  }

  /** There is something to promote: uncommitted work, or the commit of an earlier call and nothing else. */
  predicate OneOrTheOther(w: World) {
    w.dirty <==> w.made == []
  }

  lemma CommitRecovers(k: Config, w: World, origin: Commit, nonce: nat)
    requires Inv(k, w, origin) && Promotes(k, w) && w.canonicalHead == origin && OneOrTheOther(w)
    ensures var w' := WithCommit(k, w, nonce, false);
            && w'.session.Ready? && w'.session.head == origin && w'.made == [w'.session.sha]
            && w' == w.(session := w'.session, made := w'.made, worktreeHead := w'.session.sha, dirty := false)
            && (w.made != [] ==> w'.made == w.made)
            && w'.session.sha.parents == [origin]
  {
    if w.made == [] {
      var c := Commit(nonce, Some(k.action), [origin]);
      ChildCountsOne(origin, c);
      assert [] + [c] == [c];
    } else {
      ChildCountsOne(origin, w.made[0]);
    }
  }

  /** Neither, or both: the call refuses before it commits anything. */
  lemma CommitRefused(k: Config, w: World, origin: Commit, nonce: nat, leftovers: bool)
    requires Inv(k, w, origin) && Promotes(k, w) && w.canonicalHead == origin && !OneOrTheOther(w)
    ensures WithCommit(k, w, nonce, leftovers) == w
  {
    var w1 := Act(k, w, Begin);
    assert w.made != [] ==> w.made[0] != origin;
    assert Act(k, w1, CreateOrRecover) == w;
  }

  /** The branch is free, or holds the base or the commit of an earlier call, and so do its pull requests. */
  predicate BranchIsOurs(k: Config, w: World, origin: Commit) {
    && (k.branch in w.remote ==>
          w.remote[k.branch] == origin || (w.made != [] && w.remote[k.branch] == w.made[0]))
    && (forall p :: p in Ours(k, w.pulls) ==> p.base == k.base)
  }

  /**
   Whatever sub-step the previous attempts died after, an undisturbed retry from where the work
   started finishes exactly when there is either uncommitted work or an earlier commit, not both:
   it makes the commit only if there is none, opens a pull request only if there is none, and
   records the pair. Otherwise it changes nothing.
   */
  lemma RetryCompletes(k: Config, w: World, origin: Commit, nonce: nat, number: int, url: string)
    requires Inv(k, w, origin) && Promotes(k, w) && w.canonicalHead == origin && BranchIsOurs(k, w, origin)
    ensures var end := WholeCall(k, w, Luck(nonce, false, true, number, url));
            && (end.recorded.Some? <==> OneOrTheOther(w))
            && (!OneOrTheOther(w) ==> end == w)
            && (OneOrTheOther(w) ==>
                  && end.made == [end.recorded.value.sha]
                  && (w.made != [] ==> end.made == w.made)
                  && (Ours(k, w.pulls) != [] ==> end.pulls == w.pulls)
                  && Ours(k, end.pulls) ==
                     [PullRequest(end.recorded.value.number, end.recorded.value.url, k.base, k.branch)])
  {
    if OneOrTheOther(w) {
      CommitRecovers(k, w, origin, nonce);
      var w1 := WithCommit(k, w, nonce, false);
      RemoteRecovers(k, w1, origin);
      var w2 := WithRemote(k, w1, true);
      PullRecovers(k, w2, w1.session.sha, number, url);
      Recording(k, WithPull(k, w2, number, url));
    } else {
      CommitRefused(k, w, origin, nonce, false);
      StoppedCallRests(k, w, true, number, url);
    }
  }

  lemma RemoteRecovers(k: Config, w: World, origin: Commit)
    requires w.session.Ready? && w.session.sha.parents == [origin] && w.worktreeHead == w.session.sha
    requires w.canonicalHead == w.session.head && w.canonicalClean
    requires k.branch in w.remote ==> w.remote[k.branch] == origin || w.remote[k.branch] == w.session.sha
    ensures var w' := WithRemote(k, w, true);
            w'.session == OnRemote(w.session.sha) && w' == w.(session := w'.session, remote := w'.remote)
  {
    var sha := w.session.sha;
    assert origin in Ancestry(sha) by {
      assert Ancestry(sha.parents[0]) <= AncestryOf(sha.parents);
    }
    var w1 := Act(k, w, Push(true));
    assert w1.session == Pushed(sha) && w1.remote[k.branch] == sha;
  }

  lemma Recording(k: Config, w: World)
    requires w.session.Published? && w.recorded.None?
    ensures var w' := Act(k, w, WriteRecord);
            var p := w.session.pull;
            w' == w.(session := Idle, recorded := Some(Record(w.session.sha, p.number, p.url, p.base, p.head)))
  {
  }

  lemma PullRecovers(k: Config, w: World, sha: Commit, number: int, url: string)
    requires w.session == OnRemote(sha) && |Ours(k, w.pulls)| <= 1
    requires forall p :: p in Ours(k, w.pulls) ==> p.base == k.base
    ensures var w' := WithPull(k, w, number, url);
            && w'.session.Published? && w'.session.sha == sha
            && w' == w.(session := w'.session, pulls := w'.pulls)
            && (Ours(k, w.pulls) != [] ==> w'.pulls == w.pulls)
            && Ours(k, w'.pulls) == [w'.session.pull]
            && w'.session.pull.base == k.base && w'.session.pull.head == k.branch
  {
    FindingIsOurs(k, w);
    OursAreOurs(k, w.pulls);
    var p := PullRequest(number, url, k.base, k.branch);
    OursAppend(k, w.pulls, p);
    if Ours(k, w.pulls) == [] {
      assert [] + [p] == [p];
      var w1 := w.(pulls := w.pulls + [p], session := Opened(sha));
      FindingIsOurs(k, w1);
    }
  }

  // ---------------------------------------------------------------------------- service

  datatype PromotionError = NotReady | NotPromotable | PushFailed | PublicationFailed

  /** The promotion service over the repository and the pull-request host it acts on. */
  class PromotionService {
    const config: Config
    var world: World

    constructor (config: Config, world: World)
      requires world.session.Idle?
      ensures this.config == config && this.world == world
    {
      this.config := config;
      this.world := world;
    }

    /** One step of a call that began in `w0` and has done `done` so far. */
    method Take(step: Step, ghost w0: World, ghost done: seq<Step>) returns (ghost done': seq<Step>)
      requires world == Run(config, w0, done) && OwnSteps(done) && IsOwnStep(step)
      modifies this
      ensures world == Act(config, old(world), step)
      ensures world == Run(config, w0, done') && OwnSteps(done')
    {
      RunSnoc(config, w0, done, step);
      world := Act(config, world, step);
      done' := done + [step];
    }

    /**
     Promote: the recorded identity again if there is one, otherwise check, commit or recover,
     push, publish and record. Every call is a run of the machine made of its own steps, ends
     where an uninterrupted call ends, and succeeds exactly when the identity is on record.
     */
    method Promote(luck: Luck) returns (result: Result<Record, PromotionError>, ghost done: seq<Step>)
      requires world.session.Idle?
      modifies this
      ensures world == Run(config, old(world), done) && OwnSteps(done) && world.session.Idle?
      ensures world == WholeCall(config, old(world), luck)
      ensures result.Ok? <==> world.recorded.Some?
      ensures result.Ok? ==> world.recorded == Some(result.value)
      ensures old(world).recorded.Some? ==> result == Ok(old(world).recorded.value) && world == old(world)
      ensures forall origin :: Completable(config, old(world), origin) && luck.accepted && !luck.leftovers ==> result.Ok?
      ensures old(world).recorded.None? && !LevelWithRemote(config, old(world)) ==> result.Err? && world == old(world)
    {
      if world.recorded.None? && !LevelWithRemote(config, world) {
        UnreadyCallRests(config, world, luck);
      }
      forall origin | Completable(config, world, origin) && luck.accepted && !luck.leftovers
        ensures WholeCall(config, world, luck).recorded.Some?
      {
        RetryCompletes(config, world, origin, luck.nonce, luck.number, luck.url);
      }
      done := [];
      StoppedCallRests(config, world, luck.accepted, luck.number, luck.url);
      if world.recorded.Some? {
        return Ok(world.recorded.value), done;
      }
      if !ReadyToPromote(config, world) {
        return Err(NotReady), done;
      }
      ghost var w0 := world;
      done := Take(Begin, w0, done);
      var committed: bool;
      committed, done := CommitOrRecover(luck, w0, done);
      if !committed {
        StoppedCallRests(config, world, luck.accepted, luck.number, luck.url);
        return Err(NotPromotable), done;
      }
      result, done := Publicise(luck, w0, done);
    }

    method CommitOrRecover(luck: Luck, ghost w0: World, ghost done: seq<Step>)
      returns (ok: bool, ghost done': seq<Step>)
      requires world == Run(config, w0, done) && world.session.Checked? && OwnSteps(done)
      modifies this
      ensures world == Run(config, w0, done') && OwnSteps(done')
      ensures world == CommitPart(config, old(world), luck.nonce, luck.leftovers)
      ensures world.recorded == old(world).recorded
      ensures if ok then world.session.Ready? else world.session.Idle?
    {
      done' := Take(CreateOrRecover, w0, done);
      CommitPartEnds(config, old(world), luck.nonce, luck.leftovers);
      if world.session.Staged? {
        done' := Take(MakeCommit(luck.nonce, luck.leftovers), w0, done');
        done' := Take(VerifyMade, w0, done');
      }
      assert world == CommitPart(config, old(world), luck.nonce, luck.leftovers);
      ok := world.session.Ready?;
    }

    /** Push, find or open the pull request, record. */
    method Publicise(luck: Luck, ghost w0: World, ghost done: seq<Step>)
      returns (result: Result<Record, PromotionError>, ghost done': seq<Step>)
      requires world == Run(config, w0, done) && world.session.Ready? && world.recorded.None? && OwnSteps(done)
      modifies this
      ensures world == Run(config, w0, done') && OwnSteps(done') && world.session.Idle?
      ensures world == Publishing(config, old(world), luck.accepted, luck.number, luck.url)
      ensures result.Ok? <==> world.recorded.Some?
      ensures result.Ok? ==> world.recorded == Some(result.value)
    {
      var pushed: bool;
      pushed, done' := PushBranch(luck.accepted, w0, done);
      if !pushed {
        return Err(PushFailed), done';
      }
      var published: bool;
      published, done' := Publish(luck.number, luck.url, w0, done');
      if !published {
        return Err(PublicationFailed), done';
      }
      done' := Take(WriteRecord, w0, done');
      result := Ok(world.recorded.value);
    }

    method PushBranch(accepted: bool, ghost w0: World, ghost done: seq<Step>)
      returns (ok: bool, ghost done': seq<Step>)
      requires world == Run(config, w0, done) && world.session.Ready? && OwnSteps(done)
      modifies this
      ensures world == Run(config, w0, done') && OwnSteps(done')
      ensures world == WithRemote(config, old(world), accepted)
      ensures world.recorded == old(world).recorded
      ensures if ok then world.session.OnRemote? else world.session.Idle?
    {
      done' := Take(Push(accepted), w0, done);
      if world.session.Pushed? {
        done' := Take(CheckRemote, w0, done');
      }
      ok := world.session.OnRemote?;
    }

    method Publish(number: int, url: string, ghost w0: World, ghost done: seq<Step>)
      returns (ok: bool, ghost done': seq<Step>)
      requires world == Run(config, w0, done) && world.session.OnRemote? && OwnSteps(done)
      modifies this
      ensures world == Run(config, w0, done') && OwnSteps(done')
      ensures world == WithPull(config, old(world), number, url)
      ensures world.recorded == old(world).recorded
      ensures if ok then world.session.Published? else world.session.Idle?
    {
      done' := Take(List, w0, done);
      PullPartEnds(config, old(world), number, url);
      if world.session.Unlisted? {
        done' := Take(Open(number, url), w0, done');
        done' := Take(Relist, w0, done');
      }
      assert world == WithPull(config, old(world), number, url);
      ok := world.session.Published?;
    }
  }

  /** The situations in which a retry completes. */
  ghost predicate Completable(k: Config, w: World, origin: Commit) {
    && Inv(k, w, origin)
    && Promotes(k, w)
    && w.canonicalHead == origin
    && BranchIsOurs(k, w, origin)
    && OneOrTheOther(w)
  }

  /** Steps a promotion call takes itself. */
  predicate IsOwnStep(step: Step) {
    !step.MoveCanonical? && !step.MoveRemote? && !step.EditWorktree? && !step.OpenForeign?
  }

  predicate OwnSteps(steps: seq<Step>) {
    forall step :: step in steps ==> IsOwnStep(step)
  }

  lemma {:induction false} RunSnoc(k: Config, w: World, steps: seq<Step>, step: Step)
    ensures Run(k, w, steps + [step]) == Act(k, Run(k, w, steps), step)
    decreases |steps|
  {
    if steps == [] {
      assert [] + [step] == [step];
      assert [step][1..] == [];
    } else {
      assert (steps + [step])[1..] == steps[1..] + [step];
      RunSnoc(k, Act(k, w, steps[0]), steps[1..], step);
    }
  }
}
