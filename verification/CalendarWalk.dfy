/**
 * Following continuation tokens from the first page until a page carries none: the
 * unbounded walk over a page source, and what a bounded aggregation may say of it.
 */
module CalendarWalk {
  import opened Common

  /** One page of a listing, or none because the request failed. */
  datatype Page<E> = Bad | Good(events: seq<E>, skipped: nat, next: Option<string>)

  /** A deterministic page source: the token (none for page one) decides the page. */
  type Source<!E> = Option<string> -> Page<E>

  // ----- The unbounded walk -----

  /** Where the walk stands: about to request a page, past the last one, or stuck. */
  datatype Cursor = At(token: Option<string>) | Ended | Broken

  function Advance<E>(source: Source<E>, c: Cursor): Cursor {
    if !c.At? then c
    else
      match source(c.token)
      case Bad => Broken
      case Good(_, _, next) => if next.None? then Ended else At(next)
  }

  /** The walk's position after `n` steps. */
  function Walk<E>(source: Source<E>, n: nat): Cursor {
    if n == 0 then At(None) else Advance(source, Walk(source, n - 1))
  }

  /** What pages hold together: their events in order, and how many items were skipped. */
  datatype Haul<E> = Haul(events: seq<E>, skipped: nat)

  /** What the first `n` pages of the walk hold, if the walk has that many. */
  function Gathered<E>(source: Source<E>, n: nat): Option<Haul<E>> {
    if n == 0 then Some(Haul([], 0))
    else
      var before := Gathered(source, n - 1);
      var c := Walk(source, n - 1);
      if before.None? || !c.At? || source(c.token).Bad? then None
      else Some(AddPage(before.value, source(c.token)))
  }

  function AddPage<E>(h: Haul<E>, page: Page<E>): Haul<E>
    requires page.Good?
  {
    Haul(h.events + page.events, h.skipped + page.skipped)
  }

  /** The first `n` positions of the walk. */
  function Trail<E>(source: Source<E>, n: nat): seq<Cursor> {
    if n == 0 then [] else Trail(source, n - 1) + [Walk(source, n - 1)]
  }

  /** No position of a trail comes back: all its requests use different tokens. */
  predicate Distinct(trail: seq<Cursor>) {
    trail == [] || (Distinct(trail[..|trail| - 1]) && trail[|trail| - 1] !in trail[..|trail| - 1])
  }

  /** The tokens requested along a trail. */
  function TokensOn(trail: seq<Cursor>): set<string> {
    if trail == [] then {}
    else
      var last := trail[|trail| - 1];
      TokensOn(trail[..|trail| - 1]) + if last.At? && last.token.Some? then {last.token.value} else {}
  }

  // ----- Facts about trails -----

  lemma {:induction false} TrailLength<E>(source: Source<E>, n: nat)
    ensures |Trail(source, n)| == n
  {
    if n > 0 {
      TrailLength(source, n - 1);
    }
  }

  lemma {:induction false} TrailAt<E>(source: Source<E>, n: nat, k: nat)
    requires k < n
    ensures |Trail(source, n)| == n && Trail(source, n)[k] == Walk(source, k)
  {
    TrailLength(source, n);
    if k < n - 1 {
      TrailAt(source, n - 1, k);
    }
  }

  /** Distinct, read position by position. */
  lemma {:induction false} DistinctExactly(trail: seq<Cursor>)
    ensures Distinct(trail) <==> forall i, j :: 0 <= i < j < |trail| ==> trail[i] != trail[j]
  {
    if trail != [] {
      var rest := trail[..|trail| - 1];
      DistinctExactly(rest);
      if Distinct(rest) && trail[|trail| - 1] in rest {
        var k :| 0 <= k < |rest| && rest[k] == trail[|trail| - 1];
        assert trail[k] == trail[|trail| - 1];
      }
    }
  }

  lemma {:induction false} TokensOnExactly(trail: seq<Cursor>, t: string)
    ensures t in TokensOn(trail) <==> At(Some(t)) in trail
  {
    if trail != [] {
      var k := |trail| - 1;
      TokensOnExactly(trail[..k], t);
      assert trail == trail[..k] + [trail[k]];
    }
  }

  lemma TrailExtends(trail: seq<Cursor>, token: string)
    requires Distinct(trail) && token !in TokensOn(trail)
    ensures TokensOn(trail + [At(Some(token))]) == TokensOn(trail) + {token}
    ensures Distinct(trail + [At(Some(token))])
  {
    TokensOnExactly(trail, token);
    assert (trail + [At(Some(token))])[..|trail|] == trail;
  }

  // ----- Facts about the walk -----

  /** A walk that has stopped stays where it is. */
  lemma {:induction false} StoppedStays<E>(source: Source<E>, i: nat, j: nat)
    requires i <= j
    ensures !Walk(source, i).At? ==> Walk(source, j) == Walk(source, i)
    decreases j - i
  {
    if i < j {
      StoppedStays(source, i, j - 1);
    }
  }

  /** Ending or breaking within `limit` steps is standing there after `limit` steps. */
  lemma StandsWhereItStopped<E>(source: Source<E>, limit: nat, how: Cursor)
    requires !how.At?
    ensures Walk(source, limit) == how <==> exists n :: 0 <= n <= limit && Walk(source, n) == how
  {
    forall n | 0 <= n <= limit && Walk(source, n) == how
      ensures Walk(source, limit) == how
    {
      StoppedStays(source, n, limit);
    }
  }

  /** Walks that stand at the same place stay together. */
  lemma {:induction false} SamePlaceSameFuture<E>(source: Source<E>, i: nat, j: nat, m: nat, n: nat)
    requires Walk(source, i) == Walk(source, j)
    requires i <= m && n - j == m - i
    ensures Walk(source, m) == Walk(source, n)
    decreases m
  {
    if i < m {
      SamePlaceSameFuture(source, i, j, m - 1, n - 1);
    }
  }

  /** A walk that comes back to a token it has used goes round for ever. */
  lemma {:induction false} RepeatedTokenNeverEnds<E>(source: Source<E>, i: nat, j: nat, n: nat)
    requires i < j
    requires Walk(source, i) == Walk(source, j) && Walk(source, j).At?
    ensures Walk(source, n).At?
  {
    if n <= j {
      StoppedStays(source, n, j);
    } else {
      var m := n - (j - i);
      SamePlaceSameFuture(source, i, j, m, n);
      RepeatedTokenNeverEnds(source, i, j, m);
    }
  }

  /** A token on the trail comes up again: the walk goes on for ever. */
  lemma Repeats<E>(source: Source<E>, n: nat, token: string, limit: nat)
    requires token in TokensOn(Trail(source, n))
    requires Walk(source, n) == At(Some(token)) && n < limit
    ensures !Distinct(Trail(source, limit)) && Walk(source, limit).At?
  {
    var trail := Trail(source, n);
    TokensOnExactly(trail, token);
    var k :| 0 <= k < |trail| && trail[k] == At(Some(token));
    TrailLength(source, n);
    TrailAt(source, n, k);
    RepeatedTokenNeverEnds(source, k, n, limit);
    TrailAt(source, limit, k);
    TrailAt(source, limit, n);
    DistinctExactly(Trail(source, limit));
  }

  /** One more page. */
  lemma GatherMore<E>(source: Source<E>, n: nat, more: nat)
    requires more == n + 1
    requires Gathered(source, n).Some? && Walk(source, n).At? && source(Walk(source, n).token).Good?
    ensures
      var page := source(Walk(source, n).token);
      && Gathered(source, more) == Some(AddPage(Gathered(source, n).value, page))
      && Walk(source, more) == if page.next.None? then Ended else At(page.next)
  {
  }

  /** Fewer pages of the same walk hold a prefix. */
  lemma {:induction false} GatheredIsPrefix<E>(source: Source<E>, m: nat, n: nat)
    requires m <= n && Gathered(source, n).Some?
    ensures Gathered(source, m).Some?
    ensures Gathered(source, m).value.events <= Gathered(source, n).value.events
    ensures Gathered(source, m).value.skipped <= Gathered(source, n).value.skipped
    decreases n
  {
    if m < n {
      GatheredIsPrefix(source, m, n - 1);
    }
  }

  lemma {:induction false} EndIsFirst<E>(source: Source<E>, m: nat, n: nat)
    requires Gathered(source, m).Some? && Walk(source, n) == Ended
    ensures m <= n
  {
    if n < m {
      StoppedStays(source, n, m - 1);
    }
  }

  /** A walk that ends does so after one fixed number of pages. */
  lemma EndIsUnique<E>(source: Source<E>, m: nat, n: nat)
    requires Gathered(source, m).Some? && Walk(source, m) == Ended
    requires Gathered(source, n).Some? && Walk(source, n) == Ended
    ensures m == n
  {
    EndIsFirst(source, m, n);
    EndIsFirst(source, n, m);
  }

  // ----- Bounded aggregates -----

  datatype Termination = Exhausted | PageLimit | RepeatedPageToken

  datatype Aggregate<E> =
    Aggregate(events: seq<E>, pages: nat, skipped: nat, complete: bool, reason: Termination)

  /** What an aggregate must hold, whatever stopped it. */
  predicate Gathers<E(==)>(source: Source<E>, limit: nat, a: Aggregate<E>) {
    && 1 <= a.pages <= limit
    && Gathered(source, a.pages) == Some(Haul(a.events, a.skipped))
    && a.complete == (a.reason.Exhausted? && a.skipped == 0)
    && Distinct(Trail(source, a.pages))
  }

  /**
   * What a bounded result (none for a failure) says of the unbounded walk, seen after
   * `limit` steps: failed, it has broken; exhausted, it has ended; otherwise it goes on,
   * with a token requested twice (repeated token) or with none (page limit).
   */
  predicate Answers<E(==)>(source: Source<E>, limit: nat, result: Option<Aggregate<E>>) {
    && (result.None? <==> Walk(source, limit) == Broken)
    && (result.Some? ==>
      var a := result.value;
      && Gathers(source, limit, a)
      && (a.reason.Exhausted? <==> Walk(source, limit) == Ended)
      && (a.reason.Exhausted? ==> Walk(source, a.pages) == Ended)
      && (a.reason.RepeatedPageToken? ==> !Distinct(Trail(source, limit)))
      && (a.reason.PageLimit? ==> Distinct(Trail(source, limit)) && a.pages == limit))
  }

  /** After a repeated token the unbounded walk neither ends nor breaks, however long. */
  lemma RepeatMeansNoEnd<E>(source: Source<E>, limit: nat, a: Aggregate<E>, n: nat)
    requires Answers(source, limit, Some(a)) && a.reason.RepeatedPageToken?
    ensures Walk(source, n).At?
  {
    var trail := Trail(source, limit);
    TrailLength(source, limit);
    DistinctExactly(trail);
    var i, j :| 0 <= i < j < |trail| && trail[i] == trail[j];
    TrailAt(source, limit, i);
    TrailAt(source, limit, j);
    StoppedStays(source, j, limit);
    RepeatedTokenNeverEnds(source, i, j, n);
  }

  /**
   * An aggregate read against an unbounded walk that ends after `n` pages: exhausted
   * exactly when `n` is within the limit, and then it holds everything; otherwise it
   * is the first `limit` pages, a prefix of everything. A repeated token never occurs.
   */
  lemma FiniteWalks<E>(source: Source<E>, limit: nat, a: Aggregate<E>, n: nat)
    requires Answers(source, limit, Some(a))
    requires Gathered(source, n).Some? && Walk(source, n) == Ended
    ensures a.reason == if n <= limit then Exhausted else PageLimit
    ensures a.pages == if n <= limit then n else limit
    ensures
      var all := Gathered(source, n).value;
      a.events <= all.events && a.skipped <= all.skipped && (n <= limit ==> Haul(a.events, a.skipped) == all)
  {
    if a.reason.RepeatedPageToken? {
      RepeatMeansNoEnd(source, limit, a, n);
      assert false;
    }
    if n <= limit {
      StoppedStays(source, n, limit);
      EndIsUnique(source, a.pages, n);
    } else {
      StoppedStays(source, limit, n - 1);
      GatheredIsPrefix(source, limit, n);
    }
  }

  // ----- The aggregation loop's reasoning -----

  /** What the loop knows before each request. */
  datatype Progress<E> = Progress(
    events: seq<E>, pages: nat, skipped: nat, token: Option<string>, seen: set<string>)

  /** The progress after `n` pages, as long as the walk goes on and has repeated no token. */
  function ProgressAfter<E>(source: Source<E>, n: nat): Option<Progress<E>> {
    if Walk(source, n).At? && Gathered(source, n).Some? && Distinct(Trail(source, n + 1)) then
      var h := Gathered(source, n).value;
      Some(Progress(h.events, n, h.skipped, Walk(source, n).token, TokensOn(Trail(source, n + 1))))
    else None
  }

  lemma SetsOut<E>(source: Source<E>)
    ensures ProgressAfter(source, 0) == Some(Progress([], 0, 0, None, {}))
  {
    var trail := Trail(source, 1);
    assert Trail(source, 0) == [] && trail == [At(None)] && trail[..0] == [];
    assert Distinct(trail[..0]) && Distinct(trail);
    assert TokensOn(trail[..0]) == {} && TokensOn(trail) == {};
  }

  /** A page with an unseen token keeps the walk under way. */
  lemma Continues<E>(source: Source<E>, p: Progress<E>)
    requires ProgressAfter(source, p.pages) == Some(p) && source(p.token).Good?
    requires source(p.token).next.Some? && source(p.token).next.value !in p.seen
    ensures
      var page := source(p.token);
      ProgressAfter(source, p.pages + 1) == Some(Progress(
        p.events + page.events, p.pages + 1, p.skipped + page.skipped, page.next, p.seen + {page.next.value}))
  {
    GatherMore(source, p.pages, p.pages + 1);
    TrailExtends(Trail(source, p.pages + 1), source(p.token).next.value);
  }

  /** The aggregate that counts the current page in. */
  function Including<E>(source: Source<E>, p: Progress<E>, reason: Termination): Aggregate<E>
    requires source(p.token).Good?
  {
    var page := source(p.token);
    var skipped := p.skipped + page.skipped;
    Aggregate(p.events + page.events, p.pages + 1, skipped, reason.Exhausted? && skipped == 0, reason)
  }

  lemma LastPageConcludes<E>(source: Source<E>, limit: nat, p: Progress<E>)
    requires ProgressAfter(source, p.pages) == Some(p) && source(p.token).Good? && p.pages < limit
    requires source(p.token).next.None?
    ensures Answers(source, limit, Some(Including(source, p, Exhausted)))
  {
    GatherMore(source, p.pages, p.pages + 1);
    StoppedStays(source, p.pages + 1, limit);
  }

  lemma LimitConcludes<E>(source: Source<E>, limit: nat, p: Progress<E>)
    requires ProgressAfter(source, p.pages) == Some(p) && source(p.token).Good? && p.pages + 1 == limit
    requires source(p.token).next.Some?
    ensures Answers(source, limit, Some(Including(source, p, PageLimit)))
  {
    GatherMore(source, p.pages, p.pages + 1);
  }

  lemma RepetitionConcludes<E>(source: Source<E>, limit: nat, p: Progress<E>)
    requires ProgressAfter(source, p.pages) == Some(p) && source(p.token).Good? && p.pages + 1 < limit
    requires source(p.token).next.Some? && source(p.token).next.value in p.seen
    ensures Answers(source, limit, Some(Including(source, p, RepeatedPageToken)))
  {
    var n := p.pages + 1;
    GatherMore(source, p.pages, n);
    Repeats(source, n, source(p.token).next.value, limit);
  }

  /** Why the loop stops at a page, if it does: the checks in the order they are made. */
  function StopAt<E>(page: Page<E>, pages: nat, limit: nat, seen: set<string>): Option<Termination>
    requires page.Good?
  {
    if page.next.None? then Some(Exhausted)
    else if pages >= limit then Some(PageLimit)
    else if page.next.value in seen then Some(RepeatedPageToken)
    else None
  }

  lemma PageConcludes<E>(source: Source<E>, limit: nat, p: Progress<E>)
    requires ProgressAfter(source, p.pages) == Some(p) && source(p.token).Good? && p.pages < limit
    requires StopAt(source(p.token), p.pages + 1, limit, p.seen).Some?
    ensures Answers(source, limit, Some(Including(source, p, StopAt(source(p.token), p.pages + 1, limit, p.seen).value)))
  {
    match StopAt(source(p.token), p.pages + 1, limit, p.seen).value {
      case Exhausted => LastPageConcludes(source, limit, p);
      case PageLimit => LimitConcludes(source, limit, p);
      case RepeatedPageToken => RepetitionConcludes(source, limit, p);
    }
  }

  lemma FailureConcludes<E>(source: Source<E>, limit: nat, p: Progress<E>)
    requires ProgressAfter(source, p.pages) == Some(p) && source(p.token).Bad? && p.pages < limit
    ensures Answers(source, limit, None)
  {
    StoppedStays(source, p.pages + 1, limit);
  }

  /**
   The aggregation loop. Its result answers for the unbounded walk over the same source, within
   the limit; on a failure `token` is the request that failed.
   */
  method Collect<E>(source: Source<E>, limit: nat) returns (result: Option<Aggregate<E>>, token: Option<string>)
    requires limit >= 1
    ensures Answers(source, limit, result)
    ensures result.None? ==> source(token).Bad?
  {
    var events: seq<E> := [];
    var pages := 0;
    var skipped: nat := 0;
    var everyPageComplete := true;
    var seen: set<string> := {};
    token := None;
    SetsOut(source);
    while true
      invariant pages < limit
      invariant ProgressAfter(source, pages) == Some(Progress(events, pages, skipped, token, seen))
      invariant everyPageComplete == (skipped == 0)
      decreases limit - pages
    {
      ghost var before := Progress(events, pages, skipped, token, seen);
      var page := source(token);
      if page.Bad? {
        FailureConcludes(source, limit, before);
        return None, token;
      }
      events := events + page.events;
      pages := pages + 1;
      skipped := skipped + page.skipped;
      everyPageComplete := everyPageComplete && page.skipped == 0;
      var stop := StopAt(page, pages, limit, seen);
      if stop.Some? {
        PageConcludes(source, limit, before);
        result := Some(Aggregate(events, pages, skipped, stop.value.Exhausted? && everyPageComplete, stop.value));
        assert result == Some(Including(source, before, stop.value));
        return;
      }
      Continues(source, before);
      seen := seen + {page.next.value};
      token := page.next;
    }
  }
}
