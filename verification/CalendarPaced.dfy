/**
 * Walking a source that serves a fixed list of events in order, a fixed number at a time,
 * with a token naming the offset of each page: what a bounded aggregation of it returns.
 */
module CalendarPaced {
  import opened Common
  import opened CalendarWalk

  /** A list of events behind a page source, the page size and how it names its pages. */
  datatype Shelf<!E> = Shelf(events: seq<E>, size: nat, sound: E -> bool, mint: nat -> string)

  function Least(a: nat, b: nat): nat {
    if a <= b then a else b
  }

  predicate AllSound<E>(events: seq<E>, sound: E -> bool) {
    forall i :: 0 <= i < |events| ==> sound(events[i])
  }

  /** The token that asks for the page at an offset. */
  function TokenAt<E>(shelf: Shelf<E>, offset: nat): Option<string> {
    if offset == 0 then None else Some(shelf.mint(offset))
  }

  /** Where a page starting at an offset stops. */
  function PageEnd<E>(shelf: Shelf<E>, offset: nat): nat {
    Least(offset + shelf.size, |shelf.events|)
  }

  /** The page at an offset: the next events, and a token if more follow. */
  function PageAt<E>(shelf: Shelf<E>, offset: nat): Page<E>
    requires offset <= |shelf.events|
  {
    var end := PageEnd(shelf, offset);
    if AllSound(shelf.events[offset..end], shelf.sound) then
      Good(shelf.events[offset..end], 0, if end < |shelf.events| then Some(shelf.mint(end)) else None)
    else Bad
  }

  predicate Paced<E(==)>(source: Source<E>, shelf: Shelf<E>) {
    && shelf.size >= 1
    && forall offset: nat :: offset <= |shelf.events| ==> source(TokenAt(shelf, offset)) == PageAt(shelf, offset)
  }

  /** How far `k` pages reach. */
  function Reach<E>(shelf: Shelf<E>, k: nat): (reach: nat)
    ensures reach <= |shelf.events|
  {
    if k == 0 then 0 else PageEnd(shelf, Reach(shelf, k - 1))
  }

  lemma {:induction false} ReachExactly<E>(shelf: Shelf<E>, k: nat)
    ensures Reach(shelf, k) == Least(k * shelf.size, |shelf.events|)
  {
    if k > 0 {
      ReachExactly(shelf, k - 1);
      assert k * shelf.size == (k - 1) * shelf.size + shelf.size;
    }
  }

  lemma SoundConcat<E>(events: seq<E>, sound: E -> bool, offset: nat, end: nat)
    requires offset <= end <= |events|
    ensures AllSound(events[..end], sound) <==> AllSound(events[..offset], sound) && AllSound(events[offset..end], sound)
  {
    assert events[..end] == events[..offset] + events[offset..end];
  }

  /** Where the walk stands after `k` pages that reach `reach`. */
  function Standing<E>(shelf: Shelf<E>, k: nat, reach: nat): Cursor
    requires reach <= |shelf.events|
  {
    if !AllSound(shelf.events[..reach], shelf.sound) then Broken
    else if k == 0 || reach < |shelf.events| then At(TokenAt(shelf, reach))
    else Ended
  }

  lemma PacedMove<E>(source: Source<E>, shelf: Shelf<E>, k: nat, before: nat)
    requires Paced(source, shelf) && before <= |shelf.events|
    requires k > 0 && Walk(source, k - 1) == Standing(shelf, k - 1, before)
    ensures Walk(source, k) == Standing(shelf, k, PageEnd(shelf, before))
  {
    SoundConcat(shelf.events, shelf.sound, before, PageEnd(shelf, before));
    assert source(TokenAt(shelf, before)) == PageAt(shelf, before);
  }

  /** The walk over a paced source, position by position: an unsound event breaks it. */
  lemma {:induction false} PacedWalk<E>(source: Source<E>, shelf: Shelf<E>, k: nat)
    requires Paced(source, shelf)
    ensures Walk(source, k) == Standing(shelf, k, Reach(shelf, k))
  {
    if k > 0 {
      PacedWalk(source, shelf, k - 1);
      PacedMove(source, shelf, k, Reach(shelf, k - 1));
    }
  }

  lemma GathersMore<E>(source: Source<E>, shelf: Shelf<E>, k: nat, before: nat)
    requires Paced(source, shelf) && before <= |shelf.events|
    requires k > 0 && Walk(source, k - 1) == At(TokenAt(shelf, before))
    requires Gathered(source, k - 1) == Some(Haul(shelf.events[..before], 0))
    requires AllSound(shelf.events[before..PageEnd(shelf, before)], shelf.sound)
    ensures Gathered(source, k) == Some(Haul(shelf.events[..PageEnd(shelf, before)], 0))
  {
    var reach := PageEnd(shelf, before);
    assert source(TokenAt(shelf, before)) == PageAt(shelf, before);
    GatherMore(source, k - 1, k);
    assert shelf.events[..reach] == shelf.events[..before] + shelf.events[before..reach];
  }

  /** `k` pages hold only sound events, and the last of them was needed. */
  predicate Needed<E>(shelf: Shelf<E>, k: nat) {
    && AllSound(shelf.events[..Reach(shelf, k)], shelf.sound)
    && (k <= 1 || Reach(shelf, k - 1) < |shelf.events|)
  }

  lemma {:induction false} PacedGathers<E>(source: Source<E>, shelf: Shelf<E>, k: nat)
    requires Paced(source, shelf) && Needed(shelf, k)
    ensures Gathered(source, k) == Some(Haul(shelf.events[..Reach(shelf, k)], 0))
  {
    if k > 0 {
      var before := Reach(shelf, k - 1);
      SoundConcat(shelf.events, shelf.sound, before, Reach(shelf, k));
      PacedGathers(source, shelf, k - 1);
      PacedWalk(source, shelf, k - 1);
      GathersMore(source, shelf, k, before);
    }
  }

  /** The pages it takes to list `n` events, `size` at a time: at least one. */
  function PagesFor(n: nat, size: nat): nat
    requires size >= 1
  {
    if n == 0 then 1 else (n + size - 1) / size
  }

  /** `PagesFor` is the least positive number of pages that reach the end. */
  lemma PagesForExactly(n: nat, size: nat)
    requires size >= 1
    ensures var p := PagesFor(n, size); p >= 1 && p * size >= n && (p == 1 || (p - 1) * size < n)
  {
    if n > 0 {
      var p, rest := (n + size - 1) / size, (n + size - 1) % size;
      assert n + size - 1 == p * size + rest;
      assert (p - 1) * size == p * size - size;
    }
  }

  lemma MorePagesReachFurther(m: nat, n: nat, size: nat)
    requires m <= n
    ensures m * size <= n * size
  {
    assert n * size == m * size + (n - m) * size;
  }

  /** What listing a shelf returns: a prefix fixed by the bounds, or a failure. */
  function Listing<E>(shelf: Shelf<E>, limit: nat): Option<Aggregate<E>>
    requires shelf.size >= 1
  {
    var n, most := |shelf.events|, limit * shelf.size;
    var shown := shelf.events[..Least(n, most)];
    if AllSound(shown, shelf.sound) then
      Some(Aggregate(
        shown, Least(limit, PagesFor(n, shelf.size)), 0, n <= most,
        if n <= most then Exhausted else PageLimit))
    else None
  }

  lemma FewPages<E>(source: Source<E>, shelf: Shelf<E>, limit: nat, a: Aggregate<E>)
    requires Paced(source, shelf) && limit >= 1
    requires Answers(source, limit, Some(a))
    requires |shelf.events| <= limit * shelf.size && AllSound(shelf.events, shelf.sound)
    ensures PagesFor(|shelf.events|, shelf.size) <= limit
    ensures a == Aggregate(shelf.events, PagesFor(|shelf.events|, shelf.size), 0, true, Exhausted)
  {
    var p := PagesFor(|shelf.events|, shelf.size);
    PagesForExactly(|shelf.events|, shelf.size);
    ReachExactly(shelf, limit);
    ReachExactly(shelf, p);
    ReachExactly(shelf, p - 1);
    assert shelf.events[..|shelf.events|] == shelf.events;
    PacedWalk(source, shelf, limit);
    PacedWalk(source, shelf, p);
    PacedGathers(source, shelf, p);
    EndIsUnique(source, a.pages, p);
  }

  /** A paced source never repeats a token. */
  lemma NotRepeated<E>(source: Source<E>, shelf: Shelf<E>, limit: nat, a: Aggregate<E>)
    requires Paced(source, shelf)
    requires Answers(source, limit, Some(a))
    ensures !a.reason.RepeatedPageToken?
  {
    if a.reason.RepeatedPageToken? {
      var far := |shelf.events| + 1;
      MorePagesReachFurther(1, shelf.size, far);
      ReachExactly(shelf, far);
      PacedWalk(source, shelf, far);
      RepeatMeansNoEnd(source, limit, a, far);
    }
  }

  lemma ManyPages<E>(source: Source<E>, shelf: Shelf<E>, limit: nat, a: Aggregate<E>)
    requires Paced(source, shelf) && limit >= 1
    requires Answers(source, limit, Some(a))
    requires |shelf.events| > limit * shelf.size && AllSound(shelf.events[..limit * shelf.size], shelf.sound)
    ensures PagesFor(|shelf.events|, shelf.size) > limit
    ensures a == Aggregate(shelf.events[..limit * shelf.size], limit, 0, false, PageLimit)
  {
    MorePagesReachFurther(limit - 1, limit, shelf.size);
    ReachExactly(shelf, limit);
    ReachExactly(shelf, limit - 1);
    PacedWalk(source, shelf, limit);
    PacedGathers(source, shelf, limit);
    NotRepeated(source, shelf, limit, a);
    var p := PagesFor(|shelf.events|, shelf.size);
    PagesForExactly(|shelf.events|, shelf.size);
    if p <= limit {
      MorePagesReachFurther(p, limit, shelf.size);
    }
  }

  /** Every result that answers for a paced source is its listing. */
  lemma ListingIs<E>(source: Source<E>, shelf: Shelf<E>, limit: nat, result: Option<Aggregate<E>>)
    requires Paced(source, shelf) && limit >= 1
    requires Answers(source, limit, result)
    ensures result == Listing(shelf, limit)
  {
    var n := |shelf.events|;
    ReachExactly(shelf, limit);
    PacedWalk(source, shelf, limit);
    if result.Some? {
      if n <= limit * shelf.size {
        assert shelf.events[..n] == shelf.events;
        FewPages(source, shelf, limit, result.value);
      } else {
        ManyPages(source, shelf, limit, result.value);
      }
    }
  }
}
