/** Small shared vocabulary: optional values, results and facts about sequences. */
module Common {

  datatype Option<+T> = None | Some(value: T)

  datatype Result<+T, +E> = Ok(value: T) | Err(error: E)

  function Get<K, V>(m: map<K, V>, k: K): Option<V> {
    if k in m then Some(m[k]) else None
  }

  /** `p` is obtained from `t` by dropping elements, keeping the order of the rest. */
  predicate Subsequence<T(==)>(p: seq<T>, t: seq<T>)
    decreases |t|
  {
    if p == [] then true
    else if t == [] then false
    else if p[|p| - 1] == t[|t| - 1] then Subsequence(p[..|p| - 1], t[..|t| - 1])
    else Subsequence(p, t[..|t| - 1])
  }

  lemma {:induction false} SubsequenceSkips<T>(p: seq<T>, t: seq<T>, x: T)
    requires Subsequence(p, t)
    ensures Subsequence(p, t + [x])
    decreases |t|, 1
  {
    assert (t + [x])[..|t|] == t;
    if p != [] && p[|p| - 1] == x {
      SubsequenceOfPrefix(p, t);
    }
  }

  /** Dropping the last element of the pattern keeps it a subsequence. */
  lemma {:induction false} SubsequenceOfPrefix<T>(p: seq<T>, t: seq<T>)
    requires p != [] && Subsequence(p, t)
    ensures Subsequence(p[..|p| - 1], t)
    decreases |t|, 0
  {
    var t' := t[..|t| - 1];
    assert t == t' + [t[|t| - 1]];
    if p[|p| - 1] == t[|t| - 1] {
      SubsequenceSkips(p[..|p| - 1], t', t[|t| - 1]);
    } else {
      SubsequenceOfPrefix(p, t');
      SubsequenceSkips(p[..|p| - 1], t', t[|t| - 1]);
    }
  }

  lemma SubsequenceExtends<T>(p: seq<T>, t: seq<T>, x: T)
    requires Subsequence(p, t)
    ensures Subsequence(p + [x], t + [x])
  {
    assert (p + [x])[..|p|] == p;
    assert (t + [x])[..|t|] == t;
  }

  /** The elements of `s` that satisfy `keep`, in their original order. */
  function Filter<T>(s: seq<T>, keep: T -> bool): seq<T> {
    if s == [] then []
    else if keep(s[0]) then [s[0]] + Filter(s[1..], keep)
    else Filter(s[1..], keep)
  }

  lemma {:induction false} FilterConcat<T>(a: seq<T>, b: seq<T>, keep: T -> bool)
    ensures Filter(a + b, keep) == Filter(a, keep) + Filter(b, keep)
  {
    if a == [] {
      assert a + b == b;
    } else {
      assert (a + b)[1..] == a[1..] + b;
      FilterConcat(a[1..], b, keep);
    }
  }

  /** What `f` makes of the elements of `s` it accepts, in their original order. */
  function FilterMap<T, U>(s: seq<T>, f: T -> Option<U>): (r: seq<U>)
    ensures |r| <= |s|
  {
    if s == [] then []
    else
      var last := f(s[|s| - 1]);
      FilterMap(s[..|s| - 1], f) + if last.Some? then [last.value] else []
  }

  /** `at` lists, in increasing order, exactly the positions of the elements `f` accepts. */
  predicate AcceptedAt<T, U>(s: seq<T>, f: T -> Option<U>, at: seq<nat>) {
    && (forall i, j :: 0 <= i < j < |at| ==> at[i] < at[j])
    && (forall i :: 0 <= i < |at| ==> at[i] < |s| && f(s[at[i]]).Some?)
    && (forall k :: 0 <= k < |s| && f(s[k]).Some? ==> k in at)
  }

  lemma AcceptedSkips<T, U>(s: seq<T>, f: T -> Option<U>, at: seq<nat>, x: T)
    requires AcceptedAt(s, f, at) && f(x).None?
    ensures AcceptedAt(s + [x], f, at)
  {
    forall k | 0 <= k < |s + [x]| && f((s + [x])[k]).Some?
      ensures k in at
    {
      assert k < |s| && (s + [x])[k] == s[k];
    }
  }

  lemma AcceptedTakes<T, U>(s: seq<T>, f: T -> Option<U>, at: seq<nat>, x: T)
    requires AcceptedAt(s, f, at) && f(x).Some?
    ensures AcceptedAt(s + [x], f, at + [|s|])
  {
    var more := at + [|s|];
    assert more[|at|] == |s|;
    forall k | 0 <= k < |s + [x]| && f((s + [x])[k]).Some?
      ensures k in more
    {
      if k < |s| {
        assert (s + [x])[k] == s[k];
        assert k in at;
      }
    }
  }

  /** `r` is what `f` makes of the elements of `s` at the positions `at`. */
  predicate Picks<T, U(==)>(s: seq<T>, f: T -> Option<U>, at: seq<nat>, r: seq<U>) {
    && |at| == |r|
    && forall i :: 0 <= i < |at| ==> at[i] < |s| && f(s[at[i]]) == Some(r[i])
  }

  lemma PicksExtend<T, U>(s: seq<T>, f: T -> Option<U>, at: seq<nat>, r: seq<U>, x: T)
    requires Picks(s, f, at, r)
    ensures Picks(s + [x], f, at, r)
    ensures f(x).Some? ==> Picks(s + [x], f, at + [|s|], r + [f(x).value])
  {
  }

  lemma {:induction false} FilterMapInOrder<T, U>(s: seq<T>, f: T -> Option<U>) returns (at: seq<nat>)
    ensures AcceptedAt(s, f, at)
    ensures Picks(s, f, at, FilterMap(s, f))
  {
    at := [];
    if s != [] {
      var before, x := s[..|s| - 1], s[|s| - 1];
      assert s == before + [x];
      var was := FilterMapInOrder(before, f);
      PicksExtend(before, f, was, FilterMap(before, f), x);
      if f(x).Some? {
        AcceptedTakes(before, f, was, x);
        at := was + [|before|];
      } else {
        AcceptedSkips(before, f, was, x);
        at := was;
      }
    }
  }

  /** One step per element, until a state does not go on: the step taken from it is the last. */
  function Repeat<S, T>(s: S, ts: seq<T>, step: (S, T) -> S, goes: S -> bool): S
    decreases |ts|
  {
    if ts == [] then s
    else if goes(s) then Repeat(step(s, ts[0]), ts[1..], step, goes)
    else step(s, ts[0])
  }

  /** Every state on the way goes on. */
  predicate AllGo<S, T>(s: S, ts: seq<T>, step: (S, T) -> S, goes: S -> bool)
    decreases |ts|
  {
    ts == [] || (goes(s) && AllGo(step(s, ts[0]), ts[1..], step, goes))
  }

  lemma {:induction false} RepeatSplits<S, T>(s: S, first: seq<T>, more: seq<T>, step: (S, T) -> S, goes: S -> bool)
    requires AllGo(s, first, step, goes)
    ensures Repeat(s, first + more, step, goes) == Repeat(Repeat(s, first, step, goes), more, step, goes)
    decreases |first|
  {
    if first == [] {
      assert first + more == more;
    } else {
      assert (first + more)[0] == first[0] && (first + more)[1..] == first[1..] + more;
      RepeatSplits(step(s, first[0]), first[1..], more, step, goes);
    }
  }

  lemma {:induction false} AllGoSnoc<S, T>(s: S, first: seq<T>, t: T, step: (S, T) -> S, goes: S -> bool)
    requires AllGo(s, first, step, goes) && goes(Repeat(s, first, step, goes))
    ensures AllGo(s, first + [t], step, goes)
    decreases |first|
  {
    if first == [] {
      assert first + [t] == [t] && [t][1..] == [];
    } else {
      assert (first + [t])[0] == first[0] && (first + [t])[1..] == first[1..] + [t];
      AllGoSnoc(step(s, first[0]), first[1..], t, step, goes);
    }
  }

  /** One step more: it is the last, or the repetition goes on from it. */
  lemma RepeatOnce<S, T>(s: S, ts: seq<T>, i: nat, step: (S, T) -> S, goes: S -> bool)
    requires i < |ts| && AllGo(s, ts[..i], step, goes)
    ensures var s1 := Repeat(s, ts[..i], step, goes);
            && Repeat(s, ts[..i + 1], step, goes) == step(s1, ts[i])
            && (if goes(s1) then AllGo(s, ts[..i + 1], step, goes) else Repeat(s, ts, step, goes) == step(s1, ts[i]))
  {
    assert ts[..i + 1] == ts[..i] + [ts[i]] && [ts[i]][1..] == [];
    RepeatSplits(s, ts[..i], [ts[i]], step, goes);
    if goes(Repeat(s, ts[..i], step, goes)) {
      AllGoSnoc(s, ts[..i], ts[i], step, goes);
    } else {
      assert ts == ts[..i] + ts[i..];
      RepeatSplits(s, ts[..i], ts[i..], step, goes);
    }
  }

  function Iterate<S>(s: S, step: S -> S, k: nat): S
    decreases k
  {
    if k == 0 then s else Iterate(step(s), step, k - 1)
  }

  /** If every step from a state ready for it counts one, `k` steps count `k`. */
  lemma {:induction false} IterateCounts<S(!new)>(s: S, step: S -> S, k: nat, ready: (S, nat) -> bool, count: S -> nat)
    requires ready(s, k)
    requires forall x: S, j: nat :: ready(x, j + 1) ==> ready(step(x), j) && count(step(x)) == count(x) + 1
    ensures count(Iterate(s, step, k)) == count(s) + k
    decreases k
  {
    if k > 0 {
      assert ready(s, (k - 1) + 1);
      IterateCounts(step(s), step, k - 1, ready, count);
    }
  }
}
