/**
 * Array operations of the JavaScript runtime used throughout the site:
 * `filter`, `slice` (with its negative-index rule), de-duplication through
 * a `Set`, and the "push inside `.each((index, el) => …)`" pattern of the
 * scrapers, written as a left fold over the candidates.
 */
module Seqs {
  import opened Wrappers

  /** `a` is an order-preserving subsequence of `b`. */
  predicate IsSubseq<T(==)>(a: seq<T>, b: seq<T>)
    decreases |b|
  {
    if a == [] then true
    else if b == [] then false
    else if a[0] == b[0] then IsSubseq(a[1..], b[1..])
    else IsSubseq(a, b[1..])
  }

  /** `r` holds each element of `s` that satisfies `p` as often as `s` does, and nothing else. */
  ghost predicate CountsKept<T>(r: seq<T>, s: seq<T>, p: T -> bool) {
    forall x :: x in multiset(r) + multiset(s) ==> multiset(r)[x] == if p(x) then multiset(s)[x] else 0
  }

  /** `s.filter(p)`. */
  function Filter<T>(s: seq<T>, p: T -> bool): (r: seq<T>)
    ensures |r| <= |s|
    ensures forall i :: 0 <= i < |r| ==> p(r[i])
    decreases |s|
  {
    if s == [] then [] else (if p(s[0]) then [s[0]] else []) + Filter(s[1..], p)
  }

  /**
   * Exactly the elements of `s` that satisfy `p` are kept, each as often as
   * it occurs in `s`, and in their original order.
   */
  lemma {:induction false} FilterKeeps<T>(s: seq<T>, p: T -> bool)
    ensures forall x :: x in Filter(s, p) <==> x in s && p(x)
    ensures IsSubseq(Filter(s, p), s)
    ensures multiset(Filter(s, p)) <= multiset(s)
    ensures CountsKept(Filter(s, p), s, p)
  {
    FilterOrder(s, p);
    FilterCounts(s, p);
  }

  /** Membership and order of the filtered sequence. */
  lemma {:induction false} FilterOrder<T>(s: seq<T>, p: T -> bool)
    ensures forall x :: x in Filter(s, p) <==> x in s && p(x)
    ensures IsSubseq(Filter(s, p), s)
    ensures multiset(Filter(s, p)) <= multiset(s)
    decreases |s|
  {
    if s != [] {
      FilterOrder(s[1..], p);
      var rest := Filter(s[1..], p);
      assert s == [s[0]] + s[1..];
      if p(s[0]) {
        assert Filter(s, p) == [s[0]] + rest;
        assert ([s[0]] + rest)[1..] == rest;
      } else {
        assert Filter(s, p) == rest;
        if rest != [] {
          assert rest[0] in rest;
          assert p(rest[0]);
          assert rest[0] != s[0];
        }
      }
    }
  }

  /** Each element's count in the filtered sequence. */
  lemma {:induction false} FilterCounts<T>(s: seq<T>, p: T -> bool)
    ensures forall x :: multiset(Filter(s, p))[x] == if p(x) then multiset(s)[x] else 0
    decreases |s|
  {
    if s != [] {
      FilterCounts(s[1..], p);
      var rest := Filter(s[1..], p);
      assert s == [s[0]] + s[1..];
      assert multiset(s) == multiset([s[0]]) + multiset(s[1..]);
      if p(s[0]) {
        assert Filter(s, p) == [s[0]] + rest;
        assert multiset(Filter(s, p)) == multiset([s[0]]) + multiset(rest);
      } else {
        assert Filter(s, p) == rest;
      }
    }
  }

  lemma {:induction false} FilterAppend<T>(a: seq<T>, b: seq<T>, p: T -> bool)
    ensures Filter(a + b, p) == Filter(a, p) + Filter(b, p)
    decreases |a|
  {
    if a != [] {
      assert (a + b)[0] == a[0];
      assert (a + b)[1..] == a[1..] + b;
      FilterAppend(a[1..], b, p);
    } else {
      assert a + b == b;
    }
  }

  lemma {:induction false} FilterAll<T>(s: seq<T>, p: T -> bool)
    requires forall i :: 0 <= i < |s| ==> p(s[i])
    ensures Filter(s, p) == s
    decreases |s|
  {
    if s != [] {
      FilterAll(s[1..], p);
    }
  }

  lemma {:induction false} FilterNone<T>(s: seq<T>, p: T -> bool)
    requires forall i :: 0 <= i < |s| ==> !p(s[i])
    ensures Filter(s, p) == []
    decreases |s|
  {
    if s != [] {
      FilterNone(s[1..], p);
    }
  }

  /** Filtering by two predicates that agree on the elements gives the same result. */
  lemma {:induction false} FilterCongruent<T>(s: seq<T>, p: T -> bool, q: T -> bool)
    requires forall i :: 0 <= i < |s| ==> p(s[i]) == q(s[i])
    ensures Filter(s, p) == Filter(s, q)
    decreases |s|
  {
    if s != [] {
      FilterCongruent(s[1..], p, q);
    }
  }

  // ---------------------------------------------------------------------------
  // slice

  /** How `slice` turns an index argument into a position: negative counts from the end. */
  function SliceIndex(k: int, len: nat): (r: nat)
    ensures r <= len
  {
    if k < 0 then (if len + k < 0 then 0 else len + k) else if k > len then len else k
  }

  /** `s.slice(start, end)` for integer arguments. */
  function JsSlice<T>(s: seq<T>, start: int, end: int): (r: seq<T>)
    ensures |r| <= |s|
  {
    var from, to := SliceIndex(start, |s|), SliceIndex(end, |s|);
    if to <= from then [] else s[from..to]
  }

  /** With a non-negative bound, `slice(0, n)` keeps the first `min(n, |s|)` elements. */
  lemma SliceFromStart<T>(s: seq<T>, n: int)
    requires n >= 0
    ensures JsSlice(s, 0, n) == s[..if n < |s| then n else |s|]
  {
  }

  /** A slice holds only elements of the sliced sequence. */
  lemma JsSliceWithin<T>(s: seq<T>, start: int, end: int)
    ensures forall x :: x in JsSlice(s, start, end) ==> x in s
  {
    var from, to := SliceIndex(start, |s|), SliceIndex(end, |s|);
    if from < to {
      forall x | x in s[from..to] ensures x in s {
        var j :| 0 <= j < to - from && s[from..to][j] == x;
        assert s[from + j] == x;
      }
    }
  }

  /** `s.slice(0, n)` for a non-negative count, as in `slice(0, 12)` and `slice(0, 50)`. */
  function Take<T>(s: seq<T>, n: nat): (r: seq<T>)
    ensures |r| == if n < |s| then n else |s|
    ensures r == s[..|r|]
  {
    if n < |s| then s[..n] else s
  }

  // ---------------------------------------------------------------------------
  // Set-based de-duplication

  predicate NoDup<T(==)>(s: seq<T>) {
    forall i, j :: 0 <= i < j < |s| ==> s[i] != s[j]
  }

  /** `Array.from(new Set(s))`: first occurrences, in order of appearance. */
  function Dedupe<T(==)>(s: seq<T>): (r: seq<T>)
    ensures NoDup(r)
    ensures forall i :: 0 <= i < |r| ==> r[i] in s
    ensures forall i :: 0 <= i < |s| ==> s[i] in r
    decreases |s|
  {
    if s == [] then []
    else
      var d := Dedupe(s[..|s| - 1]);
      var x := s[|s| - 1];
      assert forall i :: 0 <= i < |s| - 1 ==> s[i] == s[..|s| - 1][i];
      if x in d then d else d + [x]
  }

  lemma {:induction false} NoDupCount<T>(s: seq<T>, x: T)
    requires NoDup(s)
    ensures multiset(s)[x] <= 1
    decreases |s|
  {
    if s != [] {
      assert s == [s[0]] + s[1..];
      NoDupCount(s[1..], x);
      if s[0] == x {
        assert x !in s[1..] by {
          forall j | 0 <= j < |s[1..]| ensures s[1..][j] != x {
            assert s[1..][j] == s[j + 1];
          }
        }
      }
    }
  }

  /** A rearrangement of a duplicate-free sequence is duplicate-free. */
  lemma PermutationNoDup<T>(a: seq<T>, b: seq<T>)
    requires NoDup(a) && multiset(a) == multiset(b)
    ensures NoDup(b)
  {
    forall i, j | 0 <= i < j < |b| ensures b[i] != b[j] {
      NoDupCount(a, b[i]);
      RepeatCount(b, i, j);
    }
  }

  lemma RepeatCount<T>(b: seq<T>, i: nat, j: nat)
    requires i < j < |b|
    ensures b[i] == b[j] ==> multiset(b)[b[i]] >= 2
  {
    assert b == b[..j] + [b[j]] + b[j + 1..];
    assert b[i] == b[..j][i];
  }

  // ---------------------------------------------------------------------------
  // the scrapers' "push inside .each((index, element) => ...)" loops

  /**
   * The items pushed by a loop over the first `n` candidates, where `f` says
   * what (if anything) candidate `k` at index `k` contributes.
   */
  function Collect<A, B>(xs: seq<A>, f: (A, nat) -> Option<B>, n: nat): (r: seq<B>)
    requires n <= |xs|
    ensures |r| <= n
    decreases n
  {
    if n == 0 then []
    else
      Collect(xs, f, n - 1)
      + match f(xs[n - 1], n - 1) case Some(b) => [b] case None => []
  }

  /** The indices of the candidates that contributed an item, in order. */
  function Hits<A, B>(xs: seq<A>, f: (A, nat) -> Option<B>, n: nat): seq<nat>
    requires n <= |xs|
    decreases n
  {
    if n == 0 then []
    else Hits(xs, f, n - 1) + if f(xs[n - 1], n - 1).Some? then [n - 1] else []
  }

  /**
   * The collected items are exactly the contributions of the contributing
   * candidates, in document order: the j-th item comes from the candidate at
   * the j-th contributing index, those indices increase, and no contributing
   * candidate is missed.
   */
  lemma {:induction false} CollectImage<A, B>(xs: seq<A>, f: (A, nat) -> Option<B>, n: nat)
    requires n <= |xs|
    ensures |Hits(xs, f, n)| == |Collect(xs, f, n)|
    ensures forall j :: 0 <= j < |Hits(xs, f, n)| ==>
      Hits(xs, f, n)[j] < n && f(xs[Hits(xs, f, n)[j]], Hits(xs, f, n)[j]) == Some(Collect(xs, f, n)[j])
    ensures forall i, j :: 0 <= i < j < |Hits(xs, f, n)| ==> Hits(xs, f, n)[i] < Hits(xs, f, n)[j]
    ensures forall k :: 0 <= k < n && f(xs[k], k).Some? ==> k in Hits(xs, f, n)
    decreases n
  {
    if n > 0 {
      CollectImage(xs, f, n - 1);
    }
  }

  /** Whatever every contribution satisfies, every collected item satisfies. */
  lemma CollectAll<A, B>(xs: seq<A>, f: (A, nat) -> Option<B>, n: nat, P: B -> bool)
    requires n <= |xs|
    requires forall k :: 0 <= k < n && f(xs[k], k).Some? ==> P(f(xs[k], k).value)
    ensures forall j :: 0 <= j < |Collect(xs, f, n)| ==> P(Collect(xs, f, n)[j])
  {
    CollectImage(xs, f, n);
  }

  /** With no contributing candidate nothing is collected. */
  lemma {:induction false} CollectEmpty<A, B>(xs: seq<A>, f: (A, nat) -> Option<B>, n: nat)
    requires n <= |xs|
    ensures Collect(xs, f, n) == [] <==> forall k :: 0 <= k < n ==> f(xs[k], k).None?
    decreases n
  {
    if n > 0 {
      CollectEmpty(xs, f, n - 1);
    }
  }

  /** When every candidate contributes, one item is collected per candidate. */
  lemma {:induction false} CollectEvery<A, B>(xs: seq<A>, f: (A, nat) -> Option<B>, n: nat)
    requires n <= |xs|
    requires forall k :: 0 <= k < n ==> f(xs[k], k).Some?
    ensures |Collect(xs, f, n)| == n
    decreases n
  {
    if n > 0 {
      CollectEvery(xs, f, n - 1);
    }
  }
}
