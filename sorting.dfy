/**
 * `Array.prototype.sort` with a comparator, as the site uses it (newest
 * first, highest volume first, source name A–Z). The runtime's sort is
 * stable, so it is modelled by a stable insertion sort; what the rest of the
 * model relies on is proved here: the result is ordered, is a permutation of
 * the input, and keeps the input order among elements the comparator ties.
 *
 * A comparator is given as `before(a, b)`: "a must come strictly before b"
 * (the comparator's result for (a, b) is negative).
 */
module Sorting {
  import Seqs

  /** `before` is a strict weak order: asymmetric, and "not before" is transitive. */
  ghost predicate StrictWeakOrder<T(!new)>(before: (T, T) -> bool) {
    && (forall a, b :: before(a, b) ==> !before(b, a))
    && (forall a, b, c :: !before(a, b) && !before(b, c) ==> !before(a, c))
  }

  /** No element is placed strictly before one that the comparator puts before it. */
  ghost predicate SortedBy<T>(s: seq<T>, before: (T, T) -> bool) {
    forall i, j :: 0 <= i < j < |s| ==> !before(s[j], s[i])
  }

  /** The comparator ties `a` and `b`. */
  predicate Tied<T>(a: T, b: T, before: (T, T) -> bool) {
    !before(a, b) && !before(b, a)
  }

  /** Places `x` after every element that must precede it and before the rest. */
  function Insert<T>(x: T, s: seq<T>, before: (T, T) -> bool): seq<T>
    decreases |s|
  {
    if s == [] then [x]
    else if before(s[0], x) then [s[0]] + Insert(x, s[1..], before)
    else [x] + s
  }

  function SortBy<T>(s: seq<T>, before: (T, T) -> bool): seq<T>
    decreases |s|
  {
    if s == [] then [] else Insert(s[0], SortBy(s[1..], before), before)
  }

  /** The elements tied with `e`, in order. */
  function TiedWith<T>(s: seq<T>, e: T, before: (T, T) -> bool): seq<T> {
    Seqs.Filter(s, x => Tied(x, e, before))
  }

  lemma {:induction false} InsertPermutes<T>(x: T, s: seq<T>, before: (T, T) -> bool)
    ensures multiset(Insert(x, s, before)) == multiset(s) + multiset{x}
    decreases |s|
  {
    if s != [] && before(s[0], x) {
      InsertPermutes(x, s[1..], before);
      assert s == [s[0]] + s[1..];
    }
  }

  /** Sorting rearranges: the result has exactly the input's elements, with multiplicity. */
  lemma {:induction false} SortPermutes<T>(s: seq<T>, before: (T, T) -> bool)
    ensures multiset(SortBy(s, before)) == multiset(s)
    ensures |SortBy(s, before)| == |s|
    decreases |s|
  {
    if s != [] {
      SortPermutes(s[1..], before);
      InsertPermutes(s[0], SortBy(s[1..], before), before);
      assert s == [s[0]] + s[1..];
      assert |multiset(SortBy(s, before))| == |multiset(s)|;
    }
  }

  lemma {:induction false} InsertSorted<T(!new)>(x: T, s: seq<T>, before: (T, T) -> bool)
    requires StrictWeakOrder(before)
    requires SortedBy(s, before)
    ensures SortedBy(Insert(x, s, before), before)
    decreases |s|
  {
    if s != [] {
      if before(s[0], x) {
        var tail := Insert(x, s[1..], before);
        InsertSorted(x, s[1..], before);
        InsertPermutes(x, s[1..], before);
        forall k | 0 <= k < |tail| ensures !before(tail[k], s[0]) {
          assert tail[k] in multiset(tail);
          assert tail[k] in multiset(s[1..]) || tail[k] == x;
          if tail[k] != x {
            var m :| 0 <= m < |s[1..]| && s[1..][m] == tail[k];
            assert s[m + 1] == tail[k];
          }
        }
      } else {
        forall k | 0 <= k < |s| ensures !before(s[k], x) {
          assert !before(s[k], s[0]);
        }
      }
    }
  }

  /** Sorting orders the result by the comparator. */
  lemma {:induction false} SortSorted<T(!new)>(s: seq<T>, before: (T, T) -> bool)
    requires StrictWeakOrder(before)
    ensures SortedBy(SortBy(s, before), before)
    decreases |s|
  {
    if s != [] {
      SortSorted(s[1..], before);
      InsertSorted(s[0], SortBy(s[1..], before), before);
    }
  }

  lemma {:induction false} InsertTied<T(!new)>(x: T, s: seq<T>, e: T, before: (T, T) -> bool)
    requires StrictWeakOrder(before)
    ensures TiedWith(Insert(x, s, before), e, before)
         == (if Tied(x, e, before) then [x] else []) + TiedWith(s, e, before)
    decreases |s|
  {
    if s != [] && before(s[0], x) {
      var rest := Insert(x, s[1..], before);
      InsertTied(x, s[1..], e, before);
      assert ([s[0]] + rest)[1..] == rest;
      // s[0] must precede x, so it cannot be tied with e when x is
      assert Tied(x, e, before) ==> !Tied(s[0], e, before);
    } else {
      assert ([x] + s)[1..] == s;
    }
  }

  /**
   * Stability: the elements the comparator ties with any given element keep
   * their input order.
   */
  lemma {:induction false} SortStable<T(!new)>(s: seq<T>, e: T, before: (T, T) -> bool)
    requires StrictWeakOrder(before)
    ensures TiedWith(SortBy(s, before), e, before) == TiedWith(s, e, before)
    decreases |s|
  {
    if s != [] {
      var p := (y: T) => Tied(y, e, before);
      SortStable(s[1..], e, before);
      InsertTied(s[0], SortBy(s[1..], before), e, before);
      assert s == [s[0]] + s[1..];
      Seqs.FilterAppend([s[0]], s[1..], p);
      assert Seqs.Filter([s[0]], p) == (if p(s[0]) then [s[0]] else []);
    }
  }

  /** The three facts together, as callers use them. */
  lemma SortFacts<T(!new)>(s: seq<T>, before: (T, T) -> bool)
    requires StrictWeakOrder(before)
    ensures SortedBy(SortBy(s, before), before)
    ensures multiset(SortBy(s, before)) == multiset(s) && |SortBy(s, before)| == |s|
    ensures forall e :: TiedWith(SortBy(s, before), e, before) == TiedWith(s, e, before)
  {
    SortSorted(s, before);
    SortPermutes(s, before);
    forall e ensures TiedWith(SortBy(s, before), e, before) == TiedWith(s, e, before) {
      SortStable(s, e, before);
    }
  }
}
