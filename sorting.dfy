/** Sorting by a comparison predicate, as Swift's `sort(by:)` / `sorted(by:)` is
    used for windows and screens: the result is ordered and a permutation. The
    algorithm here is insertion sort, which is stable: elements the order
    does not separate keep their input order. Swift's sort does not promise
    stability, so only the ordered permutation is asserted of Swift's; the
    order among tied elements is one of those Swift may produce. */
module Sorting {

  /** less is a strict weak order on the elements of s: asymmetric, and
      "not less" chains (which makes being tied an equivalence). */
  ghost predicate StrictWeakOrderOn<T>(less: (T, T) -> bool, s: seq<T>)
  {
    && (forall a, b | a in s && b in s :: less(a, b) ==> !less(b, a))
    && (forall a, b, c | a in s && b in s && c in s :: !less(a, b) && !less(b, c) ==> !less(a, c))
  }

  /** No later element is less than an earlier one. */
  predicate SortedBy<T>(s: seq<T>, less: (T, T) -> bool)
  {
    forall i, j | 0 <= i < j < |s| :: !less(s[j], s[i])
  }

  /** x placed before the first element that is not less than it. */
  function Insert<T>(x: T, s: seq<T>, less: (T, T) -> bool): (r: seq<T>)
    ensures multiset(r) == multiset(s) + multiset{x}
  {
    if s == [] then [x]
    else if !less(s[0], x) then [x] + s
    else
      assert s == [s[0]] + s[1..];
      [s[0]] + Insert(x, s[1..], less)
  }

  function Sort<T>(s: seq<T>, less: (T, T) -> bool): (r: seq<T>)
    ensures multiset(r) == multiset(s)
    ensures |r| == |s|
  {
    if s == [] then []
    else
      assert s == [s[0]] + s[1..];
      Insert(s[0], Sort(s[1..], less), less)
  }

  /** Putting in front of a sorted sequence an element that none of its
      elements is less than keeps it sorted. */
  lemma ConsSorted<T>(h: T, s: seq<T>, less: (T, T) -> bool)
    requires SortedBy(s, less)
    requires forall k | 0 <= k < |s| :: !less(s[k], h)
    ensures SortedBy([h] + s, less)
  {
    var r := [h] + s;
    forall i, j | 0 <= i < j < |r| ensures !less(r[j], r[i]) {
      if i == 0 {
        assert r[j] == s[j - 1];
      } else {
        assert r[i] == s[i - 1] && r[j] == s[j - 1];
      }
    }
  }

  lemma {:induction false} InsertSorted<T>(x: T, s: seq<T>, less: (T, T) -> bool)
    requires SortedBy(s, less)
    requires StrictWeakOrderOn(less, s + [x])
    ensures SortedBy(Insert(x, s, less), less)
  {
    if s == [] {
    } else if !less(s[0], x) {
      forall k | 0 <= k < |s| ensures !less(s[k], x) {
        assert s[k] in s + [x] && s[0] in s + [x] && x in s + [x];
        if k > 0 { assert !less(s[k], s[0]); }
      }
      ConsSorted(x, s, less);
    } else {
      var tail := s[1..];
      assert SortedBy(tail, less);
      assert StrictWeakOrderOn(less, tail + [x]) by {
        forall e | e in tail + [x] ensures e in s + [x] {}
      }
      InsertSorted(x, tail, less);
      var ins := Insert(x, tail, less);
      forall k | 0 <= k < |ins| ensures !less(ins[k], s[0]) {
        var e := ins[k];
        assert e in multiset(ins);
        assert e in multiset(tail) + multiset{x};
        if e == x {
          assert x in s + [x] && s[0] in s + [x];
        } else {
          assert e in tail;
          var m :| 0 <= m < |tail| && tail[m] == e;
          assert s[m + 1] == e;
        }
      }
      ConsSorted(s[0], ins, less);
    }
  }

  /** The sorted sequence is ordered (and, by Sort's contract, a permutation). */
  lemma {:induction false} SortSorted<T>(s: seq<T>, less: (T, T) -> bool)
    requires StrictWeakOrderOn(less, s)
    ensures SortedBy(Sort(s, less), less)
  {
    if s != [] {
      var tail := s[1..];
      assert StrictWeakOrderOn(less, tail) by {
        forall e | e in tail ensures e in s {}
      }
      SortSorted(tail, less);
      var sorted := Sort(tail, less);
      assert StrictWeakOrderOn(less, sorted + [s[0]]) by {
        forall e | e in sorted + [s[0]] ensures e in s {
          if e in sorted {
            assert e in multiset(sorted);
            assert e in multiset(tail);
            assert e in tail;
          }
        }
      }
      InsertSorted(s[0], sorted, less);
    }
  }

  /** Sorting an ordered sequence leaves it unchanged, so sorting twice is sorting once. */
  lemma {:induction false} SortIdempotent<T>(s: seq<T>, less: (T, T) -> bool)
    requires SortedBy(s, less)
    ensures Sort(s, less) == s
  {
    if s != [] {
      var tail := s[1..];
      assert SortedBy(tail, less);
      SortIdempotent(tail, less);
      if tail != [] {
        assert !less(s[1], s[0]);
      }
      assert s == [s[0]] + tail;
    }
  }
}
