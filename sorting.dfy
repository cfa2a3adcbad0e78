/**
 * The list operations the Python code gets from its runtime: keeping the
 * elements that satisfy a condition (a list comprehension with a guard),
 * Python's stable sort with `reverse=True` on a key, and the position of the
 * element that such a sort puts first.
 */
module Sorting {

  /** The elements of `s` that satisfy `keep`, in their original order. */
  function Filter<T>(s: seq<T>, keep: T -> bool): (r: seq<T>)
    ensures |r| <= |s|
    ensures forall i :: 0 <= i < |r| ==> r[i] in s && keep(r[i])
    ensures forall i :: 0 <= i < |s| && keep(s[i]) ==> s[i] in r
  {
    if s == [] then []
    else if keep(s[0]) then [s[0]] + Filter(s[1..], keep)
    else Filter(s[1..], keep)
  }

  /** Filter keeps each element that satisfies the guard as often as it occurs, and drops the others. */
  lemma {:induction false} FilterCount<T>(s: seq<T>, keep: T -> bool, x: T)
    ensures multiset(Filter(s, keep))[x] == if keep(x) then multiset(s)[x] else 0
  {
    if s != [] {
      FilterCount(s[1..], keep, x);
      assert s == [s[0]] + s[1..];
    }
  }

  /** Filter works piece by piece, so the kept elements stay in their original order. */
  lemma {:induction false} FilterConcat<T>(a: seq<T>, b: seq<T>, keep: T -> bool)
    ensures Filter(a + b, keep) == Filter(a, keep) + Filter(b, keep)
  {
    if a == [] {
      assert a + b == b;
    } else {
      var ab := a + b;
      assert ab[0] == a[0] && ab[1..] == a[1..] + b;
      FilterConcat(a[1..], b, keep);
      if keep(a[0]) {
        assert Filter(ab, keep) == [a[0]] + Filter(a[1..] + b, keep);
        assert Filter(a, keep) == [a[0]] + Filter(a[1..], keep);
      } else {
        assert Filter(ab, keep) == Filter(a[1..] + b, keep);
        assert Filter(a, keep) == Filter(a[1..], keep);
      }
    }
  }

  /** The condition "the key of this element is k". */
  function HasKey<T>(key: T -> real, k: real): T -> bool
  {
    x => key(x) == k
  }

  /** The subsequence of elements whose key is k: stability is a statement about it. */
  function WithKey<T>(s: seq<T>, key: T -> real, k: real): seq<T>
  {
    Filter(s, HasKey(key, k))
  }

  ghost predicate SortedDesc<T>(s: seq<T>, key: T -> real)
  {
    forall i, j :: 0 <= i < j < |s| ==> key(s[i]) >= key(s[j])
  }

  /** Puts x in front of the first element whose key is not greater than x's. */
  function InsertDesc<T>(x: T, s: seq<T>, key: T -> real): (r: seq<T>)
    ensures multiset(r) == multiset(s) + multiset{x}
    ensures |r| == |s| + 1
  {
    if s == [] || key(x) >= key(s[0]) then [x] + s
    else
      assert s == [s[0]] + s[1..];
      [s[0]] + InsertDesc(x, s[1..], key)
  }

  /** Python's `sorted(s, key=key, reverse=True)`: a stable sort, largest key first. */
  function SortDesc<T>(s: seq<T>, key: T -> real): (r: seq<T>)
    ensures multiset(r) == multiset(s)
    ensures |r| == |s|
  {
    if s == [] then []
    else
      assert s == [s[0]] + s[1..];
      InsertDesc(s[0], SortDesc(s[1..], key), key)
  }

  lemma {:induction false} InsertDescSorted<T>(x: T, s: seq<T>, key: T -> real)
    requires SortedDesc(s, key)
    ensures SortedDesc(InsertDesc(x, s, key), key)
  {
    if s != [] && key(x) < key(s[0]) {
      InsertDescSorted(x, s[1..], key);
      var t := InsertDesc(x, s[1..], key);
      assert forall y :: y in t ==> y == x || y in s[1..] by {
        forall y | y in t ensures y == x || y in s[1..] {
          assert y in multiset(t);
        }
      }
      forall j | 0 <= j < |t| ensures key(s[0]) >= key(t[j]) {
        assert t[j] in t;
      }
    }
  }

  /** The sort puts the largest keys first. */
  lemma {:induction false} SortDescSorted<T>(s: seq<T>, key: T -> real)
    ensures SortedDesc(SortDesc(s, key), key)
  {
    if s != [] {
      SortDescSorted(s[1..], key);
      InsertDescSorted(s[0], SortDesc(s[1..], key), key);
    }
  }

  lemma {:induction false} InsertDescStable<T>(x: T, s: seq<T>, key: T -> real, k: real)
    ensures WithKey(InsertDesc(x, s, key), key, k)
         == (if key(x) == k then [x] else []) + WithKey(s, key, k)
  {
    if s == [] || key(x) >= key(s[0]) {
      assert ([x] + s)[1..] == s;
    } else {
      InsertDescStable(x, s[1..], key, k);
      assert ([s[0]] + InsertDesc(x, s[1..], key))[1..] == InsertDesc(x, s[1..], key);
    }
  }

  /** The sort is stable: the elements that share a key keep their relative order. */
  lemma {:induction false} SortDescStable<T>(s: seq<T>, key: T -> real, k: real)
    ensures WithKey(SortDesc(s, key), key, k) == WithKey(s, key, k)
  {
    if s != [] {
      SortDescStable(s[1..], key, k);
      InsertDescStable(s[0], SortDesc(s[1..], key), key, k);
    }
  }

  /**
   * s[i] satisfies `keep`, has the largest key among the elements that do,
   * and every earlier element that satisfies `keep` has a smaller key.
   */
  ghost predicate IsFirstMaxBy<T>(s: seq<T>, keep: T -> bool, key: T -> real, i: int)
  {
    && 0 <= i < |s|
    && keep(s[i])
    && (forall j :: 0 <= j < |s| && keep(s[j]) ==> key(s[j]) <= key(s[i]))
    && (forall j :: 0 <= j < i && keep(s[j]) ==> key(s[j]) < key(s[i]))
  }

  /** The position of the first element with the largest key among those satisfying `keep`. */
  function FirstMaxIndex<T>(s: seq<T>, keep: T -> bool, key: T -> real): (i: nat)
    requires Filter(s, keep) != []
    ensures IsFirstMaxBy(s, keep, key, i)
  {
    if !keep(s[0]) then
      1 + FirstMaxIndex(s[1..], keep, key)
    else if Filter(s[1..], keep) == [] then
      0
    else
      var j := 1 + FirstMaxIndex(s[1..], keep, key);
      if key(s[0]) >= key(s[j]) then 0 else j
  }

  /** The element a stable descending sort of the kept elements puts first is s[FirstMaxIndex(...)]. */
  lemma {:induction false} SortedFilterHead<T>(s: seq<T>, keep: T -> bool, key: T -> real)
    requires Filter(s, keep) != []
    ensures |SortDesc(Filter(s, keep), key)| > 0
    ensures SortDesc(Filter(s, keep), key)[0] == s[FirstMaxIndex(s, keep, key)]
  {
    if !keep(s[0]) {
      SortedFilterHead(s[1..], keep, key);
    } else if Filter(s[1..], keep) != [] {
      SortedFilterHead(s[1..], keep, key);
      assert ([s[0]] + Filter(s[1..], keep))[1..] == Filter(s[1..], keep);
    }
  }
}
