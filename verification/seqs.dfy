/** Sequence utilities shared by the table queries and the frontend helpers:
    an order-preserving filter (SQL `WHERE`, `Array.prototype.filter`) and an
    insertion sort (SQL `ORDER BY`, `Array.prototype.sort`).
 */
module Seqs {
  import Text

  /** `r` can be obtained from `s` by deleting elements, keeping the order. */
  predicate IsSubsequence<T(==)>(r: seq<T>, s: seq<T>)
    decreases |s|
  {
    if r == [] then true
    else if s == [] then false
    else if r[0] == s[0] then IsSubsequence(r[1..], s[1..])
    else IsSubsequence(r, s[1..])
  }

  /** The elements of `s` satisfying `p`, in their original order. */
  function Filter<T>(s: seq<T>, p: T -> bool): (r: seq<T>)
    ensures |r| <= |s|
    ensures forall x :: x in r ==> x in s && p(x)
    ensures forall i :: 0 <= i < |s| && p(s[i]) ==> s[i] in r
  {
    if s == [] then []
    else if p(s[0]) then [s[0]] + Filter(s[1..], p)
    else Filter(s[1..], p)
  }

  lemma {:induction false} FilterIsSubsequence<T>(s: seq<T>, p: T -> bool)
    ensures IsSubsequence(Filter(s, p), s)
  {
    if s != [] {
      FilterIsSubsequence(s[1..], p);
      var r := Filter(s[1..], p);
      if p(s[0]) {
        assert ([s[0]] + r)[1..] == r;
      } else {
        SubsequenceSkip(r, s[1..], s[0]);
        assert [s[0]] + s[1..] == s;
      }
    }
  }

  /** A subsequence of `t` is also a subsequence of `[x] + t`. */
  lemma {:induction false} SubsequenceSkip<T>(r: seq<T>, t: seq<T>, x: T)
    requires IsSubsequence(r, t)
    ensures IsSubsequence(r, [x] + t)
    decreases |t|, 1
  {
    assert ([x] + t)[1..] == t;
    if r != [] && r[0] == x {
      SubsequenceDrop(r, t);
    }
  }

  /** Dropping the first element of a nonempty subsequence keeps a subsequence. */
  lemma {:induction false} SubsequenceDrop<T>(r: seq<T>, t: seq<T>)
    requires r != [] && IsSubsequence(r, t)
    ensures IsSubsequence(r[1..], t)
    decreases |t|, 0
  {
    assert t != [];
    assert [t[0]] + t[1..] == t;
    if r[0] == t[0] {
      SubsequenceSkip(r[1..], t[1..], t[0]);
    } else {
      SubsequenceDrop(r, t[1..]);
      SubsequenceSkip(r[1..], t[1..], t[0]);
    }
  }

  /** Filtering keeps every occurrence of a kept value and none of a dropped one. */
  lemma {:induction false} FilterMultiset<T>(s: seq<T>, p: T -> bool, x: T)
    ensures multiset(Filter(s, p))[x] == if p(x) then multiset(s)[x] else 0
  {
    if s != [] {
      FilterMultiset(s[1..], p, x);
      assert s == [s[0]] + s[1..];
    }
  }

  /** Filtering with a predicate that holds everywhere returns the input. */
  lemma {:induction false} FilterAll<T>(s: seq<T>, p: T -> bool)
    requires forall i :: 0 <= i < |s| ==> p(s[i])
    ensures Filter(s, p) == s
  {
    if s != [] {
      FilterAll(s[1..], p);
    }
  }

  /** `le` is a total preorder: any two values are comparable, transitively. */
  ghost predicate TotalPreorder<T(!new)>(le: (T, T) -> bool)
  {
    && (forall a, b :: le(a, b) || le(b, a))
    && (forall a, b, c :: le(a, b) && le(b, c) ==> le(a, c))
  }

  /** Every earlier element is `le` every later one. */
  ghost predicate SortedBy<T>(s: seq<T>, le: (T, T) -> bool)
  {
    forall i, j :: 0 <= i < j < |s| ==> le(s[i], s[j])
  }

  /** Inserts `x` before the first element it is `le`. */
  function Insert<T>(x: T, s: seq<T>, le: (T, T) -> bool): (r: seq<T>)
    ensures multiset(r) == multiset(s) + multiset{x}
    ensures |r| == |s| + 1
  {
    if s == [] then [x]
    else if le(x, s[0]) then [x] + s
    else
      assert s == [s[0]] + s[1..];
      [s[0]] + Insert(x, s[1..], le)
  }

  lemma {:induction false} InsertSorted<T(!new)>(x: T, s: seq<T>, le: (T, T) -> bool)
    requires TotalPreorder(le)
    requires SortedBy(s, le)
    ensures SortedBy(Insert(x, s, le), le)
  {
    if s != [] && !le(x, s[0]) {
      InsertSorted(x, s[1..], le);
      var t := Insert(x, s[1..], le);
      assert multiset(t) == multiset(s[1..]) + multiset{x};
      assert le(s[0], x);
      forall k | 0 <= k < |t|
        ensures le(s[0], t[k])
      {
        assert t[k] in multiset(t);
        if t[k] != x {
          assert t[k] in multiset(s[1..]);
          var j :| 0 <= j < |s[1..]| && s[1..][j] == t[k];
          assert s[j + 1] == t[k];
        }
      }
    }
  }

  /** Insertion sort: a permutation of `s` that is sorted by `le`. */
  function Sort<T>(s: seq<T>, le: (T, T) -> bool): (r: seq<T>)
    ensures multiset(r) == multiset(s)
    ensures |r| == |s|
  {
    if s == [] then []
    else
      assert s == [s[0]] + s[1..];
      Insert(s[0], Sort(s[1..], le), le)
  }

  lemma {:induction false} SortSorted<T(!new)>(s: seq<T>, le: (T, T) -> bool)
    requires TotalPreorder(le)
    ensures SortedBy(Sort(s, le), le)
  {
    if s != [] {
      SortSorted(s[1..], le);
      InsertSorted(s[0], Sort(s[1..], le), le);
    }
  }

  /** Ordering by an integer key, ascending. */
  function ByKey<T>(key: T -> int): (le: (T, T) -> bool)
  {
    (a: T, b: T) => key(a) <= key(b)
  }

  /** Ordering by an integer key, descending. */
  function ByKeyDesc<T>(key: T -> int): (le: (T, T) -> bool)
  {
    (a: T, b: T) => key(a) >= key(b)
  }

  lemma ByKeyTotal<T(!new)>(key: T -> int)
    ensures TotalPreorder(ByKey(key))
    ensures TotalPreorder(ByKeyDesc(key))
  {
  }

  /** Sorting by an integer key yields a permutation ordered ascending by that key. */
  lemma SortByKey<T(!new)>(s: seq<T>, key: T -> int)
    ensures multiset(Sort(s, ByKey(key))) == multiset(s)
    ensures forall i, j :: 0 <= i < j < |s| ==> key(Sort(s, ByKey(key))[i]) <= key(Sort(s, ByKey(key))[j])
  {
    ByKeyTotal(key);
    SortSorted(s, ByKey(key));
  }

  /** Sorting by an integer key yields a permutation ordered descending by that key. */
  lemma SortByKeyDesc<T(!new)>(s: seq<T>, key: T -> int)
    ensures multiset(Sort(s, ByKeyDesc(key))) == multiset(s)
    ensures forall i, j :: 0 <= i < j < |s| ==> key(Sort(s, ByKeyDesc(key))[i]) >= key(Sort(s, ByKeyDesc(key))[j])
  {
    ByKeyTotal(key);
    SortSorted(s, ByKeyDesc(key));
  }

  /** A sorted sequence has the same elements as its input. */
  lemma SortMembers<T>(s: seq<T>, le: (T, T) -> bool)
    ensures forall x :: x in Sort(s, le) <==> x in s
  {
    var r := Sort(s, le);
    assert forall x :: x in r <==> x in multiset(r);
    assert forall x :: x in s <==> x in multiset(s);
  }

  /** `Array.prototype.map`. */
  function Map<T, U>(s: seq<T>, f: T -> U): (r: seq<U>)
    ensures |r| == |s|
    ensures forall i :: 0 <= i < |s| ==> r[i] == f(s[i])
  {
    seq(|s|, i requires 0 <= i < |s| => f(s[i]))
  }

  lemma MapMembers<T, U>(s: seq<T>, f: T -> U)
    ensures forall x :: x in s ==> f(x) in Map(s, f)
    ensures forall y :: y in Map(s, f) ==> exists x :: x in s && y == f(x)
  {
    var r := Map(s, f);
    forall x | x in s
      ensures f(x) in r
    {
      var i :| 0 <= i < |s| && s[i] == x;
      assert r[i] == f(x);
    }
    forall y | y in r
      ensures exists x :: x in s && y == f(x)
    {
      var i :| 0 <= i < |r| && r[i] == y;
      assert s[i] in s;
    }
  }

  /** Ordering by a string key (`ORDER BY name`). */
  function ByText<T>(key: T -> string): (le: (T, T) -> bool)
  {
    (a: T, b: T) => Text.LexLe(key(a), key(b))
  }

  lemma ByTextTotal<T(!new)>(key: T -> string)
    ensures TotalPreorder(ByText(key))
  {
    forall a: T, b: T
      ensures ByText(key)(a, b) || ByText(key)(b, a)
    {
      Text.LexLeTotal(key(a), key(b));
    }
    forall a: T, b: T, c: T | ByText(key)(a, b) && ByText(key)(b, c)
      ensures ByText(key)(a, c)
    {
      Text.LexLeTransitive(key(a), key(b), key(c));
    }
  }

  /** Sorting by a string key yields a permutation ordered by that key. */
  lemma SortByText<T(!new)>(s: seq<T>, key: T -> string)
    ensures multiset(Sort(s, ByText(key))) == multiset(s)
    ensures forall x :: x in Sort(s, ByText(key)) <==> x in s
    ensures forall i, j :: 0 <= i < j < |s| ==> Text.LexLe(key(Sort(s, ByText(key))[i]), key(Sort(s, ByText(key))[j]))
  {
    ByTextTotal(key);
    SortSorted(s, ByText(key));
    SortMembers(s, ByText(key));
  }

  /** Sorting a sequence that is already in order returns it unchanged. */
  lemma {:induction false} SortAlreadySorted<T>(s: seq<T>, le: (T, T) -> bool)
    requires SortedBy(s, le)
    ensures Sort(s, le) == s
  {
    if s != [] {
      assert SortedBy(s[1..], le) by {
        forall i, j | 0 <= i < j < |s[1..]|
          ensures le(s[1..][i], s[1..][j])
        {
          assert s[1..][i] == s[i + 1] && s[1..][j] == s[j + 1];
        }
      }
      SortAlreadySorted(s[1..], le);
      if |s| > 1 {
        assert le(s[0], s[1..][0]);
      }
      assert [s[0]] + s[1..] == s;
    }
  }

  /** Filtering twice with the same predicate is filtering once. */
  lemma FilterIdempotent<T>(s: seq<T>, p: T -> bool)
    ensures Filter(Filter(s, p), p) == Filter(s, p)
  {
    var r := Filter(s, p);
    assert forall i :: 0 <= i < |r| ==> p(r[i]) by {
      forall i | 0 <= i < |r|
        ensures p(r[i])
      {
        assert r[i] in r;
      }
    }
    FilterAll(r, p);
  }
}
