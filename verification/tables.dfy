/** In-memory relational tables: a table is a sequence of rows, and a key
    function names the column (or column pair) a uniqueness constraint is on.
    The operations are the single-statement SQL forms the models use:
    `SELECT … WHERE key = $1`, `INSERT`, `DELETE … WHERE key = $1` and
    `UPDATE … WHERE key = $1`.
 */
module Tables {
  import opened Common
  import opened Seqs

  /** No two rows share a key (a PRIMARY KEY or UNIQUE constraint). */
  ghost predicate UniqueBy<T, K>(t: seq<T>, key: T -> K)
  {
    forall i, j :: 0 <= i < j < |t| ==> key(t[i]) != key(t[j])
  }

  /** `SELECT … WHERE key = k`, first row. */
  function Lookup<T, K(==)>(t: seq<T>, key: T -> K, k: K): (r: Option<T>)
    ensures r.Some? ==> r.value in t && key(r.value) == k
    ensures r.None? <==> forall x :: x in t ==> key(x) != k
  {
    if t == [] then None
    else if key(t[0]) == k then Some(t[0])
    else Lookup(t[1..], key, k)
  }

  /** Under a uniqueness constraint the row found by key is the only one. */
  lemma LookupUnique<T, K>(t: seq<T>, key: T -> K, x: T)
    requires UniqueBy(t, key) && x in t
    ensures Lookup(t, key, key(x)) == Some(x)
  {
    var r := Lookup(t, key, key(x));
    var i :| 0 <= i < |t| && t[i] == x;
    var j :| 0 <= j < |t| && t[j] == r.value;
    assert !(i < j) && !(j < i);
  }

  /** Prepending a row whose key is fresh keeps the keys unique. */
  lemma UniqueCons<T, K>(x: T, t: seq<T>, key: T -> K)
    requires UniqueBy(t, key)
    requires forall y :: y in t ==> key(y) != key(x)
    ensures UniqueBy([x] + t, key)
  {
    var s := [x] + t;
    forall i, j | 0 <= i < j < |s|
      ensures key(s[i]) != key(s[j])
    {
      if i == 0 {
        assert s[j] == t[j - 1] && s[j] in t;
      } else {
        assert s[i] == t[i - 1] && s[j] == t[j - 1];
      }
    }
  }

  /** `INSERT`: the row goes to the end of the table. */
  lemma UniqueAppend<T, K>(t: seq<T>, key: T -> K, x: T)
    requires UniqueBy(t, key)
    requires forall y :: y in t ==> key(y) != key(x)
    ensures UniqueBy(t + [x], key)
  {
    var s := t + [x];
    forall i, j | 0 <= i < j < |s|
      ensures key(s[i]) != key(s[j])
    {
      if j == |t| {
        assert s[i] == t[i] && s[i] in t;
      } else {
        assert s[i] == t[i] && s[j] == t[j];
      }
    }
  }

  /** `DELETE … WHERE key = k`: every other row, in order. */
  function Without<T, K(==)>(t: seq<T>, key: T -> K, k: K): (r: seq<T>)
    ensures forall x :: x in r ==> x in t && key(x) != k
    ensures forall x :: x in t && key(x) != k ==> x in r
  {
    Filter(t, (x: T) => key(x) != k)
  }

  /** Removing rows keeps any uniqueness constraint. */
  lemma {:induction false} UniqueFilter<T, K>(t: seq<T>, key: T -> K, p: T -> bool)
    requires UniqueBy(t, key)
    ensures UniqueBy(Filter(t, p), key)
  {
    if t != [] {
      assert UniqueBy(t[1..], key) by {
        forall i, j | 0 <= i < j < |t[1..]|
          ensures key(t[1..][i]) != key(t[1..][j])
        {
          assert t[1..][i] == t[i + 1] && t[1..][j] == t[j + 1];
        }
      }
      UniqueFilter(t[1..], key, p);
      if p(t[0]) {
        forall y | y in Filter(t[1..], p)
          ensures key(y) != key(t[0])
        {
          var j :| 0 <= j < |t[1..]| && t[1..][j] == y;
          assert t[j + 1] == y;
        }
        UniqueCons(t[0], Filter(t[1..], p), key);
      }
    }
  }

  lemma UniqueWithout<T, K>(t: seq<T>, key: T -> K, k: K)
    requires UniqueBy(t, key)
    ensures UniqueBy(Without(t, key, k), key)
  {
    UniqueFilter(t, key, (x: T) => key(x) != k);
  }

  /** `UPDATE … WHERE key = key(row)`: the row with that key becomes `row`,
      in place. */
  function Replace<T, K(==)>(t: seq<T>, key: T -> K, row: T): (r: seq<T>)
    ensures |r| == |t|
    ensures forall i :: 0 <= i < |t| ==> r[i] == (if key(t[i]) == key(row) then row else t[i])
  {
    seq(|t|, i requires 0 <= i < |t| => if key(t[i]) == key(row) then row else t[i])
  }

  /** Replacing keeps every key where it was, so it keeps uniqueness, and
      every other key still finds its old row. */
  lemma ReplaceLookup<T, K>(t: seq<T>, key: T -> K, row: T, k: K)
    requires UniqueBy(t, key)
    ensures UniqueBy(Replace(t, key, row), key)
    ensures k != key(row) ==> Lookup(Replace(t, key, row), key, k) == Lookup(t, key, k)
    ensures Lookup(t, key, key(row)).Some? ==> Lookup(Replace(t, key, row), key, key(row)) == Some(row)
  {
    var r := Replace(t, key, row);
    assert forall i :: 0 <= i < |t| ==> key(r[i]) == key(t[i]);
    if k != key(row) {
      ReplaceLookupOther(t, key, row, k);
    }
    if Lookup(t, key, key(row)).Some? {
      var x := Lookup(t, key, key(row)).value;
      var i :| 0 <= i < |t| && t[i] == x;
      assert r[i] == row;
      LookupUnique(r, key, row);
    }
  }

  lemma {:induction false} ReplaceLookupOther<T, K>(t: seq<T>, key: T -> K, row: T, k: K)
    requires k != key(row)
    ensures Lookup(Replace(t, key, row), key, k) == Lookup(t, key, k)
  {
    if t != [] {
      ReplaceLookupOther(t[1..], key, row, k);
      assert Replace(t, key, row)[1..] == Replace(t[1..], key, row);
    }
  }

  /** After an `INSERT` of a row with a fresh key, that key finds the new
      row and every other key finds what it found before. */
  lemma {:induction false} LookupAppend<T, K>(t: seq<T>, key: T -> K, x: T, k: K)
    requires Lookup(t, key, key(x)).None?
    ensures Lookup(t + [x], key, k) == if k == key(x) then Some(x) else Lookup(t, key, k)
  {
    if t == [] {
      assert [] + [x] == [x];
    } else {
      assert (t + [x])[1..] == t[1..] + [x];
      LookupAppend(t[1..], key, x, k);
    }
  }

  /** After a `DELETE` by key, that key finds nothing and every other key
      finds what it found before. */
  lemma LookupWithout<T, K>(t: seq<T>, key: T -> K, k: K, k2: K)
    requires UniqueBy(t, key)
    ensures Lookup(Without(t, key, k), key, k2) == if k2 == k then None else Lookup(t, key, k2)
  {
    var w := Without(t, key, k);
    UniqueWithout(t, key, k);
    if k2 != k {
      match Lookup(t, key, k2)
      case Some(x) => LookupUnique(w, key, x);
      case None =>
    }
  }

  /** Writing back the row a key already finds changes nothing. */
  lemma ReplaceSame<T, K>(t: seq<T>, key: T -> K, row: T)
    requires UniqueBy(t, key)
    requires Lookup(t, key, key(row)) == Some(row)
    ensures Replace(t, key, row) == t
  {
    forall i | 0 <= i < |t| && key(t[i]) == key(row)
      ensures t[i] == row
    {
      LookupUnique(t, key, t[i]);
    }
  }
}
