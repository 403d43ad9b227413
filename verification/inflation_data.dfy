/** `backend/models/inflationData.js`: the `inflation_data` table of CPI
    observations, one per tracked item and date.

    Dates are day numbers (`int`); the value column is carried but never
    computed with.  The (item, date) pair is unique: the loader upserts with
    `ON CONFLICT (tracked_item_id, date)`.
 */
module InflationData {
  import opened Common
  import opened Seqs
  import opened Tables

  datatype Observation = Observation(id: int, trackedItemId: int, date: int, value: real)

  type Table = seq<Observation>

  function Id(o: Observation): int
  {
    o.id
  }

  function ItemDate(o: Observation): (int, int)
  {
    (o.trackedItemId, o.date)
  }

  function Date(o: Observation): int
  {
    o.date
  }

  ghost predicate Valid(t: Table)
  {
    UniqueBy(t, Id) && UniqueBy(t, ItemDate)
  }

  /** The rows satisfying `keep`, each as often as it occurs in the
      table, oldest first. */
  function Query(t: Table, keep: Observation -> bool): (r: seq<Observation>)
    ensures forall o :: o in r <==> o in t && keep(o)
    ensures forall o :: multiset(r)[o] == if keep(o) then multiset(t)[o] else 0
    ensures forall i, j :: 0 <= i < j < |r| ==> r[i].date <= r[j].date
  {
    var rows := Filter(t, keep);
    forall o
      ensures multiset(rows)[o] == if keep(o) then multiset(t)[o] else 0
    {
      FilterMultiset(t, keep, o);
    }
    assert forall o :: o in t && keep(o) ==> o in rows by {
      forall o | o in t && keep(o)
        ensures o in rows
      {
        var i :| 0 <= i < |t| && t[i] == o;
      }
    }
    SortByKey(rows, Date);
    SortMembers(rows, ByKey(Date));
    Sort(rows, ByKey(Date))
  }

  /** `findByItemId(itemId)`: the item's observations in ascending date
      order; `NotFound` when there are none. */
  function FindByItemId(t: Table, itemId: int): (r: Result<seq<Observation>>)
    ensures r.Err? <==> forall o :: o in t ==> o.trackedItemId != itemId
    ensures r.Err? ==> r.error == NotFound
    ensures r.Ok? ==> forall o :: o in r.value <==> o in t && o.trackedItemId == itemId
    ensures r.Ok? ==> forall o :: multiset(r.value)[o] == if o.trackedItemId == itemId then multiset(t)[o] else 0
    ensures r.Ok? ==> forall i, j :: 0 <= i < j < |r.value| ==> r.value[i].date <= r.value[j].date
  {
    var rows := Query(t, (o: Observation) => o.trackedItemId == itemId);
    if rows == [] then Err(NotFound)
    else
      assert rows[0] in rows;
      Ok(rows)
  }

  /** `findByItemAndRange(itemId, startDate, endDate)`: `date BETWEEN start
      AND end`, inclusive at both ends, ascending; `NotFound` when no row
      falls in the range. */
  function FindByItemAndRange(t: Table, itemId: int, start: int, end: int): (r: Result<seq<Observation>>)
    ensures r.Err? <==> forall o :: o in t && o.trackedItemId == itemId ==> !(start <= o.date <= end)
    ensures r.Err? ==> r.error == NotFound
    ensures r.Ok? ==> forall o :: o in r.value <==> o in t && o.trackedItemId == itemId && start <= o.date <= end
    ensures r.Ok? ==> forall o :: multiset(r.value)[o] ==
                        if o.trackedItemId == itemId && start <= o.date <= end then multiset(t)[o] else 0
    ensures r.Ok? ==> forall i, j :: 0 <= i < j < |r.value| ==> r.value[i].date <= r.value[j].date
  {
    var rows := Query(t, (o: Observation) => o.trackedItemId == itemId && start <= o.date <= end);
    if rows == [] then Err(NotFound)
    else
      assert rows[0] in rows;
      Ok(rows)
  }

  /** Item ids strictly increase along the sequence: one row per item, in
      item order. */
  ghost predicate IncreasingItems(s: seq<Observation>)
  {
    forall i, j :: 0 <= i < j < |s| ==> s[i].trackedItemId < s[j].trackedItemId
  }

  /** In an item-increasing sequence, later rows have larger item ids. */
  lemma IncreasingTail(acc: seq<Observation>, a: Observation)
    requires IncreasingItems(acc) && acc != [] && a in acc[1..]
    ensures acc[0].trackedItemId < a.trackedItemId
  {
    var j :| 0 <= j < |acc[1..]| && acc[1..][j] == a;
    assert acc[j + 1] == a;
  }

  /** ... and no two rows share an item. */
  lemma IncreasingUnique(acc: seq<Observation>, a: Observation, b: Observation)
    requires IncreasingItems(acc) && a in acc && b in acc && a.trackedItemId == b.trackedItemId
    ensures a == b
  {
    var i :| 0 <= i < |acc| && acc[i] == a;
    var j :| 0 <= j < |acc| && acc[j] == b;
    assert !(i < j) && !(j < i);
  }

  /** Some row of `r` belongs to `item`. */
  ghost predicate HasItem(r: seq<Observation>, item: int)
  {
    exists a :: a in r && a.trackedItemId == item
  }

  /** Keeps, per item, the row with the latest date seen so far: `x` is
      merged into `acc`, replacing the row of its item if it is newer. */
  function Upsert(x: Observation, acc: seq<Observation>): seq<Observation>
    decreases |acc|
  {
    if acc == [] then [x]
    else if x.trackedItemId < acc[0].trackedItemId then [x] + acc
    else if x.trackedItemId == acc[0].trackedItemId then
      (if x.date > acc[0].date then [x] else [acc[0]]) + acc[1..]
    else [acc[0]] + Upsert(x, acc[1..])
  }

  /** Every merged row is `x` or came from `acc`. */
  lemma {:induction false} UpsertFrom(x: Observation, acc: seq<Observation>, a: Observation)
    requires a in Upsert(x, acc)
    ensures a == x || a in acc
    decreases |acc|
  {
    if acc != [] && x.trackedItemId > acc[0].trackedItemId && a != acc[0] {
      UpsertFrom(x, acc[1..], a);
    }
  }

  lemma {:induction false} UpsertIncreasing(x: Observation, acc: seq<Observation>)
    requires IncreasingItems(acc)
    ensures IncreasingItems(Upsert(x, acc))
    decreases |acc|
  {
    if acc == [] {
    } else if x.trackedItemId < acc[0].trackedItemId {
      forall a | a in acc
        ensures x.trackedItemId < a.trackedItemId
      {
        if a != acc[0] {
          assert a in acc[1..] by { assert acc == [acc[0]] + acc[1..]; }
          IncreasingTail(acc, a);
        }
      }
    } else if x.trackedItemId == acc[0].trackedItemId {
      forall a | a in acc[1..]
        ensures x.trackedItemId < a.trackedItemId
      {
        IncreasingTail(acc, a);
      }
    } else {
      var rest := Upsert(x, acc[1..]);
      UpsertIncreasing(x, acc[1..]);
      forall a | a in rest
        ensures acc[0].trackedItemId < a.trackedItemId
      {
        UpsertFrom(x, acc[1..], a);
        if a != x {
          IncreasingTail(acc, a);
        }
      }
    }
  }

  /** Every item of `acc` and `x` keeps a row. */
  lemma {:induction false} UpsertCovers(x: Observation, acc: seq<Observation>, y: Observation)
    requires y in acc || y == x
    ensures HasItem(Upsert(x, acc), y.trackedItemId)
    decreases |acc|
  {
    var r := Upsert(x, acc);
    if acc == [] {
      assert r[0] == x;
    } else if x.trackedItemId < acc[0].trackedItemId {
      assert y in r;
    } else if x.trackedItemId == acc[0].trackedItemId {
      if y == x || y == acc[0] {
        assert r[0] in r;
      } else {
        assert y in acc[1..] by { assert acc == [acc[0]] + acc[1..]; }
        assert y in r;
      }
    } else if y == acc[0] {
      assert r[0] == y;
    } else {
      assert y in acc[1..] || y == x by { assert acc == [acc[0]] + acc[1..]; }
      UpsertCovers(x, acc[1..], y);
      var a :| a in Upsert(x, acc[1..]) && a.trackedItemId == y.trackedItemId;
      assert a in r;
    }
  }

  /** The row kept for an item is at least as new as every row of that item
      in `acc` and `x`. */
  lemma {:induction false} UpsertDominates(x: Observation, acc: seq<Observation>, a: Observation, y: Observation)
    requires IncreasingItems(acc)
    requires a in Upsert(x, acc) && (y in acc || y == x) && a.trackedItemId == y.trackedItemId
    ensures y.date <= a.date
    decreases |acc|
  {
    if acc == [] {
    } else if x.trackedItemId < acc[0].trackedItemId {
      if a != x && y != x {
        IncreasingUnique(acc, a, y);
      }
    } else if x.trackedItemId == acc[0].trackedItemId {
      if a != x && a != acc[0] {
        assert a in acc[1..];
        IncreasingTail(acc, a);
      }
    } else if a == acc[0] {
      if y != x {
        IncreasingUnique(acc, a, y);
      }
    } else {
      var rest := Upsert(x, acc[1..]);
      assert a in rest;
      UpsertFrom(x, acc[1..], a);
      if y == acc[0] {
        if a != x {
          IncreasingTail(acc, a);
        }
      } else {
        assert y in acc[1..] || y == x by { assert acc == [acc[0]] + acc[1..]; }
        assert IncreasingItems(acc[1..]) by {
          forall i, j | 0 <= i < j < |acc[1..]|
            ensures acc[1..][i].trackedItemId < acc[1..][j].trackedItemId
          {
            assert acc[1..][i] == acc[i + 1] && acc[1..][j] == acc[j + 1];
          }
        }
        UpsertDominates(x, acc[1..], a, y);
      }
    }
  }

  /** `SELECT DISTINCT ON (tracked_item_id) … ORDER BY tracked_item_id, date DESC`:
      one row per item, in item order, each the newest of its item. */
  function Latest(t: Table): (r: seq<Observation>)
    ensures IncreasingItems(r)
    ensures forall a :: a in r ==> a in t
    ensures forall y :: y in t ==> HasItem(r, y.trackedItemId)
    ensures forall a, y :: a in r && y in t && a.trackedItemId == y.trackedItemId ==> y.date <= a.date
  {
    if t == [] then []
    else
      var acc := Latest(t[1..]);
      LatestStepRows(t, acc);
      LatestStepNewest(t, acc);
      Upsert(t[0], acc)
  }

  /** One step of `Latest`: merging `t[0]` into the result for `t[1..]`
      keeps the rows from `t`, one per item. */
  lemma LatestStepRows(t: Table, acc: seq<Observation>)
    requires t != [] && IncreasingItems(acc)
    requires forall a :: a in acc ==> a in t[1..]
    requires forall y :: y in t[1..] ==> HasItem(acc, y.trackedItemId)
    ensures IncreasingItems(Upsert(t[0], acc))
    ensures forall a :: a in Upsert(t[0], acc) ==> a in t
    ensures forall y :: y in t ==> HasItem(Upsert(t[0], acc), y.trackedItemId)
  {
    var r := Upsert(t[0], acc);
    assert t == [t[0]] + t[1..];
    UpsertIncreasing(t[0], acc);
    forall a | a in r
      ensures a in t
    {
      UpsertFrom(t[0], acc, a);
    }
    forall y | y in t
      ensures HasItem(r, y.trackedItemId)
    {
      if y == t[0] {
        UpsertCovers(t[0], acc, y);
      } else {
        var b :| b in acc && b.trackedItemId == y.trackedItemId;
        UpsertCovers(t[0], acc, b);
      }
    }
  }

  /** ... and each kept row is the newest of its item. */
  lemma LatestStepNewest(t: Table, acc: seq<Observation>)
    requires t != [] && IncreasingItems(acc)
    requires forall y :: y in t[1..] ==> HasItem(acc, y.trackedItemId)
    requires forall a, y :: a in acc && y in t[1..] && a.trackedItemId == y.trackedItemId ==> y.date <= a.date
    ensures forall a, y :: a in Upsert(t[0], acc) && y in t && a.trackedItemId == y.trackedItemId ==> y.date <= a.date
  {
    var r := Upsert(t[0], acc);
    forall a, y | a in r && y in t && a.trackedItemId == y.trackedItemId
      ensures y.date <= a.date
    {
      if y == t[0] {
        UpsertDominates(t[0], acc, a, y);
      } else {
        assert y in t[1..] by { assert t == [t[0]] + t[1..]; }
        var b :| b in acc && b.trackedItemId == y.trackedItemId;
        UpsertDominates(t[0], acc, a, b);
      }
    }
  }

  /** `getLatestForAll()`: for every item, one row with that item's latest
      date, in item order; `NotFound` only when the table is empty. */
  function GetLatestForAll(t: Table): (r: Result<seq<Observation>>)
    ensures r.Err? <==> t == []
    ensures r.Err? ==> r.error == NotFound
    ensures r.Ok? ==> forall i, j :: 0 <= i < j < |r.value| ==> r.value[i].trackedItemId < r.value[j].trackedItemId
    ensures r.Ok? ==> forall a, y :: a in r.value && y in t && a.trackedItemId == y.trackedItemId ==> y.date <= a.date
    ensures r.Ok? ==> forall a :: a in r.value ==> a in t
    ensures r.Ok? ==> forall y :: y in t ==> HasItem(r.value, y.trackedItemId)
  {
    var rows := Latest(t);
    if rows == [] then
      assert forall y :: y !in t;
      Err(NotFound)
    else Ok(rows)
  }

  /** With (item, date) unique, the row reported for an item is the only
      row of that item with the latest date: every other one is older. */
  lemma LatestIsUnique(t: Table, a: Observation, y: Observation)
    requires UniqueBy(t, ItemDate)
    requires GetLatestForAll(t).Ok? && a in GetLatestForAll(t).value
    requires y in t && y.trackedItemId == a.trackedItemId && y != a
    ensures y.date < a.date
  {
    var r := GetLatestForAll(t).value;
    assert a in t by { assert a in r; }
    assert y.date <= a.date by { assert a in r && y in t; }
    if y.date == a.date {
      SameKey(t, a, y);
    }
  }

  lemma SameKey(t: Table, a: Observation, y: Observation)
    requires UniqueBy(t, ItemDate) && a in t && y in t && ItemDate(a) == ItemDate(y)
    ensures a == y
  {
    LookupUnique(t, ItemDate, a);
    LookupUnique(t, ItemDate, y);
  }

  /** The range query is the item query restricted to the range. */
  lemma RangeWithinItem(t: Table, itemId: int, start: int, end: int)
    requires FindByItemAndRange(t, itemId, start, end).Ok?
    ensures FindByItemId(t, itemId).Ok?
    ensures forall o :: o in FindByItemAndRange(t, itemId, start, end).value
                        <==> o in FindByItemId(t, itemId).value && start <= o.date <= end
  {
    var o := FindByItemAndRange(t, itemId, start, end).value[0];
    assert o in t && o.trackedItemId == itemId;
  }
}
