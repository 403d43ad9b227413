/** `backend/models/category.js`: the `categories` table and the category
    page's query, a LEFT JOIN of a category with its tracked items that is
    then folded into one nested object.

    The join is computed in table order on both sides; without an ORDER BY
    the database promises no particular row order, and table order is the
    one this model fixes.
 */
module Categories {
  import opened Common
  import opened Seqs
  import opened Tables
  import opened TrackedItems
  import Text

  datatype Category = Category(id: int, name: string, description: Option<string>)

  type Table = seq<Category>

  /** `{ id, name, series_id }` of an item, as nested in the result. */
  datatype ItemSummary = ItemSummary(id: int, name: string, seriesId: string)

  /** One row of the join: the category's columns, and the item's columns,
      all NULL (`None`) on the padding row of a category without items. */
  datatype JoinRow = JoinRow(categoryId: int, categoryName: string, description: Option<string>, item: Option<ItemSummary>)

  /** `{ id, name, description, items }` */
  datatype CategoryWithItems = CategoryWithItems(id: int, name: string, description: Option<string>, items: seq<ItemSummary>)

  function CategoryId(c: Category): int
  {
    c.id
  }

  function CategoryName(c: Category): string
  {
    c.name
  }

  ghost predicate Valid(t: Table)
  {
    UniqueBy(t, CategoryId)
  }

  function Summary(t: TrackedItem): ItemSummary
  {
    ItemSummary(t.id, t.name, t.seriesId)
  }

  /** `findAll()`: every category ordered by name; an empty table is `NotFound`. */
  function FindAll(t: Table): (r: Result<seq<Category>>)
    ensures r.Err? <==> t == []
    ensures r.Err? ==> r.error == NotFound
    ensures r.Ok? ==> multiset(r.value) == multiset(t)
    ensures r.Ok? ==> forall i, j :: 0 <= i < j < |r.value| ==> Text.LexLe(r.value[i].name, r.value[j].name)
  {
    SortByText(t, CategoryName);
    var sorted := Sort(t, ByText(CategoryName));
    if |sorted| == 0 then Err(NotFound) else Ok(sorted)
  }

  /** `get(id)` */
  function Get(t: Table, id: int): (r: Result<Category>)
    ensures r.Ok? ==> r.value in t && r.value.id == id
    ensures r.Err? <==> forall c :: c in t ==> c.id != id
    ensures r.Err? ==> r.error == NotFound
  {
    match Lookup(t, CategoryId, id)
    case Some(c) => Ok(c)
    case None => Err(NotFound)
  }

  /** The join rows of one category: one per item of the category, or a
      single padding row when it has none. */
  function RowsFor(c: Category, items: TrackedItems.Table): (r: seq<JoinRow>)
    ensures r != []
    ensures forall row :: row in r ==> row.categoryId == c.id && row.categoryName == c.name && row.description == c.description
  {
    var mine := Filter(items, (t: TrackedItem) => t.categoryId == c.id);
    if mine == [] then [JoinRow(c.id, c.name, c.description, None)]
    else Map(mine, (t: TrackedItem) => JoinRow(c.id, c.name, c.description, Some(Summary(t))))
  }

  /** `FROM categories AS c LEFT JOIN tracked_items AS t ON c.id = t.category_id
      WHERE c.id = $1` */
  function LeftJoin(cats: Table, items: TrackedItems.Table, id: int): (r: seq<JoinRow>)
    ensures r == [] <==> forall c :: c in cats ==> c.id != id
    ensures forall row :: row in r ==> row.categoryId == id
  {
    if cats == [] then []
    else
      var rest := LeftJoin(cats[1..], items, id);
      assert forall c :: c in cats ==> c == cats[0] || c in cats[1..];
      if cats[0].id == id then RowsFor(cats[0], items) + rest else rest
  }

  /** The non-NULL item columns of the rows, in row order. */
  function ItemsOf(rows: seq<JoinRow>): (r: seq<ItemSummary>)
    ensures |r| <= |rows|
    ensures forall x :: x in r ==> exists row :: row in rows && row.item == Some(x)
    ensures forall row :: row in rows && row.item.Some? ==> row.item.value in r
  {
    if rows == [] then []
    else
      var head := match rows[0].item case Some(x) => [x] case None => [];
      assert forall row :: row in rows ==> row == rows[0] || row in rows[1..];
      head + ItemsOf(rows[1..])
  }

  /** The fold of the join rows into one object: `NotFound` when there are
      none; otherwise the category columns of the first row and the items of
      the rows whose `item_id` is not NULL. */
  function Nest(rows: seq<JoinRow>): (r: Result<CategoryWithItems>)
    ensures r.Err? <==> rows == []
    ensures r.Err? ==> r.error == NotFound
    ensures r.Ok? ==> r.value.id == rows[0].categoryId && r.value.name == rows[0].categoryName
                      && r.value.description == rows[0].description
    ensures r.Ok? ==> forall x :: x in r.value.items <==> exists row :: row in rows && row.item == Some(x)
  {
    if rows == [] then Err(NotFound)
    else Ok(CategoryWithItems(rows[0].categoryId, rows[0].categoryName, rows[0].description, ItemsOf(rows)))
  }

  /** `getWithItems(id)` */
  function GetWithItems(cats: Table, items: TrackedItems.Table, id: int): (r: Result<CategoryWithItems>)
    ensures r.Err? <==> forall c :: c in cats ==> c.id != id
    ensures r.Err? ==> r.error == NotFound
    ensures r.Ok? ==> r.value.id == id
  {
    Nest(LeftJoin(cats, items, id))
  }

  lemma {:induction false} LeftJoinAbsent(cats: Table, items: TrackedItems.Table, id: int)
    requires forall c :: c in cats ==> c.id != id
    ensures LeftJoin(cats, items, id) == []
  {
    if cats != [] {
      LeftJoinAbsent(cats[1..], items, id);
    }
  }

  /** Under the primary key, the join for an existing category is exactly its rows. */
  lemma {:induction false} LeftJoinPresent(cats: Table, items: TrackedItems.Table, c: Category)
    requires Valid(cats) && c in cats
    ensures LeftJoin(cats, items, c.id) == RowsFor(c, items)
  {
    if cats[0] == c {
      assert forall d :: d in cats[1..] ==> d.id != c.id by {
        forall d | d in cats[1..]
          ensures d.id != c.id
        {
          var j :| 0 <= j < |cats[1..]| && cats[1..][j] == d;
          assert cats[j + 1] == d;
        }
      }
      LeftJoinAbsent(cats[1..], items, c.id);
      assert RowsFor(c, items) + [] == RowsFor(c, items);
    } else {
      assert cats[0].id != c.id by {
        var j :| 0 <= j < |cats| && cats[j] == c;
        assert j != 0;
      }
      assert Valid(cats[1..]) by {
        forall i, j | 0 <= i < j < |cats[1..]|
          ensures cats[1..][i].id != cats[1..][j].id
        {
          assert cats[1..][i] == cats[i + 1] && cats[1..][j] == cats[j + 1];
        }
      }
      LeftJoinPresent(cats[1..], items, c);
    }
  }

  /** When every join row carries an item, the items are those rows' items,
      one for one. */
  lemma {:induction false} ItemsOfAllPresent(rows: seq<JoinRow>)
    requires forall i :: 0 <= i < |rows| ==> rows[i].item.Some?
    ensures |ItemsOf(rows)| == |rows|
    ensures forall i :: 0 <= i < |rows| ==> ItemsOf(rows)[i] == rows[i].item.value
  {
    if rows != [] {
      ItemsOfAllPresent(rows[1..]);
      assert ItemsOf(rows) == [rows[0].item.value] + ItemsOf(rows[1..]);
    }
  }

  /** The item columns of the joined rows are the category's items, in order. */
  lemma ItemsOfJoined(c: Category, mine: seq<TrackedItem>)
    ensures ItemsOf(Map(mine, (t: TrackedItem) => JoinRow(c.id, c.name, c.description, Some(Summary(t)))))
            == Map(mine, Summary)
  {
    var rows := Map(mine, (t: TrackedItem) => JoinRow(c.id, c.name, c.description, Some(Summary(t))));
    ItemsOfAllPresent(rows);
  }

  /** The tracked items whose `category_id` is the category's id, projected
      to `{ id, name, series_id }`, in table order. */
  function ItemsIn(c: Category, items: TrackedItems.Table): seq<ItemSummary>
  {
    Map(Filter(items, (t: TrackedItem) => t.categoryId == c.id), Summary)
  }

  /** End to end: the items of an existing category are exactly the tracked
      items whose `category_id` is that category's id, projected to
      `{ id, name, series_id }`, in table order; a category without items
      gets `[]`, the padding row being filtered out. */
  lemma GetWithItemsExact(cats: Table, items: TrackedItems.Table, c: Category)
    requires Valid(cats) && c in cats
    ensures GetWithItems(cats, items, c.id) == Ok(CategoryWithItems(c.id, c.name, c.description, ItemsIn(c, items)))
  {
    LeftJoinPresent(cats, items, c);
    var mine := Filter(items, (t: TrackedItem) => t.categoryId == c.id);
    if mine != [] {
      ItemsOfJoined(c, mine);
    }
  }

  /** Whatever `getWithItems` answers is the nested object of a stored
      category with the requested id. */
  lemma GetWithItemsFound(cats: Table, items: TrackedItems.Table, id: int)
    requires Valid(cats)
    ensures GetWithItems(cats, items, id).Ok? ==>
              exists c :: c in cats && c.id == id
                          && GetWithItems(cats, items, id).value == CategoryWithItems(c.id, c.name, c.description, ItemsIn(c, items))
  {
    if GetWithItems(cats, items, id).Ok? {
      var c :| c in cats && c.id == id;
      GetWithItemsExact(cats, items, c);
    }
  }
}
