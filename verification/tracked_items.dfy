/** `backend/models/trackedItem.js`: the `tracked_items` table. */
module TrackedItems {
  import opened Common
  import opened Seqs
  import opened Tables
  import Text

  datatype TrackedItem = TrackedItem(id: int, categoryId: int, name: string, seriesId: string, createdAt: int)

  type Table = seq<TrackedItem>

  function Id(t: TrackedItem): int
  {
    t.id
  }

  function Name(t: TrackedItem): string
  {
    t.name
  }

  ghost predicate Valid(t: Table)
  {
    UniqueBy(t, Id)
  }

  /** `findAll()`: every item, ordered by name; no items is an empty list,
      not an error. */
  function FindAll(t: Table): (r: seq<TrackedItem>)
    ensures multiset(r) == multiset(t)
    ensures forall x :: x in r <==> x in t
    ensures forall i, j :: 0 <= i < j < |r| ==> Text.LexLe(r[i].name, r[j].name)
  {
    SortByText(t, Name);
    Sort(t, ByText(Name))
  }

  /** `get(id)` */
  function Get(t: Table, id: int): (r: Result<TrackedItem>)
    ensures r.Ok? ==> r.value in t && r.value.id == id
    ensures r.Err? <==> forall x :: x in t ==> x.id != id
    ensures r.Err? ==> r.error == NotFound
  {
    match Lookup(t, Id, id)
    case Some(x) => Ok(x)
    case None => Err(NotFound)
  }

  /** Under the primary key, `get` finds exactly the stored item. */
  lemma GetStored(t: Table, x: TrackedItem)
    requires Valid(t) && x in t
    ensures Get(t, x.id) == Ok(x)
  {
    LookupUnique(t, Id, x);
  }
}
