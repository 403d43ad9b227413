/** The catalog reads, `backend/routes/categories.js` mounted at
    `/categories` and `backend/routes/trackedItems.js` mounted at `/items`:
    each passes the model's answer through. */
module CatalogRoutes {
  import opened Common
  import opened Http
  import Text
  import Store
  import Categories
  import TrackedItems

  /** `GET /categories`: every category by name; 404 when there are none. */
  function ListCategories(db: Store.Db): (r: Reply)
    ensures r.db == db
    ensures r.response.status == 404 <==> db.categories == []
    ensures db.categories != [] ==> r.response.status == 200
    ensures r.response.status == 200 ==>
              r.response.body.CategoriesBody? && multiset(r.response.body.categories) == multiset(db.categories)
    ensures r.response.status == 200 ==>
              forall i, j :: 0 <= i < j < |r.response.body.categories| ==>
                Text.LexLe(r.response.body.categories[i].name, r.response.body.categories[j].name)
  {
    Reply(Respond(Categories.FindAll(db.categories), 200, (cs: seq<Categories.Category>) => CategoriesBody(cs)), db)
  }

  /** `GET /categories/:id` */
  function GetCategory(id: string, db: Store.Db): (r: Reply)
    ensures r.db == db
    ensures Text.PgToInt(id).None? ==> r.response == ErrorResponse(Unexpected)
    ensures Text.PgToInt(id).Some? ==>
              (r.response.status == 404 <==> forall c :: c in db.categories ==> c.id != Text.PgToInt(id).value)
    ensures Text.PgToInt(id).Some? && (exists c :: c in db.categories && c.id == Text.PgToInt(id).value) ==>
              r.response.status == 200
    ensures r.response.status == 200 ==>
              r.response.body.CategoryBody? && r.response.body.category in db.categories
              && r.response.body.category.id == Text.PgToInt(id).value
  {
    match PathInt(id)
    case Err(e) => Reply(ErrorResponse(e), db)
    case Ok(n) => Reply(Respond(Categories.Get(db.categories, n), 200, (c: Categories.Category) => CategoryBody(c)), db)
  }

  /** `getWithItems` on the cast id, answered as the route answers. */
  function WithItemsStep(n: int, db: Store.Db): (r: Reply)
    requires Categories.Valid(db.categories)
    ensures r.db == db
    ensures r.response.status == 200 || r.response.status == 404
    ensures r.response.status == 404 <==> forall c :: c in db.categories ==> c.id != n
    ensures r.response.status == 200 ==>
              && r.response.body.CategoryWithItemsBody?
              && exists c :: c in db.categories && c.id == n
                             && r.response.body.categoryWithItems
                                == Categories.CategoryWithItems(c.id, c.name, c.description, Categories.ItemsIn(c, db.items))
  {
    Categories.GetWithItemsFound(db.categories, db.items, n);
    Reply(Respond(Categories.GetWithItems(db.categories, db.items, n), 200,
                  (c: Categories.CategoryWithItems) => CategoryWithItemsBody(c)), db)
  }

  /** `GET /categories/:id/items`: the category with its items; 404 for an
      unknown category, a category without items giving an empty list. */
  function GetCategoryWithItems(id: string, db: Store.Db): (r: Reply)
    requires Categories.Valid(db.categories)
    ensures r.db == db
    ensures Text.PgToInt(id).None? ==> r.response == ErrorResponse(Unexpected)
    ensures Text.PgToInt(id).Some? ==>
              (r.response.status == 404 <==> forall c :: c in db.categories ==> c.id != Text.PgToInt(id).value)
    ensures Text.PgToInt(id).Some? && (exists c :: c in db.categories && c.id == Text.PgToInt(id).value) ==>
              r.response.status == 200
    ensures r.response.status == 200 ==>
              && r.response.body.CategoryWithItemsBody?
              && exists c :: c in db.categories && c.id == Text.PgToInt(id).value
                             && r.response.body.categoryWithItems
                                == Categories.CategoryWithItems(c.id, c.name, c.description, Categories.ItemsIn(c, db.items))
  {
    match PathInt(id)
    case Err(e) => Reply(ErrorResponse(e), db)
    case Ok(n) => WithItemsStep(n, db)
  }

  /** `GET /items`: every tracked item by name, always 200. */
  function ListItems(db: Store.Db): (r: Reply)
    ensures r.db == db
    ensures r.response.status == 200 && r.response.body.TrackedItemsBody?
    ensures multiset(r.response.body.trackedItems) == multiset(db.items)
    ensures forall i, j :: 0 <= i < j < |r.response.body.trackedItems| ==>
              Text.LexLe(r.response.body.trackedItems[i].name, r.response.body.trackedItems[j].name)
  {
    Reply(Response(200, TrackedItemsBody(TrackedItems.FindAll(db.items))), db)
  }

  /** `GET /items/:id` */
  function GetItem(id: string, db: Store.Db): (r: Reply)
    ensures r.db == db
    ensures Text.PgToInt(id).None? ==> r.response == ErrorResponse(Unexpected)
    ensures Text.PgToInt(id).Some? ==>
              (r.response.status == 404 <==> forall x :: x in db.items ==> x.id != Text.PgToInt(id).value)
    ensures Text.PgToInt(id).Some? && (exists x :: x in db.items && x.id == Text.PgToInt(id).value) ==>
              r.response.status == 200
    ensures r.response.status == 200 ==>
              r.response.body.TrackedItemBody? && r.response.body.trackedItem in db.items
              && r.response.body.trackedItem.id == Text.PgToInt(id).value
  {
    match PathInt(id)
    case Err(e) => Reply(ErrorResponse(e), db)
    case Ok(n) => Reply(Respond(TrackedItems.Get(db.items, n), 200, (x: TrackedItems.TrackedItem) => TrackedItemBody(x)), db)
  }
}
