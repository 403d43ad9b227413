/** `backend/routes/inflation.js`, mounted at `/inflation`: three public
    reads of the observations table. */
module InflationRoutes {
  import opened Common
  import opened Http
  import Text
  import Store
  import InflationData

  /** A query-string parameter that is present and not empty. */
  predicate QueryGiven(query: map<string, string>, key: string)
  {
    key in query && query[key] != ""
  }

  /** `GET /latest`: the newest observation of every item; 404 only when
      there are no observations at all. */
  function Latest(db: Store.Db): (r: Reply)
    ensures r.db == db
    ensures r.response.status == 404 <==> db.observations == []
    ensures r.response.status != 404 ==> r.response.status == 200 && r.response.body.DataBody?
    ensures r.response.status == 200 ==>
              && (forall a :: a in r.response.body.data ==> a in db.observations)
              && (forall y :: y in db.observations ==> InflationData.HasItem(r.response.body.data, y.trackedItemId))
              && (forall a, y :: a in r.response.body.data && y in db.observations && a.trackedItemId == y.trackedItemId
                    ==> y.date <= a.date)
    ensures r.response.status == 200 ==>
              forall i, j :: 0 <= i < j < |r.response.body.data| ==>
                r.response.body.data[i].trackedItemId < r.response.body.data[j].trackedItemId
  {
    Reply(Respond(InflationData.GetLatestForAll(db.observations), 200,
                  (s: seq<InflationData.Observation>) => DataBody(s)), db)
  }

  /** `GET /:itemId/range?start=…&end=…`: 400 unless both bounds are
      given and nonempty; a path or a bound PostgreSQL cannot read as an
      integer or a date is an error without a status (500); otherwise the
      item's observations within the inclusive range, oldest first, or 404
      when there are none.  `parseDate` is PostgreSQL's reading of a date
      literal, as a day number. */
  function Range(itemId: string, query: map<string, string>, parseDate: string -> Option<int>, db: Store.Db): (r: Reply)
    ensures r.db == db
    ensures r.response.status == 400 <==> !QueryGiven(query, "start") || !QueryGiven(query, "end")
    ensures r.response.status == 200 <==>
              && QueryGiven(query, "start") && QueryGiven(query, "end")
              && Text.PgToInt(itemId).Some?
              && parseDate(query["start"]).Some? && parseDate(query["end"]).Some?
              && exists o :: o in db.observations && o.trackedItemId == Text.PgToInt(itemId).value
                            && parseDate(query["start"]).value <= o.date <= parseDate(query["end"]).value
    ensures r.response.status == 200 ==>
              && r.response.body.DataBody?
              && (forall o :: o in r.response.body.data <==>
                    o in db.observations && o.trackedItemId == Text.PgToInt(itemId).value
                    && parseDate(query["start"]).value <= o.date <= parseDate(query["end"]).value)
              && (forall o :: multiset(r.response.body.data)[o] ==
                    if o.trackedItemId == Text.PgToInt(itemId).value
                       && parseDate(query["start"]).value <= o.date <= parseDate(query["end"]).value
                    then multiset(db.observations)[o] else 0)
              && forall i, j :: 0 <= i < j < |r.response.body.data| ==> r.response.body.data[i].date <= r.response.body.data[j].date
  {
    if !QueryGiven(query, "start") || !QueryGiven(query, "end") then
      Reply(ErrorResponse(BadRequest([])), db)
    else
      Reply(Respond(RangeData(itemId, query["start"], query["end"], parseDate, db.observations), 200,
                    (s: seq<InflationData.Observation>) => DataBody(s)), db)
  }

  /** The model call behind the range route, with its parameters cast. */
  function RangeData(itemId: string, start: string, end: string, parseDate: string -> Option<int>,
                     t: InflationData.Table): (r: Result<seq<InflationData.Observation>>)
    ensures r.Err? ==> r.error == NotFound || r.error == Unexpected
    ensures r.Err? && r.error == Unexpected <==>
              Text.PgToInt(itemId).None? || parseDate(start).None? || parseDate(end).None?
    ensures Text.PgToInt(itemId).Some? && parseDate(start).Some? && parseDate(end).Some? ==>
              r == InflationData.FindByItemAndRange(t, Text.PgToInt(itemId).value, parseDate(start).value, parseDate(end).value)
  {
    var id :- PathInt(itemId);
    if parseDate(start).None? || parseDate(end).None? then Err(Unexpected)
    else InflationData.FindByItemAndRange(t, id, parseDate(start).value, parseDate(end).value)
  }

  /** `GET /:itemId`: all of the item's observations, oldest first; 404
      when there are none. */
  function ItemData(itemId: string, db: Store.Db): (r: Reply)
    ensures r.db == db
    ensures Text.PgToInt(itemId).None? ==> r.response == ErrorResponse(Unexpected)
    ensures Text.PgToInt(itemId).Some? ==>
              (r.response.status == 404 <==> forall o :: o in db.observations ==> o.trackedItemId != Text.PgToInt(itemId).value)
    ensures Text.PgToInt(itemId).Some? && (exists o :: o in db.observations && o.trackedItemId == Text.PgToInt(itemId).value) ==>
              r.response.status == 200
    ensures r.response.status == 200 ==>
              && r.response.body.DataBody?
              && (forall o :: o in r.response.body.data <==> o in db.observations && o.trackedItemId == Text.PgToInt(itemId).value)
              && (forall o :: multiset(r.response.body.data)[o] ==
                    if o.trackedItemId == Text.PgToInt(itemId).value then multiset(db.observations)[o] else 0)
              && forall i, j :: 0 <= i < j < |r.response.body.data| ==> r.response.body.data[i].date <= r.response.body.data[j].date
  {
    match PathInt(itemId)
    case Err(e) => Reply(ErrorResponse(e), db)
    case Ok(id) =>
      Reply(Respond(InflationData.FindByItemId(db.observations, id), 200,
                    (s: seq<InflationData.Observation>) => DataBody(s)), db)
  }

  /** A missing or empty bound is rejected before the path is read: even
      an item id that is not a number gets 400, not 500. */
  lemma BoundsCheckedFirst(itemId: string, query: map<string, string>, parseDate: string -> Option<int>, db: Store.Db)
    requires "end" !in query
    ensures Range(itemId, query, parseDate, db).response == ErrorResponse(BadRequest([]))
  {
  }
}
