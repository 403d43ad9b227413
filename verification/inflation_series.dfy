/** `frontend/src/helpers/processInflationData.js`: API rows turned into
    chart points, oldest first.

    `new Date(point.date)` is given as `parseDate` (a millisecond count, or
    `None` for an invalid date) and `parseFloat(point.value)` as
    `parseNumber` (`None` for `NaN`).
 */
module InflationSeries {
  import opened Common
  import opened Seqs

  /** A row as the API sends it: the date and the value as strings. */
  datatype ApiPoint = ApiPoint(id: int, trackedItemId: int, date: string, value: string)

  /** The same row with its date and value converted; the other fields are
      copied (`...point`). */
  datatype ChartPoint = ChartPoint(id: int, trackedItemId: int, time: Option<int>, value: Option<real>)

  function Convert(p: ApiPoint, parseDate: string -> Option<int>, parseNumber: string -> Option<real>): (q: ChartPoint)
  {
    ChartPoint(p.id, p.trackedItemId, parseDate(p.date), parseNumber(p.value))
  }

  /** The `map` callback. */
  function Converter(parseDate: string -> Option<int>, parseNumber: string -> Option<real>): ApiPoint -> ChartPoint
  {
    (p: ApiPoint) => Convert(p, parseDate, parseNumber)
  }

  /** The comparator's key.  `a.date - b.date` is `NaN` when either date is
      invalid, and the order the engine then produces is not specified;
      this model places such points as if dated 0. */
  function TimeKey(q: ChartPoint): int
  {
    if q.time.Some? then q.time.value else 0
  }

  /** `processInflationData(data)` */
  function Process(data: Option<seq<ApiPoint>>, parseDate: string -> Option<int>, parseNumber: string -> Option<real>): (r: seq<ChartPoint>)
    ensures data.None? || data.value == [] ==> r == []
    ensures data.Some? ==> |r| == |data.value|
    ensures data.Some? ==>
              multiset(r) == multiset(Map(data.value, Converter(parseDate, parseNumber)))
    ensures data.Some? ==>
              forall q :: q in r ==> exists p :: p in data.value && q == Convert(p, parseDate, parseNumber)
    ensures data.Some? ==>
              forall p :: p in data.value ==> Convert(p, parseDate, parseNumber) in r
    ensures forall i, j :: 0 <= i < j < |r| && r[i].time.Some? && r[j].time.Some? ==> r[i].time.value <= r[j].time.value
  {
    if data.None? || data.value == [] then []
    else
      var f := Converter(parseDate, parseNumber);
      var points := Map(data.value, f);
      SortedPoints(points);
      var r := Sort(points, ByKey(TimeKey));
      assert forall i :: 0 <= i < |points| ==> points[i] == Convert(data.value[i], parseDate, parseNumber);
      assert forall q :: q in r ==> exists p :: p in data.value && q == Convert(p, parseDate, parseNumber) by {
        forall q | q in r
          ensures exists p :: p in data.value && q == Convert(p, parseDate, parseNumber)
        {
          var i :| 0 <= i < |points| && points[i] == q;
          assert data.value[i] in data.value;
        }
      }
      assert forall p :: p in data.value ==> Convert(p, parseDate, parseNumber) in r by {
        forall p | p in data.value
          ensures Convert(p, parseDate, parseNumber) in r
        {
          var i :| 0 <= i < |data.value| && data.value[i] == p;
          assert points[i] in points;
        }
      }
      r
  }

  /** The sorted points are the points, ordered by their comparator key. */
  lemma SortedPoints(points: seq<ChartPoint>)
    ensures multiset(Sort(points, ByKey(TimeKey))) == multiset(points)
    ensures forall q :: q in Sort(points, ByKey(TimeKey)) <==> q in points
    ensures forall i, j :: 0 <= i < j < |points| ==>
              TimeKey(Sort(points, ByKey(TimeKey))[i]) <= TimeKey(Sort(points, ByKey(TimeKey))[j])
  {
    SortByKey(points, TimeKey);
    SortMembers(points, ByKey(TimeKey));
  }

  /** Rows that already arrive in date order, as the backend's `ORDER BY
      date` sends them, keep that order. */
  lemma SortedInputKeepsOrder(data: seq<ApiPoint>, parseDate: string -> Option<int>, parseNumber: string -> Option<real>)
    requires data != []
    requires forall i, j :: 0 <= i < j < |data| ==>
               parseDate(data[i].date).Some? && parseDate(data[j].date).Some?
               && parseDate(data[i].date).value <= parseDate(data[j].date).value
    ensures Process(Some(data), parseDate, parseNumber) == Map(data, Converter(parseDate, parseNumber))
  {
    var points := Map(data, Converter(parseDate, parseNumber));
    assert SortedBy(points, ByKey(TimeKey)) by {
      forall i, j | 0 <= i < j < |points|
        ensures TimeKey(points[i]) <= TimeKey(points[j])
      {
        assert points[i] == Convert(data[i], parseDate, parseNumber);
        assert points[j] == Convert(data[j], parseDate, parseNumber);
      }
    }
    SortAlreadySorted(points, ByKey(TimeKey));
  }
}
