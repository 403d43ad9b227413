/** `frontend/src/helpers/filterDataByDateRange.js`: the chart's date-range
    filter.

    Dates are read with `new Date(…).getTime()`, given here as `parse`: a
    millisecond count, or `None` for an invalid date (`NaN`, which fails
    every comparison).  `null` and `undefined` inputs are `None`.
 */
module DateRangeFilter {
  import opened Common
  import opened Seqs

  /** A bound that JavaScript treats as given: not `null`, not `undefined`,
      not the empty string. */
  predicate Given(bound: Option<string>)
  {
    bound.Some? && bound.value != ""
  }

  /** The early return: no data, no points, or a bound missing. */
  predicate Unfiltered<T>(data: Option<seq<T>>, start: Option<string>, end: Option<string>)
  {
    data.None? || data.value == [] || !Given(start) || !Given(end)
  }

  /** A point's date lies between the two bounds, inclusive, all three
      being valid dates. */
  predicate InRange(date: string, start: string, end: string, parse: string -> Option<int>)
  {
    parse(date).Some? && parse(start).Some? && parse(end).Some?
    && parse(start).value <= parse(date).value <= parse(end).value
  }

  /** `filterDataByDateRange(data, startDate, endDate)` */
  function FilterByDateRange<T(!new)>(data: Option<seq<T>>, start: Option<string>, end: Option<string>,
                                dateOf: T -> string, parse: string -> Option<int>): (r: Option<seq<T>>)
    ensures Unfiltered(data, start, end) ==> r == data
    ensures !Unfiltered(data, start, end) ==>
              && r.Some?
              && IsSubsequence(r.value, data.value)
              && (forall x :: x in r.value <==> x in data.value && InRange(dateOf(x), start.value, end.value, parse))
              && forall x :: multiset(r.value)[x] ==
                   if InRange(dateOf(x), start.value, end.value, parse) then multiset(data.value)[x] else 0
  {
    if Unfiltered(data, start, end) then data
    else
      var keep := (x: T) => InRange(dateOf(x), start.value, end.value, parse);
      FilterIsSubsequence(data.value, keep);
      assert forall x :: x in data.value && keep(x) ==> x in Filter(data.value, keep) by {
        forall x | x in data.value && keep(x)
          ensures x in Filter(data.value, keep)
        {
          var i :| 0 <= i < |data.value| && data.value[i] == x;
        }
      }
      assert forall x :: multiset(Filter(data.value, keep))[x] == if keep(x) then multiset(data.value)[x] else 0 by {
        forall x { FilterMultiset(data.value, keep, x); }
      }
      Some(Filter(data.value, keep))
  }

  /** Filtering an already filtered series again with the same bounds
      changes nothing. */
  lemma FilterTwice<T(!new)>(data: seq<T>, start: string, end: string, dateOf: T -> string, parse: string -> Option<int>)
    requires data != [] && start != "" && end != ""
    requires FilterByDateRange(Some(data), Some(start), Some(end), dateOf, parse).value != []
    ensures var once := FilterByDateRange(Some(data), Some(start), Some(end), dateOf, parse);
            FilterByDateRange(once, Some(start), Some(end), dateOf, parse) == once
  {
    FilterIdempotent(data, (x: T) => InRange(dateOf(x), start, end, parse));
  }

  /** A bound that is not a valid date empties the series rather than
      leaving it unfiltered. */
  lemma InvalidBoundEmpties<T(!new)>(data: seq<T>, start: string, end: string, dateOf: T -> string, parse: string -> Option<int>)
    requires data != [] && start != "" && end != ""
    requires parse(start).None? || parse(end).None?
    ensures FilterByDateRange(Some(data), Some(start), Some(end), dateOf, parse) == Some([])
  {
  }
}
