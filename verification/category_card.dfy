/** The description line of `frontend/src/pages/categories/CategoryCard.jsx`:
    descriptions longer than 120 characters are cut to 120 and marked with
    an ellipsis.

    Lengths are counted in characters; JavaScript counts UTF-16 code units.
 */
module CategoryCard {
  import opened Common

  const DescriptionLimit: nat := 120

  const Ellipsis: string := "..."

  /** `category.description?.length > 120 ? … : category.description` */
  function ShownDescription(description: Option<string>): (r: Option<string>)
    ensures r.Some? <==> description.Some?
    ensures r.Some? ==> |r.value| <= DescriptionLimit + |Ellipsis|
    ensures r.Some? && |description.value| <= DescriptionLimit ==> r == description
    ensures r.Some? && |description.value| > DescriptionLimit ==>
              && |r.value| == DescriptionLimit + |Ellipsis|
              && r.value[..DescriptionLimit] == description.value[..DescriptionLimit]
              && r.value[DescriptionLimit..] == Ellipsis
  {
    match description
    case None => None
    case Some(d) => if |d| > DescriptionLimit then Some(d[..DescriptionLimit] + Ellipsis) else Some(d)
  }

  /** Shortening a shown description again changes nothing. */
  lemma ShownIdempotent(description: Option<string>)
    ensures ShownDescription(ShownDescription(description)) == ShownDescription(description)
  {
    if description.Some? && |description.value| > DescriptionLimit {
      var d := description.value;
      assert (d[..DescriptionLimit] + Ellipsis)[..DescriptionLimit] == d[..DescriptionLimit];
    }
  }

  /** What is shown is the description cut at some length `k`, followed by
      the ellipsis exactly when text was cut (`k < |d|`); text is cut exactly
      when the description is longer than the limit. */
  lemma ShownIsPrefix(d: string)
    ensures var r := ShownDescription(Some(d)).value;
            exists k :: && 0 <= k <= |d|
                        && (k == |d| <==> |d| <= DescriptionLimit)
                        && (k == |d| ==> r == d)
                        && (k < |d| ==> r == d[..k] + Ellipsis)
  {
    var r := ShownDescription(Some(d)).value;
    if |d| > DescriptionLimit {
      assert r == d[..DescriptionLimit] + Ellipsis;
    } else {
      assert r == d[..|d|];
    }
  }

  /** A cut description can read exactly like the original: 120 characters
      followed by "..." are shown unchanged, although text was cut. */
  lemma CutMayLookUncut()
    ensures var d := seq(DescriptionLimit, _ => 'a') + Ellipsis;
            |d| > DescriptionLimit && ShownDescription(Some(d)).value == d
  {
    var d := seq(DescriptionLimit, _ => 'a') + Ellipsis;
    assert d[..DescriptionLimit] == seq(DescriptionLimit, _ => 'a');
  }
}
