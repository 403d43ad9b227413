/** The search box of `frontend/src/pages/categories/CategoryList.jsx`:
    case-insensitive substring search over a category's name and
    description.

    Lower-casing is ASCII only; `toLowerCase` also folds other scripts.
 */
module CategoryList {
  import opened Common
  import opened Seqs
  import opened Text
  import Categories

  /** The filter callback: the term occurs in the lower-cased name, or in
      the lower-cased description when there is a nonempty one. */
  predicate Matches(c: Categories.Category, term: string)
  {
    Contains(Lower(c.name), Lower(term))
    || (c.description.Some? && c.description.value != "" && Contains(Lower(c.description.value), Lower(term)))
  }

  /** The `useEffect` on `searchTerm`: everything for the empty term,
      otherwise the matching categories in list order. */
  function Search(categories: seq<Categories.Category>, term: string): (r: seq<Categories.Category>)
    ensures term == "" ==> r == categories
    ensures IsSubsequence(r, categories)
    ensures forall c :: c in r <==> c in categories && Matches(c, term)
    ensures forall c :: multiset(r)[c] == if Matches(c, term) then multiset(categories)[c] else 0
  {
    if term == "" then
      assert forall c :: Matches(c, term) by {
        forall c: Categories.Category
          ensures Matches(c, term)
        {
          assert OccursAt(Lower(c.name), Lower(term), 0);
        }
      }
      IsSubsequenceRefl(categories);
      categories
    else
      var keep := (c: Categories.Category) => Matches(c, term);
      FilterIsSubsequence(categories, keep);
      assert forall c :: c in categories && keep(c) ==> c in Filter(categories, keep) by {
        forall c | c in categories && keep(c)
          ensures c in Filter(categories, keep)
        {
          var i :| 0 <= i < |categories| && categories[i] == c;
        }
      }
      assert forall c :: multiset(Filter(categories, keep))[c] == if keep(c) then multiset(categories)[c] else 0 by {
        forall c { FilterMultiset(categories, keep, c); }
      }
      Filter(categories, keep)
  }

  lemma {:induction false} IsSubsequenceRefl<T>(s: seq<T>)
    ensures IsSubsequence(s, s)
  {
    if s != [] {
      IsSubsequenceRefl(s[1..]);
    }
  }

  /** The search ignores the case of the term. */
  lemma CaseOfTermIgnored(categories: seq<Categories.Category>, term: string)
    ensures Search(categories, Lower(term)) == Search(categories, term)
  {
    assert Lower(Lower(term)) == Lower(term);
    assert (term == "") == (Lower(term) == "");
    if term != "" {
      var k1 := (c: Categories.Category) => Matches(c, term);
      var k2 := (c: Categories.Category) => Matches(c, Lower(term));
      assert forall c :: k1(c) == k2(c);
      FilterSame(categories, k1, k2);
    }
  }

  lemma {:induction false} FilterSame<T>(s: seq<T>, p: T -> bool, q: T -> bool)
    requires forall x :: p(x) == q(x)
    ensures Filter(s, p) == Filter(s, q)
  {
    if s != [] {
      FilterSame(s[1..], p, q);
    }
  }

  /** Narrowing the term never brings a category back: whatever matches a
      longer term also matches any term it contains. */
  lemma NarrowingShrinks(c: Categories.Category, term: string, longer: string)
    requires Contains(longer, term) && Matches(c, longer)
    ensures Matches(c, term)
  {
    var i :| OccursAt(longer, term, i);
    assert OccursAt(Lower(longer), Lower(term), i) by {
      assert Lower(longer)[i..i + |term|] == Lower(longer[i..i + |term|]);
    }
    if Contains(Lower(c.name), Lower(longer)) {
      ContainsTransitive(Lower(c.name), Lower(longer), Lower(term), i);
    } else {
      ContainsTransitive(Lower(c.description.value), Lower(longer), Lower(term), i);
    }
  }

  lemma ContainsTransitive(s: string, t: string, u: string, i: int)
    requires Contains(s, t) && OccursAt(t, u, i)
    ensures Contains(s, u)
  {
    var j :| OccursAt(s, t, j);
    var a, b := s[j + i..j + i + |u|], t[i..i + |u|];
    forall k | 0 <= k < |u|
      ensures a[k] == b[k]
    {
      assert s[j..j + |t|][i + k] == t[i + k];
    }
    assert a == b;
    assert OccursAt(s, u, j + i);
  }
}
