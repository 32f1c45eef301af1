/** The glossary page: the search-and-category filter over the definitions
    and the category badge of each card.  Lower-casing is ASCII. */
module Definitions {
  import opened Common

  datatype Definition = Definition(term: string, category: string, definition: string)

  /** The category of each of the sixteen glossary definitions, in the
      page's order (Light Year first, Gravitational Waves last); their terms,
      texts, examples and icons are not reproduced. */
  const GlossaryCategories: seq<string> := [
    "distance", "celestial", "technology", "celestial",
    "physics", "physics", "physics", "celestial",
    "celestial", "physics", "technology", "physics",
    "celestial", "physics", "celestial", "physics"]

  datatype Category = Category(id: string, name: string)

  const Categories: seq<Category> := [
    Category("all", "All Topics"),
    Category("physics", "Physics"),
    Category("celestial", "Celestial Objects"),
    Category("distance", "Distance & Scale"),
    Category("technology", "Space Technology")]

  /** `matchesSearch`: the lower-cased term or definition contains the
      lower-cased search text. */
  predicate MatchesSearch(d: Definition, search: string)
  {
    Contains(ToLower(d.term), ToLower(search)) || Contains(ToLower(d.definition), ToLower(search))
  }

  /** `matchesCategory`. */
  predicate MatchesCategory(d: Definition, selected: string)
  {
    selected == "all" || d.category == selected
  }

  /** `filteredDefinitions`: the order-preserving subsequence of the
      definitions that match both the search and the category. */
  function FilteredDefinitions(defs: seq<Definition>, search: string, selected: string): (r: seq<Definition>)
    ensures forall d :: d in r <==> d in defs && MatchesSearch(d, search) && MatchesCategory(d, selected)
    ensures |r| <= |defs|
  {
    Filter(defs, d => MatchesSearch(d, search) && MatchesCategory(d, selected))
  }

  /** The filter keeps the relative order: filtering a concatenation is
      concatenating the filtered parts. */
  lemma FilterKeepsOrder(a: seq<Definition>, b: seq<Definition>, search: string, selected: string)
    ensures FilteredDefinitions(a + b, search, selected)
            == FilteredDefinitions(a, search, selected) + FilteredDefinitions(b, search, selected)
  {
    FilterAppend(a, b, d => MatchesSearch(d, search) && MatchesCategory(d, selected));
  }

  /** With no search text and every category, every definition is shown. */
  lemma EmptySearchShowsAll(defs: seq<Definition>)
    ensures FilteredDefinitions(defs, "", "all") == defs
  {
    forall d | d in defs ensures MatchesSearch(d, "") {
      assert IsPrefix("", ToLower(d.term));
    }
    FilterAll(defs, d => MatchesSearch(d, "") && MatchesCategory(d, "all"));
  }

  /** The search ignores the case of the search text. */
  lemma SearchIgnoresCase(defs: seq<Definition>, search: string, selected: string)
    ensures FilteredDefinitions(defs, ToLower(search), selected) == FilteredDefinitions(defs, search, selected)
  {
    ToLowerIdempotent(search);
    assert forall d :: MatchesSearch(d, ToLower(search)) == MatchesSearch(d, search);
    FilterSame(defs,
      d => MatchesSearch(d, ToLower(search)) && MatchesCategory(d, selected),
      d => MatchesSearch(d, search) && MatchesCategory(d, selected));
  }

  lemma {:induction false} FilterSame(s: seq<Definition>, p: Definition -> bool, q: Definition -> bool)
    requires forall d :: p(d) == q(d)
    ensures Filter(s, p) == Filter(s, q)
  {
    if s != [] {
      FilterSame(s[1..], p, q);
    }
  }

  /** A longer search text never shows more: what matches "ab" also matches "a". */
  lemma LongerSearchNarrows(defs: seq<Definition>, search: string, more: string, selected: string)
    ensures forall d :: d in FilteredDefinitions(defs, search + more, selected) ==> d in FilteredDefinitions(defs, search, selected)
  {
    forall d | d in FilteredDefinitions(defs, search + more, selected)
      ensures MatchesSearch(d, search)
    {
      ToLowerAppend(search, more);
      var t := if Contains(ToLower(d.term), ToLower(search + more)) then ToLower(d.term) else ToLower(d.definition);
      ContainsIff(t, ToLower(search + more));
      var i :| OccursAt(t, ToLower(search + more), i);
      assert OccursAt(t, ToLower(search), i) by {
        assert t[i..i + |ToLower(search)|] == t[i..i + |ToLower(search + more)|][..|ToLower(search)|];
      }
      ContainsIff(t, ToLower(search));
    }
  }

  lemma {:induction false} ToLowerAppend(a: string, b: string)
    ensures ToLower(a + b) == ToLower(a) + ToLower(b)
  {
    if a != [] {
      ToLowerAppend(a[1..], b);
      assert (a + b)[1..] == a[1..] + b;
    } else {
      assert a + b == b;
    }
  }

  /** The badge: the name of the category with the definition's id, or
      "General" when there is none. */
  function CategoryLabel(category: string): string
  {
    var c := Find(Categories, (c: Category) => c.id == category);
    if c.Some? then c.value.name else "General"
  }

  /** A category with a listed id gets a listed name, never the fallback. */
  lemma ListedCategoryHasName(category: string, k: nat)
    requires k < |Categories| && Categories[k].id == category
    ensures CategoryLabel(category) != "General"
  {
  }

  /** Every glossary definition's category is a listed one, so no card shows the
      "General" fallback. */
  lemma GlossaryCategoriesListed()
    ensures forall c :: c in GlossaryCategories ==> CategoryLabel(c) != "General"
  {
    forall c | c in GlossaryCategories ensures CategoryLabel(c) != "General" {
      assert c in {"physics", "celestial", "distance", "technology"};
      if c == "physics" {
        ListedCategoryHasName(c, 1);
      } else if c == "celestial" {
        ListedCategoryHasName(c, 2);
      } else if c == "distance" {
        ListedCategoryHasName(c, 3);
      } else {
        ListedCategoryHasName(c, 4);
      }
    }
  }
}
