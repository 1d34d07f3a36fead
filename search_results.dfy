/** The search results page of `client/src/pages/SearchResultsPage.jsx`: the
    text query, the four selection lists with their toggles, the inclusive price
    range and the numeric sorts. The selections, price range and sort option are
    page state (a class); the result list is computed by successive filters and
    then sorted in place. Prices and the ends of the range are integer cents;
    the range sliders move in whole dollars. */
module SearchResults {
  import opened Js
  import Sorting

  datatype Product = Product(
    name: string, description: string, brand: string, productType: string,
    category: string, country: string, price: int)

  datatype SortOption = Relevance | PriceAsc | PriceDesc | NameAsc | NameDesc

  /** The initial range `[0, 1000]` dollars, in cents. */
  const DefaultLow := 0
  const DefaultHigh := 100000

  // ---------------------------------------------------------------------------
  // Selections

  /** The updater of the four `toggle...Selection` functions: an exact value that
      is present is removed (every copy), an absent one is appended. */
  function Toggle(list: seq<string>, v: string): (r: seq<string>)
  {
    if v in list then Filter(list, (x: string) => x != v) else list + [v]
  }

  /** Toggling flips the value's membership and touches no other value. */
  lemma ToggleFlips(list: seq<string>, v: string)
    ensures v in Toggle(list, v) <==> v !in list
    ensures forall x :: x != v ==> (x in Toggle(list, v) <==> x in list)
  {
  }

  /** Toggling an absent value twice gives back the list exactly. */
  lemma ToggleTwice(list: seq<string>, v: string)
    requires v !in list
    ensures Toggle(Toggle(list, v), v) == list
  {
    var keep := (x: string) => x != v;
    assert v in list + [v];
    FilterKeepsAll(list, keep);
    FilterAppend(list, [v], keep);
    assert Filter([v], keep) == [];
  }

  // ---------------------------------------------------------------------------
  // Filtering

  /** The query test: the lower-cased query occurs in one of the five lower-cased
      text fields. */
  predicate MatchesQuery(p: Product, query: string)
  {
    var q := Lower(query);
    Contains(Lower(p.name), q) || Contains(Lower(p.description), q) || Contains(Lower(p.brand), q)
    || Contains(Lower(p.productType), q) || Contains(Lower(p.category), q)
  }

  /** A selection list filters only when non-empty, and then by exact membership. */
  predicate Selected(value: string, selection: seq<string>)
  {
    selection == [] || value in selection
  }

  predicate InRange(p: Product, low: int, high: int)
  {
    low <= p.price <= high
  }

  function StepQuery(s: seq<Product>, query: string): seq<Product>
  {
    if query == "" then s else Filter(s, (p: Product) => MatchesQuery(p, query))
  }

  function StepSelect(s: seq<Product>, attr: Product -> string, selection: seq<string>): seq<Product>
  {
    if selection == [] then s else Filter(s, (p: Product) => attr(p) in selection)
  }

  function CategoryOf(p: Product): string { p.category }
  function TypeOf(p: Product): string { p.productType }
  function BrandOf(p: Product): string { p.brand }
  function CountryOf(p: Product): string { p.country }

  /** The filters of the results effect, in source order. */
  function FilterResults(all: seq<Product>, query: string, categories: seq<string>, types: seq<string>,
                         brands: seq<string>, countries: seq<string>, low: int, high: int): seq<Product>
  {
    var a := StepQuery(all, query);
    var b := StepSelect(a, CategoryOf, categories);
    var c := StepSelect(b, TypeOf, types);
    var d := StepSelect(c, BrandOf, brands);
    var e := StepSelect(d, CountryOf, countries);
    Filter(e, (p: Product) => InRange(p, low, high))
  }

  /** All criteria a shown product meets. */
  predicate Shown(p: Product, query: string, categories: seq<string>, types: seq<string>,
                  brands: seq<string>, countries: seq<string>, low: int, high: int)
  {
    && (query == "" || MatchesQuery(p, query))
    && Selected(p.category, categories) && Selected(p.productType, types)
    && Selected(p.brand, brands) && Selected(p.country, countries)
    && InRange(p, low, high)
  }

  lemma StepSelectSpec(s: seq<Product>, attr: Product -> string, selection: seq<string>)
    ensures forall p :: p in StepSelect(s, attr, selection) <==> p in s && Selected(attr(p), selection)
    ensures Subsequence(StepSelect(s, attr, selection), s)
  {
    if selection == [] {
      SubsequenceReflexive(s);
    } else {
      FilterSubsequence(s, (p: Product) => attr(p) in selection);
    }
  }

  /** A product is in the results exactly when it meets every criterion (an
      empty query and empty selections impose nothing, both ends of the price
      range are included), and the results keep the catalogue order. */
  lemma FilterResultsSpec(all: seq<Product>, query: string, categories: seq<string>, types: seq<string>,
                          brands: seq<string>, countries: seq<string>, low: int, high: int)
    ensures forall p :: p in FilterResults(all, query, categories, types, brands, countries, low, high) <==>
      p in all && Shown(p, query, categories, types, brands, countries, low, high)
    ensures Subsequence(FilterResults(all, query, categories, types, brands, countries, low, high), all)
  {
    var a := StepQuery(all, query);
    var b := StepSelect(a, CategoryOf, categories);
    var c := StepSelect(b, TypeOf, types);
    var d := StepSelect(c, BrandOf, brands);
    var e := StepSelect(d, CountryOf, countries);
    var r := Filter(e, (p: Product) => InRange(p, low, high));
    if query == "" {
      SubsequenceReflexive(all);
    } else {
      FilterSubsequence(all, (p: Product) => MatchesQuery(p, query));
    }
    StepSelectSpec(a, CategoryOf, categories);
    StepSelectSpec(b, TypeOf, types);
    StepSelectSpec(c, BrandOf, brands);
    StepSelectSpec(d, CountryOf, countries);
    FilterSubsequence(e, (p: Product) => InRange(p, low, high));
    SubsequenceTransitive(c, b, a);
    SubsequenceTransitive(c, a, all);
    SubsequenceTransitive(d, c, all);
    SubsequenceTransitive(e, d, all);
    SubsequenceTransitive(r, e, all);
  }

  function Price(p: Product): int { p.price }
  function NegPrice(p: Product): int { -p.price }

  /** The results effect: filter, then sort by price when asked to. */
  method Results(all: seq<Product>, query: string, categories: seq<string>, types: seq<string>,
                 brands: seq<string>, countries: seq<string>, low: int, high: int, sort: SortOption)
    returns (results: seq<Product>)
    ensures multiset(results) == multiset(FilterResults(all, query, categories, types, brands, countries, low, high))
    ensures sort == PriceAsc ==> Sorting.SortedBy(results, Price)
    ensures sort == PriceDesc ==> Sorting.SortedBy(results, NegPrice)
    ensures sort == PriceAsc ==>
      Sorting.SameKeyOrder(results, FilterResults(all, query, categories, types, brands, countries, low, high), Price)
    ensures sort == PriceDesc ==>
      Sorting.SameKeyOrder(results, FilterResults(all, query, categories, types, brands, countries, low, high), NegPrice)
    ensures sort != PriceAsc && sort != PriceDesc ==>
      results == FilterResults(all, query, categories, types, brands, countries, low, high)
  {
    results := FilterResults(all, query, categories, types, brands, countries, low, high);
    if sort == PriceAsc {
      results := Sorting.SortBy(results, Price);
    } else if sort == PriceDesc {
      results := Sorting.SortBy(results, NegPrice);
    }
  }

  /** Sorting by descending price puts a dearer product first. */
  lemma PriceDescIsNonIncreasing(s: seq<Product>, i: int, j: int)
    requires Sorting.SortedBy(s, NegPrice)
    requires 0 <= i < j < |s|
    ensures s[i].price >= s[j].price
  {
    assert NegPrice(s[i]) <= NegPrice(s[j]);
  }

  // ---------------------------------------------------------------------------
  // Page state

  class SearchState {
    var selectedCategories: seq<string>
    var selectedTypes: seq<string>
    var selectedBrands: seq<string>
    var selectedCountries: seq<string>
    var priceLow: int
    var priceHigh: int
    var sortOption: SortOption

    constructor ()
      ensures selectedCategories == [] && selectedTypes == [] && selectedBrands == [] && selectedCountries == []
      ensures priceLow == DefaultLow && priceHigh == DefaultHigh && sortOption == Relevance
    {
      selectedCategories, selectedTypes, selectedBrands, selectedCountries := [], [], [], [];
      priceLow, priceHigh := DefaultLow, DefaultHigh;
      sortOption := Relevance;
    }

    method ToggleCategorySelection(v: string)
      modifies this
      ensures selectedCategories == Toggle(old(selectedCategories), v)
      ensures selectedTypes == old(selectedTypes) && selectedBrands == old(selectedBrands)
      ensures selectedCountries == old(selectedCountries)
      ensures priceLow == old(priceLow) && priceHigh == old(priceHigh) && sortOption == old(sortOption)
    {
      selectedCategories := Toggle(selectedCategories, v);
    }

    method ToggleTypeSelection(v: string)
      modifies this
      ensures selectedTypes == Toggle(old(selectedTypes), v)
      ensures selectedCategories == old(selectedCategories) && selectedBrands == old(selectedBrands)
      ensures selectedCountries == old(selectedCountries)
      ensures priceLow == old(priceLow) && priceHigh == old(priceHigh) && sortOption == old(sortOption)
    {
      selectedTypes := Toggle(selectedTypes, v);
    }

    method ToggleBrandSelection(v: string)
      modifies this
      ensures selectedBrands == Toggle(old(selectedBrands), v)
      ensures selectedCategories == old(selectedCategories) && selectedTypes == old(selectedTypes)
      ensures selectedCountries == old(selectedCountries)
      ensures priceLow == old(priceLow) && priceHigh == old(priceHigh) && sortOption == old(sortOption)
    {
      selectedBrands := Toggle(selectedBrands, v);
    }

    method ToggleCountrySelection(v: string)
      modifies this
      ensures selectedCountries == Toggle(old(selectedCountries), v)
      ensures selectedCategories == old(selectedCategories) && selectedTypes == old(selectedTypes)
      ensures selectedBrands == old(selectedBrands)
      ensures priceLow == old(priceLow) && priceHigh == old(priceHigh) && sortOption == old(sortOption)
    {
      selectedCountries := Toggle(selectedCountries, v);
    }

    /** The range sliders: `setPriceRange` with the whole-dollar slider values,
        held in cents; nothing else changes. */
    method SetPriceRange(lowDollars: int, highDollars: int)
      modifies this
      ensures priceLow == 100 * lowDollars && priceHigh == 100 * highDollars
      ensures selectedCategories == old(selectedCategories) && selectedTypes == old(selectedTypes)
      ensures selectedBrands == old(selectedBrands) && selectedCountries == old(selectedCountries)
      ensures sortOption == old(sortOption)
    {
      priceLow, priceHigh := 100 * lowDollars, 100 * highDollars;
    }

    /** `resetFilters`: the state a fresh page starts with. */
    method ResetFilters()
      modifies this
      ensures selectedCategories == [] && selectedTypes == [] && selectedBrands == [] && selectedCountries == []
      ensures priceLow == DefaultLow && priceHigh == DefaultHigh && sortOption == Relevance
    {
      selectedCategories, selectedTypes, selectedBrands, selectedCountries := [], [], [], [];
      priceLow, priceHigh := DefaultLow, DefaultHigh;
      sortOption := Relevance;
    }

    /** The results for the current state. */
    method CurrentResults(all: seq<Product>, query: string) returns (results: seq<Product>)
      ensures multiset(results) == multiset(FilterResults(all, query, selectedCategories, selectedTypes,
        selectedBrands, selectedCountries, priceLow, priceHigh))
      ensures sortOption == PriceAsc ==> Sorting.SortedBy(results, Price)
      ensures sortOption == PriceDesc ==> Sorting.SortedBy(results, NegPrice)
      ensures sortOption == PriceAsc ==> Sorting.SameKeyOrder(results, FilterResults(all, query,
        selectedCategories, selectedTypes, selectedBrands, selectedCountries, priceLow, priceHigh), Price)
      ensures sortOption == PriceDesc ==> Sorting.SameKeyOrder(results, FilterResults(all, query,
        selectedCategories, selectedTypes, selectedBrands, selectedCountries, priceLow, priceHigh), NegPrice)
      ensures sortOption != PriceAsc && sortOption != PriceDesc ==>
        results == FilterResults(all, query, selectedCategories, selectedTypes,
          selectedBrands, selectedCountries, priceLow, priceHigh)
    {
      results := Results(all, query, selectedCategories, selectedTypes, selectedBrands, selectedCountries,
        priceLow, priceHigh, sortOption);
    }
  }
}
