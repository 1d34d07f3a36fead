/** The shop page of `client/src/pages/ShopPage.jsx`: the five lists of active
    filters and the helpers that edit them, the filters read from the URL, the
    case-insensitive attribute filtering of the product list, and the page the
    list is shown on. The filter helpers build new filter objects; the page
    state (active filters and current page, with the effect that sends the page
    back to 1 whenever the filters object is replaced) is a class. */
module ShopPage {
  import opened Js
  import Pagination

  const ProductsPerPage: nat := 12

  datatype FilterType = Categories | Brands | Types | Colors | Countries

  /** `activeFilters`. */
  datatype Filters = Filters(
    categories: seq<string>,
    brands: seq<string>,
    types: seq<string>,
    colors: seq<string>,
    countries: seq<string>)

  const NoFilters := Filters([], [], [], [], [])

  /** `activeFilters[filterType]`. */
  function Get(f: Filters, t: FilterType): seq<string>
  {
    match t
    case Categories => f.categories
    case Brands => f.brands
    case Types => f.types
    case Colors => f.colors
    case Countries => f.countries
  }

  /** `{ ...activeFilters, [filterType]: list }`. */
  function Put(f: Filters, t: FilterType, list: seq<string>): (r: Filters)
    ensures Get(r, t) == list
    ensures forall u :: u != t ==> Get(r, u) == Get(f, u)
  {
    match t
    case Categories => f.(categories := list)
    case Brands => f.(brands := list)
    case Types => f.(types := list)
    case Colors => f.(colors := list)
    case Countries => f.(countries := list)
  }

  // ---------------------------------------------------------------------------
  // Filter helpers

  /** `addFilter`: appends the value unless that exact value is present. */
  function WithFilter(f: Filters, t: FilterType, v: string): Filters
  {
    if v in Get(f, t) then f else Put(f, t, Get(f, t) + [v])
  }

  /** `removeFilter`: drops every exact copy of the value from one list. */
  function WithoutFilter(f: Filters, t: FilterType, v: string): Filters
  {
    Put(f, t, Filter(Get(f, t), (x: string) => x != v))
  }

  /** `clearFilterType`. */
  function WithClearedType(f: Filters, t: FilterType): Filters
  {
    Put(f, t, [])
  }

  /** `isFilterActive`: some active value equals `v` ignoring case. */
  predicate IsFilterActive(f: Filters, t: FilterType, v: string)
  {
    exists i :: 0 <= i < |Get(f, t)| && Lower(Get(f, t)[i]) == Lower(v)
  }

  /** `totalActiveFilters`. */
  function TotalActiveFilters(f: Filters): nat
  {
    |f.categories| + |f.brands| + |f.types| + |f.colors| + |f.countries|
  }

  /** Adding makes the value present, appends it at the end when it was absent,
      keeps the list as it is when it was present, and leaves the other lists
      alone. */
  lemma AddFilterSpec(f: Filters, t: FilterType, v: string)
    ensures v in Get(WithFilter(f, t, v), t)
    ensures v !in Get(f, t) ==> Get(WithFilter(f, t, v), t) == Get(f, t) + [v]
    ensures v in Get(f, t) ==> WithFilter(f, t, v) == f
    ensures forall u :: u != t ==> Get(WithFilter(f, t, v), u) == Get(f, u)
    ensures TotalActiveFilters(WithFilter(f, t, v)) == TotalActiveFilters(f) + (if v in Get(f, t) then 0 else 1)
  {
  }

  /** Removing leaves no exact copy of the value, keeps every other value in
      order, and leaves the other lists alone. */
  lemma RemoveFilterSpec(f: Filters, t: FilterType, v: string)
    ensures forall x :: x in Get(WithoutFilter(f, t, v), t) <==> x in Get(f, t) && x != v
    ensures Subsequence(Get(WithoutFilter(f, t, v), t), Get(f, t))
    ensures forall u :: u != t ==> Get(WithoutFilter(f, t, v), u) == Get(f, u)
  {
    FilterSubsequence(Get(f, t), (x: string) => x != v);
  }

  /** A value that is absent and added is removed again by `removeFilter`,
      giving back the original lists. */
  lemma AddThenRemove(f: Filters, t: FilterType, v: string)
    requires v !in Get(f, t)
    ensures WithoutFilter(WithFilter(f, t, v), t, v) == f
  {
    var s := Get(f, t);
    var keep := (x: string) => x != v;
    FilterKeepsAll(s, keep);
    FilterAppend(s, [v], keep);
    assert Filter([v], keep) == [];
  }

  /** Clearing one list and resetting all lists: after a reset no filter is active. */
  lemma ResetSpec(f: Filters, t: FilterType, v: string)
    ensures Get(WithClearedType(f, t), t) == [] && !IsFilterActive(WithClearedType(f, t), t, v)
    ensures forall u :: u != t ==> Get(WithClearedType(f, t), u) == Get(f, u)
    ensures TotalActiveFilters(NoFilters) == 0 && !IsFilterActive(NoFilters, t, v)
  {
  }

  /** `isFilterActive` ignores case. */
  lemma ActiveIgnoresCase(f: Filters, t: FilterType, v: string, w: string)
    requires Lower(v) == Lower(w)
    ensures IsFilterActive(f, t, v) <==> IsFilterActive(f, t, w)
  {
  }

  // ---------------------------------------------------------------------------
  // toggleFilter

  /** `toggleFilter` as written: the test is case-insensitive, the removal exact. */
  function ToggledAsWritten(f: Filters, t: FilterType, v: string): Filters
  {
    if IsFilterActive(f, t, v) then WithoutFilter(f, t, v) else WithFilter(f, t, v)
  }

  /** A value reported active only through a case variant is never removed:
      toggling it changes nothing, so the ticked box cannot be unticked. With
      `Red wine` active (as the URL `?category=red wine` sets it), toggling the
      `Red Wine` box leaves the filters unchanged. */
  lemma ToggleCaseVariantIsStuck(f: Filters, t: FilterType, v: string)
    requires IsFilterActive(f, t, v) && v !in Get(f, t)
    ensures ToggledAsWritten(f, t, v) == f
    ensures IsFilterActive(ToggledAsWritten(f, t, v), t, v)
  {
    var s := Get(f, t);
    forall i | 0 <= i < |s| ensures s[i] != v {
      assert s[i] in s;
    }
    FilterKeepsAll(s, (x: string) => x != v);
  }

  lemma RedWineIsStuck(f: Filters, v: string)
    requires Get(f, Categories) == ["Red wine"] && v == "Red Wine"
    ensures IsFilterActive(f, Categories, v) && ToggledAsWritten(f, Categories, v) == f
  {
    var w := "Red wine";
    assert w == v[4 := 'w'];
    LowerOneLetter(v, 4, 'w');
    assert Lower(Get(f, Categories)[0]) == Lower(v);
    assert v !in [w] by {
      assert v[4] != w[4];
    }
    ToggleCaseVariantIsStuck(f, Categories, v);
  }

  /** `toggleFilter` as intended: an active value is removed in every case
      variant, which is what the case-insensitive test reports. */
  function Toggled(f: Filters, t: FilterType, v: string): Filters
  {
    if IsFilterActive(f, t, v) then Put(f, t, Filter(Get(f, t), (x: string) => Lower(x) != Lower(v)))
    else WithFilter(f, t, v)
  }

  /** Toggling flips whether the value is reported active, and leaves the other
      lists alone. */
  lemma ToggleFlipsActive(f: Filters, t: FilterType, v: string)
    ensures IsFilterActive(Toggled(f, t, v), t, v) <==> !IsFilterActive(f, t, v)
    ensures forall u :: u != t ==> Get(Toggled(f, t, v), u) == Get(f, u)
  {
    var r := Get(Toggled(f, t, v), t);
    if IsFilterActive(f, t, v) {
      forall i | 0 <= i < |r| ensures Lower(r[i]) != Lower(v) {
        assert r[i] in r;
      }
    } else {
      assert r[|r| - 1] == v;
    }
  }

  // ---------------------------------------------------------------------------
  // Filters from the URL

  /** `s.charAt(0).toUpperCase() + s.slice(1)`. */
  function Capitalise(s: string): (r: string)
    ensures |r| == |s|
    ensures s != [] ==> r[0] == UpperChar(s[0]) && r[1..] == s[1..]
  {
    if s == [] then [] else [UpperChar(s[0])] + s[1..]
  }

  /** Capitalising twice is capitalising once. */
  lemma CapitaliseIdempotent(s: string)
    ensures Capitalise(Capitalise(s)) == Capitalise(s)
  {
    if s != [] {
      assert UpperChar(UpperChar(s[0])) == UpperChar(s[0]);
    }
  }

  /** `p.brand || p['tax:product_brand']` style lookups use the first non-empty name. */
  function OrName(a: string, b: string): string
  {
    if a != "" then a else b
  }

  /** A product as the shop page reads it; a missing field is `""`. */
  datatype Product = Product(
    category: string, taxProductCat: string,
    brand: string, taxProductBrand: string,
    productType: string, taxType: string,
    color: string,
    country: string, taxCountry: string)

  function CategoryOf(p: Product): string { OrName(p.category, p.taxProductCat) }
  function BrandOf(p: Product): string { OrName(p.brand, p.taxProductBrand) }
  function TypeOf(p: Product): string { OrName(p.productType, p.taxType) }
  function ColorOf(p: Product): string { p.color }
  function CountryOf(p: Product): string { OrName(p.country, p.taxCountry) }

  /** The first non-empty name of the products equal to `wanted` ignoring case
      (the `.map(...).filter(Boolean).find(...)` of the brand and country
      parameters). */
  function MatchName(names: seq<string>, wanted: string): (r: Option<string>)
    ensures r.Some? ==> r.value in names && r.value != "" && Lower(r.value) == Lower(wanted)
    ensures r.None? ==> forall i :: 0 <= i < |names| && names[i] != "" ==> Lower(names[i]) != Lower(wanted)
  {
    if names == [] then None
    else if names[0] != "" && Lower(names[0]) == Lower(wanted) then Some(names[0])
    else
      var r := MatchName(names[1..], wanted);
      assert forall i :: 1 <= i < |names| ==> names[i] == names[1..][i - 1];
      r
  }

  function Names(products: seq<Product>, attr: Product -> string): (r: seq<string>)
    ensures |r| == |products|
    ensures forall i :: 0 <= i < |products| ==> r[i] == attr(products[i])
  {
    seq(|products|, i requires 0 <= i < |products| => attr(products[i]))
  }

  /** The filters the URL effect sets, or `None` when it sets none and leaves the
      active filters as they are: while the catalogue is loading or empty, or
      when it collects nothing. Parameters that are absent are `""`. */
  function UrlFilters(category: string, productType: string, brand: string, country: string,
                      loading: bool, products: seq<Product>): (r: Option<Filters>)
  {
    if loading || products == [] then None
    else
      var brandMatch := if brand != "" then MatchName(Names(products, BrandOf), brand) else None;
      var countryMatch := if country != "" then MatchName(Names(products, CountryOf), country) else None;
      var f := Filters(
        if category != "" then [Capitalise(category)] else [],
        if brandMatch.Some? then [brandMatch.value] else [],
        if productType != "" then [Capitalise(productType)] else [],
        [],
        if countryMatch.Some? then [countryMatch.value] else []);
      if TotalActiveFilters(f) > 0 then Some(f) else None
  }

  /** Once the catalogue has loaded and is non-empty, a category parameter is
      applied with its first letter upper-cased and a brand parameter only as the
      spelling some product uses; before that, nothing is applied. */
  lemma UrlFiltersSpec(category: string, productType: string, brand: string, country: string,
                       loading: bool, products: seq<Product>)
    ensures var r := UrlFilters(category, productType, brand, country, loading, products);
      !loading && products != [] && category != "" ==> r.Some? && r.value.categories == [Capitalise(category)]
    ensures var r := UrlFilters(category, productType, brand, country, loading, products);
      !loading && products != [] && productType != "" ==> r.Some? && r.value.types == [Capitalise(productType)]
    ensures var r := UrlFilters(category, productType, brand, country, loading, products);
      r.Some? ==> forall b :: b in r.value.brands ==>
        Lower(b) == Lower(brand) && exists i :: 0 <= i < |products| && BrandOf(products[i]) == b
    ensures loading || products == [] ==>
      UrlFilters(category, productType, brand, country, loading, products) == None
    ensures category == "" && productType == "" && brand == "" && country == "" ==>
      UrlFilters(category, productType, brand, country, loading, products) == None
  {
    var names := Names(products, BrandOf);
    if !loading && products != [] && brand != "" && MatchName(names, brand).Some? {
      var b := MatchName(names, brand).value;
      var i :| 0 <= i < |names| && names[i] == b;
      assert BrandOf(products[i]) == b;
    }
  }

  // ---------------------------------------------------------------------------
  // Filtering the product list

  /** A product passes one attribute filter: no filter values, or a non-empty
      attribute equal to one of them ignoring case. */
  predicate PassesAttribute(name: string, filters: seq<string>)
  {
    filters == [] || (name != "" && exists i :: 0 <= i < |filters| && Upper(name) == Upper(filters[i]))
  }

  /** One `filtered = filtered.filter(...)` step (skipped for an empty list). */
  function FilterBy(products: seq<Product>, attr: Product -> string, filters: seq<string>): seq<Product>
  {
    if filters == [] then products else Filter(products, (p: Product) => PassesAttribute(attr(p), filters))
  }

  /** The five filter steps, in the order category, brand, type, colour, country. */
  function FilterProducts(products: seq<Product>, f: Filters): seq<Product>
  {
    var a := FilterBy(products, CategoryOf, f.categories);
    var b := FilterBy(a, BrandOf, f.brands);
    var c := FilterBy(b, TypeOf, f.types);
    var d := FilterBy(c, ColorOf, f.colors);
    FilterBy(d, CountryOf, f.countries)
  }

  predicate PassesAll(p: Product, f: Filters)
  {
    && PassesAttribute(CategoryOf(p), f.categories)
    && PassesAttribute(BrandOf(p), f.brands)
    && PassesAttribute(TypeOf(p), f.types)
    && PassesAttribute(ColorOf(p), f.colors)
    && PassesAttribute(CountryOf(p), f.countries)
  }

  lemma FilterBySpec(products: seq<Product>, attr: Product -> string, filters: seq<string>)
    ensures forall p :: p in FilterBy(products, attr, filters) <==> p in products && PassesAttribute(attr(p), filters)
    ensures Subsequence(FilterBy(products, attr, filters), products)
  {
    if filters == [] {
      SubsequenceReflexive(products);
    } else {
      FilterSubsequence(products, (p: Product) => PassesAttribute(attr(p), filters));
    }
  }

  /** A product is shown exactly when it passes every attribute filter, the
      shown list keeps the catalogue order, and with no filters everything is
      shown. */
  lemma FilterProductsSpec(products: seq<Product>, f: Filters)
    ensures forall p :: p in FilterProducts(products, f) <==> p in products && PassesAll(p, f)
    ensures Subsequence(FilterProducts(products, f), products)
    ensures FilterProducts(products, NoFilters) == products
  {
    var a := FilterBy(products, CategoryOf, f.categories);
    var b := FilterBy(a, BrandOf, f.brands);
    var c := FilterBy(b, TypeOf, f.types);
    var d := FilterBy(c, ColorOf, f.colors);
    var e := FilterBy(d, CountryOf, f.countries);
    FilterBySpec(products, CategoryOf, f.categories);
    FilterBySpec(a, BrandOf, f.brands);
    FilterBySpec(b, TypeOf, f.types);
    FilterBySpec(c, ColorOf, f.colors);
    FilterBySpec(d, CountryOf, f.countries);
    SubsequenceTransitive(c, b, a);
    SubsequenceTransitive(c, a, products);
    SubsequenceTransitive(d, c, products);
    SubsequenceTransitive(e, d, products);
  }

  /** Filtering ignores the case of filter values. */
  lemma FilterIgnoresCase(name: string, filters: seq<string>, v: string, w: string)
    requires Upper(v) == Upper(w)
    ensures PassesAttribute(name, filters + [v]) <==> PassesAttribute(name, filters + [w])
  {
    var fv, fw := filters + [v], filters + [w];
    assert forall i :: 0 <= i < |fv| ==> Upper(fv[i]) == Upper(fw[i]) by {
      forall i | 0 <= i < |fv| ensures Upper(fv[i]) == Upper(fw[i]) {
        if i < |filters| {
          assert fv[i] == filters[i] == fw[i];
        }
      }
    }
    if name != "" {
      if exists i :: 0 <= i < |fv| && Upper(name) == Upper(fv[i]) {
        var i :| 0 <= i < |fv| && Upper(name) == Upper(fv[i]);
        assert Upper(name) == Upper(fw[i]);
      }
      if exists i :: 0 <= i < |fw| && Upper(name) == Upper(fw[i]) {
        var i :| 0 <= i < |fw| && Upper(name) == Upper(fw[i]);
        assert Upper(name) == Upper(fv[i]);
      }
    }
  }

  // ---------------------------------------------------------------------------
  // Page state

  class ShopState {
    var activeFilters: Filters
    var currentPage: int

    constructor ()
      ensures activeFilters == NoFilters && currentPage == 1
    {
      activeFilters := NoFilters;
      currentPage := 1;
    }

    /** Replacing the filters object runs the effect that returns to page 1. */
    method SetActiveFilters(f: Filters)
      modifies this
      ensures activeFilters == f && currentPage == 1
    {
      activeFilters := f;
      currentPage := 1;
    }

    /** `addFilter`: when the value is already present the state is not set, so
        the page stays where it is. */
    method AddFilter(t: FilterType, v: string)
      modifies this
      ensures activeFilters == WithFilter(old(activeFilters), t, v)
      ensures currentPage == if v in Get(old(activeFilters), t) then old(currentPage) else 1
    {
      if v !in Get(activeFilters, t) {
        SetActiveFilters(Put(activeFilters, t, Get(activeFilters, t) + [v]));
      }
    }

    method RemoveFilter(t: FilterType, v: string)
      modifies this
      ensures activeFilters == WithoutFilter(old(activeFilters), t, v) && currentPage == 1
    {
      SetActiveFilters(WithoutFilter(activeFilters, t, v));
    }

    method ClearFilterType(t: FilterType)
      modifies this
      ensures activeFilters == WithClearedType(old(activeFilters), t) && currentPage == 1
    {
      SetActiveFilters(WithClearedType(activeFilters, t));
    }

    method ResetAllFilters()
      modifies this
      ensures activeFilters == NoFilters && currentPage == 1
      ensures TotalActiveFilters(activeFilters) == 0
    {
      SetActiveFilters(NoFilters);
    }

    /** `toggleFilter`, with the removal matching the case-insensitive test. */
    method ToggleFilter(t: FilterType, v: string)
      modifies this
      ensures activeFilters == Toggled(old(activeFilters), t, v)
      ensures IsFilterActive(activeFilters, t, v) <==> !IsFilterActive(old(activeFilters), t, v)
      ensures currentPage == 1
    {
      ToggleFlipsActive(activeFilters, t, v);
      if IsFilterActive(activeFilters, t, v) {
        SetActiveFilters(Toggled(activeFilters, t, v));
      } else {
        // an exact copy of `v` would make it active, so `addFilter` sets the state
        assert v !in Get(activeFilters, t);
        AddFilter(t, v);
      }
    }

    /** `handlePageChange`. */
    method HandlePageChange(page: int)
      modifies this
      ensures currentPage == page && activeFilters == old(activeFilters)
    {
      currentPage := page;
    }

    /** The products on the current page of the filtered list: at most twelve,
        each of them passing every active filter. */
    function CurrentProducts(products: seq<Product>): (r: seq<Product>)
      reads this
      ensures |r| <= ProductsPerPage
      ensures forall p :: p in r ==> p in products && PassesAll(p, activeFilters)
    {
      var filtered := FilterProducts(products, activeFilters);
      FilterProductsSpec(products, activeFilters);
      Pagination.PageItems(filtered, currentPage, ProductsPerPage)
    }
  }
}
