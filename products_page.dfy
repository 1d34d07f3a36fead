/** The catalogue page of `client/src/pages/ProductsPage.jsx`: the category
    filter, the five price buckets on the effective price, and the sort orders.
    Money is in integer cents (the bucket edges $25, $50, $100, $200 become 2500,
    5000, 10000, 20000) and ratings in tenths. */
module ProductsPage {
  import opened Js
  import Sorting

  /** A missing `salePrice` is 0. */
  datatype Product = Product(name: string, category: string, price: int, salePrice: int, rating: int)

  datatype PriceRange = All | Under25 | From25To50 | From50To100 | From100To200 | Over200

  datatype SortBy = Featured | PriceLow | PriceHigh | NameAsc | NameDesc | Rating

  const AllCategories := "All"

  /** `p.salePrice || p.price`. */
  function EffectivePrice(p: Product): (r: int)
    ensures p.salePrice != 0 ==> r == p.salePrice
    ensures p.salePrice == 0 ==> r == p.price
  {
    if p.salePrice != 0 then p.salePrice else p.price
  }

  /** The bucket tests of the price filter. */
  predicate InBucket(range: PriceRange, price: int)
  {
    match range
    case All => true
    case Under25 => price < 2500
    case From25To50 => 2500 <= price <= 5000
    case From50To100 => 5000 < price <= 10000
    case From100To200 => 10000 < price <= 20000
    case Over200 => price > 20000
  }

  /** Every price falls in exactly one of the five buckets. */
  lemma BucketsPartition(price: int)
    ensures InBucket(Under25, price) || InBucket(From25To50, price) || InBucket(From50To100, price)
      || InBucket(From100To200, price) || InBucket(Over200, price)
    ensures forall r1, r2 :: r1 != All && r2 != All && r1 != r2 && InBucket(r1, price) ==> !InBucket(r2, price)
  {
  }

  /** The category and price filters; `'All'` filters nothing. */
  function Filtered(products: seq<Product>, category: string, range: PriceRange): seq<Product>
  {
    var a := if category != AllCategories then Filter(products, (p: Product) => p.category == category) else products;
    if range != All then Filter(a, (p: Product) => InBucket(range, EffectivePrice(p))) else a
  }

  /** A product is listed exactly when it is in the selected category (or all
      are selected) and its effective price is in the selected bucket; with both
      set to `'All'` the whole catalogue is listed in order. */
  lemma FilteredSpec(products: seq<Product>, category: string, range: PriceRange)
    ensures forall p :: p in Filtered(products, category, range) <==>
      p in products && (category == AllCategories || p.category == category) && InBucket(range, EffectivePrice(p))
    ensures Subsequence(Filtered(products, category, range), products)
    ensures Filtered(products, AllCategories, All) == products
  {
    var a := if category != AllCategories then Filter(products, (p: Product) => p.category == category) else products;
    if category != AllCategories {
      FilterSubsequence(products, (p: Product) => p.category == category);
    } else {
      SubsequenceReflexive(products);
    }
    if range != All {
      FilterSubsequence(a, (p: Product) => InBucket(range, EffectivePrice(p)));
      SubsequenceTransitive(Filtered(products, category, range), a, products);
    }
  }

  function NegEffectivePrice(p: Product): int { -EffectivePrice(p) }
  function NegRating(p: Product): int { -p.rating }

  /** The results effect: filter, then sort in place by the chosen order. The two
      name orders use `localeCompare` and are not modelled: the list keeps the
      filtered order there, as it does for `'featured'`. */
  method Results(products: seq<Product>, category: string, range: PriceRange, sortBy: SortBy)
    returns (results: seq<Product>)
    ensures multiset(results) == multiset(Filtered(products, category, range))
    ensures sortBy == PriceLow ==> Sorting.SortedBy(results, EffectivePrice)
    ensures sortBy == PriceHigh ==> Sorting.SortedBy(results, NegEffectivePrice)
    ensures sortBy == Rating ==> Sorting.SortedBy(results, NegRating)
    ensures sortBy == PriceLow ==> Sorting.SameKeyOrder(results, Filtered(products, category, range), EffectivePrice)
    ensures sortBy == PriceHigh ==> Sorting.SameKeyOrder(results, Filtered(products, category, range), NegEffectivePrice)
    ensures sortBy == Rating ==> Sorting.SameKeyOrder(results, Filtered(products, category, range), NegRating)
    ensures sortBy == Featured ==> results == Filtered(products, category, range)
  {
    results := Filtered(products, category, range);
    match sortBy
    case PriceLow =>
      results := Sorting.SortBy(results, EffectivePrice);
    case PriceHigh =>
      results := Sorting.SortBy(results, NegEffectivePrice);
    case Rating =>
      results := Sorting.SortBy(results, NegRating);
    case _ =>
  }

  /** `price-high` lists the dearer product first. */
  lemma PriceHighIsNonIncreasing(s: seq<Product>, i: int, j: int)
    requires Sorting.SortedBy(s, NegEffectivePrice)
    requires 0 <= i < j < |s|
    ensures EffectivePrice(s[i]) >= EffectivePrice(s[j])
  {
    assert NegEffectivePrice(s[i]) <= NegEffectivePrice(s[j]);
  }

  /** Sorting keeps every listed product and adds none. */
  lemma SortKeepsMembers(results: seq<Product>, filtered: seq<Product>, p: Product)
    requires multiset(results) == multiset(filtered)
    ensures p in results <==> p in filtered
  {
    assert p in results <==> p in multiset(results);
    assert p in filtered <==> p in multiset(filtered);
  }
}
