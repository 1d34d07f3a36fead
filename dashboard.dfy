/** The figures of the admin dashboard, `client/src/pages/admin/DashboardHome.jsx`:
    the stock classes, the count of special products, the count of unread
    notifications and the five largest categories. */
module Dashboard {
  import opened Js
  import Sorting
  import opened Notifications

  /** A product as the dashboard reads it; a missing category is `""`. */
  datatype Product = Product(stock: Value, stockQuantity: Value, isSpecial: Value, isLimitedEdition: Value,
                             category: string, taxProductCat: string)

  // ---------------------------------------------------------------------------
  // Stock

  /** `parseInt(p.stock || p.stock_quantity || 0)`; `None` is `NaN`. */
  function Stock(p: Product): (r: Option<int>)
    ensures Truthy(p.stock) ==> r == ParseInt(p.stock)
    ensures !Truthy(p.stock) && Truthy(p.stockQuantity) ==> r == ParseInt(p.stockQuantity)
    ensures !Truthy(p.stock) && !Truthy(p.stockQuantity) ==> r == Some(0)
  {
    ParseInt(Or(Or(p.stock, p.stockQuantity), Num(0)))
  }

  predicate LowStock(p: Product)
  {
    Stock(p).Some? && 0 < Stock(p).value < 5
  }

  predicate OutOfStock(p: Product)
  {
    Stock(p) == Some(0)
  }

  predicate LowOrOut(p: Product)
  {
    LowStock(p) || OutOfStock(p)
  }

  /** What the in-stock figure counts: neither low nor out of stock. */
  predicate InStock(p: Product)
  {
    !LowOrOut(p)
  }

  function LowStockCount(products: seq<Product>): nat
  {
    |Filter(products, LowStock)|
  }

  function OutOfStockCount(products: seq<Product>): nat
  {
    |Filter(products, OutOfStock)|
  }

  /** `inStockProducts = totalProducts - lowStockProducts - outOfStockProducts`. */
  function InStockCount(products: seq<Product>): int
  {
    |products| - LowStockCount(products) - OutOfStockCount(products)
  }

  /** The three stock figures partition the catalogue: the in-stock figure is
      never negative and counts exactly the products with stock of 5 or more,
      a negative stock, or a stock that does not parse. */
  lemma StockFiguresPartition(products: seq<Product>)
    ensures InStockCount(products) == |Filter(products, InStock)|
    ensures InStockCount(products) >= 0
    ensures forall p :: InStock(p) <==> Stock(p).None? || Stock(p).value >= 5 || Stock(p).value < 0
  {
    FilterUnionCount(products, LowStock, OutOfStock, LowOrOut);
    FilterSplitCount(products, LowOrOut, InStock);
  }

  /** A product missing both stock fields counts as out of stock. */
  lemma NoStockFieldIsOut(p: Product)
    requires !Truthy(p.stock) && !Truthy(p.stockQuantity)
    ensures OutOfStock(p) && !LowStock(p) && !InStock(p)
  {
  }

  // ---------------------------------------------------------------------------
  // Special products and unread notifications

  /** `v === 'true' || v === true`. */
  predicate IsTrue(v: Value)
  {
    v == Str("true") || v == Bool(true)
  }

  predicate Special(p: Product)
  {
    IsTrue(p.isSpecial) || IsTrue(p.isLimitedEdition)
  }

  function SpecialCount(products: seq<Product>): nat
  {
    |Filter(products, Special)|
  }

  /** Each product adds one to the special count exactly when one of its two
      flags is `true` or `'true'`. */
  lemma SpecialCountSpec(products: seq<Product>, p: Product)
    ensures SpecialCount([]) == 0
    ensures SpecialCount(products + [p]) ==
      SpecialCount(products) + (if IsTrue(p.isSpecial) || IsTrue(p.isLimitedEdition) then 1 else 0)
    ensures SpecialCount(products) <= |products|
  {
    FilterCountAppend(products, p, Special);
  }

  predicate IsRead(n: Notification)
  {
    Truthy(n.read)
  }

  /** `notifications.filter(n => !n.read).length`. */
  function UnreadCount(notifications: seq<Notification>): nat
  {
    |Filter(notifications, Unread)|
  }

  /** The unread figure counts each notification with a falsy `read` once: it
      and the number of read ones add up to the total. */
  lemma UnreadCountSpec(notifications: seq<Notification>, n: Notification)
    ensures UnreadCount(notifications) + |Filter(notifications, IsRead)| == |notifications|
    ensures UnreadCount(notifications + [n]) == UnreadCount(notifications) + (if Truthy(n.read) then 0 else 1)
  {
    FilterSplitCount(notifications, Unread, IsRead);
    FilterCountAppend(notifications, n, Unread);
  }

  predicate UnreadWithId(id: string, n: Notification)
  {
    Unread(n) && n.id == id
  }

  /** After marking one notification as read, the unread figure drops by the
      number of unread notifications with that id; after marking all it is 0. */
  lemma {:induction false} UnreadAfterMark(ns: seq<Notification>, id: string)
    ensures UnreadCount(MarkOne(ns, id)) == UnreadCount(ns) - |Filter(ns, n => UnreadWithId(id, n))|
    ensures UnreadCount(MarkAll(ns)) == 0
  {
    if ns != [] {
      UnreadAfterMark(ns[1..], id);
      assert MarkOne(ns, id)[1..] == MarkOne(ns[1..], id);
      assert MarkAll(ns)[1..] == MarkAll(ns[1..]);
    }
  }

  // ---------------------------------------------------------------------------
  // Category distribution

  /** `product.category || product['tax:product_cat'] || 'Uncategorized'`. */
  function CategoryOf(p: Product): string
  {
    if p.category != "" then p.category
    else if p.taxProductCat != "" then p.taxProductCat
    else "Uncategorized"
  }

  function Categories(products: seq<Product>): (r: seq<string>)
    ensures |r| == |products|
    ensures forall i :: 0 <= i < |products| ==> r[i] == CategoryOf(products[i])
  {
    seq(|products|, i requires 0 <= i < |products| => CategoryOf(products[i]))
  }

  /** The `categories` object after counting `cats` one by one. */
  function Tally(cats: seq<string>): map<string, nat>
  {
    if cats == [] then map[]
    else
      var m := Tally(cats[..|cats| - 1]);
      var c := cats[|cats| - 1];
      m[c := (if c in m then m[c] else 0) + 1]
  }

  /** The keys of that object in insertion order. */
  function FirstSeen(cats: seq<string>): seq<string>
  {
    if cats == [] then []
    else
      var o := FirstSeen(cats[..|cats| - 1]);
      if cats[|cats| - 1] in o then o else o + [cats[|cats| - 1]]
  }

  predicate Distinct(s: seq<string>)
  {
    forall i, j :: 0 <= i < j < |s| ==> s[i] != s[j]
  }

  /** The tally has a key for each category that occurs and counts every
      occurrence once; the key order lists each category once. */
  lemma {:induction false} TallySpec(cats: seq<string>)
    ensures forall c :: c in Tally(cats) <==> c in cats
    ensures forall c :: c in Tally(cats) ==> Tally(cats)[c] == multiset(cats)[c]
    ensures forall c :: c in FirstSeen(cats) <==> c in cats
    ensures Distinct(FirstSeen(cats))
  {
    if cats != [] {
      var prefix := cats[..|cats| - 1];
      var c := cats[|cats| - 1];
      TallySpec(prefix);
      assert cats == prefix + [c];
      assert multiset(cats) == multiset(prefix) + multiset{c};
      forall x
        ensures x in cats <==> x in prefix || x == c
      {
        if x in cats {
          var k :| 0 <= k < |cats| && cats[k] == x;
          if k < |prefix| {
            assert prefix[k] == x;
          }
        }
      }
    }
  }

  /** A name and its count, as in `{ name, value }`. */
  datatype Entry = Entry(name: string, value: int)

  function NegValue(e: Entry): int
  {
    -e.value
  }

  function Min(a: int, b: int): int
  {
    if a <= b then a else b
  }

  /** The `forEach` of `getCategoryDistribution`: the `categories` object (its
      counts and its key order) after visiting every product. */
  method CountCategories(products: seq<Product>) returns (counts: map<string, nat>, order: seq<string>)
    ensures counts == Tally(Categories(products)) && order == FirstSeen(Categories(products))
  {
    var cats := Categories(products);
    counts, order := map[], [];
    var i := 0;
    while i < |products|
      invariant 0 <= i <= |products|
      invariant counts == Tally(cats[..i]) && order == FirstSeen(cats[..i])
    {
      var c := CategoryOf(products[i]);
      assert cats[..i + 1][..i] == cats[..i];
      counts := counts[c := (if c in counts then counts[c] else 0) + 1];
      if c !in order {
        order := order + [c];
      }
      i := i + 1;
    }
    assert cats[..|products|] == cats;
  }

  /** The entries of the tally, in key order. */
  function Entries(counts: map<string, nat>, order: seq<string>): (r: seq<Entry>)
    requires forall c :: c in order ==> c in counts
    ensures |r| == |order|
    ensures forall j :: 0 <= j < |order| ==> r[j] == Entry(order[j], counts[order[j]])
  {
    seq(|order|, j requires 0 <= j < |order| => Entry(order[j], counts[order[j]]))
  }

  /** The entries of `s` whose count is `v`, in their order in `s`. */
  function WithCount(s: seq<Entry>, v: int): seq<Entry>
  {
    Sorting.WithKey(s, NegValue, -v)
  }

  /** Each category that occurs, in first-seen order, with the number of its
      occurrences. */
  function SeenCounts(cats: seq<string>): (r: seq<Entry>)
    ensures |r| == |FirstSeen(cats)|
  {
    seq(|FirstSeen(cats)|, j requires 0 <= j < |FirstSeen(cats)| =>
      Entry(FirstSeen(cats)[j], multiset(cats)[FirstSeen(cats)[j]]))
  }

  /** The first five of the entries sorted by decreasing count are the five
      largest, with their exact counts. */
  lemma TopFive(cats: seq<string>, sorted: seq<Entry>, top: seq<Entry>)
    requires forall c :: c in Tally(cats) <==> c in cats
    requires forall c :: c in Tally(cats) ==> Tally(cats)[c] == multiset(cats)[c]
    requires forall c :: c in FirstSeen(cats) <==> c in cats
    requires multiset(sorted) == multiset(Entries(Tally(cats), FirstSeen(cats)))
    requires Sorting.SortedBy(sorted, NegValue)
    requires top == if |sorted| <= 5 then sorted else sorted[..5]
    ensures forall e :: e in top ==> e.name in cats && e.value == multiset(cats)[e.name]
    ensures forall c :: c in cats && (forall e :: e in top ==> e.name != c) ==>
      forall e :: e in top ==> multiset(cats)[c] <= e.value
  {
    var entries := Entries(Tally(cats), FirstSeen(cats));
    forall e | e in top
      ensures e.name in cats && e.value == multiset(cats)[e.name]
    {
      assert e in multiset(sorted);
      assert e in multiset(entries);
    }
    forall c | c in cats && (forall e :: e in top ==> e.name != c)
      ensures forall e :: e in top ==> multiset(cats)[c] <= e.value
    {
      OmittedNotLarger(cats, sorted, top, c);
    }
  }

  /** The first five of the entries, sorted stably by decreasing count: of each
      count, those listed are the first entries of that count in the unsorted
      order, and in that order. */
  lemma TopFiveOrder(entries: seq<Entry>, sorted: seq<Entry>, top: seq<Entry>)
    requires Sorting.SameKeyOrder(sorted, entries, NegValue)
    requires top == if |sorted| <= 5 then sorted else sorted[..5]
    ensures forall v :: WithCount(top, v) <= WithCount(entries, v)
  {
    forall v
      ensures WithCount(top, v) <= WithCount(entries, v)
    {
      var rest := sorted[|top|..];
      assert sorted == top + rest;
      Sorting.WithKeyAppend(top, rest, NegValue, -v);
      assert WithCount(sorted, v) == WithCount(top, v) + WithCount(rest, v);
    }
  }

  /** The unsorted entries of the tally are the categories in first-seen order,
      each with its number of occurrences, and name no category twice. */
  lemma EntriesSpec(cats: seq<string>)
    requires forall c :: c in Tally(cats) <==> c in cats
    requires forall c :: c in Tally(cats) ==> Tally(cats)[c] == multiset(cats)[c]
    requires forall c :: c in FirstSeen(cats) <==> c in cats
    requires Distinct(FirstSeen(cats))
    ensures Entries(Tally(cats), FirstSeen(cats)) == SeenCounts(cats)
    ensures var e := SeenCounts(cats);
      forall a, b :: 0 <= a < b < |e| ==> e[a].name != e[b].name
  {
    var e := Entries(Tally(cats), FirstSeen(cats));
    assert forall j :: 0 <= j < |e| ==> e[j].name == FirstSeen(cats)[j];
  }

  /** A sequence whose elements differ pairwise holds each value at most once. */
  lemma {:induction false} AtMostOnce<T>(s: seq<T>, x: T)
    requires forall i, j :: 0 <= i < j < |s| ==> s[i] != s[j]
    ensures multiset(s)[x] <= 1
  {
    if s != [] {
      AtMostOnce(s[1..], x);
      assert s == [s[0]] + s[1..];
      assert s[0] !in s[1..] by {
        forall k | 0 <= k < |s[1..]|
          ensures s[1..][k] != s[0]
        {
          assert s[1..][k] == s[k + 1];
        }
      }
    }
  }

  /** A value at two positions is counted at least twice. */
  lemma TwiceCounted<T>(s: seq<T>, i: int, j: int)
    requires 0 <= i < j < |s| && s[i] == s[j]
    ensures multiset(s)[s[i]] >= 2
  {
    assert s == s[..j] + [s[j]] + s[j + 1..];
    assert s[i] in s[..j];
  }

  /** A permutation of entries with pairwise distinct names has pairwise
      distinct names. */
  lemma DistinctNames(entries: seq<Entry>, sorted: seq<Entry>)
    requires forall a, b :: 0 <= a < b < |entries| ==> entries[a].name != entries[b].name
    requires multiset(sorted) == multiset(entries)
    ensures forall i, j :: 0 <= i < j < |sorted| ==> sorted[i].name != sorted[j].name
  {
    forall i, j | 0 <= i < j < |sorted|
      ensures sorted[i].name != sorted[j].name
    {
      assert sorted[i] in multiset(entries) && sorted[j] in multiset(entries);
      var a :| 0 <= a < |entries| && entries[a] == sorted[i];
      var b :| 0 <= b < |entries| && entries[b] == sorted[j];
      if sorted[i] == sorted[j] {
        TwiceCounted(sorted, i, j);
        AtMostOnce(entries, sorted[i]);
        assert false;
      }
      assert a != b;
    }
  }

  /** A category missing from the first five counts no more than any of them. */
  lemma OmittedNotLarger(cats: seq<string>, sorted: seq<Entry>, top: seq<Entry>, c: string)
    requires forall c :: c in Tally(cats) <==> c in cats
    requires forall c :: c in Tally(cats) ==> Tally(cats)[c] == multiset(cats)[c]
    requires forall c :: c in FirstSeen(cats) <==> c in cats
    requires multiset(sorted) == multiset(Entries(Tally(cats), FirstSeen(cats)))
    requires Sorting.SortedBy(sorted, NegValue)
    requires top == if |sorted| <= 5 then sorted else sorted[..5]
    requires c in cats && forall e :: e in top ==> e.name != c
    ensures forall e :: e in top ==> multiset(cats)[c] <= e.value
  {
    var entries := Entries(Tally(cats), FirstSeen(cats));
    var order := FirstSeen(cats);
    var j :| 0 <= j < |order| && order[j] == c;
    var entry := entries[j];
    assert entry in multiset(entries);
    assert entry in multiset(sorted);
    var k :| 0 <= k < |sorted| && sorted[k] == entry;
    assert k >= |top| by {
      assert forall t :: 0 <= t < |top| ==> top[t] == sorted[t] && top[t].name != c;
    }
    forall e | e in top
      ensures multiset(cats)[c] <= e.value
    {
      var t :| 0 <= t < |top| && top[t] == e;
      assert NegValue(sorted[t]) <= NegValue(sorted[k]);
    }
  }

  /** The first five of the sorted tally entries, in terms of the categories
      alone: at most five, largest count first, with exact counts, and none
      omitted with a larger count. */
  lemma DistributionFacts(cats: seq<string>, sorted: seq<Entry>, top: seq<Entry>)
    requires forall c :: c in Tally(cats) <==> c in cats
    requires forall c :: c in Tally(cats) ==> Tally(cats)[c] == multiset(cats)[c]
    requires forall c :: c in FirstSeen(cats) <==> c in cats
    requires |sorted| == |FirstSeen(cats)|
    requires Sorting.SortedBy(sorted, NegValue)
    requires multiset(sorted) == multiset(Entries(Tally(cats), FirstSeen(cats)))
    requires top == if |sorted| <= 5 then sorted else sorted[..5]
    ensures |top| == Min(5, |FirstSeen(cats)|)
    ensures forall i, j :: 0 <= i < j < |top| ==> top[i].value >= top[j].value
    ensures forall e :: e in top ==> e.name in cats && e.value == multiset(cats)[e.name]
    ensures forall c :: c in cats && (forall e :: e in top ==> e.name != c) ==>
      forall e :: e in top ==> multiset(cats)[c] <= e.value
  {
    TopFive(cats, sorted, top);
    forall i, j | 0 <= i < j < |top|
      ensures top[i].value >= top[j].value
    {
      assert NegValue(sorted[i]) <= NegValue(sorted[j]);
    }
  }

  /** The first five of the stably sorted tally entries name no category twice,
      and of each count keep the categories that occur first, in that order. */
  lemma DistributionOrder(cats: seq<string>, sorted: seq<Entry>, top: seq<Entry>)
    requires Distinct(FirstSeen(cats))
    requires multiset(sorted) == multiset(SeenCounts(cats))
    requires Sorting.SameKeyOrder(sorted, SeenCounts(cats), NegValue)
    requires top == if |sorted| <= 5 then sorted else sorted[..5]
    ensures forall i, j :: 0 <= i < j < |top| ==> top[i].name != top[j].name
    ensures forall v :: WithCount(top, v) <= WithCount(SeenCounts(cats), v)
  {
    var e := SeenCounts(cats);
    assert forall j :: 0 <= j < |e| ==> e[j].name == FirstSeen(cats)[j];
    DistinctNames(e, sorted);
    TopFiveOrder(e, sorted, top);
  }

  /** `getCategoryDistribution`: count the products per category, then keep the
      five largest counts, largest first. Every listed category occurs with its
      exact count and is listed once, no category left out has a larger count
      than one listed, and categories of equal count are kept and listed in the
      order they first occur (the sort is stable). */
  method CategoryDistribution(products: seq<Product>) returns (top: seq<Entry>)
    ensures |top| == Min(5, |FirstSeen(Categories(products))|)
    ensures forall i, j :: 0 <= i < j < |top| ==> top[i].value >= top[j].value
    ensures forall e :: e in top ==>
      e.name in Categories(products) && e.value == multiset(Categories(products))[e.name]
    ensures forall c :: c in Categories(products) && (forall e :: e in top ==> e.name != c) ==>
      forall e :: e in top ==> multiset(Categories(products))[c] <= e.value
    ensures forall i, j :: 0 <= i < j < |top| ==> top[i].name != top[j].name
    ensures forall v :: WithCount(top, v) <= WithCount(SeenCounts(Categories(products)), v)
  {
    var counts, order := CountCategories(products);
    TallySpec(Categories(products));
    EntriesSpec(Categories(products));
    var sorted := Sorting.SortBy(Entries(counts, order), NegValue);
    top := if |sorted| <= 5 then sorted else sorted[..5];
    DistributionFacts(Categories(products), sorted, top);
    DistributionOrder(Categories(products), sorted, top);
  }
}
