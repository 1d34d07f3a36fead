/** The client-side pagination shared by the shop page (12 products a page) and
    the admin product list (10 a page): page `p` shows
    `items.slice((p - 1) * perPage, p * perPage)` and there are
    `Math.ceil(n / perPage)` pages. */
module Pagination {
  import opened Js

  /** `Math.ceil(n / perPage)`. */
  function TotalPages(n: nat, perPage: nat): (r: nat)
    requires perPage > 0
    ensures n <= r * perPage
    ensures n > 0 ==> (r - 1) * perPage < n
    ensures n == 0 ==> r == 0
  {
    (n + perPage - 1) / perPage
  }

  /** The items on page `page`: `indexOfLast = page * perPage`,
      `indexOfFirst = indexOfLast - perPage`, then `slice`. */
  function PageItems<T>(items: seq<T>, page: int, perPage: nat): (r: seq<T>)
    ensures |r| <= perPage
    ensures forall i :: 0 <= i < |r| ==> r[i] in items
  {
    var last := page * perPage;
    SliceWidth(items, last - perPage, last);
    Slice(items, last - perPage, last)
  }

  function Min(a: int, b: int): int { if a <= b then a else b }

  lemma MulMonotone(a: int, b: int, c: nat)
    requires a <= b
    ensures a * c <= b * c
  {
    assert b * c - a * c == (b - a) * c;
  }

  /** A page in range shows its `perPage` items (fewer on the last page, never
      none). */
  lemma PageInRange<T>(items: seq<T>, page: int, perPage: nat)
    requires perPage > 0
    requires 1 <= page <= TotalPages(|items|, perPage)
    ensures PageItems(items, page, perPage) == items[(page - 1) * perPage .. Min(page * perPage, |items|)]
    ensures PageItems(items, page, perPage) != []
  {
    var t := TotalPages(|items|, perPage);
    var start := (page - 1) * perPage;
    assert start == page * perPage - perPage;
    MulMonotone(page - 1, t - 1, perPage);
    MulMonotone(0, page - 1, perPage);
    assert 0 <= start < |items|;
  }

  /** Page 0 and the pages past the last show nothing. */
  lemma PageOutOfRange<T>(items: seq<T>, page: int, perPage: nat)
    requires perPage > 0
    requires page == 0 || page > TotalPages(|items|, perPage)
    ensures PageItems(items, page, perPage) == []
  {
    var last := page * perPage;
    if page > 0 {
      var t := TotalPages(|items|, perPage);
      MulMonotone(t, page - 1, perPage);
      assert last - perPage == (page - 1) * perPage;
      assert ClampIndex(last - perPage, |items|) == |items|;
    } else {
      assert last == 0;
      assert ClampIndex(last, |items|) == 0;
    }
  }

  /** Pages 1 to `k`, one after the other. */
  function Pages<T>(items: seq<T>, perPage: nat, k: nat): seq<T>
  {
    if k == 0 then [] else Pages(items, perPage, k - 1) + PageItems(items, k, perPage)
  }

  lemma {:induction false} PagesPrefix<T>(items: seq<T>, perPage: nat, k: nat)
    requires perPage > 0
    ensures Pages(items, perPage, k) == items[..Min(k * perPage, |items|)]
  {
    if k > 0 {
      PagesPrefix(items, perPage, k - 1);
      var lo := Min((k - 1) * perPage, |items|);
      var hi := Min(k * perPage, |items|);
      assert (k - 1) * perPage == k * perPage - perPage;
      assert PageItems(items, k, perPage) == items[lo..hi];
      assert items[..lo] + items[lo..hi] == items[..hi];
    }
  }

  /** The pages partition the list: read in order, they give back every item
      exactly once. */
  lemma PagesPartition<T>(items: seq<T>, perPage: nat)
    requires perPage > 0
    ensures Pages(items, perPage, TotalPages(|items|, perPage)) == items
  {
    PagesPrefix(items, perPage, TotalPages(|items|, perPage));
  }
}
