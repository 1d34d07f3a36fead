/** The admin product list of `client/src/pages/admin/ProductsManagement.jsx`:
    the search filter, the sort configuration toggled by `requestSort`, and the
    pagination with its Previous / Next buttons (10 products a page). The
    comparator of the sort compares arbitrary JavaScript values and is not
    modelled; pages are cut from the list in the order it is given. */
module ProductsManagement {
  import opened Js
  import Pagination

  const ItemsPerPage: nat := 10

  datatype Direction = Ascending | Descending

  /** `sortConfig`. */
  datatype SortConfig = SortConfig(key: string, direction: Direction)

  const InitialSort := SortConfig("id", Ascending)

  /** `requestSort(key)`. */
  function RequestSort(config: SortConfig, key: string): (r: SortConfig)
  {
    if config.key == key && config.direction == Ascending then SortConfig(key, Descending)
    else SortConfig(key, Ascending)
  }

  /** The sort key is always the requested one, and the order is descending
      exactly when the same key is requested again while ascending; requesting a
      key three times comes back to ascending after descending. */
  lemma RequestSortSpec(config: SortConfig, key: string)
    ensures RequestSort(config, key).key == key
    ensures RequestSort(config, key).direction == Descending <==> config == SortConfig(key, Ascending)
    ensures RequestSort(RequestSort(config, key), key).direction
      == if config == SortConfig(key, Ascending) then Ascending else Descending
  {
  }

  /** An admin table row; a missing text field is `""`. */
  datatype Product = Product(name: string, postTitle: string, id: Value, upperId: Value,
                             category: string, taxProductCat: string)

  function OrName(a: string, b: string): string { if a != "" then a else b }

  /** `(product.id || product.ID || '').toString()`. */
  function IdText(p: Product): string
  {
    ToString(Or(Or(p.id, p.upperId), Str("")))
  }

  /** The search test, with `term` already lower-cased: in the lower-cased
      name, in the id as written (not lower-cased), or in the lower-cased
      category. */
  predicate MatchesSearch(p: Product, term: string)
  {
    Contains(Lower(OrName(p.name, p.postTitle)), term)
    || Contains(IdText(p), term)
    || Contains(Lower(OrName(p.category, p.taxProductCat)), term)
  }

  /** The search filter of `sortedAndFilteredProducts`. */
  function Search(products: seq<Product>, searchTerm: string): seq<Product>
  {
    if searchTerm == "" then products else Filter(products, (p: Product) => MatchesSearch(p, Lower(searchTerm)))
  }

  /** An empty search keeps everything; otherwise a product is kept exactly when
      it matches the lower-cased term; the kept products stay in order. */
  lemma SearchSpec(products: seq<Product>, searchTerm: string)
    ensures searchTerm == "" ==> Search(products, searchTerm) == products
    ensures searchTerm != "" ==>
      forall p :: p in Search(products, searchTerm) <==> p in products && MatchesSearch(p, Lower(searchTerm))
    ensures Subsequence(Search(products, searchTerm), products)
  {
    if searchTerm == "" {
      SubsequenceReflexive(products);
    } else {
      FilterSubsequence(products, (p: Product) => MatchesSearch(p, Lower(searchTerm)));
    }
  }

  /** Searching is insensitive to the case of the term. */
  lemma SearchIgnoresTermCase(products: seq<Product>, a: string, b: string)
    requires a != "" && Lower(a) == Lower(b)
    ensures Search(products, a) == Search(products, b)
  {
  }

  // ---------------------------------------------------------------------------
  // Previous / Next

  /** `Math.max(1, currentPage - 1)`, run only when the button is enabled
      (`currentPage !== 1`). */
  function PreviousPage(page: int): int
  {
    if page == 1 then page else if page - 1 < 1 then 1 else page - 1
  }

  /** The small-screen Next button: enabled whenever `currentPage !== totalPages`,
      then `Math.min(totalPages, currentPage + 1)`. */
  function MobileNextPage(page: int, totalPages: int): int
  {
    if page == totalPages then page else if totalPages < page + 1 then totalPages else page + 1
  }

  /** On an empty list (`totalPages` is 0) the small-screen Next button is
      enabled on page 1 and moves to page 0. */
  lemma MobileNextLeavesRange()
    ensures MobileNextPage(1, 0) == 0
  {
  }

  /** The Next button with the guard of the wide-screen one: also disabled when
      there are no pages. */
  function NextPage(page: int, totalPages: int): int
  {
    if page == totalPages || totalPages == 0 then page
    else if totalPages < page + 1 then totalPages else page + 1
  }

  /** Previous and Next keep the page at least 1, Next never passes the last
      page of a non-empty list, and both move by one page at most. */
  lemma PagingStaysInRange(page: int, totalPages: nat)
    requires 1 <= page
    ensures PreviousPage(page) >= 1 && page - 1 <= PreviousPage(page) <= page
    ensures NextPage(page, totalPages) >= 1
    ensures page <= totalPages ==> page <= NextPage(page, totalPages) <= totalPages
    ensures NextPage(page, totalPages) <= page + 1
  {
  }

  // ---------------------------------------------------------------------------
  // Page state

  class ManagementState {
    var searchTerm: string
    var currentPage: int
    var sortConfig: SortConfig

    /** The page number never drops below 1. */
    predicate Valid()
      reads this
    {
      currentPage >= 1
    }

    constructor ()
      ensures searchTerm == "" && currentPage == 1 && sortConfig == InitialSort
      ensures Valid()
    {
      searchTerm := "";
      currentPage := 1;
      sortConfig := InitialSort;
    }

    /** `handleSearchChange`: a new term sends the list back to page 1. */
    method HandleSearchChange(term: string)
      modifies this
      ensures searchTerm == term && currentPage == 1 && sortConfig == old(sortConfig)
      ensures Valid()
    {
      searchTerm := term;
      currentPage := 1;
    }

    method RequestSortKey(key: string)
      modifies this
      ensures sortConfig == RequestSort(old(sortConfig), key)
      ensures searchTerm == old(searchTerm) && currentPage == old(currentPage)
    {
      sortConfig := RequestSort(sortConfig, key);
    }

    method Previous()
      requires Valid()
      modifies this
      ensures currentPage == PreviousPage(old(currentPage))
      ensures searchTerm == old(searchTerm) && sortConfig == old(sortConfig)
      ensures Valid()
    {
      if currentPage != 1 {
        currentPage := if currentPage - 1 < 1 then 1 else currentPage - 1;
      }
    }

    /** Next, with the guard of the wide-screen button on both buttons. */
    method Next(products: seq<Product>)
      requires Valid()
      modifies this
      ensures currentPage == NextPage(old(currentPage), TotalPages(products))
      ensures searchTerm == old(searchTerm) && sortConfig == old(sortConfig)
      ensures Valid()
    {
      var total := TotalPages(products);
      if currentPage != total && total != 0 {
        currentPage := if total < currentPage + 1 then total else currentPage + 1;
      }
      PagingStaysInRange(old(currentPage), total);
    }

    /** The number of pages of the searched list. */
    function TotalPages(products: seq<Product>): nat
      reads this
    {
      Pagination.TotalPages(|Search(products, searchTerm)|, ItemsPerPage)
    }

    /** `paginatedProducts`: at most ten products, all of them matching the search. */
    function PaginatedProducts(products: seq<Product>): (r: seq<Product>)
      reads this
      ensures |r| <= ItemsPerPage
      ensures forall p :: p in r ==> p in Search(products, searchTerm)
    {
      Pagination.PageItems(Search(products, searchTerm), currentPage, ItemsPerPage)
    }
  }
}
