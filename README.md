# Liquor Online storefront: a Dafny model of its core logic

This project models the rules behind the Liquor Online shop and its admin
console in Dafny. It covers:

- The customer-facing state:
  - the cart and the wishlist;
  - the shop, search and catalogue pages, with their filters, sorts and pages;
  - the three-step checkout;
  - the notification stores.
- The admin console:
  - the product table and the new-product form;
  - the dashboard figures;
  - the admin notification store.
- The server side:
  - the product endpoints that work on the spreadsheet;
  - the order and discount-code models;
  - the request validators.
- The script that adds the `isTrending` column to the catalogue.
- The viewport helpers.

Each source file is one module. Where the source changes state step by step,
the model does too:

- A context provider, page or table becomes a class. Its methods modify its
  fields.
- Loops become methods with loop invariants. Each is proved against a function
  that specifies it.

Pure helpers, such as the filter builders, the validators and the updaters,
become functions. Lemmas state what the source promises of them.

Two modules are shared:

- `Js` gives the JavaScript behaviour the code relies on:
  - truthiness and `||`;
  - case mapping for ASCII and Latin-1 letters (with `ÿ`/`Ÿ`);
  - `trim` over the whole ECMAScript white-space and line-terminator set;
  - `includes`, and `slice` with negative indices;
  - `toString` and `parseInt` on whole numbers;
  - `filter`, with its order and counting lemmas.
- `Sorting` is the stable sort behind the numeric `Array.prototype.sort` calls.
  It is an insertion sort on an array, proved sorted, a permutation, and
  stable: for every key, the elements with that key keep their relative order.

`Pagination` is the page arithmetic that both the shop and the admin table use.

Modelling conventions:

- Money is in integer cents and ratings are in tenths.
- Timestamps, random draws, server answers and the outcome of file writes are
  parameters.

## Model

| member | source | states |
|---|---|---|
| `Trending.Drawn` | client/add_trending.py:17 | one flag per row, true exactly when that row's draw is below 0.25 |
| `Trending.NonTrending` | client/add_trending.py:26 | the pool holds every non-trending row position and nothing else |
| `Trending.NonTrendingSize` | client/add_trending.py:26 | the pool has one entry per non-trending row, without repeats |
| `Trending.TakeOutContents` | client/add_trending.py:30 | removing a pick from the pool removes exactly that element and keeps the pool free of repeats |
| `Trending.SampleSpec` | client/add_trending.py:30 | `random.sample` returns `k` members of the pool |
| `Trending.SampleDistinct` | client/add_trending.py:30 | the sample has no repeats and is drawn from the pool |
| `Trending.Sample` | client/add_trending.py:30 | the sampling loop returns exactly the specified sample |
| `Trending.CountSetTrue` | client/add_trending.py:31 | setting one false flag raises the trending count by one |
| `Trending.MarkEffect` | client/add_trending.py:31 | marking distinct non-trending rows raises the count by their number and sets exactly those rows |
| `Trending.CorrectOnlyRaises` | client/add_trending.py:24-31 | the correction never clears a flag, and leaves the column alone when it does not apply |
| `Trending.CorrectReachesFloor` | client/add_trending.py:26-31 | when the correction runs, it flips `8 - count` distinct non-trending rows and the count becomes exactly 8 |
| `Trending.FloorHolds` | client/add_trending.py:20-31 | a table of at least 8 rows ends with at least 8 trending rows; the count never exceeds the row count |
| `Trending.Bools` | client/add_trending.py:17 | the column holds one boolean per row |
| `Trending.CorrectColumn` | client/add_trending.py:20-31 | the corrected column, and whether the correction branch ran |
| `Trending.EnrichIdempotent` | client/add_trending.py:14 | running the script twice is the same as running it once |
| `Trending.EnrichShape` | client/add_trending.py:14-17 | existing columns, the row count and row order are kept; the new column has one boolean per row |
| `Trending.DataFrame.constructor` | client/add_trending.py:11 | the table holds the given columns and rows |
| `Trending.Enrich` | client/add_trending.py:13-43 | a table that already has the column is left untouched; otherwise the column is added and corrected, and the summary figures are reported |
| `Cart.FindIndex` | client/src/context/CartContext.jsx:46 | `findIndex`: the first line with that product id, or -1 exactly when there is none |
| `Cart.UnitPrice` | client/src/context/CartContext.jsx:32-38 | a line is priced at the sale price when there is one, else at the price |
| `Cart.RemoveSpec` | client/src/context/CartContext.jsx:80-88 | removal keeps exactly the lines of other products |
| `Cart.Find` | client/src/context/CartContext.jsx:99-101 | `find` returns the first line with that id, present exactly when the id is in the cart |
| `Cart.AddShape` | client/src/context/CartContext.jsx:45-65 | adding an existing product raises that line's quantity in place; a new product is appended |
| `Cart.AddKeepsIdsUnique` | client/src/context/CartContext.jsx:45-65 | adding keeps every product on at most one line, and the product is in the cart afterwards |
| `Cart.AddSummaries` | client/src/context/CartContext.jsx:32-38 | adding raises the unit count by the quantity added, and the total by that quantity at the line's price |
| `Cart.RemoveConcat` | client/src/context/CartContext.jsx:80-88 | removal works line by line |
| `Cart.RemoveAbsent` | client/src/context/CartContext.jsx:80-88 | removing an absent product changes nothing |
| `Cart.RemoveCount` | client/src/context/CartContext.jsx:80-88 | removing a product lowers the unit count by its line's quantity |
| `Cart.UpdateShape` | client/src/context/CartContext.jsx:67-78 | a quantity of 0 or less removes the line; otherwise only that line's quantity changes |
| `Cart.FindAfterRemove` | client/src/context/CartContext.jsx:80-101 | a removed product is no longer found |
| `Cart.CartStore.constructor` | client/src/context/CartContext.jsx:9-11 | the cart starts empty with consistent summaries |
| `Cart.CartStore.Summarise` | client/src/context/CartContext.jsx:32-38 | the count and total are recomputed from the lines |
| `Cart.CartStore.AddToCart` | client/src/context/CartContext.jsx:45-65 | the lines become the specified addition and the summaries stay consistent |
| `Cart.CartStore.AddOneToCart` | client/src/context/CartContext.jsx:45 | `addToCart(product)` adds with the default quantity 1 |
| `Cart.CartStore.RemoveFromCart` | client/src/context/CartContext.jsx:80-88 | the product's line is gone and the summaries stay consistent |
| `Cart.CartStore.UpdateCartItemQuantity` | client/src/context/CartContext.jsx:67-78 | the lines become the specified update and the summaries stay consistent |
| `Cart.CartStore.ClearCart` | client/src/context/CartContext.jsx:90-93 | no lines, count 0 and total 0 |
| `Cart.CartStore.IsInCart` | client/src/context/CartContext.jsx:95-97 | true exactly when `getCartItem` finds a line |
| `Cart.CartStore.GetCartItem` | client/src/context/CartContext.jsx:99-101 | a found line is in the cart and has that id |
| `Wishlist.Without` | client/src/context/WishlistContext.jsx:34-42 | removal keeps exactly the items with other ids |
| `Wishlist.ReduceCases` | client/src/context/WishlistContext.jsx:18-50 | each action: a present item is not added twice, removal filters by id, clear empties, unknown actions change nothing |
| `Wishlist.ReducePreserves` | client/src/context/WishlistContext.jsx:18-50 | `totalItems` stays equal to the number of items, and ids stay unique |
| `Wishlist.WithoutUnique` | client/src/context/WishlistContext.jsx:34-42 | removal keeps ids unique |
| `Wishlist.AddTwice` | client/src/context/WishlistContext.jsx:20-32 | adding the same item twice is the same as adding it once |
| `Wishlist.ProviderAgreesWithReducer` | client/src/context/WishlistContext.jsx:81-108 | the provider's add, remove and clear agree with the reducer's actions |
| `Wishlist.MembershipAfter` | client/src/context/WishlistContext.jsx:110-112 | an added item is in the wishlist and a removed id is not |
| `Wishlist.WishlistStore.constructor` | client/src/context/WishlistContext.jsx:57 | the wishlist starts empty |
| `Wishlist.WishlistStore.AddToWishlist` | client/src/context/WishlistContext.jsx:81-93 | the item is in the wishlist afterwards |
| `Wishlist.WishlistStore.RemoveFromWishlist` | client/src/context/WishlistContext.jsx:95-103 | the id is no longer in the wishlist |
| `Wishlist.WishlistStore.ClearWishlist` | client/src/context/WishlistContext.jsx:105-108 | no items and a count of 0 |
| `ProductsApi.SpreadGet` | server/index.js:176-182 | in `{ ...a, ...b }` a key of `b` takes `b`'s value and any other key keeps `a`'s |
| `ProductsApi.MaxOfBounds` | server/index.js:117-124 | the `maxId` the loop ends with is at least every id that parsed |
| `ProductsApi.NextIdIsFresh` | server/index.js:117-126 | the new id is larger than every parsed id, and the maximum is attained unless it is 0 |
| `ProductsApi.MaxOfAttained` | server/index.js:117-124 | a non-zero maximum is one of the parsed ids |
| `ProductsApi.Generated` | server/index.js:129-136 | the generated fields: both id fields and both dates |
| `ProductsApi.NewProductFields` | server/index.js:129-136 | a field of the body wins over a generated one, and the generated id and dates fill the gaps |
| `ProductsApi.FindMatch` | server/index.js:169 | the first product whose `id` or `ID` matches, or -1 when none does |
| `ProductsApi.MergeFields` | server/index.js:176-182 | the merged product takes the body's fields over the old ones, then the kept id and the new modification date |
| `ProductsApi.Remove` | server/index.js:211 | deletion keeps exactly the non-matching products |
| `ProductsApi.RemoveKeepsLengthIffNoMatch` | server/index.js:211-215 | the list keeps its length exactly when no product matches, which is the 404 case |
| `ProductsApi.RemoveConcat` | server/index.js:211 | deletion works product by product |
| `ProductsApi.AddKeys` | server/index.js:244-247 | adding a product's keys to the field list keeps the earlier fields in place and adds the new ones |
| `ProductsApi.FieldsOfSpec` | server/index.js:239-247 | the field list names every key of every product, once each |
| `ProductsApi.FirstDefined` | server/index.js:250-259 | a field's type comes from the first product where it is defined |
| `ProductsApi.BestIndex` | server/index.js:262-266 | the sample product is the first one with the most keys |
| `ProductsApi.ProductTable.constructor` | server/index.js:105-110 | the table holds the rows read |
| `ProductsApi.ProductTable.ComputeNextId` | server/index.js:117-126 | the loop computes the specified next id |
| `ProductsApi.ProductTable.Post` | server/index.js:105-157 | a body without a name is refused with 400; otherwise the new product is appended when the write succeeds |
| `ProductsApi.ProductTable.Put` | server/index.js:160-200 | an unknown id gives 404; otherwise the merged product replaces the old one in place when the write succeeds |
| `ProductsApi.ProductTable.Delete` | server/index.js:203-232 | an unknown id gives 404; otherwise the matching products are removed when the write succeeds |
| `ProductsApi.ProductTable.CollectFields` | server/index.js:244-247 | the loop collects the specified field list |
| `ProductsApi.ProductTable.CollectTypes` | server/index.js:250-259 | each field with a defined value gets the `typeof` of its first one |
| `ProductsApi.ProductTable.GetStructure` | server/index.js:235-277 | an empty table gives empty lists; otherwise the fields, their types and the sample product |
| `Order.HookAppendsOnly` | server/models/Order.js:146-162 | the hook only appends to the history: one entry for a new order or a changed status, none otherwise |
| `Order.HookKeepsStatusesValid` | server/models/Order.js:125-137 | every status in the history stays one of the allowed statuses |
| `Order.OrderDocument.constructor` | server/models/Order.js:125-129 | the status defaults to `pending` and the history starts empty |
| `Order.OrderDocument.SetStatus` | server/models/Order.js:146-162 | the status is set and marked modified when it changes |
| `Order.OrderDocument.PreSave` | server/models/Order.js:146-162 | the history becomes what the hook specifies |
| `Order.OrderDocument.Save` | server/models/Order.js:21-25 | a document failing validation is not saved; a saved one gets the hook's history and is no longer new or modified |
| `DiscountCode.ValidIffAllChecksPass` | server/models/DiscountCode.js:78-92 | valid exactly when the code is active, uses are below a non-null maximum, and now is within the set dates |
| `DiscountCode.InactiveNeverValid` | server/models/DiscountCode.js:82 | an inactive code is never valid |
| `DiscountCode.NullMeansUnlimited` | server/models/DiscountCode.js:32-35 | with null `maxUses` and `endDate`, a valid code stays valid for any use count at any later time |
| `DiscountCode.BoundariesInclusive` | server/models/DiscountCode.js:84-90 | the start and end dates themselves are valid; the instant before and after are not |
| `DiscountCode.InvalidStaysInvalid` | server/models/DiscountCode.js:48-51 | an expired code stays invalid for more uses at any later time |
| `DiscountCode.UsesMonotone` | server/models/DiscountCode.js:85 | more uses never turn an invalid code valid |
| `Validators.FieldString` | server/middleware/validators.js:20-62 | the string a chain works on is the field itself when it is a string |
| `Validators.FirstLine` | server/middleware/validators.js:42 | the text up to the first line terminator |
| `Validators.Tag` | server/middleware/validators.js:4-17 | each message is tagged with its field and value, in order |
| `Validators.Format` | server/middleware/validators.js:4-17 | no errors passes on; otherwise a 400 with one `{ field, message }` per error |
| `Validators.UsernameRule` | server/middleware/validators.js:22-27 | a username passes exactly when, trimmed, it has 3 to 30 letters, digits, `_` or `-` |
| `Validators.PasswordRule` | server/middleware/validators.js:37-42 | a password passes exactly when, trimmed, it has 6 to 100 characters as `isLength` counts them (variation selectors not counted) and its first line holds a lower-case letter, an upper-case letter and a digit |
| `Validators.MissingUsernameMessages` | server/middleware/validators.js:22-27 | a missing username gets three messages |
| `Validators.FirstLineStopsAtTerminator` | server/middleware/validators.js:42 | text after a line terminator is not on the first line |
| `Validators.PasswordSecondLineIgnored` | server/middleware/validators.js:42 | characters on a second line do not satisfy the password rule |
| `Validators.RegistrationRule` | server/middleware/validators.js:20-46 | registration passes exactly when all three fields pass |
| `Validators.LoginRule` | server/middleware/validators.js:49-62 | login passes exactly when both trimmed fields are non-empty, one message per empty field |
| `Validators.MeasuredLength` | server/middleware/validators.js:25-26 | the length `isLength` measures: never more than the number of characters, all of them without variation selectors, none when there are only selectors |
| `Validators.MeasuredLengthAppend` | server/middleware/validators.js:40-41 | the measured length of two joined pieces is the sum of their measured lengths |
| `Validators.TrimUnpadded` | server/middleware/validators.js:38 | text with no white space at either end is its own trim |
| `Validators.TrimOneSpace` | server/middleware/validators.js:23 | one white-space character in front of unpadded text is trimmed away |
| `Validators.TrimLeadingSpace` | server/middleware/validators.js:23 | an ideographic space (U+3000) in front of `bob` is trimmed away |
| `Validators.IdeographicSpaceTrimmed` | server/middleware/validators.js:22-27 | the username `\u3000bob` is trimmed to `bob` and passes every username check |
| `Validators.MeasuredWithSelector` | server/middleware/validators.js:38-41 | the password `aB1`, U+FE0F, `cd` trims to itself and measures 5 |
| `Validators.VariationSelectorNotCounted` | server/middleware/validators.js:37-42 | that six-character password is refused as shorter than 6 |
| `Taxonomy.Dedup` | client/src/context/TaxonomyContext.jsx:21-35 | the kept names are non-empty names of the input |
| `Taxonomy.HasKeyAppend` | client/src/context/TaxonomyContext.jsx:27-31 | a key is present after appending exactly when it was before or is the new item's |
| `Taxonomy.DedupKeys` | client/src/context/TaxonomyContext.jsx:21-35 | every key of a non-empty input name survives |
| `Taxonomy.DedupIsFirstOccurrences` | client/src/context/TaxonomyContext.jsx:21-35 | the result is the first occurrence of each key, in input order |
| `Taxonomy.DedupUnique` | client/src/context/TaxonomyContext.jsx:21-35 | no key occurs twice in the result |
| `Taxonomy.DedupOfDistinct` | client/src/context/TaxonomyContext.jsx:21-35 | a list of distinct non-empty keys is returned unchanged |
| `Taxonomy.RemoveDuplicatesIdempotent` | client/src/context/TaxonomyContext.jsx:21-35 | deduplicating twice is deduplicating once; a non-array gives `[]` |
| `Taxonomy.FilterFirst` | client/src/context/TaxonomyContext.jsx:24-34 | the loop with its `seen` set computes the specified deduplication |
| `Taxonomy.RemoveDuplicates` | client/src/context/TaxonomyContext.jsx:21-35 | `removeDuplicates` computes the specified result |
| `Taxonomy.SameKey` | client/src/context/TaxonomyContext.jsx:27 | names that agree letter by letter under `toLowerCase` have the same key |
| `Taxonomy.DedupPair` | client/src/context/TaxonomyContext.jsx:24-34 | of two non-empty names with the same key only the first is kept |
| `Taxonomy.AccentedNamesFold` | client/src/context/TaxonomyContext.jsx:20-35 | `Rosé` and `ROSÉ` fold to the single entry `Rosé` |
| `ProductForm.FormFields` | client/src/components/admin/NewProductForm.jsx:180 | the form shows exactly the table fields that are not hidden |
| `ProductForm.FormFieldsIdempotent` | client/src/components/admin/NewProductForm.jsx:14-19 | filtering the hidden fields twice changes nothing |
| `ProductForm.Twin` | client/src/components/admin/NewProductForm.jsx:230-255 | a field's twin is a different field |
| `ProductForm.TwinSymmetric` | client/src/components/admin/NewProductForm.jsx:230-255 | the twin of a field's twin is the field |
| `ProductForm.HandleInputChange` | client/src/components/admin/NewProductForm.jsx:221-257 | the edited field takes the input's value, its twin takes the raw text, and every other field is unchanged |
| `ProductForm.TextEditKeepsTwinsEqual` | client/src/components/admin/NewProductForm.jsx:221-257 | a text edit leaves a field and its twin equal |
| `ProductForm.ValidateFormFirstFailure` | client/src/components/admin/NewProductForm.jsx:322-351 | each message is reported exactly when its check is the first to fail; none when all pass |
| `ProductForm.SubmitError` | client/src/components/admin/NewProductForm.jsx:356-371 | submitting without an error needs a valid form |
| `ProductForm.NewProductNeedsImage` | client/src/components/admin/NewProductForm.jsx:367-371 | a new product without an image is refused |
| `ProductForm.SizeDigits` | client/src/components/admin/NewProductForm.jsx:397 | `replace(/[^0-9.]/g, '')` keeps only digits and dots |
| `ProductForm.SizeDigitsOfDigits` | client/src/components/admin/NewProductForm.jsx:397 | a size of digits and dots is unchanged |
| `ProductForm.SuffixesDropped` | client/src/components/admin/NewProductForm.jsx:395-405 | the `ml` and `ML` suffixes are dropped |
| `ProductForm.NormaliseSpec` | client/src/components/admin/NewProductForm.jsx:391-406 | the preview is dropped, a size gets `ml` and the volume gets `ML`, other fields are kept, and normalising twice changes nothing |
| `ProductForm.ExcelValue` | client/src/components/admin/NewProductForm.jsx:413-418 | booleans become the strings `'true'` and `'false'` |
| `ProductForm.ConvertFields` | client/src/components/admin/NewProductForm.jsx:423-428 | converting numbers keeps the set of keys |
| `ProductForm.ConvertFieldsEffect` | client/src/components/admin/NewProductForm.jsx:423-428 | each listed field with a truthy value is parsed, and every other field is unchanged |
| `ProductForm.ConvertSpecEffect` | client/src/components/admin/NewProductForm.jsx:423-428 | the seven numeric fields are parsed when truthy, and the other fields are unchanged |
| `ProductForm.FilterForExcel` | client/src/components/admin/NewProductForm.jsx:409-420 | the loop keeps the table fields and the image fields, with booleans converted |
| `ProductForm.ConvertNumbers` | client/src/components/admin/NewProductForm.jsx:423-428 | the loop computes the specified numeric conversion |
| `ProductForm.StripEmpty` | client/src/components/admin/NewProductForm.jsx:431-435 | the loop deletes exactly the `undefined` and `''` values |
| `ProductForm.PrepareSubmission` | client/src/components/admin/NewProductForm.jsx:391-435 | the submitted record is normalised, filtered, converted and stripped, in that order |
| `ProductForm.SubmissionShape` | client/src/components/admin/NewProductForm.jsx:391-435 | the submitted record has only kept keys and non-empty values, no booleans outside the numeric fields, no preview, and a size ending in `ml` |
| `ProductForm.SubmissionKeys` | client/src/components/admin/NewProductForm.jsx:391-435 | the submitted record has only kept keys and non-empty values, no booleans outside the numeric fields, and no preview |
| `ProductForm.SubmissionSize` | client/src/components/admin/NewProductForm.jsx:391-435 | a truthy size that is a table field is submitted with its `ml` unit |
| `ProductForm.SpaceCapitalsFollowSpace` | client/src/components/admin/NewProductForm.jsx:559 | every capital in the label is preceded by a space |
| `ProductForm.DisplayNameSpacesCapitals` | client/src/components/admin/NewProductForm.jsx:559 | the label has no leading or trailing space, and every capital after its first character follows a space |
| `ProductForm.SpaceCapitalsAppend` | client/src/components/admin/NewProductForm.jsx:559 | the spacing works character by character |
| `ProductForm.SpaceCapitalsNoCapital` | client/src/components/admin/NewProductForm.jsx:559 | text without capitals is unchanged |
| `ProductForm.TwoWordLabel` | client/src/components/admin/NewProductForm.jsx:559 | `isLimitedEdition`-style names become two words separated by a space |
| `ProductForm.SpacedPair` | client/src/components/admin/NewProductForm.jsx:559 | dropping `is` and spacing the capitals of two capitalised words gives a space, the first word, a space and the second word |
| `ProductForm.PairEnds` | client/src/components/admin/NewProductForm.jsx:559 | that spaced text starts with one space followed by a letter and ends with a letter |
| `Pagination.TotalPages` | client/src/pages/ShopPage.jsx:335 | `Math.ceil(n / perPage)`: the pages hold every item, the last page is not empty, and there are no pages for an empty list |
| `Pagination.PageItems` | client/src/pages/ShopPage.jsx:332-334 | a page holds at most `perPage` items, all taken from the list |
| `Pagination.PageInRange` | client/src/pages/ShopPage.jsx:332-334 | a page in range shows its slice of the list and is not empty |
| `Pagination.PageOutOfRange` | client/src/pages/ShopPage.jsx:332-334 | page 0 and pages past the last show nothing |
| `Pagination.PagesPrefix` | client/src/pages/ShopPage.jsx:332-335 | the first `k` pages read in order are a prefix of the list |
| `Pagination.PagesPartition` | client/src/pages/ShopPage.jsx:332-335 | all pages read in order give back the list, each item once |
| `Sorting.WithKeyAppend` | client/src/pages/SearchResultsPage.jsx:113-117 | the elements of one key in two joined sequences are those of the first followed by those of the second |
| `Sorting.MovePastOthers` | client/src/pages/SearchResultsPage.jsx:113-117 | moving an element past elements of other keys keeps the order within every key |
| `Sorting.Placed` | client/src/pages/SearchResultsPage.jsx:113-117 | the insertion's state at position `j`: the moved element at `j`, the prefix before it, the elements it passed shifted one place right, the rest unchanged |
| `Sorting.PlacedSorted` | client/src/pages/SearchResultsPage.jsx:113-117 | once the element stops behind a key no larger than its own, the first `i + 1` elements are sorted |
| `Sorting.PlacedPermutes` | client/src/pages/SearchResultsPage.jsx:113-117 | the insertion is a permutation |
| `Sorting.PlacedStable` | client/src/pages/SearchResultsPage.jsx:113-117 | passing only elements of larger keys keeps the order within every key |
| `Sorting.PlacedResult` | client/src/pages/SearchResultsPage.jsx:113-117 | the end state is sorted up to `i`, a permutation, and in the old order within every key |
| `Sorting.Swap` | client/src/pages/SearchResultsPage.jsx:113-117 | two elements exchange places and nothing else changes |
| `Sorting.StepLeft` | client/src/pages/SearchResultsPage.jsx:113-117 | one exchange takes the insertion from position `j` to `j - 1` |
| `Sorting.InsertAt` | client/src/pages/SearchResultsPage.jsx:113-117 | inserting `a[i]` into a sorted prefix leaves the first `i + 1` elements sorted, a permutation, in the old order within every key |
| `Sorting.SortInPlace` | client/src/pages/SearchResultsPage.jsx:113-117 | the in-place sort leaves the array ordered by the key, a permutation of what it held, and stable: elements of equal key keep their relative order |
| `Sorting.SortBy` | client/src/pages/ProductsPage.jsx:153-168 | the sorted copy has the same elements, is ordered by the key, and keeps elements of equal key in their order |
| `ShopPage.Put` | client/src/pages/ShopPage.jsx:134-157 | replacing one filter list leaves the other lists unchanged |
| `ShopPage.AddFilterSpec` | client/src/pages/ShopPage.jsx:134-141 | the value is then active: appended when new, nothing changes when present, and the count grows by one exactly when it was new |
| `ShopPage.RemoveFilterSpec` | client/src/pages/ShopPage.jsx:144-149 | exactly that value is removed, the order is kept, and the other lists are unchanged |
| `ShopPage.AddThenRemove` | client/src/pages/ShopPage.jsx:134-149 | removing a value just added restores the filters |
| `ShopPage.ResetSpec` | client/src/pages/ShopPage.jsx:152-168 | clearing empties one list; after a reset no filter is active and the count is 0 |
| `ShopPage.ActiveIgnoresCase` | client/src/pages/ShopPage.jsx:171-175 | the active test ignores case |
| `ShopPage.ToggleCaseVariantIsStuck` | client/src/pages/ShopPage.jsx:178-184 | as written, toggling an active case variant changes nothing and the value stays active |
| `ShopPage.RedWineIsStuck` | client/src/pages/ShopPage.jsx:178-184 | as written, with `Red wine` active the `Red Wine` checkbox cannot be unticked |
| `ShopPage.ToggleFlipsActive` | client/src/pages/ShopPage.jsx:178-184 | with a case-insensitive removal, toggling flips whether the value is active and leaves the other lists alone |
| `ShopPage.Capitalise` | client/src/pages/ShopPage.jsx:71 | the first letter is upper-cased and the rest is kept |
| `ShopPage.CapitaliseIdempotent` | client/src/pages/ShopPage.jsx:71-79 | capitalising twice is capitalising once |
| `ShopPage.MatchName` | client/src/pages/ShopPage.jsx:84-109 | the URL brand or country matches a product's name regardless of case, or there is no match |
| `ShopPage.Names` | client/src/pages/ShopPage.jsx:87-104 | one name per product |
| `ShopPage.UrlFiltersSpec` | client/src/pages/ShopPage.jsx:57-131 | nothing is applied while the catalogue is loading or empty; otherwise the URL's category and type are capitalised into the filters, brand and country take the catalogue's spelling, and no parameters set no filters |
| `ShopPage.FilterBySpec` | client/src/pages/ShopPage.jsx:227-274 | an attribute filter keeps a product exactly when its value matches one of the list regardless of case, keeping the order |
| `ShopPage.FilterProductsSpec` | client/src/pages/ShopPage.jsx:227-274 | a product is shown exactly when it passes every active list, in catalogue order; with no filters the whole list is shown |
| `ShopPage.FilterIgnoresCase` | client/src/pages/ShopPage.jsx:227-274 | filtering by a case variant of a value gives the same result |
| `ShopPage.ShopState.constructor` | client/src/pages/ShopPage.jsx:19-48 | no filters, page 1 |
| `ShopPage.ShopState.SetActiveFilters` | client/src/pages/ShopPage.jsx:337-340 | replacing the filters returns to page 1 |
| `ShopPage.ShopState.AddFilter` | client/src/pages/ShopPage.jsx:134-141 | the filters take the value, and the page goes back to 1 only when they change |
| `ShopPage.ShopState.RemoveFilter` | client/src/pages/ShopPage.jsx:144-149 | the value is removed and the page goes back to 1 |
| `ShopPage.ShopState.ClearFilterType` | client/src/pages/ShopPage.jsx:152-157 | one list is emptied and the page goes back to 1 |
| `ShopPage.ShopState.ResetAllFilters` | client/src/pages/ShopPage.jsx:160-168 | no filters, the count is 0, page 1 |
| `ShopPage.ShopState.ToggleFilter` | client/src/pages/ShopPage.jsx:178-184 | toggling flips whether the value is active |
| `ShopPage.ShopState.HandlePageChange` | client/src/pages/ShopPage.jsx:354-355 | the page is set and the filters are unchanged |
| `ShopPage.ShopState.CurrentProducts` | client/src/pages/ShopPage.jsx:332-334 | at most 12 products, each passing every active filter |
| `SearchResults.ToggleFlips` | client/src/pages/SearchResultsPage.jsx:137-170 | toggling flips the value's membership and touches no other value |
| `SearchResults.ToggleTwice` | client/src/pages/SearchResultsPage.jsx:137-170 | toggling an absent value twice gives back the list |
| `SearchResults.StepSelectSpec` | client/src/pages/SearchResultsPage.jsx:80-105 | an empty selection keeps everything; otherwise exact membership decides, in order |
| `SearchResults.FilterResultsSpec` | client/src/pages/SearchResultsPage.jsx:66-110 | a product is a result exactly when it matches the query, every selection and the inclusive price range, in catalogue order |
| `SearchResults.Results` | client/src/pages/SearchResultsPage.jsx:64-121 | the results are the filtered products, sorted by price when asked with equal prices in their filtered order; any other option keeps the filtered order |
| `SearchResults.PriceDescIsNonIncreasing` | client/src/pages/SearchResultsPage.jsx:116 | the descending price sort puts the dearer product first |
| `SearchResults.SearchState.constructor` | client/src/pages/SearchResultsPage.jsx:56-60 | no selections, range $0 to $1000 (0 to 100000 cents), relevance order |
| `SearchResults.SearchState.SetPriceRange` | client/src/pages/SearchResultsPage.jsx:350-368 | the slider values, whole dollars, become the range in cents; nothing else changes |
| `SearchResults.SearchState.ToggleCategorySelection` | client/src/pages/SearchResultsPage.jsx:138-144 | only the category selection is toggled |
| `SearchResults.SearchState.ToggleTypeSelection` | client/src/pages/SearchResultsPage.jsx:147-153 | only the type selection is toggled |
| `SearchResults.SearchState.ToggleBrandSelection` | client/src/pages/SearchResultsPage.jsx:156-162 | only the brand selection is toggled |
| `SearchResults.SearchState.ToggleCountrySelection` | client/src/pages/SearchResultsPage.jsx:165-171 | only the country selection is toggled |
| `SearchResults.SearchState.ResetFilters` | client/src/pages/SearchResultsPage.jsx:173-180 | back to the initial selections, range and order |
| `SearchResults.SearchState.CurrentResults` | client/src/pages/SearchResultsPage.jsx:64-121 | the results hold the filtered products for the current state, sorted by price in either direction when asked with equal prices in their filtered order, and in the filtered order otherwise |
| `ProductsPage.EffectivePrice` | client/src/pages/ProductsPage.jsx:133 | the sale price when there is one, else the price |
| `ProductsPage.BucketsPartition` | client/src/pages/ProductsPage.jsx:131-146 | every price falls in exactly one of the five price ranges |
| `ProductsPage.FilteredSpec` | client/src/pages/ProductsPage.jsx:122-150 | a product is listed exactly when it is in the category and its effective price is in the range, in catalogue order; `All` and `All` list everything |
| `ProductsPage.Results` | client/src/pages/ProductsPage.jsx:120-174 | the listed products are the filtered ones, ordered by price or rating when asked with ties in their filtered order, unchanged for `featured` |
| `ProductsPage.PriceHighIsNonIncreasing` | client/src/pages/ProductsPage.jsx:157-158 | `price-high` puts the dearer product first |
| `ProductsPage.SortKeepsMembers` | client/src/pages/ProductsPage.jsx:153-172 | sorting keeps every listed product and adds none |
| `ProductsManagement.RequestSortSpec` | client/src/pages/admin/ProductsManagement.jsx:61-67 | the key is the requested one; the order is descending exactly when the same key was ascending |
| `ProductsManagement.SearchSpec` | client/src/pages/admin/ProductsManagement.jsx:74-81 | an empty search keeps everything; otherwise a product is kept exactly when the lower-cased term is in its name, id or category, in order |
| `ProductsManagement.SearchIgnoresTermCase` | client/src/pages/admin/ProductsManagement.jsx:75 | the search ignores the case of the term |
| `ProductsManagement.MobileNextLeavesRange` | client/src/pages/admin/ProductsManagement.jsx:332-333 | as written, the small-screen Next button takes an empty list from page 1 to page 0 |
| `ProductsManagement.PagingStaysInRange` | client/src/pages/admin/ProductsManagement.jsx:325-374 | Previous and Next, with the wide-screen guard, keep the page at least 1 and never past the last page |
| `ProductsManagement.ManagementState.constructor` | client/src/pages/admin/ProductsManagement.jsx:18-21 | empty search, page 1, sorted by id ascending |
| `ProductsManagement.ManagementState.HandleSearchChange` | client/src/pages/admin/ProductsManagement.jsx:55-58 | a new term returns to page 1 |
| `ProductsManagement.ManagementState.RequestSortKey` | client/src/pages/admin/ProductsManagement.jsx:61-67 | the sort configuration follows `requestSort` |
| `ProductsManagement.ManagementState.Previous` | client/src/pages/admin/ProductsManagement.jsx:352-353 | one page back, never below 1 |
| `ProductsManagement.ManagementState.Next` | client/src/pages/admin/ProductsManagement.jsx:373-374 | one page on, never past the last page and never to page 0 |
| `ProductsManagement.ManagementState.PaginatedProducts` | client/src/pages/admin/ProductsManagement.jsx:104-108 | at most 10 products, each matching the search |
| `Checkout.ValidateCustomerInfoSpec` | client/src/pages/CheckoutPage.jsx:80-83 | accepted exactly when the eight required fields are non-empty; company, apartment and country play no part |
| `Checkout.InitialInfoIsIncomplete` | client/src/pages/CheckoutPage.jsx:21-33 | the empty form does not pass |
| `Checkout.ValidatePaymentInfoSpec` | client/src/pages/CheckoutPage.jsx:85-91 | a card payment needs all four card fields; any other method passes |
| `Checkout.FindOption` | client/src/pages/CheckoutPage.jsx:55 | `find` returns an option with that id, or none when no option has it |
| `Checkout.ShippingCostSpec` | client/src/pages/CheckoutPage.jsx:47-55 | pickup is free, express costs $25, standard or an unknown method $15; the cost is 0 exactly for pickup |
| `Checkout.CheckoutState.constructor` | client/src/pages/CheckoutPage.jsx:17-45 | step 1, the initial forms, standard shipping |
| `Checkout.CheckoutState.HandleInfoChange` | client/src/pages/CheckoutPage.jsx:69-72 | only the named customer field changes |
| `Checkout.CheckoutState.HandlePaymentChange` | client/src/pages/CheckoutPage.jsx:74-77 | only the named payment field changes |
| `Checkout.CheckoutState.SetShippingMethod` | client/src/pages/CheckoutPage.jsx:343 | the shipping method is set |
| `Checkout.CheckoutState.GoToNextStep` | client/src/pages/CheckoutPage.jsx:94-105 | step 1 advances only with complete information, step 2 always advances, step 3 places the order only with complete payment; the step stays within 1 to 3 |
| `Checkout.CheckoutState.GoToPreviousStep` | client/src/pages/CheckoutPage.jsx:107-110 | one step back, never below 1 |
| `Checkout.CheckoutState.Shipping` | client/src/pages/CheckoutPage.jsx:55 | between $0 and $25, and free exactly for pickup |
| `Dashboard.Stock` | client/src/pages/admin/DashboardHome.jsx:65 | stock is read from `stock`, else from `stock_quantity`, else 0 |
| `Dashboard.StockFiguresPartition` | client/src/pages/admin/DashboardHome.jsx:63-72 | the in-stock figure is never negative, and counts exactly the products with stock of 5 or more, negative, or unparsable |
| `Dashboard.NoStockFieldIsOut` | client/src/pages/admin/DashboardHome.jsx:68-71 | a product with neither stock field is out of stock |
| `Dashboard.SpecialCountSpec` | client/src/pages/admin/DashboardHome.jsx:73-76 | each product adds one exactly when `isSpecial` or `isLimitedEdition` is `true` or `'true'` |
| `Dashboard.UnreadCountSpec` | client/src/pages/admin/DashboardHome.jsx:79 | each notification with a falsy `read` is counted once |
| `Dashboard.UnreadAfterMark` | client/src/pages/admin/DashboardHome.jsx:79 | marking one notification read lowers the figure by the unread ones with that id; marking all brings it to 0 |
| `Dashboard.TallySpec` | client/src/pages/admin/DashboardHome.jsx:93-97 | the tally has a key per category that occurs, counting each product once, with keys in first-seen order |
| `Dashboard.CountCategories` | client/src/pages/admin/DashboardHome.jsx:93-97 | the `forEach` builds the specified tally |
| `Dashboard.TopFive` | client/src/pages/admin/DashboardHome.jsx:100-103 | the first five entries by decreasing count carry exact counts, and no omitted category has a larger count |
| `Dashboard.TopFiveOrder` | client/src/pages/admin/DashboardHome.jsx:100-103 | of each count, the first five of a stable sort keep the first entries of that count in the unsorted order, in that order |
| `Dashboard.EntriesSpec` | client/src/pages/admin/DashboardHome.jsx:93-100 | the unsorted entries are the categories in first-seen order with their exact counts, no name twice |
| `Dashboard.DistributionFacts` | client/src/pages/admin/DashboardHome.jsx:100-103 | at most five entries, largest count first, exact counts, none omitted with a larger count |
| `Dashboard.DistributionOrder` | client/src/pages/admin/DashboardHome.jsx:100-103 | no category listed twice, and of each count the first-seen categories are kept, in order |
| `Dashboard.DistinctNames` | client/src/pages/admin/DashboardHome.jsx:100-102 | sorting entries with distinct names keeps the names distinct |
| `Dashboard.OmittedNotLarger` | client/src/pages/admin/DashboardHome.jsx:100-103 | a category left out of the first five counts no more than any listed one |
| `Dashboard.CategoryDistribution` | client/src/pages/admin/DashboardHome.jsx:92-104 | at most five categories, largest count first, each listed once with its exact count, none omitted with a larger count; among equal counts, the categories kept are the first to occur, in that order |
| `Notifications.MarkOneSpec` | client/src/contexts/NotificationContext.jsx:87-93 | only the notifications with that id become read; the order and other fields are kept |
| `Notifications.MarkAllSpec` | client/src/contexts/NotificationContext.jsx:110-112 | every notification is read, with the length, order and other fields kept |
| `Notifications.MarkOneIdempotent` | client/src/contexts/NotificationContext.jsx:87-93 | marking one twice is marking it once, and never unreads anything |
| `Notifications.NotificationState.constructor` | client/src/contexts/NotificationContext.jsx:10-13 | no notifications, count 0 |
| `Notifications.NotificationState.Reset` | client/src/contexts/NotificationContext.jsx:33-36 | signed out or logged out: no notifications and count 0 |
| `Notifications.NotificationState.FetchNotifications` | client/src/contexts/NotificationContext.jsx:60-80 | a successful fetch replaces the list and the count; otherwise they are kept, and a thrown call records the error |
| `Notifications.NotificationState.AuthenticationChanged` | client/src/contexts/NotificationContext.jsx:17-25 | signed in fetches; signed out empties the list and zeroes the count |
| `Notifications.NotificationState.MarkAsRead` | client/src/contexts/NotificationContext.jsx:82-103 | on success only that id becomes read and the count is the server's; otherwise nothing changes |
| `Notifications.NotificationState.MarkAllAsRead` | client/src/contexts/NotificationContext.jsx:105-122 | on success all are read and the count is 0; otherwise nothing changes |
| `AdminNotifications.AdminNotificationState.constructor` | client/src/contexts/AdminNotificationContext.jsx:9-12 | no notifications, count 0 |
| `AdminNotifications.AdminNotificationState.Reset` | client/src/contexts/AdminNotificationContext.jsx:20-23 | a signed-out admin has no notifications and count 0 |
| `AdminNotifications.AdminNotificationState.FetchNotifications` | client/src/contexts/AdminNotificationContext.jsx:37-57 | a successful fetch replaces the list and the count; otherwise they are kept |
| `AdminNotifications.AdminNotificationState.AuthenticationChanged` | client/src/contexts/AdminNotificationContext.jsx:16-24 | signed in fetches; signed out empties the list and zeroes the count |
| `AdminNotifications.AdminNotificationState.MarkAsRead` | client/src/contexts/AdminNotificationContext.jsx:59-80 | on success only that id becomes read and the count is the server's; otherwise nothing changes |
| `AdminNotifications.AdminNotificationState.MarkAllAsRead` | client/src/contexts/AdminNotificationContext.jsx:82-99 | on success all are read and the count is 0; otherwise nothing changes |
| `MediaQueries.MatchesSpec` | client/src/utils/mediaQueries.js:16-33 | `min` holds from the breakpoint up and `max` below it, so exactly one holds for a known query; no window, an unknown query or another type gives false |
| `MediaQueries.ViewportClasses` | client/src/utils/mediaQueries.js:2-8 | mobile is below 768, tablet 768 to 1023, desktop from 1024; with a window exactly one holds, without one none does |

## Left out

- File and network I/O is abstracted:
  - reading and writing the spreadsheet in `client/add_trending.py` and `server/index.js`;
  - the image upload of the product form;
  - every fetch of the notification services.
  Their outcomes are parameters: a write's success flag, a `Response` or `None` for a call that threw.
- Randomness is abstracted. The trending draws and sample picks, and the SKU suffix, are parameters. The random order number of the checkout is not modelled.
- Timers, polling and animation are not modelled: the 30-second notification polling, the checkout's simulated delay, scrolling and the toasts.
- Local-storage persistence of the cart and wishlist is not modelled, and neither is the timing of the cart's summary effect.
- Floating point is not modelled. Prices are integer cents. The 5% checkout tax and the order total are not modelled. `parseFloat` in the product form is a parameter.
- `localeCompare` sorts are not modelled:
  - the name orders of the shop, search and catalogue pages;
  - the taxonomy alphabetisation.
- SearchResults.Results: the `name-asc` and `name-desc` orders leave the filtered order as it is instead of sorting with `localeCompare`.
- ProductsPage.Results: the `name-asc` and `name-desc` orders leave the filtered order as it is instead of sorting with `localeCompare`.
- The price sorts of the shop page (`price || regular_price`) and the option lists with their counts built from the filtered products are not modelled.
- ProductsManagement.ManagementState.PaginatedProducts: pages are cut from the searched list in the order given. The table's sort compares arbitrary JavaScript values with `<` and `>` and is not modelled.
- `isEmail` and `normalizeEmail` are library predicates; `isEmail` is a parameter of the registration rule.
- `parseInt` is modelled for whole decimal numbers; an unparsable value gives `NaN`, which the dashboard counts as in stock.
- JavaScript object key order is modelled where it matters (the server records and the dashboard tally). Integer-like keys, which JavaScript lists first, are not.
- The initial values the product form takes from an edited product, and the copy of the existing image URL on edit, are not modelled.
- A product field that is `undefined` where the search page calls `toLowerCase` would throw; the model reads missing text fields as `''`.
- The checkout's step 4 confirmation screen is never reached by any handler and is not modelled.
- Case mapping covers ASCII, Latin-1 and `ÿ`/`Ÿ`. Other scripts are not modelled (Greek, Cyrillic, Latin Extended letters such as `Œ`/`œ` or `Ł`/`ł`). Neither are the mappings that change length or leave the block, such as `ß` to `SS` or `µ` to `Μ`. The members below therefore ignore case only for those letters:
- ActiveIgnoresCase: a value is recognised as active ignoring case only for those letters.
- Capitalise: only a first letter among those is upper-cased.
- MatchName: URL values match catalogue names ignoring case only for those letters.
- UrlFiltersSpec: its capitalisation and catalogue matching ignore case only for those letters.
- FilterBySpec: attribute values match filters ignoring case only for those letters.
- FilterIgnoresCase: invariance holds under case variants of those letters only.
- SearchSpec: name, SKU and category match the term ignoring case only for those letters.
- SearchIgnoresTermCase: invariance holds under case variants of those letters only.
- DedupIsFirstOccurrences: names are folded under the key `Key`, which lower-cases only those letters.
- DedupUnique: uniqueness is under that key.
- RemoveDuplicates: two names that differ only in case outside those letters are both kept.
- ProductsApi.ProductTable.CollectTypes: `fieldTypes` is a map, so the key order of the JSON object it is sent as is not modelled; the keys are those of `fields`.
- Inherited object properties such as `breakpoints['toString']` are not modelled: only the five breakpoint names are known queries.

## Findings

| source | as written | input that shows it | evidently intended | confidence | as-written member | corrected member |
|---|---|---|---|---|---|---|
| client/src/pages/ShopPage.jsx:178-184 | `toggleFilter` tests whether a value is active ignoring case, but `removeFilter` removes only the exact value | categories `['Red wine']` and a click on the `Red Wine` checkbox: the box shows ticked, and the click leaves the filters unchanged, so it can never be unticked | removal matches the same case-insensitive test, so a toggle always flips the checkbox | medium, not executed | `ShopPage.RedWineIsStuck` (on `ShopPage.ToggledAsWritten`) | `ShopPage.ToggleFlipsActive` (on `ShopPage.Toggled`, used by `ShopPage.ShopState.ToggleFilter`) |
| client/src/pages/admin/ProductsManagement.jsx:332-333 | the small-screen Next button is disabled only when `currentPage === totalPages`, then sets `Math.min(totalPages, currentPage + 1)` | a search matching nothing (`totalPages` 0) on page 1: Next is enabled and moves to page 0 | the guard of the wide-screen button (line 374), also disabled when `totalPages === 0`, so the page stays at least 1 | high, not executed | `ProductsManagement.MobileNextLeavesRange` (on `ProductsManagement.MobileNextPage`) | `ProductsManagement.PagingStaysInRange` (on `ProductsManagement.NextPage`, used by `ProductsManagement.ManagementState.Next`) |
