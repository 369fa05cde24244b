# Product Inventory — a verified model of the listing, creation and seeding core

This project models the server core of a small product-inventory web
application (Next.js route handlers over a MongoDB store) and the client
helpers that feed it.

- **Listing** (`GET /api/products`) reads `search`, `categories`, `page` and `limit` from the query string. It validates them and builds a query: a case-insensitive name match and a match-any category filter. It answers one page of the matching products, newest first, with `totalCount`, `totalPages` and the next and previous flags.
- **Creation** (`POST /api/products`) validates and trims the payload. It refuses a name that already exists ignoring case (409), stores one product with `createdAt == updatedAt`, and maps thrown errors to 400, 409 or 500 by an ordered chain of checks.
- **Seeding** (`POST /api/seed` and `POST /api/seed/products`) inserts the ten default categories (plus indexes) and the three default products, each only while its collection is empty. The product seeder narrows each default product's categories to the names that exist.
- **Schemas** (`productSchema`, `productFiltersSchema`) become acceptance predicates. The product schema checks the bounds on the raw strings and only then trims.
- **Category guard**: the `isCategory` type guard and the default category list.
- **Client side**: the query string the home page builds and the filter reset, and the two category toggles (the filter bar's and the create form's).

The store is a class, `Db.Database`, whose fields (`products`, `categories`,
`indexes`, `nextId`) the handlers update in place. Each handler is a method over
the store, proved equal to a pure function of the old store state
(`PostSpec`, `SeedCategoriesSpec`, `SeedProductsSpec`). The listing is proved
equal to `PageOf` over `SelectWhere`. The properties are lemmas about those
functions.

Modules: `Strings` (the JavaScript string operations used),
`Lists` (`filter` helpers), `Db` (store and driver), `Http` (parameters
and responses), `ProductValidation`, `CategoryModel`, `ProductsRoute`,
`SeedRoute`, `SeedProductsRoute`, `HomePage`, `ProductFilters`,
`ProductForm`.

Behaviour of the code worth knowing, which the model keeps:
- `hasPreviousPage` is `page > 1`, so it is true on page 2 or later even with no matches (`ProductsRoute.EmptyListing`).
- The product seeder answers 200, not 201, on a first successful seed.
- Invalid listing filters answer 500 ("Failed to fetch products"), not a 400-class status, because the schema error is caught with every other error.
- The creation handler's "insertion failed" branch and its final fallback both put the thrown error's message into `details`.
- Seeding is not protected against a concurrent second seed. Nothing treats a duplicate-key failure as a no-op.

## Model

| member | source | states |
|---|---|---|
| Strings.Lower | app/api/products/route.ts:30-33 | the case folding of the `i` regex option: same length, each character lower-cased |
| Strings.LowerIdempotent | app/api/products/route.ts:30-33 | folding twice is folding once |
| Strings.MissingCharNotContained | app/api/products/route.ts:153 | `includes` fails when the text holds a character the message lacks |
| Strings.Contains | app/api/products/route.ts:153-173 | `includes`: no contract of its own; `MissingCharNotContained`, `ProductsRoute.SearchExamples` and `ProductsRoute.ErrorChecksInOrder` state its answers |
| Strings.TrimStartIndex | lib/validations/product.ts:7 | the index where leading whitespace ends: everything before it is whitespace, the character at it is not |
| Strings.TrimEndIndex | lib/validations/product.ts:7 | the index where trailing whitespace starts: everything from it on is whitespace, the character before it is not |
| Strings.Trim | lib/validations/product.ts:7 | `trim()`: a slice of the input cut only at whitespace, with no whitespace at either end |
| Strings.TrimWhitespaceOnly | lib/validations/product.ts:4-7 | a whitespace-only string trims to "" |
| Strings.TrimUnpadded | lib/validations/product.ts:7 | a string with no whitespace at either end trims to itself |
| Strings.TrimIdempotent | lib/validations/product.ts:7 | trimming twice is trimming once |
| Strings.Split | app/api/products/route.ts:13-14 | `split(',')` never yields an empty array |
| Strings.SplitJoin | app/page.tsx:72 | `split(',')` undoes `join(',')` when no element holds a comma |
| Strings.Join | app/page.tsx:72 | `join(',')`: no contract of its own; `SplitJoin` (split inverts it) and `JoinEmpty` state its properties |
| Strings.JoinEmpty | app/page.tsx:71-73 | a joined selection is "" exactly for `[]` and `[""]` |
| Strings.NatToString | app/page.tsx:63 | `toString()` of a natural number is a non-empty run of digits |
| Strings.ParseIntToString | app/api/products/route.ts:15-16 | `parseInt` reads back the integer `toString` wrote |
| Strings.ParseInt | app/api/products/route.ts:15-18 | `parseInt` on an optional `-` followed by digits, NaN otherwise: no contract of its own; `ParseIntToString` proves it reads back `toString` |
| Lists.Without | components/ProductFilters.tsx:44 | `filter(cat => cat !== name)`: the name is gone, every other value is kept with its multiplicity |
| Lists.WithoutAppend | components/ProductFilters.tsx:44 | filtering distributes over concatenation, so the kept values keep their order |
| Lists.WithoutAbsent | components/ProductForm.tsx:46 | removing an absent name changes nothing |
| Lists.KeepIn | app/api/seed/products/route.ts:27 | `filter(cat => names.includes(cat))`: exactly the values that are listed survive, and it never grows |
| Lists.KeepInAppend | app/api/seed/products/route.ts:27 | the surviving categories keep their original order |
| Lists.KeepInAll | app/api/seed/products/route.ts:27 | a list whose values all exist is kept unchanged |
| Lists.KeepInNone | app/api/seed/products/route.ts:27 | with no existing names, nothing survives |
| Http.Lookup | app/api/products/route.ts:12-18 | `searchParams.get`: present exactly when some pair has the key, and then the value of the first such pair |
| CategoryModel.IsCategory | lib/models/Category.ts:8-13 | the guard holds exactly for objects whose `_id`, `name` and `createdAt` are strings; null, undefined, primitives and arrays fail |
| CategoryModel.IsCategoryIgnoresExtraFields | lib/models/Category.ts:9-12 | fields other than the three checked never change the verdict |
| CategoryModel.SerialisedCategoryIsCategory | lib/models/Category.ts:1-13 | a category serialised with string `_id`, `name` and `createdAt` passes, whatever else it carries |
| CategoryModel.DefaultCategoriesWellFormed | lib/models/Category.ts:15-26 | ten names, pairwise distinct, none containing `,` |
| ProductValidation.ValidateProduct | lib/validations/product.ts:3-18 | accepted exactly when name 1..100, description 1..500, quantity 0..999999 and 1..5 categories (all inclusive); success returns the trimmed strings; failure lists exactly the violated bounds |
| ProductValidation.BlankNameAccepted | lib/validations/product.ts:4-7 | lengths are checked before trimming: a whitespace-only name passes and is stored as "" |
| ProductValidation.RevalidateTrimmed | lib/validations/product.ts:3-18 | a validated payload whose trimmed strings are non-empty validates to itself |
| ProductValidation.ValidateFilters | lib/validations/product.ts:20-25 | accepted exactly when a present page is a number of at least 1 and a present limit a number in 1..100; search, categories, page and limit pass through unchanged |
| ProductsRoute.ParseFilters | app/api/products/route.ts:11-19 | an empty or missing search or categories counts as absent; given categories are `split(',')` of the parameter; a given page or limit is `parseInt` of the parameter, a missing or empty one becomes 1 or 12 |
| ProductsRoute.BuildQuery | app/api/products/route.ts:27-40 | the query built field by field matches a product exactly when the name contains the search ignoring case and (if categories are given) it shares one category |
| ProductsRoute.SelectWhere | app/api/products/route.ts:48-55 | exactly the store's products that meet the filters, each with its multiplicity in the store, so the count is the number of matches |
| Db.Select | app/api/products/route.ts:48-55 | `find(query)` and `countDocuments(query)`: exactly the stored documents the query matches, each with its multiplicity in the store, never more than the store holds |
| Db.SortNewestFirst | app/api/products/route.ts:51 | `sort({ createdAt: -1 })`: same length, newest first, and a permutation of its input |
| Db.Window | app/api/products/route.ts:52-53 | `skip(skip).limit(limit)`: at most `limit` documents, the ones from position `skip` on, none when `skip` is past the end |
| ProductsRoute.PageOf | app/api/products/route.ts:58-70 | the response body: no contract of its own; `PageShape`, `PageItems`, `EmptyListing` and `PastLastPage` state its figures and items |
| ProductsRoute.SelectAgrees | app/api/products/route.ts:48-55 | a query equivalent to the filters selects the same products in the same order |
| ProductsRoute.Skip | app/api/products/route.ts:43-45 | `skip + limit == page * limit`, and `skip >= 0` whenever `page >= 1` |
| ProductsRoute.TotalPages | app/api/products/route.ts:58 | `ceil(count / limit)`: enough pages to hold every item, and no more than needed |
| ProductsRoute.Get | app/api/products/route.ts:6-80 | invalid filters answer 500; otherwise 200 with the page of the products meeting the filters, count and find reading the same store |
| ProductsRoute.ListPage | app/api/products/route.ts:26-72 | for validated filters, the response is the requested page of the products meeting the filters, newest first, with the pagination figures |
| ProductsRoute.RequestedPageServed | app/api/products/route.ts:43-67 | a `page` parameter that passes validation is served and echoed as `currentPage` with its `parseInt` value |
| ProductsRoute.PageShape | app/api/products/route.ts:48-69 | at most `limit` items, exactly `max(0, min(limit, count - skip))`; the count echoed; `currentPage` unclamped; `hasNextPage <==> page < totalPages`; `hasPreviousPage <==> page > 1` |
| ProductsRoute.PageItems | app/api/products/route.ts:49-54 | the items are the matching products sorted newest first, starting at `skip`, and all of them match |
| ProductsRoute.EmptyListing | app/api/products/route.ts:58-69 | no matches: zero pages, no next page, no items; the previous flag still follows `page > 1` |
| ProductsRoute.PastLastPage | app/api/products/route.ts:52-68 | a page past the last one is empty and has no next page |
| ProductsRoute.TwentyFiveProductsPageThree | app/api/products/route.ts:43-69 | 25 products, limit 10, page 3: skip 20, 5 items, 3 pages, no next page, a previous page |
| ProductsRoute.ListingMeetsFilters | app/api/products/route.ts:27-56 | every listed product is in the store and meets the filters; the list is newest first; the count covers all matches |
| ProductsRoute.ValidatedPaging | app/api/products/route.ts:43-44 | after validation the page is at least 1 and the limit within 1..100 |
| ProductsRoute.NonNumericPageAnswers500 | app/api/products/route.ts:15-21 | a page that `parseInt` cannot read fails validation (and `Get` then answers 500) |
| ProductsRoute.SearchExamples | app/api/products/route.ts:29-33 | "pro" matches "Pro Widget" and "proactive gadget" but not "Widget" |
| ProductsRoute.CategoryMatchAny | app/api/products/route.ts:36-39 | one shared category is enough for `$in` |
| ProductsRoute.ErrorResponse | app/api/products/route.ts:138-190 | 400 exactly for a validation error; 409 exactly for a non-validation error whose message contains "duplicate" but not "not found"; every other case is 500 |
| ProductsRoute.ErrorChecksInOrder | app/api/products/route.ts:153-171 | "not found" is checked before "duplicate": a message with both answers 500 |
| ProductsRoute.InsertionFailedIs500 | app/api/products/route.ts:118-119 | an unacknowledged write answers 500 |
| ProductsRoute.FindsInsertedProduct | app/api/products/route.ts:123-127 | reading back by the new id finds the document just inserted |
| ProductsRoute.Post | app/api/products/route.ts:82-192 | the handler changes the store and answers exactly as `PostSpec` says, and keeps the store invariant |
| ProductsRoute.PostSpec | app/api/products/route.ts:82-192 | the handler as a function of the store: no contract of its own; `DuplicateNameRejected`, `AcceptedProductAppended`, `InvalidPayloadRejected` and `PostKeepsStoreValid` state what it does |
| ProductsRoute.CreatedResponse | app/api/products/route.ts:129-137 | the 201 body: no contract of its own; `AcceptedProductAppended` states that an acknowledged creation answers with it |
| ProductsRoute.InsertValidated | app/api/products/route.ts:108-137 | a valid, fresh payload is appended with the next id and both timestamps set to the request time; 201 with the stored product once the write is acknowledged |
| ProductsRoute.DuplicateNameRejected | app/api/products/route.ts:94-106 | a name already stored, in any letter case, answers 409 and writes nothing |
| ProductsRoute.AcceptedProductAppended | app/api/products/route.ts:108-137 | otherwise exactly one product is appended: trimmed name and description, quantity and categories as sent, `createdAt == updatedAt`; nothing else changes; 201 with it, `success: true` and the confirmation message |
| ProductsRoute.InvalidPayloadRejected | app/api/products/route.ts:87 | a payload outside the schema answers 400 and writes nothing |
| ProductsRoute.AppendKeepsValid | app/api/products/route.ts:94-116 | appending a fresh-named product with the next id keeps ids ascending and names unique ignoring case |
| ProductsRoute.PostKeepsStoreValid | app/api/products/route.ts:82-137 | every creation request keeps the store invariant |
| ProductsRoute.CaseVariantRejected | app/api/products/route.ts:94-116 | after one name is stored, a second request whose name differs only in case answers 409 and leaves the store as it was |
| ProductsRoute.WidgetThenLowercaseWidget | app/api/products/route.ts:94-106 | creating "Widget" and then "widget" fails the second time with 409 |
| SeedRoute.SeedCategories | app/api/seed/route.ts:5-36 | the handler changes the store and answers exactly as `SeedCategoriesSpec` says, and keeps the store invariant |
| SeedRoute.SeedCategoriesSpec | app/api/seed/route.ts:5-36 | the handler as a function of the store: no contract of its own; `SeedCategoriesGuard`, `SeedCategoriesInsertsDefaults`, `IndexesOnlyWhenSeeding`, `SeedCategoriesIdempotent` and `SeedCategoriesKeepsValid` state what it does |
| SeedRoute.SeedCategoriesGuard | app/api/seed/route.ts:10-17 | the store changes exactly when the categories collection is empty; 200 when already seeded, 201 on a fresh seed |
| SeedRoute.SeedCategoriesInsertsDefaults | app/api/seed/route.ts:20-25 | a fresh seed stores one category per default name, in list order, stamped with the request time, with consecutive ids; products untouched |
| SeedRoute.IndexesOnlyWhenSeeding | app/api/seed/route.ts:28-31 | the four indexes are created on the seeding path and never on the no-op path |
| SeedRoute.SeedCategoriesIdempotent | app/api/seed/route.ts:10-17 | a second call after any first one changes nothing |
| SeedRoute.SeedTwiceLeavesDefaults | app/api/seed/route.ts:10-25 | from an empty collection, two calls leave exactly the ten default categories |
| SeedRoute.SeedCategoriesKeepsValid | app/api/seed/route.ts:20-25 | seeding keeps category ids ascending and names distinct |
| SeedProductsRoute.SeedProducts | app/api/seed/products/route.ts:6-43 | the handler changes the store and answers exactly as `SeedProductsSpec` says, and keeps the store invariant |
| SeedProductsRoute.SeedProductsSpec | app/api/seed/products/route.ts:6-43 | the handler as a function of the store: no contract of its own; `SeedProductsGuard`, `SeedProductsInsertsDefaults`, `SeedProductsIdempotent` and `SeedProductsKeepsValid` state what it does |
| SeedProductsRoute.SeedProductsGuard | app/api/seed/products/route.ts:11-18 | the store changes exactly when the products collection is empty; both paths answer 200 |
| SeedProductsRoute.SeedProductsInsertsDefaults | app/api/seed/products/route.ts:21-42 | one record per default product: name, description and quantity copied, categories narrowed to existing names in order, both timestamps stamped; the reported count is the number inserted |
| SeedProductsRoute.SeedProductsIdempotent | app/api/seed/products/route.ts:11-18 | a second call after any first one changes nothing |
| SeedProductsRoute.SeedWithDefaultCategories | app/api/seed/products/route.ts:27 | over the default categories "Smartphones" and "Shoes" are dropped |
| SeedProductsRoute.SeedWithoutCategories | app/api/seed/products/route.ts:27 | with no categories every seeded list is empty, which the product schema would refuse |
| SeedProductsRoute.SeedProductsKeepsValid | app/api/seed/products/route.ts:25-38 | seeding keeps ids ascending and the three names distinct ignoring case |
| HomePage.BuildParams | app/page.tsx:62-73 | the pairs appended in place are `RequestParams(page, st)` |
| HomePage.RequestParams | app/page.tsx:62-73 | the query-string pairs: no contract of its own; `RequestLookups`, `RequestRoundTrip` and `RequestValidIffPositivePage` state what the endpoint reads from them |
| HomePage.ClearFilters | app/page.tsx:116-119 | both filters are empty afterwards |
| HomePage.RequestLookups | app/page.tsx:62-73 | `page` and `limit=12` are always sent; `search` exactly when the term is non-empty; `categories`, joined with `,`, exactly when the selection is non-empty |
| HomePage.RequestRoundTrip | app/page.tsx:62-73 | the endpoint reads back the page, limit 12, the search term and the selected names (split recovers them when no name holds `,`) |
| HomePage.RequestValidIffPositivePage | app/page.tsx:62-65 | the endpoint accepts the page's request exactly when the page number is at least 1 |
| HomePage.ClearedRequest | app/page.tsx:116-119 | after clearing, the first-page request is just `page=1&limit=12`: no search, no category filter |
| ProductFilters.ToggleCategory | components/ProductFilters.tsx:40-46 | checking appends the name at the end and keeps the rest; unchecking removes every occurrence and keeps the rest |
| ProductFilters.UncheckKeepsOrder | components/ProductFilters.tsx:43-44 | unchecking keeps the other names in their relative order |
| ProductFilters.CheckSelectedDuplicates | components/ProductFilters.tsx:41-42 | checking a selected name appends a second copy |
| ProductFilters.CheckThenUncheck | components/ProductFilters.tsx:40-46 | checking then unchecking an unselected name restores the selection |
| ProductFilters.RemoveBadge | components/ProductFilters.tsx:121 | a badge's button removes its name entirely and shrinks the selection |
| ProductFilters.HasActiveFilters | components/ProductFilters.tsx:48 | no contract of its own; `ActiveIffFiltersSent` states it holds exactly when the request carries a filter |
| ProductFilters.ActiveIffFiltersSent | components/ProductFilters.tsx:48 | `hasActiveFilters` holds exactly when the page's request carries more than `page` and `limit`; a cleared state is never active |
| ProductForm.ToggleSelection | components/ProductForm.tsx:44-47 | an unselected name is appended; a selected one is removed with all its copies |
| ProductForm.ToggleFlips | components/ProductForm.tsx:45-47 | the name is selected afterwards exactly when it was not before |
| ProductForm.ToggleKeepsOthers | components/ProductForm.tsx:45-47 | the other names keep their relative order |
| ProductForm.ToggleTwice | components/ProductForm.tsx:45-47 | toggling an unselected name twice restores the selection |
| ProductForm.ToggleKeepsNoDuplicates | components/ProductForm.tsx:45-47 | from a selection without repeats, toggling never creates one |
| ProductForm.SubmitBody | components/ProductForm.tsx:66-69 | the submitted categories are the selection, the other fields the form's |
| ProductForm.SubmittedSelectionValidated | components/ProductForm.tsx:66-69 | an empty selection makes the create request fail on categories; an accepted request carries exactly the selection |

## Left out

- Regular expressions: the search text and the duplicate-name check go to the store as unescaped patterns. The model treats them as literal text (substring and whole-name match), so metacharacters are not modelled.
- Case folding covers ASCII letters only. Unicode case mapping is not modelled, and string lengths count code points rather than UTF-16 units.
- `parseInt` is modelled on an optional `-` followed by digits; anything else is NaN. Leading or trailing junk ("2abc"), whitespace, decimals and other radices are not modelled.
- Quantities are integers; the schema also accepts fractional numbers. JavaScript number precision (quantities, page, limit and the skip and page-count arithmetic) is not modelled: all are unbounded integers.
- A payload field of the wrong JSON type, and a missing field, are not modelled: the body is either a typed payload or text that did not parse.
- The listing's `find` and `countDocuments` run under `Promise.all`. They are modelled as two reads of the same store state.
- Store and connection failures (lib/mongodb.ts) are not part of this model, and neither are the `catch` branches they reach. That covers the seeders' 500 answers, the listing's 500 other than for invalid filters, and the creation handler's "Failed to fetch created product" branch. That branch cannot be reached here, because the read-back always finds the inserted document.
- ProductsRoute.Post: an unacknowledged write is modelled as applied, answering 500. The driver gives no guarantee either way.
- Both `new Date()` calls of one creation request read the same clock value `now`, and the seeders' `new Date()` calls (one per category in app/api/seed/route.ts:22, two per product in app/api/seed/products/route.ts:32-33) all read one `now` per request; dates are integers. Serialising dates and `_id` to strings is not modelled.
- Db.SortNewestFirst: ties on `createdAt` keep store order. MongoDB does not promise any order for ties.
- Unique indexes are recorded as created but not enforced by the model. Only the handler's own duplicate check keeps product names unique.
- The `details` text of a validation error carries the list of issues. The schema library's message wording is not modelled.
- URL encoding of the query string is not modelled: parameters are decoded pairs.
- The delete handler (`DELETE /api/products/:id`, called from components/ProductList.tsx:42-43) is not modelled. The categories listing route, rendering, toasts, React state and the 300 ms debounce are not part of this model.
- The refetch of page 1 after a filter change or a new product (app/page.tsx:101, 113) is covered only through `HomePage.ClearedRequest` and `RequestParams(1, …)`. The effect scheduling itself is not modelled.
