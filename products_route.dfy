/**
 * The products endpoint (app/api/products/route.ts): `GET` lists one page of
 * products matching the query-string filters, newest first, with pagination
 * figures; `POST` validates a new product, refuses a name that exists
 * already ignoring case, and stores it.
 */
module ProductsRoute {
  import opened Results
  import opened Strings
  import opened ProductValidation
  import opened Db
  import opened Http

  const DefaultPage := 1
  const DefaultLimit := 12

  // ---- GET: reading the query string ----

  /** `parseInt(text)` as a schema input: an integer or NaN. */
  function ParseNumber(text: string): JsNumber {
    match ParseInt(text)
    case Some(n) => Int(n)
    case None => NaN
  }

  /** A parameter that is present and not the empty string (a truthy `get`). */
  predicate Given(v: Option<string>) {
    v.Some? && v.value != ""
  }

  /**
   * The `filters` object: an empty `search` or `categories` parameter counts
   * as absent, `categories` is split on commas, and a missing or empty `page`
   * or `limit` falls back to 1 and 12.
   */
  function ParseFilters(params: Params): (f: FilterInput)
    ensures f.page.Some? && f.limit.Some?
    ensures !Given(Lookup(params, "page")) ==> f.page == Some(Int(DefaultPage))
    ensures !Given(Lookup(params, "limit")) ==> f.limit == Some(Int(DefaultLimit))
    ensures f.search.Some? <==> Given(Lookup(params, "search"))
    ensures f.search.Some? ==> f.search.value != "" && f.search == Lookup(params, "search")
    ensures f.categories.Some? <==> Given(Lookup(params, "categories"))
    ensures Given(Lookup(params, "categories")) ==>
      f.categories == Some(Split(Lookup(params, "categories").value, ','))
    ensures Given(Lookup(params, "page")) ==> f.page == Some(ParseNumber(Lookup(params, "page").value))
    ensures Given(Lookup(params, "limit")) ==> f.limit == Some(ParseNumber(Lookup(params, "limit").value))
  {
    var search := Lookup(params, "search");
    var categories := Lookup(params, "categories");
    var page := Lookup(params, "page");
    var limit := Lookup(params, "limit");
    FilterInput(
      if Given(search) then search else None,
      if Given(categories) then Some(Split(categories.value, ',')) else None,
      Some(if Given(page) then ParseNumber(page.value) else Int(DefaultPage)),
      Some(if Given(limit) then ParseNumber(limit.value) else Int(DefaultLimit)))
  }

  // ---- GET: the filter predicate ----

  /** An absent or empty search constrains nothing; otherwise the name contains it, ignoring case. */
  predicate SearchHolds(search: Option<string>, name: string) {
    search.None? || search.value == "" || Contains(Lower(name), Lower(search.value))
  }

  /** Absent or empty categories constrain nothing; otherwise match-any. */
  predicate CategoriesHold(categories: Option<seq<string>>, productCategories: seq<string>) {
    categories.None? || categories.value == [] ||
    exists c :: c in categories.value && c in productCategories
  }

  /** The product meets the search and the category filter. */
  predicate FilterHolds(f: Filters, p: Product) {
    SearchHolds(f.search, p.name) && CategoriesHold(f.categories, p.categories)
  }

  /**
   * Builds the query document field by field. The query it builds matches
   * exactly the products the filters describe.
   */
  method BuildQuery(f: Filters) returns (q: Query)
    ensures forall p :: Matches(q, p) <==> FilterHolds(f, p)
    ensures q.name.Some? <==> f.search.Some? && f.search.value != ""
    ensures q.categoriesIn.Some? <==> f.categories.Some? && |f.categories.value| > 0
  {
    q := Query(None, None);
    if f.search.Some? && f.search.value != "" {
      q := q.(name := Some(Substring(f.search.value)));
    }
    if f.categories.Some? && |f.categories.value| > 0 {
      q := q.(categoriesIn := Some(f.categories.value));
    }
  }

  /** The products the filters describe, in store order. */
  function SelectWhere(ps: seq<Product>, f: Filters): (r: seq<Product>)
    ensures forall p :: p in r <==> p in ps && FilterHolds(f, p)
    ensures forall p :: multiset(r)[p] == if FilterHolds(f, p) then multiset(ps)[p] else 0
  {
    if ps == [] then []
    else
      assert ps == [ps[0]] + ps[1..];
      if FilterHolds(f, ps[0]) then [ps[0]] + SelectWhere(ps[1..], f)
      else SelectWhere(ps[1..], f)
  }

  /** A query equivalent to the filters selects the same products in the same order. */
  lemma {:induction false} SelectAgrees(ps: seq<Product>, q: Query, f: Filters)
    requires forall p :: Matches(q, p) <==> FilterHolds(f, p)
    ensures Select(ps, q) == SelectWhere(ps, f)
  {
    if ps != [] {
      SelectAgrees(ps[1..], q, f);
    }
  }

  // ---- GET: pagination ----

  /** `validatedFilters.page || 1`. */
  function PageNumber(f: Filters): int {
    if f.page.Some? && f.page.value != 0 then f.page.value else DefaultPage
  }

  /** `validatedFilters.limit || 12`. */
  function PageLimit(f: Filters): int {
    if f.limit.Some? && f.limit.value != 0 then f.limit.value else DefaultLimit
  }

  /** The offset of a page: never negative for a page of at least 1. */
  function Skip(page: int, limit: int): (skip: int)
    requires limit >= 1
    ensures page >= 1 ==> skip >= 0
    ensures skip + limit == page * limit
  {
    (page - 1) * limit
  }

  /** `Math.ceil(totalCount / limit)`: the fewest pages of `limit` items that hold them all. */
  function TotalPages(totalCount: nat, limit: int): (pages: nat)
    requires limit >= 1
    ensures pages * limit >= totalCount
    ensures pages == 0 || (pages - 1) * limit < totalCount
  {
    var pages := (totalCount + limit - 1) / limit;
    var rest := (totalCount + limit - 1) % limit;
    assert pages * limit + rest == totalCount + limit - 1;
    assert (pages - 1) * limit == pages * limit - limit;
    pages
  }

  /** The response body for one page of the products that matched. */
  function PageOf(matching: seq<Product>, page: int, limit: int): PageResult
    requires page >= 1 && limit >= 1
  {
    var totalPages := TotalPages(|matching|, limit);
    PageResult(
      Window(SortNewestFirst(matching), Skip(page, limit), limit),
      |matching|,
      totalPages,
      page,
      page < totalPages,
      page > 1)
  }

  const FetchFailed := Response(500, Failure("Failed to fetch products", None))

  /**
   * The `GET` handler: invalid filters answer 500 (the schema error is
   * caught with everything else); otherwise the find and the count both read
   * the same store and the response is the requested page of the products
   * the filters describe.
   */
  method Get(db: Database, params: Params) returns (resp: Response)
    ensures match ValidateFilters(ParseFilters(params))
      case Err(_) => resp == FetchFailed
      case Ok(f) =>
        PageNumber(f) >= 1 && PageLimit(f) >= 1 &&
        resp == Response(200, ProductPage(PageOf(SelectWhere(db.products, f), PageNumber(f), PageLimit(f))))
  {
    var input := ParseFilters(params);
    var validated := ValidateFilters(input);
    if validated.Err? {
      resp := FetchFailed;
      return;
    }
    ValidatedPaging(input);
    resp := ListPage(db, validated.value);
  }

  /** The listing once the filters are validated: one query for the page, one for the count. */
  method ListPage(db: Database, f: Filters) returns (resp: Response)
    requires PageNumber(f) >= 1 && PageLimit(f) >= 1
    ensures resp == Response(200, ProductPage(PageOf(SelectWhere(db.products, f), PageNumber(f), PageLimit(f))))
  {
    var q := BuildQuery(f);
    SelectAgrees(db.products, q, f);
    var page := PageNumber(f);
    var limit := PageLimit(f);
    var skip := Skip(page, limit);
    var items := db.FindProducts(q, skip, limit);
    var totalCount := db.CountProducts(q);
    var totalPages := TotalPages(totalCount, limit);
    resp := Response(200, ProductPage(PageResult(items, totalCount, totalPages, page, page < totalPages, page > 1)));
  }

  // ---- GET: properties ----

  /**
   * How many items a page holds: at most `limit`, and exactly what is left
   * after skipping, capped at `limit`. The flags compare the requested page,
   * echoed unclamped, with the page count.
   */
  lemma PageShape(matching: seq<Product>, page: int, limit: int)
    requires page >= 1 && limit >= 1
    ensures var r := PageOf(matching, page, limit);
      var skip := (page - 1) * limit;
      && |r.products| <= limit
      && |r.products| == (if |matching| - skip <= 0 then 0 else if |matching| - skip < limit then |matching| - skip else limit)
      && r.totalCount == |matching|
      && r.currentPage == page
      && (r.hasNextPage <==> page < r.totalPages)
      && (r.hasPreviousPage <==> page > 1)
  {
  }

  /** The items are the matching products newest first, `skip` of them dropped. */
  lemma PageItems(matching: seq<Product>, page: int, limit: int)
    requires page >= 1 && limit >= 1
    ensures var r := PageOf(matching, page, limit);
      && NewestFirst(r.products)
      && (forall k :: 0 <= k < |r.products| ==>
            r.products[k] == SortNewestFirst(matching)[(page - 1) * limit + k])
      && (forall p :: p in r.products ==> p in matching)
  {
    var sorted := SortNewestFirst(matching);
    var skip := Skip(page, limit);
    assert skip == (page - 1) * limit;
    assert PageOf(matching, page, limit).products == Window(sorted, skip, limit);
    WindowOfNewestFirst(sorted, skip, limit);
    forall p | p in sorted
      ensures p in matching
    {
      assert p in multiset(sorted);
    }
  }

  /** No matching product: no pages, no next page, no items. */
  lemma EmptyListing(page: int, limit: int)
    requires page >= 1 && limit >= 1
    ensures var r := PageOf([], page, limit);
      r.totalPages == 0 && !r.hasNextPage && r.products == [] && (r.hasPreviousPage <==> page > 1)
  {
    var pages := TotalPages(0, limit);
    if pages > 0 {
      MultiplyMonotone(1, pages, limit);
      assert false;
    }
  }

  /** `a <= b` scales by a positive factor. */
  lemma MultiplyMonotone(a: int, b: int, k: int)
    requires a <= b && k >= 1
    ensures a * k <= b * k
  {
    assert b * k - a * k == (b - a) * k;
  }

  /** A page past the last one is empty and has no next page. */
  lemma {:induction false} PastLastPage(matching: seq<Product>, page: int, limit: int)
    requires limit >= 1 && page > TotalPages(|matching|, limit) && page >= 1
    ensures PageOf(matching, page, limit).products == []
    ensures !PageOf(matching, page, limit).hasNextPage
  {
    var pages := TotalPages(|matching|, limit);
    MultiplyMonotone(pages, page - 1, limit);
    var skip := Skip(page, limit);
    assert skip >= |matching| by {
      assert skip == (page - 1) * limit;
    }
    assert PageOf(matching, page, limit).products == Window(SortNewestFirst(matching), skip, limit);
  }

  /** 25 matching products, 10 per page, page 3: five items, three pages, no next page. */
  lemma TwentyFiveProductsPageThree(matching: seq<Product>)
    requires |matching| == 25
    ensures var r := PageOf(matching, 3, 10);
      Skip(3, 10) == 20 && |r.products| == 5 && r.totalPages == 3 &&
      !r.hasNextPage && r.hasPreviousPage && r.currentPage == 3
  {
    assert TotalPages(25, 10) == 3;
  }

  /**
   * Whatever the store holds, a successful listing returns only products of
   * the store that meet the filters, newest first, and counts all of them.
   */
  lemma ListingMeetsFilters(ps: seq<Product>, f: Filters)
    requires PageNumber(f) >= 1 && PageLimit(f) >= 1
    ensures var r := PageOf(SelectWhere(ps, f), PageNumber(f), PageLimit(f));
      && NewestFirst(r.products)
      && (forall p :: p in r.products ==> p in ps && FilterHolds(f, p))
      && r.totalCount == |SelectWhere(ps, f)|
  {
    PageItems(SelectWhere(ps, f), PageNumber(f), PageLimit(f));
  }

  /**
   * A `page` parameter that passes validation is the page the listing
   * serves and reports as `currentPage`: its `parseInt` value, unchanged.
   */
  lemma RequestedPageServed(params: Params)
    requires ValidateFilters(ParseFilters(params)).Ok? && Given(Lookup(params, "page"))
    ensures var f := ValidateFilters(ParseFilters(params)).value;
      ParseInt(Lookup(params, "page").value) == Some(PageNumber(f))
  {
  }

  /** Validated filters always give a page and a limit of at least 1. */
  lemma ValidatedPaging(input: FilterInput)
    requires ValidateFilters(input).Ok?
    ensures PageNumber(ValidateFilters(input).value) >= 1
    ensures 1 <= PageLimit(ValidateFilters(input).value) <= 100
  {
  }

  /** A page parameter that is not a number fails validation, and the listing answers 500, not 400. */
  lemma NonNumericPageAnswers500(params: Params)
    requires Given(Lookup(params, "page")) && ParseInt(Lookup(params, "page").value).None?
    ensures ValidateFilters(ParseFilters(params)).Err?
  {
  }

  /** Search is a case-insensitive substring test. */
  lemma SearchExamples()
    ensures SearchHolds(Some("pro"), "Pro Widget")
    ensures SearchHolds(Some("pro"), "proactive gadget")
    ensures !SearchHolds(Some("pro"), "Widget")
  {
    assert Lower("pro") == "pro";
    assert OccursAt(Lower("Pro Widget"), "pro", 0);
    assert OccursAt(Lower("proactive gadget"), "pro", 0);
    MissingCharNotContained(Lower("Widget"), "pro", 'p');
  }

  /** Category filtering is match-any: one shared category suffices, whatever else the product has. */
  lemma CategoryMatchAny(listed: seq<string>, p: Product, c: string)
    requires c in listed && c in p.categories
    ensures CategoriesHold(Some(listed), p.categories)
  {
  }

  // ---- POST ----

  /** The request body: JSON that parsed into the payload, or text that did not. */
  datatype Body = Json(product: ProductBody) | Malformed(message: string)

  /** What the handler's `catch` can receive. */
  datatype Thrown =
    | ZodError(issues: seq<Issue>)
    | JsError(name: string, message: string)
    | NotAnError

  predicate IsValidationError(e: Thrown) {
    e.ZodError? || (e.JsError? && e.name == "ZodError")
  }

  /**
   * The `catch` block: a validation error is 400; any other error whose
   * message mentions "not found" is 500 even if it also mentions
   * "duplicate"; then "duplicate" is 409; everything else is 500.
   */
  function ErrorResponse(e: Thrown): (r: Response)
    ensures r.status == 400 <==> IsValidationError(e)
    ensures r.status == 409 <==>
      !IsValidationError(e) && e.JsError? && !Contains(e.message, "not found") && Contains(e.message, "duplicate")
    ensures r.status == 400 || r.status == 409 || r.status == 500
  {
    match e
    case ZodError(issues) => Response(400, Failure("Validation failed", Some(IssueList(issues))))
    case JsError(name, message) =>
      if name == "ZodError" then Response(400, Failure("Validation failed", Some(Text(message))))
      else if Contains(message, "not found") then
        Response(500, Failure("Database connection failed", Some(Text("Please check if MongoDB is running"))))
      else if Contains(message, "duplicate") then
        Response(409, Failure("Duplicate product", Some(Text("A product with this name already exists"))))
      else if Contains(message, "insertion failed") then
        Response(500, Failure("Product insertion failed", Some(Text(message))))
      else Response(500, Failure("Failed to create product", Some(Text(message))))
    case NotAnError => Response(500, Failure("Failed to create product", Some(Text("Unknown error"))))
  }

  /** The 201 answer: the stored product with `success: true` and a confirmation message. */
  function CreatedResponse(p: Product): Response {
    Response(201, Created(p, true, "Product created successfully"))
  }

  const NameTakenResponse :=
    Response(409, Failure("A product with this name already exists",
                          Some(Text("Please choose a different name for this product"))))

  /** Some stored product has this name, ignoring case. */
  predicate NameTaken(ps: seq<Product>, name: string) {
    exists p :: p in ps && Lower(p.name) == Lower(name)
  }

  /** The record stored for a validated payload; both timestamps are the same clock reading. */
  function NewProduct(data: ProductBody, id: nat, now: int): Product {
    Product(id, data.name, data.description, data.quantity, data.categories, now, now)
  }

  /**
   * What `POST` does to the store and answers: the new state and the
   * response. `acknowledged` is the driver's write acknowledgement.
   */
  function PostSpec(s: State, body: Body, now: int, acknowledged: bool): (State, Response) {
    match body
    case Malformed(message) => (s, ErrorResponse(JsError("SyntaxError", message)))
    case Json(b) =>
      match ValidateProduct(b)
      case Err(issues) => (s, ErrorResponse(ZodError(issues)))
      case Ok(data) =>
        if NameTaken(s.products, data.name) then (s, NameTakenResponse)
        else
          var p := NewProduct(data, s.nextId, now);
          var s' := s.(products := s.products + [p], nextId := s.nextId + 1);
          if acknowledged then (s', CreatedResponse(p))
          else (s', ErrorResponse(JsError("Error", "Product insertion failed")))
  }

  /** The lookup by the new id finds the document just appended. */
  lemma {:induction false} FindsInsertedProduct(ps: seq<Product>, p: Product, nextId: nat)
    requires ProductIdsOrdered(ps, nextId) && p.id == nextId
    ensures FindById(ps + [p], nextId) == Some(p)
    decreases |ps|
  {
    if ps == [] {
    } else {
      assert (ps + [p])[1..] == ps[1..] + [p];
      assert ps[0].id < nextId;
      FindsInsertedProduct(ps[1..], p, nextId);
    }
  }

  /**
   * The `POST` handler over the store. A duplicate-name request leaves the
   * store untouched; an accepted one appends exactly one product. The
   * read-back of the inserted document always succeeds, so the source's
   * "Failed to fetch created product" branch is never taken.
   */
  method Post(db: Database, body: Body, now: int, acknowledged: bool) returns (resp: Response)
    requires db.Valid()
    modifies db
    ensures db.Valid()
    ensures db.Snapshot() == PostSpec(old(db.Snapshot()), body, now, acknowledged).0
    ensures resp == PostSpec(old(db.Snapshot()), body, now, acknowledged).1
  {
    ghost var s := db.Snapshot();
    PostSpecPaths(s, body, now, acknowledged);
    if body.Malformed? {
      resp := ErrorResponse(JsError("SyntaxError", body.message));
      return;
    }
    var validated := ValidateProduct(body.product);
    if validated.Err? {
      resp := ErrorResponse(ZodError(validated.error));
      return;
    }
    var data := validated.value;
    var existing := db.FindOneProduct(Query(Some(WholeName(data.name)), None));
    if existing.Some? {
      resp := NameTakenResponse;
      return;
    }
    assert !NameTaken(s.products, data.name);
    PostSpecInserts(s, body, now, acknowledged);
    resp := InsertValidated(db, data, now, acknowledged);
  }

  /** `PostSpec` on the three refusals, each leaving the store as it was. */
  lemma PostSpecPaths(s: State, body: Body, now: int, acknowledged: bool)
    ensures body.Malformed? ==>
      PostSpec(s, body, now, acknowledged) == (s, ErrorResponse(JsError("SyntaxError", body.message)))
    ensures body.Json? && ValidateProduct(body.product).Err? ==>
      PostSpec(s, body, now, acknowledged) == (s, ErrorResponse(ZodError(ValidateProduct(body.product).error)))
    ensures body.Json? && ValidateProduct(body.product).Ok? ==>
      var data := ValidateProduct(body.product).value;
      NameTaken(s.products, data.name) ==> PostSpec(s, body, now, acknowledged) == (s, NameTakenResponse)
  {
  }

  /** `PostSpec` on a valid payload whose name is free: one product appended. */
  lemma PostSpecInserts(s: State, body: Body, now: int, acknowledged: bool)
    requires body.Json? && ValidateProduct(body.product).Ok?
    requires !NameTaken(s.products, ValidateProduct(body.product).value.name)
    ensures var p := NewProduct(ValidateProduct(body.product).value, s.nextId, now);
      PostSpec(s, body, now, acknowledged) ==
        (s.(products := s.products + [p], nextId := s.nextId + 1),
         if acknowledged then CreatedResponse(p) else ErrorResponse(JsError("Error", "Product insertion failed")))
  {
  }

  /** The insertion part of `POST`, once the payload is valid and its name free. */
  method InsertValidated(db: Database, data: ProductBody, now: int, acknowledged: bool) returns (resp: Response)
    requires db.Valid() && !NameTaken(db.products, data.name)
    modifies db
    ensures db.Valid()
    ensures var p := NewProduct(data, old(db.nextId), now);
      && db.Snapshot() == old(db.Snapshot()).(products := old(db.products) + [p], nextId := old(db.nextId) + 1)
      && resp == if acknowledged then CreatedResponse(p) else ErrorResponse(JsError("Error", "Product insertion failed"))
  {
    ghost var s := db.Snapshot();
    ghost var p := NewProduct(data, s.nextId, now);
    var doc := NewProduct(data, 0, now);
    var insertedId := db.InsertOneProduct(doc);
    assert doc.(id := insertedId) == p;
    AppendKeepsValid(s, p);
    if !acknowledged {
      resp := ErrorResponse(JsError("Error", "Product insertion failed"));
      return;
    }
    FindsInsertedProduct(s.products, p, insertedId);
    var created := db.FindProductById(insertedId);
    resp := CreatedResponse(created.value);
  }

  // ---- POST: properties ----

  /** A name already stored, in any letter case, is refused with 409 and nothing is written. */
  lemma DuplicateNameRejected(s: State, b: ProductBody, now: int, acknowledged: bool)
    requires ValidateProduct(b).Ok? && NameTaken(s.products, ValidateProduct(b).value.name)
    ensures PostSpec(s, Json(b), now, acknowledged).0 == s
    ensures PostSpec(s, Json(b), now, acknowledged).1.status == 409
  {
  }

  /**
   * An accepted payload with a fresh name appends exactly one product: the
   * validated fields, the next id, `createdAt == updatedAt`. Nothing else
   * changes. The answer is 201 with that product once the write is acknowledged.
   */
  lemma AcceptedProductAppended(s: State, b: ProductBody, now: int, acknowledged: bool)
    requires ValidateProduct(b).Ok? && !NameTaken(s.products, ValidateProduct(b).value.name)
    ensures var (s', r) := PostSpec(s, Json(b), now, acknowledged);
      var p := s'.products[|s'.products| - 1];
      && |s'.products| == |s.products| + 1
      && s'.products[..|s.products|] == s.products
      && p.name == Trim(b.name) && p.description == Trim(b.description)
      && p.quantity == b.quantity && p.categories == b.categories
      && p.createdAt == p.updatedAt == now
      && s'.categories == s.categories && s'.indexes == s.indexes
      && (acknowledged ==> r == CreatedResponse(p))
      && (!acknowledged ==> r.status == 500)
  {
    var (s', r) := PostSpec(s, Json(b), now, acknowledged);
    assert s'.products[..|s.products|] == s.products;
    InsertionFailedIs500();
  }

  /** An invalid payload is refused with 400 and nothing is written. */
  lemma InvalidPayloadRejected(s: State, b: ProductBody, now: int, acknowledged: bool)
    requires !AcceptedProduct(b)
    ensures PostSpec(s, Json(b), now, acknowledged).0 == s
    ensures PostSpec(s, Json(b), now, acknowledged).1.status == 400
  {
  }

  /** Appending a product with the next id and a fresh name keeps the store invariant. */
  lemma AppendKeepsValid(s: State, p: Product)
    requires ValidState(s) && p.id == s.nextId && !NameTaken(s.products, p.name)
    ensures ValidState(s.(products := s.products + [p], nextId := s.nextId + 1))
  {
    var ps := s.products + [p];
    var n := |s.products|;
    forall i, j | 0 <= i < j < |ps|
      ensures Lower(ps[i].name) != Lower(ps[j].name) && ps[i].id < ps[j].id
    {
      if j == n {
        assert ps[i] in s.products;
      }
    }
    assert ProductIdsOrdered(ps, s.nextId + 1);
    assert NamesUniqueIgnoringCase(ps);
  }

  /** Creating keeps the store invariant: in particular names stay unique ignoring case. */
  lemma PostKeepsStoreValid(s: State, body: Body, now: int, acknowledged: bool)
    requires ValidState(s)
    ensures ValidState(PostSpec(s, body, now, acknowledged).0)
  {
    match body
    case Malformed(_) =>
    case Json(b) =>
      match ValidateProduct(b)
      case Err(_) =>
      case Ok(data) =>
        if !NameTaken(s.products, data.name) {
          AppendKeepsValid(s, NewProduct(data, s.nextId, now));
        }
  }

  /** A failed insertion acknowledgement answers 500. */
  lemma InsertionFailedIs500()
    ensures ErrorResponse(JsError("Error", "Product insertion failed")).status == 500
  {
    MissingCharNotContained("Product insertion failed", "duplicate", 'p');
  }

  /**
   * Two creations whose trimmed names differ only in letter case: the first
   * is stored, the second is refused with 409 and leaves the store as the
   * first left it.
   */
  lemma CaseVariantRejected(s: State, b1: ProductBody, b2: ProductBody, now1: int, now2: int, ack2: bool)
    requires AcceptedProduct(b1) && AcceptedProduct(b2)
    requires !NameTaken(s.products, Trim(b1.name))
    requires Lower(Trim(b1.name)) == Lower(Trim(b2.name))
    ensures var s1 := PostSpec(s, Json(b1), now1, true).0;
      && |s1.products| == |s.products| + 1
      && PostSpec(s1, Json(b2), now2, ack2).0 == s1
      && PostSpec(s1, Json(b2), now2, ack2).1.status == 409
  {
    var s1 := PostSpec(s, Json(b1), now1, true).0;
    var p := NewProduct(ValidateProduct(b1).value, s.nextId, now1);
    assert s1.products == s.products + [p];
    assert p in s1.products;
    assert NameTaken(s1.products, ValidateProduct(b2).value.name);
  }

  /** "Widget" and then "widget": the second request is refused with 409. */
  lemma WidgetThenLowercaseWidget(s: State, b1: ProductBody, b2: ProductBody, now1: int, now2: int)
    requires b1 == ProductBody("Widget", "A widget", 1, ["Electronics"]) && b2 == b1.(name := "widget")
    requires !NameTaken(s.products, "Widget")
    ensures PostSpec(PostSpec(s, Json(b1), now1, true).0, Json(b2), now2, true).1.status == 409
  {
    WidgetBodies(b1, b2);
    CaseVariantRejected(s, b1, b2, now1, now2, true);
  }

  /** Both "Widget" payloads pass the schema unchanged and their names agree ignoring case. */
  lemma WidgetBodies(b1: ProductBody, b2: ProductBody)
    requires b1 == ProductBody("Widget", "A widget", 1, ["Electronics"]) && b2 == b1.(name := "widget")
    ensures AcceptedProduct(b1) && AcceptedProduct(b2)
    ensures Trim(b1.name) == "Widget" && Lower(Trim(b1.name)) == Lower(Trim(b2.name))
  {
    CapitalWidgetTrims();
    LowercaseWidgetTrims();
    WidgetLowercase();
  }

  lemma CapitalWidgetTrims()
    ensures Trim("Widget") == "Widget"
  {
    TrimUnpadded("Widget");
  }

  lemma LowercaseWidgetTrims()
    ensures Trim("widget") == "widget"
  {
    TrimUnpadded("widget");
  }

  lemma WidgetLowercase()
    ensures Lower("Widget") == "widget" && Lower("widget") == "widget"
  {
    var a, b := Lower("Widget"), Lower("widget");
    assert a[0] == 'w' && b[0] == 'w';
  }

  /** The order of the checks matters: "not found" wins over "duplicate". */
  lemma ErrorChecksInOrder()
    ensures ErrorResponse(JsError("MongoServerError", "duplicate key: collection not found")).status == 500
    ensures ErrorResponse(JsError("MongoServerError", "E11000 duplicate key error")).status == 409
  {
    NotFoundWins();
    DuplicateKeyIs409();
  }

  lemma NotFoundWins()
    ensures ErrorResponse(JsError("MongoServerError", "duplicate key: collection not found")).status == 500
  {
    assert OccursAt("duplicate key: collection not found", "not found", 26);
  }

  lemma DuplicateKeyIs409()
    ensures ErrorResponse(JsError("MongoServerError", "E11000 duplicate key error")).status == 409
  {
    assert OccursAt("E11000 duplicate key error", "duplicate", 7);
    MissingCharNotContained("E11000 duplicate key error", "not found", 'f');
  }
}
