/**
 * The two request schemas (lib/validations/product.ts) as acceptance
 * predicates. Like the schema library, validation reports every violated
 * constraint, not just the first, and the product schema hands back trimmed
 * strings on success.
 */
module ProductValidation {
  import opened Results
  import opened Strings

  /** The create-product payload (`ProductFormData`). */
  datatype ProductBody = ProductBody(name: string, description: string, quantity: int, categories: seq<string>)

  datatype Field = Name | Description | Quantity | Categories | Page | Limit

  /** One violated constraint, as the schema library reports it. */
  datatype Issue =
    | TooSmall(field: Field, minimum: int)
    | TooBig(field: Field, maximum: int)
    | NotANumber(field: Field)

  const NameMin := 1
  const NameMax := 100
  const DescriptionMin := 1
  const DescriptionMax := 500
  const QuantityMin := 0
  const QuantityMax := 999999
  const CategoriesMin := 1
  const CategoriesMax := 5
  const PageMin := 1
  const LimitMin := 1
  const LimitMax := 100

  /** The issue list of one bounded quantity, lower bound checked first. */
  function BoundIssues(field: Field, value: int, lo: int, hi: int): seq<Issue> {
    (if value < lo then [TooSmall(field, lo)] else []) +
    (if value > hi then [TooBig(field, hi)] else [])
  }

  /**
   * Every issue of a create payload, in schema order. The length bounds of
   * `name` and `description` are checked on the raw strings: `.trim()` comes
   * after `.min` and `.max` in the chain.
   */
  function ProductIssues(b: ProductBody): seq<Issue> {
    BoundIssues(Name, |b.name|, NameMin, NameMax) +
    BoundIssues(Description, |b.description|, DescriptionMin, DescriptionMax) +
    BoundIssues(Quantity, b.quantity, QuantityMin, QuantityMax) +
    BoundIssues(Categories, |b.categories|, CategoriesMin, CategoriesMax)
  }

  /** Does `issue` describe a constraint that `b` breaks? */
  predicate Violates(b: ProductBody, issue: Issue) {
    match issue
    case TooSmall(Name, m) => m == NameMin && |b.name| < m
    case TooBig(Name, m) => m == NameMax && |b.name| > m
    case TooSmall(Description, m) => m == DescriptionMin && |b.description| < m
    case TooBig(Description, m) => m == DescriptionMax && |b.description| > m
    case TooSmall(Quantity, m) => m == QuantityMin && b.quantity < m
    case TooBig(Quantity, m) => m == QuantityMax && b.quantity > m
    case TooSmall(Categories, m) => m == CategoriesMin && |b.categories| < m
    case TooBig(Categories, m) => m == CategoriesMax && |b.categories| > m
    case _ => false
  }

  /** The inclusive bounds each field of the create payload must meet. */
  predicate AcceptedProduct(b: ProductBody) {
    1 <= |b.name| <= 100 &&
    1 <= |b.description| <= 500 &&
    0 <= b.quantity <= 999999 &&
    1 <= |b.categories| <= 5
  }

  /**
   * `productSchema.parse(body)`: the trimmed payload when every bound holds,
   * otherwise exactly the list of violated bounds.
   */
  function ValidateProduct(b: ProductBody): (r: Result<ProductBody, seq<Issue>>)
    ensures r.Ok? <==> AcceptedProduct(b)
    ensures r.Ok? ==> r.value == ProductBody(Trim(b.name), Trim(b.description), b.quantity, b.categories)
    ensures r.Err? ==> |r.error| > 0 && forall i :: i in r.error <==> Violates(b, i)
  {
    var issues := ProductIssues(b);
    if issues == [] then Ok(ProductBody(Trim(b.name), Trim(b.description), b.quantity, b.categories))
    else Err(issues)
  }

  /** Trimming comes after the length check: a name of blanks passes and is stored empty. */
  lemma BlankNameAccepted(b: ProductBody)
    requires 1 <= |b.name| <= 100 && AllWhitespace(b.name)
    requires 1 <= |b.description| <= 500 && 0 <= b.quantity <= 999999 && 1 <= |b.categories| <= 5
    ensures ValidateProduct(b).Ok? && ValidateProduct(b).value.name == ""
  {
    TrimWhitespaceOnly(b.name);
  }

  /** A validated payload is a fixed point of validation whenever trimming leaves it non-empty. */
  lemma {:induction false} RevalidateTrimmed(b: ProductBody)
    requires ValidateProduct(b).Ok?
    requires ValidateProduct(b).value.name != "" && ValidateProduct(b).value.description != ""
    ensures ValidateProduct(ValidateProduct(b).value) == ValidateProduct(b)
  {
    var v := ValidateProduct(b).value;
    assert |v.name| <= |b.name| && |v.description| <= |b.description|;
    assert AcceptedProduct(v);
    TrimIdempotent(b.name);
    TrimIdempotent(b.description);
    assert ValidateProduct(v).value == v;
  }

  // ---- the listing filters ----

  /** A JavaScript number as `parseInt` produces it: an integer or NaN. */
  datatype JsNumber = Int(value: int) | NaN

  /** The `filters` object handed to `productFiltersSchema`. */
  datatype FilterInput = FilterInput(
    search: Option<string>,
    categories: Option<seq<string>>,
    page: Option<JsNumber>,
    limit: Option<JsNumber>)

  /** The filters after validation. */
  datatype Filters = Filters(
    search: Option<string>,
    categories: Option<seq<string>>,
    page: Option<int>,
    limit: Option<int>)

  /** The issues of one optional number with an optional upper bound. */
  function NumberIssues(field: Field, n: Option<JsNumber>, lo: int, hi: Option<int>): seq<Issue> {
    match n
    case None => []
    case Some(NaN) => [NotANumber(field)]
    case Some(Int(v)) =>
      (if v < lo then [TooSmall(field, lo)] else []) +
      (if hi.Some? && v > hi.value then [TooBig(field, hi.value)] else [])
  }

  function NumberValue(n: Option<JsNumber>): Option<int> {
    match n
    case Some(Int(v)) => Some(v)
    case _ => None
  }

  /** `page`, when present, is a number of at least 1. */
  predicate PageAccepted(n: Option<JsNumber>) {
    n.None? || (n.value.Int? && n.value.value >= 1)
  }

  /** `limit`, when present, is a number in [1, 100]. */
  predicate LimitAccepted(n: Option<JsNumber>) {
    n.None? || (n.value.Int? && 1 <= n.value.value <= 100)
  }

  /**
   * `productFiltersSchema.parse(filters)`: `search` and `categories` pass
   * unconstrained; `page` and `limit` are bounded when present.
   */
  function ValidateFilters(f: FilterInput): (r: Result<Filters, seq<Issue>>)
    ensures r.Ok? <==> PageAccepted(f.page) && LimitAccepted(f.limit)
    ensures r.Ok? ==> r.value.search == f.search && r.value.categories == f.categories
    ensures r.Ok? ==> (r.value.page.Some? ==> r.value.page.value >= 1)
    ensures r.Ok? ==> (r.value.limit.Some? ==> 1 <= r.value.limit.value <= 100)
    ensures r.Ok? ==> r.value.page.Some? == f.page.Some? && r.value.limit.Some? == f.limit.Some?
    ensures r.Ok? ==> r.value.page == NumberValue(f.page) && r.value.limit == NumberValue(f.limit)
    ensures r.Err? ==> |r.error| > 0
  {
    var issues := NumberIssues(Page, f.page, PageMin, None) + NumberIssues(Limit, f.limit, LimitMin, Some(LimitMax));
    if issues == [] then Ok(Filters(f.search, f.categories, NumberValue(f.page), NumberValue(f.limit)))
    else Err(issues)
  }
}
