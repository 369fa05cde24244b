/**
 * The HTTP boundary as the routes see it: query-string parameters and the
 * JSON responses they send, each a status code and a payload.
 */
module Http {
  import opened Results
  import Db
  import ProductValidation

  /** Decoded query-string pairs in the order they appear (`URLSearchParams`). */
  type Params = seq<(string, string)>

  /** `searchParams.get(key)`: the value of the first pair with that key. */
  function Lookup(params: Params, key: string): (r: Option<string>)
    ensures r.Some? <==> exists i :: 0 <= i < |params| && params[i].0 == key
    ensures r.Some? ==> exists i :: 0 <= i < |params| && params[i] == (key, r.value) &&
                                    forall j :: 0 <= j < i ==> params[j].0 != key
  {
    if params == [] then None
    else if params[0].0 == key then Some(params[0].1)
    else
      var r := Lookup(params[1..], key);
      assert forall i :: 0 < i < |params| ==> params[i] == params[1..][i - 1];
      r
  }

  /** The listing response (`ProductListResponse`). */
  datatype PageResult = PageResult(
    products: seq<Db.Product>,
    totalCount: nat,
    totalPages: nat,
    currentPage: int,
    hasNextPage: bool,
    hasPreviousPage: bool)

  datatype Details = Text(text: string) | IssueList(issues: seq<ProductValidation.Issue>)

  datatype Payload =
    | ProductPage(page: PageResult)
    | Created(product: Db.Product, success: bool, message: string)
    | Message(message: string)
    | SeedReport(message: string, count: nat)
    | Failure(error: string, details: Option<Details>)

  datatype Response = Response(status: int, payload: Payload)
}
