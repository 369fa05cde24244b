/**
 * The home page's side of the listing (app/page.tsx): the query string
 * `fetchProducts(page)` builds from the filter state, and the filter reset.
 * The lemmas connect what the page sends with what the products endpoint
 * reads back.
 */
module HomePage {
  import opened Results
  import opened Strings
  import opened Http
  import opened ProductValidation
  import opened ProductsRoute

  /** The two filter values the page keeps in React state. */
  datatype FilterState = FilterState(searchTerm: string, selectedCategories: seq<string>)

  /** The pairs of the query string for `page`, in the order they are appended. */
  function RequestParams(page: int, st: FilterState): Params {
    [("page", IntToString(page)), ("limit", "12")] +
    (if st.searchTerm != "" then [("search", st.searchTerm)] else []) +
    (if |st.selectedCategories| > 0 then [("categories", Join(st.selectedCategories, ','))] else [])
  }

  /** `new URLSearchParams({ page, limit })` followed by the conditional `append` calls. */
  method BuildParams(page: int, st: FilterState) returns (params: Params)
    ensures params == RequestParams(page, st)
  {
    params := [("page", IntToString(page)), ("limit", "12")];
    if st.searchTerm != "" {
      params := params + [("search", st.searchTerm)];
    }
    if |st.selectedCategories| > 0 {
      params := params + [("categories", Join(st.selectedCategories, ','))];
    }
  }

  /** `handleClearFilters`: both filters back to empty. */
  function ClearFilters(st: FilterState): (r: FilterState)
    ensures r.searchTerm == "" && r.selectedCategories == []
  {
    st.(searchTerm := "", selectedCategories := [])
  }

  // ---- properties ----

  /** Looking up a key that occurs exactly once, at a known position. */
  lemma {:induction false} LookupAt(params: Params, i: nat, key: string)
    requires i < |params| && params[i].0 == key
    requires forall j :: 0 <= j < |params| && j != i ==> params[j].0 != key
    ensures Lookup(params, key) == Some(params[i].1)
  {
    if i > 0 {
      assert params[1..][i - 1] == params[i];
      LookupAt(params[1..], i - 1, key);
    }
  }

  /**
   * What the endpoint reads from the request: `page` and `limit` always, the
   * search term exactly when it is non-empty, the joined selection exactly
   * when the selection is non-empty.
   */
  lemma RequestLookups(page: int, st: FilterState)
    ensures var params := RequestParams(page, st);
      && Lookup(params, "page") == Some(IntToString(page))
      && Lookup(params, "limit") == Some("12")
      && Lookup(params, "search") == (if st.searchTerm != "" then Some(st.searchTerm) else None)
      && Lookup(params, "categories") ==
           (if |st.selectedCategories| > 0 then Some(Join(st.selectedCategories, ',')) else None)
  {
    var params := RequestParams(page, st);
    assert forall j :: 2 <= j < |params| ==> params[j].0 in {"search", "categories"};
    LookupAt(params, 0, "page");
    LookupAt(params, 1, "limit");
    SearchLookup(page, st);
    CategoriesLookup(page, st);
  }

  lemma SearchLookup(page: int, st: FilterState)
    ensures Lookup(RequestParams(page, st), "search") ==
      if st.searchTerm != "" then Some(st.searchTerm) else None
  {
    var params := RequestParams(page, st);
    if st.searchTerm != "" {
      assert params[2] == ("search", st.searchTerm);
      assert forall j :: 0 <= j < |params| && j != 2 ==> params[j].0 in {"page", "limit", "categories"};
      LookupAt(params, 2, "search");
    } else {
      assert forall j :: 0 <= j < |params| ==> params[j].0 in {"page", "limit", "categories"};
    }
  }

  lemma CategoriesLookup(page: int, st: FilterState)
    ensures Lookup(RequestParams(page, st), "categories") ==
      if |st.selectedCategories| > 0 then Some(Join(st.selectedCategories, ',')) else None
  {
    var params := RequestParams(page, st);
    if |st.selectedCategories| > 0 {
      var i := |params| - 1;
      assert params[i] == ("categories", Join(st.selectedCategories, ','));
      assert forall j :: 0 <= j < i ==> params[j].0 in {"page", "limit", "search"};
      LookupAt(params, i, "categories");
    } else {
      assert forall j :: 0 <= j < |params| ==> params[j].0 in {"page", "limit", "search"};
    }
  }

  lemma ParseTwelve()
    ensures ParseInt("12") == Some(12)
  {
    ParseIntToString(12);
    assert IntToString(12) == "12";
  }

  /**
   * The round trip between the page and the endpoint: the endpoint reads back
   * the requested page, limit 12, the search term when there is one, and the
   * selected names, which `split(',')` recovers when no name holds a comma.
   * A selection of one empty name joins to "" and reads back as no filter.
   */
  lemma RequestRoundTrip(page: int, st: FilterState)
    requires FreeOf(st.selectedCategories, ',')
    ensures ParseFilters(RequestParams(page, st)) == FilterInput(
      if st.searchTerm != "" then Some(st.searchTerm) else None,
      if st.selectedCategories == [] || st.selectedCategories == [""] then None
      else Some(st.selectedCategories),
      Some(Int(page)),
      Some(Int(DefaultLimit)))
  {
    RequestLookups(page, st);
    ParseIntToString(page);
    ParseTwelve();
    var sel := st.selectedCategories;
    JoinEmpty(sel, ',');
    if |sel| > 0 {
      SplitJoin(sel, ',');
    }
    assert IntToString(page) != "";
  }

  /** The endpoint accepts the page's request exactly when the page number is at least 1. */
  lemma RequestValidIffPositivePage(page: int, st: FilterState)
    ensures ValidateFilters(ParseFilters(RequestParams(page, st))).Ok? <==> page >= 1
  {
    RequestLookups(page, st);
    ParseIntToString(page);
    ParseTwelve();
    assert IntToString(page) != "";
  }

  /**
   * Clearing the filters and refetching the first page sends only `page=1`
   * and `limit=12`, which the endpoint reads as no search and no category
   * filter.
   */
  lemma ClearedRequest(st: FilterState)
    ensures RequestParams(1, ClearFilters(st)) == [("page", "1"), ("limit", "12")]
    ensures var f := ParseFilters(RequestParams(1, ClearFilters(st)));
      f.search.None? && f.categories.None? && f.page == Some(Int(1)) && f.limit == Some(Int(12))
  {
    assert IntToString(1) == "1";
    RequestRoundTrip(1, ClearFilters(st));
  }
}
