/**
 * The category toggle and the "active filters" flag of the filter bar
 * (components/ProductFilters.tsx). The toggle appends on check without a
 * membership test and removes every occurrence on uncheck.
 */
module ProductFilters {
  import opened Lists
  import opened HomePage

  /** `handleCategoryToggle(name, checked)`: the selection passed to `onCategoriesChange`. */
  function ToggleCategory(selected: seq<string>, name: string, checked: bool): (r: seq<string>)
    ensures checked ==> |r| == |selected| + 1 && r[..|selected|] == selected && r[|selected|] == name
    ensures !checked ==> name !in r && multiset(r) == multiset(selected)[name := 0]
  {
    if checked then selected + [name] else Without(selected, name)
  }

  /** `hasActiveFilters`: a non-empty search term or a non-empty selection. */
  predicate HasActiveFilters(searchTerm: string, selected: seq<string>) {
    searchTerm != "" || |selected| > 0
  }

  /** The badge of entry `i` calls the toggle with `checked = false`. */
  function RemoveBadge(selected: seq<string>, i: nat): (r: seq<string>)
    requires i < |selected|
    ensures |r| < |selected|
    ensures forall x :: x in r <==> x in selected && x != selected[i]
  {
    assert selected[i] in selected;
    ToggleCategory(selected, selected[i], false)
  }

  // ---- properties ----

  /** Unchecking keeps the other names in their relative order: filtering distributes over concatenation. */
  lemma UncheckKeepsOrder(xs: seq<string>, ys: seq<string>, name: string)
    ensures ToggleCategory(xs + ys, name, false) ==
            ToggleCategory(xs, name, false) + ToggleCategory(ys, name, false)
  {
    WithoutAppend(xs, ys, name);
  }

  /** Checking a name that is selected already appends a second copy. */
  lemma CheckSelectedDuplicates(selected: seq<string>, name: string)
    requires name in selected
    ensures !NoDuplicates(ToggleCategory(selected, name, true))
    ensures multiset(ToggleCategory(selected, name, true))[name] >= 2
  {
    var r := ToggleCategory(selected, name, true);
    var i :| 0 <= i < |selected| && selected[i] == name;
    assert r[i] == name && r[|selected|] == name;
    assert r == selected + [name];
  }

  /** Checking and then unchecking a name that was not selected restores the selection. */
  lemma CheckThenUncheck(selected: seq<string>, name: string)
    requires name !in selected
    ensures ToggleCategory(ToggleCategory(selected, name, true), name, false) == selected
  {
    WithoutAppend(selected, [name], name);
    WithoutAbsent(selected, name);
  }

  /**
   * The flag agrees with what the page sends: filters are active exactly
   * when the request carries more than `page` and `limit`. A cleared state
   * is never active.
   */
  lemma ActiveIffFiltersSent(page: int, st: FilterState)
    ensures HasActiveFilters(st.searchTerm, st.selectedCategories) <==> |RequestParams(page, st)| > 2
    ensures !HasActiveFilters(ClearFilters(st).searchTerm, ClearFilters(st).selectedCategories)
  {
  }
}
