/**
 * The category toggle of the create form and the payload it submits
 * (components/ProductForm.tsx). Unlike the filter bar, this toggle tests
 * membership first: a selected name is removed, an unselected one appended.
 */
module ProductForm {
  import opened Lists
  import opened ProductValidation

  /** `handleCategoryToggle(name)`: the updated selection. */
  function ToggleSelection(selected: seq<string>, name: string): (r: seq<string>)
    ensures name !in selected ==> r == selected + [name]
    ensures name in selected ==> name !in r && multiset(r) == multiset(selected)[name := 0]
  {
    if name in selected then Without(selected, name) else selected + [name]
  }

  /** `{ ...data, categories: selectedCategories }`: the selection replaces the form's categories. */
  function SubmitBody(data: ProductBody, selected: seq<string>): (r: ProductBody)
    ensures r.categories == selected
    ensures r.name == data.name && r.description == data.description && r.quantity == data.quantity
  {
    data.(categories := selected)
  }

  // ---- properties ----

  /** Membership flips: the toggled name is selected afterwards exactly when it was not before. */
  lemma ToggleFlips(selected: seq<string>, name: string)
    ensures name in ToggleSelection(selected, name) <==> name !in selected
  {
  }

  /**
   * Other names keep their relative order: with the toggled name filtered
   * out, the selection before and after is the same list.
   */
  lemma ToggleKeepsOthers(selected: seq<string>, name: string)
    ensures Without(ToggleSelection(selected, name), name) == Without(selected, name)
  {
    if name !in selected {
      WithoutAppend(selected, [name], name);
    } else {
      WithoutAbsent(Without(selected, name), name);
    }
  }

  /** Toggling an unselected name twice restores the selection. */
  lemma ToggleTwice(selected: seq<string>, name: string)
    requires name !in selected
    ensures ToggleSelection(ToggleSelection(selected, name), name) == selected
  {
    WithoutAppend(selected, [name], name);
    WithoutAbsent(selected, name);
  }

  /** Starting from a selection without repeats, toggling never creates one. */
  lemma {:induction false} ToggleKeepsNoDuplicates(selected: seq<string>, name: string)
    requires NoDuplicates(selected)
    ensures NoDuplicates(ToggleSelection(selected, name))
  {
    if name in selected {
      WithoutNoDuplicates(selected, name);
    }
  }

  lemma {:induction false} WithoutNoDuplicates(xs: seq<string>, v: string)
    requires NoDuplicates(xs)
    ensures NoDuplicates(Without(xs, v))
  {
    if xs != [] {
      WithoutNoDuplicates(xs[1..], v);
      var rest := Without(xs[1..], v);
      if xs[0] != v {
        assert xs[0] !in xs[1..];
        assert xs[0] !in rest;
        var r := [xs[0]] + rest;
        forall i, j | 0 <= i < j < |r|
          ensures r[i] != r[j]
        {
          if i == 0 {
            assert r[j] in rest;
          } else {
            assert r[i] == rest[i - 1] && r[j] == rest[j - 1];
          }
        }
      }
    }
  }

  /**
   * The submitted categories decide the category check: with an empty
   * selection the payload is refused for its categories whatever the form
   * holds; accepted payloads carry exactly the selection.
   */
  lemma SubmittedSelectionValidated(data: ProductBody, selected: seq<string>)
    ensures selected == [] ==>
      ValidateProduct(SubmitBody(data, selected)).Err? &&
      TooSmall(Categories, CategoriesMin) in ValidateProduct(SubmitBody(data, selected)).error
    ensures ValidateProduct(SubmitBody(data, selected)).Ok? ==>
      ValidateProduct(SubmitBody(data, selected)).value.categories == selected
  {
  }
}
