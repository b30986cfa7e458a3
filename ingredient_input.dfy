/**
 * The ingredient editor of the recipe form
 * (components/recipes/ingredient-input.tsx): each handler builds a new list
 * and passes it to `onChange`.
 */
module IngredientInput {
  import opened Seqs

  /**
   * `handleIngredientChange`: the copy with `index` set to `value`. The
   * index is the position of a rendered input row, so it is in range.
   */
  function HandleIngredientChange(ingredients: seq<string>, index: int, value: string): (r: seq<string>)
    requires 0 <= index < |ingredients|
    ensures |r| == |ingredients| && r[index] == value
    ensures forall j :: 0 <= j < |r| && j != index ==> r[j] == ingredients[j]
  {
    ingredients[index := value]
  }

  /** `addIngredient`: one empty row at the end. */
  function AddIngredient(ingredients: seq<string>): (r: seq<string>)
    ensures |r| == |ingredients| + 1 && r[..|ingredients|] == ingredients && r[|ingredients|] == ""
  {
    ingredients + [""]
  }

  /** `removeIngredient`: the last row is cleared rather than removed; otherwise the row at `index` goes. */
  function RemoveIngredient(ingredients: seq<string>, index: int): (r: seq<string>)
    ensures |ingredients| == 1 ==> r == [""]
    ensures |ingredients| != 1 && 0 <= index < |ingredients| ==>
      && |r| == |ingredients| - 1
      && forall j :: 0 <= j < |r| ==> r[j] == (if j < index then ingredients[j] else ingredients[j + 1])
    ensures |ingredients| != 1 && !(0 <= index < |ingredients|) ==> r == ingredients
  {
    if |ingredients| == 1 then [""]
    else FilterIndex(ingredients, index)
  }

  /** An edit the component can make. */
  datatype Edit = Change(index: int, value: string) | Add | Remove(index: int)

  /** One edit; a change whose row does not exist cannot be issued and is skipped. */
  function Apply(ingredients: seq<string>, edit: Edit): (r: seq<string>)
    ensures ingredients != [] ==> r != []
  {
    match edit
    case Change(i, v) => if 0 <= i < |ingredients| then HandleIngredientChange(ingredients, i, v) else ingredients
    case Add => AddIngredient(ingredients)
    case Remove(i) => RemoveIngredient(ingredients, i)
  }

  /** Applies edits in turn. */
  function ApplyEdits(ingredients: seq<string>, edits: seq<Edit>): seq<string>
    decreases |edits|
  {
    if edits == [] then ingredients
    else ApplyEdits(Apply(ingredients, edits[0]), edits[1..])
  }

  /** Starting from at least one row, no sequence of edits leaves the list empty. */
  lemma {:induction false} NeverEmpty(ingredients: seq<string>, edits: seq<Edit>)
    requires ingredients != []
    ensures ApplyEdits(ingredients, edits) != []
    decreases |edits|
  {
    if edits != [] {
      NeverEmpty(Apply(ingredients, edits[0]), edits[1..]);
    }
  }
}
