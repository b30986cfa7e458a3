/**
 * The recipe form (components/recipes/recipe-form.tsx): its validation
 * schema, the values it starts from, and the submission, which the form
 * library runs only when the schema accepts the values.
 */
module RecipeForm {
  import opened Wrappers
  import opened Types
  import opened Storage
  import opened DataManager

  /** What the form edits; `imageUrl` is optional in the schema. */
  datatype RecipeFormValues = RecipeFormValues(
    title: string,
    description: string,
    ingredients: seq<string>,
    tags: seq<string>,
    imageUrl: Option<string>)

  /** The schema: non-empty title and description and at least one ingredient, whatever its text. */
  predicate RecipeFormSchema(v: RecipeFormValues)
  {
    |v.title| >= 1 && |v.description| >= 1 && |v.ingredients| >= 1
  }

  /** The values a new recipe starts from. */
  function NewRecipeDefaults(): RecipeFormValues
  {
    RecipeFormValues("", "", [""], [], Some(""))
  }

  /**
   * The defaults fail on the title and the description only: a single empty
   * ingredient row already meets the ingredient rule, and filling in both
   * texts makes them pass.
   */
  lemma NewDefaultsNeedTitleAndDescription(title: string, description: string)
    ensures !RecipeFormSchema(NewRecipeDefaults())
    ensures |NewRecipeDefaults().ingredients| >= 1
    ensures RecipeFormSchema(NewRecipeDefaults().(title := title, description := description))
      <==> title != "" && description != ""
  {
  }

  /** The values an edit starts from: an absent image becomes the empty text. */
  function EditDefaults(r: Recipe): (v: RecipeFormValues)
    ensures v.imageUrl == Some(r.imageUrl.GetOr(""))
  {
    RecipeFormValues(r.title, r.description, r.ingredients, r.tags, Some(r.imageUrl.GetOr("")))
  }

  /** An edit can be submitted unchanged exactly when the recipe itself meets the schema. */
  lemma EditDefaultsValid(r: Recipe)
    ensures RecipeFormSchema(EditDefaults(r)) <==> r.title != "" && r.description != "" && r.ingredients != []
  {
  }

  /** The values as the patch `updateRecipe` receives: `lastUsed` is never among them. */
  function PatchOf(v: RecipeFormValues): (p: RecipePatch)
    ensures p.title == Some(v.title) && p.description == Some(v.description)
    ensures p.ingredients == Some(v.ingredients) && p.tags == Some(v.tags)
    ensures p.imageUrl == v.imageUrl && p.lastUsed == None
  {
    RecipePatch(Some(v.title), Some(v.description), Some(v.ingredients), Some(v.tags), v.imageUrl, None)
  }

  /** The values as the recipe `addRecipe` receives: the form's fields, and never a lastUsed. */
  function DraftOf(v: RecipeFormValues): (d: RecipeDraft)
    ensures d.title == v.title && d.description == v.description
    ensures d.ingredients == v.ingredients && d.tags == v.tags
    ensures d.imageUrl == v.imageUrl && d.lastUsed == None
  {
    RecipeDraft(v.title, v.description, v.ingredients, v.tags, v.imageUrl, None)
  }

  /**
   * A recipe created from the form opens for editing with the values it was
   * created from, once the image field holds a text.
   */
  lemma CreatedRecipeReopens(v: RecipeFormValues, id: Id, now: Timestamp)
    requires v.imageUrl.Some?
    ensures EditDefaults(NewRecipe(DraftOf(v), id, now)) == v
  {
  }

  /**
   * Saving an edit without changes keeps the recipe, including lastUsed,
   * except that updatedAt moves and an absent image is stored as the empty text.
   */
  lemma UnchangedEditRoundTrip(r: Recipe, now: Timestamp)
    ensures PatchRecipe(r, PatchOf(EditDefaults(r)), now) ==
      r.(updatedAt := now, imageUrl := Some(r.imageUrl.GetOr("")))
  {
  }

  /**
   * `form.handleSubmit(onSubmit)`: values the schema rejects reach nothing;
   * otherwise `updateRecipe(recipe.id, values)` when editing and
   * `addRecipe(values)` when not.
   */
  method HandleSubmit(store: Store, editing: Option<Recipe>, v: RecipeFormValues, now: Timestamp)
    returns (saved: Option<Recipe>)
    modifies store, store.backend`stored
    ensures !RecipeFormSchema(v) ==>
      && saved == None
      && store.cache == old(store.cache) && store.backend.stored == old(store.backend.stored)
      && store.issued == old(store.issued)
    ensures RecipeFormSchema(v) && editing.None? ==>
      var d := old(store.Working(now));
      && saved.Some?
      && var r := saved.value;
         && r.id !in Keys(d) && r.id !in old(store.issued)
         && r == NewRecipe(DraftOf(v), r.id, now)
         && store.Saved(d.(recipes := d.recipes[r.id := r]), now)
         && store.issued == old(store.issued) + {r.id}
    ensures RecipeFormSchema(v) && editing.Some? ==>
      var d := old(store.Working(now));
      var id := editing.value.id;
      && store.issued == old(store.issued)
      && if id !in d.recipes then saved == None && store.Unchanged(now)
         else
           && saved == Some(d.recipes[id].(title := v.title, description := v.description,
                                           ingredients := v.ingredients, tags := v.tags,
                                           imageUrl := if v.imageUrl.Some? then v.imageUrl else d.recipes[id].imageUrl,
                                           updatedAt := now))
           && store.Saved(d.(recipes := d.recipes[id := saved.value]), now)
  {
    if !RecipeFormSchema(v) {
      return None;
    }
    if editing.Some? {
      saved := store.UpdateRecipe(editing.value.id, PatchOf(v), now);
    } else {
      var r := store.AddRecipe(DraftOf(v), now);
      saved := Some(r);
    }
  }
}
