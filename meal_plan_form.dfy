/**
 * The meal-plan form (components/meal-plans/meal-plan-form.tsx): its
 * validation schema, the helpers that edit the list of meals, and the
 * submission, which the form library runs only when the schema accepts the
 * values. Today's date, the date a week later and the UUIDs of new meals
 * are inputs.
 */
module MealPlanForm {
  import opened Wrappers
  import opened Types
  import opened Storage
  import opened DataManager
  import opened Seqs

  /** What the form edits. */
  datatype MealPlanFormValues = MealPlanFormValues(name: string, startDate: string, endDate: string, meals: seq<Meal>)

  /** The schema: non-empty name and dates, and a chosen recipe for every meal. */
  predicate MealPlanFormSchema(v: MealPlanFormValues)
  {
    |v.name| >= 1 && |v.startDate| >= 1 && |v.endDate| >= 1 &&
    forall m :: m in v.meals ==> |m.recipeId| >= 1
  }

  /** The values a new plan starts from: no name yet, so the schema rejects them. */
  function NewPlanDefaults(today: string, weekLater: string): (v: MealPlanFormValues)
    ensures !MealPlanFormSchema(v)
    ensures v.startDate == today && v.endDate == weekLater && v.meals == []
  {
    MealPlanFormValues("", today, weekLater, [])
  }

  /** The values an edit starts from. */
  function EditDefaults(p: MealPlan): (v: MealPlanFormValues)
    ensures v.name == p.name && v.startDate == p.startDate
    ensures v.endDate == p.endDate && v.meals == p.meals
  {
    MealPlanFormValues(p.name, p.startDate, p.endDate, p.meals)
  }

  /** `addMeal`: one meal at the end, with the recipe (default `''`) and empty notes. */
  function AddMeal(meals: seq<Meal>, id: Id, date: string, recipeId: Option<string>): (r: seq<Meal>)
    ensures |r| == |meals| + 1 && r[..|meals|] == meals
    ensures r[|meals|] == Meal(id, date, recipeId.GetOr(""), Some(""))
  {
    meals + [Meal(id, date, recipeId.GetOr(""), Some(""))]
  }

  /** A meal added without a recipe blocks submission until one is chosen. */
  lemma DefaultMealBlocksSubmit(v: MealPlanFormValues, id: Id, date: string)
    ensures !MealPlanFormSchema(v.(meals := AddMeal(v.meals, id, date, None)))
  {
    var meals := AddMeal(v.meals, id, date, None);
    assert meals[|v.meals|] in meals;
  }

  /** A fresh UUID keeps the meal ids distinct. */
  lemma AddMealKeepsIdsDistinct(meals: seq<Meal>, id: Id, date: string, recipeId: Option<string>)
    requires forall i, j :: 0 <= i < j < |meals| ==> meals[i].id != meals[j].id
    requires forall m :: m in meals ==> m.id != id
    ensures var r := AddMeal(meals, id, date, recipeId);
      forall i, j :: 0 <= i < j < |r| ==> r[i].id != r[j].id
  {
    var r := AddMeal(meals, id, date, recipeId);
    forall i, j | 0 <= i < j < |r| ensures r[i].id != r[j].id {
      assert r[i] == meals[i];
      if j < |meals| {
        assert r[j] == meals[j];
      }
    }
  }

  function HasOtherId(mealId: Id): Meal -> bool
  {
    (m: Meal) => m.id != mealId
  }

  /** `removeMeal`: every meal with the id goes; the rest keep their order. */
  function RemoveMeal(meals: seq<Meal>, mealId: Id): (r: seq<Meal>)
    ensures forall m :: m in r <==> m in meals && m.id != mealId
    ensures forall m :: multiset(r)[m] == if m.id == mealId then 0 else multiset(meals)[m]
    ensures IsSubsequence(r, meals)
  {
    FilterMembers(meals, HasOtherId(mealId));
    FilterMultiset(meals, HasOtherId(mealId));
    FilterIsSubsequence(meals, HasOtherId(mealId));
    Filter(meals, HasOtherId(mealId))
  }

  /** `updateMealRecipe`: the meals with the id get the recipe; nothing else changes. */
  function UpdateMealRecipe(meals: seq<Meal>, mealId: Id, recipeId: Id): (r: seq<Meal>)
    ensures |r| == |meals|
    ensures forall j :: 0 <= j < |r| ==>
      r[j] == if meals[j].id == mealId then meals[j].(recipeId := recipeId) else meals[j]
  {
    seq(|meals|, j requires 0 <= j < |meals| =>
      if meals[j].id == mealId then meals[j].(recipeId := recipeId) else meals[j])
  }

  /** `updateMealNotes`: the meals with the id get the notes; nothing else changes. */
  function UpdateMealNotes(meals: seq<Meal>, mealId: Id, notes: string): (r: seq<Meal>)
    ensures |r| == |meals|
    ensures forall j :: 0 <= j < |r| ==>
      r[j] == if meals[j].id == mealId then meals[j].(notes := Some(notes)) else meals[j]
  {
    seq(|meals|, j requires 0 <= j < |meals| =>
      if meals[j].id == mealId then meals[j].(notes := Some(notes)) else meals[j])
  }

  /** Choosing a real recipe for the meal that lacked one makes otherwise valid values pass. */
  lemma ChoosingRecipeUnblocks(v: MealPlanFormValues, id: Id, date: string, recipeId: Id)
    requires MealPlanFormSchema(v) && recipeId != ""
    ensures MealPlanFormSchema(v.(meals := UpdateMealRecipe(AddMeal(v.meals, id, date, None), id, recipeId)))
  {
    var added := AddMeal(v.meals, id, date, None);
    var r := UpdateMealRecipe(added, id, recipeId);
    forall m | m in r ensures |m.recipeId| >= 1 {
      var j :| 0 <= j < |r| && r[j] == m;
      if j < |v.meals| {
        assert added[j] == v.meals[j];
        assert v.meals[j] in v.meals;
      }
    }
  }

  /** Meals are identified by id only: editing one meal's recipe and another's notes commute, and the ids stay. */
  lemma UpdatesCommute(meals: seq<Meal>, a: Id, recipeId: Id, b: Id, notes: string)
    ensures UpdateMealNotes(UpdateMealRecipe(meals, a, recipeId), b, notes) ==
            UpdateMealRecipe(UpdateMealNotes(meals, b, notes), a, recipeId)
    ensures forall j :: 0 <= j < |meals| ==> UpdateMealRecipe(meals, a, recipeId)[j].id == meals[j].id
  {
  }

  /** Removing a meal after editing it is the same as removing it straight away. */
  lemma {:induction false} RemoveAfterUpdate(meals: seq<Meal>, mealId: Id, recipeId: Id)
    ensures RemoveMeal(UpdateMealRecipe(meals, mealId, recipeId), mealId) == RemoveMeal(meals, mealId)
  {
    if meals != [] {
      var u := UpdateMealRecipe(meals, mealId, recipeId);
      var p := HasOtherId(mealId);
      assert u[1..] == UpdateMealRecipe(meals[1..], mealId, recipeId);
      RemoveAfterUpdate(meals[1..], mealId, recipeId);
      assert u[0].id == meals[0].id;
      calc {
        RemoveMeal(u, mealId);
        Filter(u, p);
        (if p(u[0]) then [u[0]] else []) + Filter(u[1..], p);
        { assert p(u[0]) ==> u[0] == meals[0]; }
        (if p(meals[0]) then [meals[0]] else []) + Filter(meals[1..], p);
        Filter(meals, p);
      }
    }
  }

  /** The values as the patch `updateMealPlan` receives: every field present. */
  function PatchOf(v: MealPlanFormValues): (p: MealPlanPatch)
    ensures p.name == Some(v.name) && p.startDate == Some(v.startDate)
    ensures p.endDate == Some(v.endDate) && p.meals == Some(v.meals)
  {
    MealPlanPatch(Some(v.name), Some(v.startDate), Some(v.endDate), Some(v.meals))
  }

  /** The values as the plan `addMealPlan` receives: every field of the form, unchanged. */
  function DraftOf(v: MealPlanFormValues): (d: MealPlanDraft)
    ensures d.name == v.name && d.startDate == v.startDate
    ensures d.endDate == v.endDate && d.meals == v.meals
  {
    MealPlanDraft(v.name, v.startDate, v.endDate, v.meals)
  }

  /** A plan created from the form opens for editing with the values it was created from. */
  lemma CreatedPlanReopens(v: MealPlanFormValues, id: Id, now: Timestamp)
    ensures EditDefaults(NewMealPlan(DraftOf(v), id, now)) == v
  {
  }

  /** Submitting an edit without changing anything saves the plan as it was, with a new updatedAt. */
  lemma UnchangedEditRoundTrip(p: MealPlan, now: Timestamp)
    ensures PatchMealPlan(p, PatchOf(EditDefaults(p)), now) == p.(updatedAt := now)
  {
  }

  /**
   * `form.handleSubmit(onSubmit)`: values the schema rejects reach nothing;
   * otherwise `updateMealPlan(mealPlan.id, values)` when editing and
   * `addMealPlan(values)` when not. Either way the meals' recipes are
   * touched, since the values always carry the meal list.
   */
  method HandleSubmit(store: Store, editing: Option<MealPlan>, v: MealPlanFormValues, now: Timestamp)
    returns (saved: Option<MealPlan>)
    modifies store, store.backend`stored
    ensures !MealPlanFormSchema(v) ==>
      && saved == None
      && store.cache == old(store.cache) && store.backend.stored == old(store.backend.stored)
      && store.issued == old(store.issued)
    ensures MealPlanFormSchema(v) && editing.None? ==>
      var d := old(store.Working(now));
      && saved.Some?
      && var p := saved.value;
         && p.id !in Keys(d) && p.id !in old(store.issued)
         && p == NewMealPlan(DraftOf(v), p.id, now)
         && store.Saved(d.(mealPlans := d.mealPlans[p.id := p],
                           recipes := TouchRecipes(d.recipes, v.meals, now)), now)
         && store.issued == old(store.issued) + {p.id}
    ensures MealPlanFormSchema(v) && editing.Some? ==>
      var d := old(store.Working(now));
      var id := editing.value.id;
      && store.issued == old(store.issued)
      && if id !in d.mealPlans then saved == None && store.Unchanged(now)
         else
           && saved == Some(d.mealPlans[id].(name := v.name, startDate := v.startDate,
                                             endDate := v.endDate, meals := v.meals, updatedAt := now))
           && store.Saved(d.(mealPlans := d.mealPlans[id := saved.value],
                             recipes := TouchRecipes(d.recipes, v.meals, now)), now)
  {
    if !MealPlanFormSchema(v) {
      return None;
    }
    if editing.Some? {
      saved := store.UpdateMealPlan(editing.value.id, PatchOf(v), now);
    } else {
      var p := store.AddMealPlan(DraftOf(v), now);
      saved := Some(p);
    }
  }
}
