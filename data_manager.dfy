/**
 * The data manager (lib/data-manager.ts): one cached application document,
 * loaded once from the storage backend, and entity-level create, read,
 * update and delete operations that change the cached document in place and
 * then hand it to `saveData`. The clock and the UUID generator are inputs:
 * every operation takes the current time `now`, and fresh identifiers come
 * from `FreshId`, which avoids every id already in use.
 */
module DataManager {
  import opened Wrappers
  import opened Types
  import opened Storage
  import opened Seqs

  // ---------------------------------------------------------------------
  // Arguments of the operations
  // ---------------------------------------------------------------------

  /** `Omit<Recipe, 'id' | 'createdAt' | 'updatedAt'>` */
  datatype RecipeDraft = RecipeDraft(
    title: string,
    description: string,
    ingredients: seq<string>,
    tags: seq<string>,
    imageUrl: Option<string>,
    lastUsed: Option<Timestamp>)

  /** `Partial<Omit<Recipe, 'id' | 'createdAt' | 'updatedAt'>>`: `None` is a key the patch does not carry. */
  datatype RecipePatch = RecipePatch(
    title: Option<string>,
    description: Option<string>,
    ingredients: Option<seq<string>>,
    tags: Option<seq<string>>,
    imageUrl: Option<string>,
    lastUsed: Option<Timestamp>)

  /** `Omit<MealPlan, 'id' | 'createdAt' | 'updatedAt'>` */
  datatype MealPlanDraft = MealPlanDraft(name: string, startDate: string, endDate: string, meals: seq<Meal>)

  /** `Partial<Omit<MealPlan, 'id' | 'createdAt' | 'updatedAt'>>` */
  datatype MealPlanPatch = MealPlanPatch(
    name: Option<string>,
    startDate: Option<string>,
    endDate: Option<string>,
    meals: Option<seq<Meal>>)

  /** `Partial<Omit<ShoppingItem, 'id' | 'recipeId'>>` */
  datatype ItemPatch = ItemPatch(name: Option<string>, checked: Option<bool>)

  // ---------------------------------------------------------------------
  // The entity values the operations build
  // ---------------------------------------------------------------------

  /** `{ ...recipe, id, createdAt: now, updatedAt: now }` */
  function NewRecipe(draft: RecipeDraft, id: Id, now: Timestamp): (r: Recipe)
    ensures r.id == id && r.createdAt == now && r.updatedAt == now
    ensures r.title == draft.title && r.description == draft.description
    ensures r.ingredients == draft.ingredients && r.tags == draft.tags
    ensures r.imageUrl == draft.imageUrl && r.lastUsed == draft.lastUsed
  {
    Recipe(id, draft.title, draft.description, draft.ingredients, draft.tags,
           draft.imageUrl, draft.lastUsed, now, now)
  }

  /** `{ ...recipe, ...updates, updatedAt: now }`: a shallow merge that keeps id and createdAt. */
  function PatchRecipe(r: Recipe, p: RecipePatch, now: Timestamp): (u: Recipe)
    ensures u.id == r.id && u.createdAt == r.createdAt && u.updatedAt == now
    ensures u.title == p.title.GetOr(r.title) && u.description == p.description.GetOr(r.description)
    ensures u.ingredients == p.ingredients.GetOr(r.ingredients) && u.tags == p.tags.GetOr(r.tags)
    ensures u.imageUrl == (if p.imageUrl.Some? then p.imageUrl else r.imageUrl)
    ensures u.lastUsed == (if p.lastUsed.Some? then p.lastUsed else r.lastUsed)
  {
    r.(title := p.title.GetOr(r.title),
       description := p.description.GetOr(r.description),
       ingredients := p.ingredients.GetOr(r.ingredients),
       tags := p.tags.GetOr(r.tags),
       imageUrl := if p.imageUrl.Some? then p.imageUrl else r.imageUrl,
       lastUsed := if p.lastUsed.Some? then p.lastUsed else r.lastUsed,
       updatedAt := now)
  }

  /** `updateRecipeLastUsed`'s new value: only lastUsed and updatedAt change, both to now. */
  function Touched(r: Recipe, now: Timestamp): (u: Recipe)
    ensures u.lastUsed == Some(now) && u.updatedAt == now
    ensures u.(lastUsed := r.lastUsed, updatedAt := r.updatedAt) == r
  {
    r.(lastUsed := Some(now), updatedAt := now)
  }

  function NewMealPlan(draft: MealPlanDraft, id: Id, now: Timestamp): (p: MealPlan)
    ensures p.id == id && p.createdAt == now && p.updatedAt == now
    ensures p.name == draft.name && p.startDate == draft.startDate
    ensures p.endDate == draft.endDate && p.meals == draft.meals
  {
    MealPlan(id, draft.name, draft.startDate, draft.endDate, draft.meals, now, now)
  }

  function PatchMealPlan(p: MealPlan, u: MealPlanPatch, now: Timestamp): (q: MealPlan)
    ensures q.id == p.id && q.createdAt == p.createdAt && q.updatedAt == now
    ensures q.name == u.name.GetOr(p.name) && q.startDate == u.startDate.GetOr(p.startDate)
    ensures q.endDate == u.endDate.GetOr(p.endDate) && q.meals == u.meals.GetOr(p.meals)
  {
    p.(name := u.name.GetOr(p.name),
       startDate := u.startDate.GetOr(p.startDate),
       endDate := u.endDate.GetOr(p.endDate),
       meals := u.meals.GetOr(p.meals),
       updatedAt := now)
  }

  /** `{ ...item, ...updates }`: id and recipeId cannot be patched. */
  function PatchItem(item: ShoppingItem, p: ItemPatch): (u: ShoppingItem)
    ensures u.id == item.id && u.recipeId == item.recipeId
    ensures u.name == p.name.GetOr(item.name) && u.checked == p.checked.GetOr(item.checked)
  {
    item.(name := p.name.GetOr(item.name), checked := p.checked.GetOr(item.checked))
  }

  /** The recipe ids the meals reference. */
  function Referenced(meals: seq<Meal>): (ids: set<Id>)
    ensures forall i :: 0 <= i < |meals| ==> meals[i].recipeId in ids
    ensures forall id :: id in ids ==> exists i :: 0 <= i < |meals| && meals[i].recipeId == id
  {
    set i | 0 <= i < |meals| :: meals[i].recipeId
  }

  /**
   * The recipes after a meal list was written: every existing recipe that
   * some meal references is touched, every other recipe is unchanged, and
   * ids that name no recipe are skipped.
   */
  function TouchRecipes(recipes: map<Id, Recipe>, meals: seq<Meal>, now: Timestamp): (r: map<Id, Recipe>)
    ensures r.Keys == recipes.Keys
    ensures forall k :: k in recipes && k in Referenced(meals) ==> r[k] == Touched(recipes[k], now)
    ensures forall k :: k in recipes && k !in Referenced(meals) ==> r[k] == recipes[k]
  {
    map k | k in recipes :: if k in Referenced(meals) then Touched(recipes[k], now) else recipes[k]
  }

  lemma ReferencedSnoc(meals: seq<Meal>, m: Meal)
    ensures Referenced(meals + [m]) == Referenced(meals) + {m.recipeId}
  {
    var ms := meals + [m];
    forall id | id in Referenced(ms) ensures id in Referenced(meals) + {m.recipeId} {
      var i :| 0 <= i < |ms| && ms[i].recipeId == id;
      if i < |meals| {
        assert ms[i] == meals[i];
      }
    }
    forall id | id in Referenced(meals) ensures id in Referenced(ms) {
      var i :| 0 <= i < |meals| && meals[i].recipeId == id;
      assert ms[i] == meals[i];
    }
    assert ms[|meals|] == m;
  }

  /** Touching one more meal's recipe touches that recipe, if it exists, and nothing else. */
  lemma TouchRecipesSnoc(recipes: map<Id, Recipe>, meals: seq<Meal>, m: Meal, now: Timestamp)
    ensures var before := TouchRecipes(recipes, meals, now);
      TouchRecipes(recipes, meals + [m], now) ==
        if m.recipeId in before then before[m.recipeId := Touched(before[m.recipeId], now)] else before
  {
    ReferencedSnoc(meals, m);
  }

  /** The first index whose item has the id, or -1 (`findIndex`). */
  function FindItem(items: seq<ShoppingItem>, itemId: Id): (k: int)
    ensures -1 <= k < |items|
    ensures k == -1 <==> forall j :: 0 <= j < |items| ==> items[j].id != itemId
    ensures k >= 0 ==> items[k].id == itemId && forall j :: 0 <= j < k ==> items[j].id != itemId
  {
    if items == [] then -1
    else if items[0].id == itemId then 0
    else
      var k := FindItem(items[1..], itemId);
      if k == -1 then -1 else k + 1
  }

  // ---------------------------------------------------------------------
  // Shopping-list derivation
  // ---------------------------------------------------------------------

  /** What one generated item is made of: the ingredient text and the recipe's id. */
  datatype ItemSource = ItemSource(name: string, recipeId: Id)

  /** The items one meal contributes: one per ingredient of its recipe, none when the recipe is missing. */
  function MealItems(meal: Meal, recipes: map<Id, Recipe>): (s: seq<ItemSource>)
    ensures meal.recipeId !in recipes ==> s == []
    ensures meal.recipeId in recipes ==>
      |s| == |recipes[meal.recipeId].ingredients| &&
      forall j :: 0 <= j < |s| ==>
        s[j] == ItemSource(recipes[meal.recipeId].ingredients[j], recipes[meal.recipeId].id)
  {
    if meal.recipeId !in recipes then []
    else
      var r := recipes[meal.recipeId];
      seq(|r.ingredients|, j requires 0 <= j < |r.ingredients| => ItemSource(r.ingredients[j], r.id))
  }

  /** The items of a generated list, in meal order and then ingredient order. */
  function PlanItems(meals: seq<Meal>, recipes: map<Id, Recipe>): seq<ItemSource>
  {
    if meals == [] then []
    else PlanItems(meals[..|meals| - 1], recipes) + MealItems(meals[|meals| - 1], recipes)
  }

  /** The number of ingredients of the referenced recipes that exist. */
  function IngredientCount(meals: seq<Meal>, recipes: map<Id, Recipe>): nat
  {
    if meals == [] then 0
    else
      (if meals[0].recipeId in recipes then |recipes[meals[0].recipeId].ingredients| else 0)
      + IngredientCount(meals[1..], recipes)
  }

  lemma {:induction false} PlanItemsAppend(a: seq<Meal>, b: seq<Meal>, recipes: map<Id, Recipe>)
    ensures PlanItems(a + b, recipes) == PlanItems(a, recipes) + PlanItems(b, recipes)
    decreases |b|
  {
    if b == [] {
      assert a + b == a;
    } else {
      var b' := b[..|b| - 1];
      assert (a + b)[..|a + b| - 1] == a + b';
      assert (a + b)[|a + b| - 1] == b[|b| - 1];
      PlanItemsAppend(a, b', recipes);
    }
  }

  /** The item count is the sum of the ingredient counts of the referenced recipes that exist. */
  lemma {:induction false} PlanItemsCount(meals: seq<Meal>, recipes: map<Id, Recipe>)
    ensures |PlanItems(meals, recipes)| == IngredientCount(meals, recipes)
  {
    if meals != [] {
      PlanItemsAppend([meals[0]], meals[1..], recipes);
      assert [meals[0]] + meals[1..] == meals;
      assert [meals[0]][..0] == [];
      PlanItemsCount(meals[1..], recipes);
    }
  }

  /** A generated item list matches its sources pointwise and is unchecked. */
  predicate ItemsFrom(items: seq<ShoppingItem>, sources: seq<ItemSource>)
  {
    |items| == |sources| &&
    forall k :: 0 <= k < |items| ==>
      items[k].name == sources[k].name && items[k].recipeId == sources[k].recipeId && !items[k].checked
  }

  predicate DistinctIds(items: seq<ShoppingItem>)
  {
    forall j, k :: 0 <= j < k < |items| ==> items[j].id != items[k].id
  }

  // ---------------------------------------------------------------------
  // Fresh identifiers
  // ---------------------------------------------------------------------

  /** Stands in for `uuidv4()`: an identifier not in `used` (one character longer than every used one). */
  method FreshId(used: set<Id>) returns (id: Id)
    ensures id !in used
  {
    var longest: nat := 0;
    var rest := used;
    while rest != {}
      invariant rest <= used
      invariant forall x :: x in used && x !in rest ==> |x| <= longest
      decreases |rest|
    {
      var x :| x in rest;
      if |x| > longest {
        longest := |x|;
      }
      rest := rest - {x};
    }
    id := seq(longest + 1, _ => 'u');
  }

  /**
   * All values of a map, each entry once (`Object.values`; the model does not
   * track insertion order). `ks` lists the keys in the order their values come.
   */
  method ValuesOf<T(==)>(m: map<Id, T>) returns (vs: seq<T>, ghost ks: seq<Id>)
    ensures |vs| == |m|
    ensures forall v :: v in vs <==> v in m.Values
    ensures |ks| == |vs| && NoDuplicates(ks)
    ensures forall k :: k in ks <==> k in m
    ensures forall i :: 0 <= i < |vs| ==> ks[i] in m && vs[i] == m[ks[i]]
  {
    vs, ks := [], [];
    var rest := m.Keys;
    while rest != {}
      invariant rest <= m.Keys
      invariant |vs| + |rest| == |m.Keys|
      invariant |ks| == |vs| && NoDuplicates(ks)
      invariant forall k :: k in ks <==> k in m.Keys - rest
      invariant forall i :: 0 <= i < |vs| ==> ks[i] in m && vs[i] == m[ks[i]]
      invariant forall v :: v in vs <==> exists k :: k in m.Keys - rest && m[k] == v
      decreases |rest|
    {
      var k :| k in rest;
      vs, ks := vs + [m[k]], ks + [k];
      rest := rest - {k};
    }
    assert m.Keys - rest == m.Keys;
  }

  /** Replacing the recipes of a document, stamped or not, and stamping again gives one stamp. */
  lemma RestampWithRecipes(outcome: WriteOutcome, base: AppData, d: AppData, recipes: map<Id, Recipe>, now: Timestamp)
    requires d == base || d == Stamped(outcome, base, now)
    ensures Stamped(outcome, d.(recipes := recipes), now) == Stamped(outcome, base.(recipes := recipes), now)
  {
  }

  // ---------------------------------------------------------------------
  // The store
  // ---------------------------------------------------------------------

  /**
   * The module state of lib/data-manager.ts: `appDataCache`, together with
   * the backend it persists through and the ids handed out so far.
   */
  class Store {
    /** `appDataCache`: absent until the first operation loads or creates the document. */
    var cache: Option<AppData>
    /** Ids this store has generated (UUIDs are never reused). */
    var issued: set<Id>
    const backend: Backend
    /** When lib/storage.ts was loaded: the `lastUpdated` of `DEFAULT_APP_DATA`. */
    const loadedAt: Timestamp

    constructor (backend: Backend, loadedAt: Timestamp)
      ensures cache == None && issued == {}
      ensures this.backend == backend && this.loadedAt == loadedAt
    {
      cache := None;
      issued := {};
      this.backend := backend;
      this.loadedAt := loadedAt;
    }

    /** The document every operation works on once `initializeDataManager` has run. */
    ghost function Working(now: Timestamp): AppData
      reads this, backend
    {
      match cache
      case Some(d) => d
      case None =>
        match backend.Loaded()
        case Some(d) => d
        case None => Stamped(backend.outcome, DefaultAppData(loadedAt), now)
    }

    /** What the backend holds once `initializeDataManager` has run. */
    ghost function StoredAfterLoad(now: Timestamp): Option<AppData>
      reads this, backend
    {
      if cache.None? && backend.Loaded().None? && backend.outcome == Succeeds
      then Some(Working(now))
      else backend.stored
    }

    /** The operation left the document and the backend as it found them after loading. */
    twostate predicate Unchanged(now: Timestamp)
      reads this, backend
    {
      cache == Some(old(Working(now))) &&
      backend.stored == old(StoredAfterLoad(now)) &&
      issued == old(issued)
    }

    /** The operation saved `doc`: the cache holds it as the write stamped it, and the backend holds the same on success. */
    twostate predicate Saved(doc: AppData, now: Timestamp)
      reads this, backend
    {
      cache == Some(Stamped(backend.outcome, doc, now)) &&
      backend.stored == (if backend.outcome == Succeeds then cache else old(backend.stored))
    }

    /** `initializeDataManager` */
    method Initialize(now: Timestamp) returns (d: AppData)
      modifies this`cache, backend`stored
      ensures d == old(Working(now)) && cache == Some(d)
      ensures backend.stored == old(StoredAfterLoad(now))
      ensures old(cache).Some? ==> backend.stored == old(backend.stored)
    {
      if cache.Some? {
        return cache.value;
      }
      var loaded := backend.Read();
      if loaded.Some? {
        d := loaded.value;
      } else {
        d := DefaultAppData(loadedAt);
        var _ := SaveData(d, now);
        d := cache.value;
      }
      cache := Some(d);
    }

    /** `saveData`: the cache is replaced first, so it holds the document whatever the write returns. */
    method SaveData(doc: AppData, now: Timestamp) returns (ok: bool)
      modifies this`cache, backend`stored
      ensures ok <==> backend.outcome == Succeeds
      ensures Saved(doc, now)
    {
      cache := Some(doc);
      var written;
      ok, written := backend.Write(doc, now);
      cache := Some(written);
    }

    /** A fresh id, recorded as issued. */
    method NextId(d: AppData) returns (id: Id)
      modifies this`issued
      ensures id !in Keys(d) && id !in old(issued)
      ensures issued == old(issued) + {id}
    {
      id := FreshId(Keys(d) + issued);
      issued := issued + {id};
    }

    method GetAllRecipes(now: Timestamp) returns (rs: seq<Recipe>, ghost ks: seq<Id>)
      modifies this`cache, backend`stored
      ensures Unchanged(now)
      ensures |rs| == |old(Working(now)).recipes|
      ensures forall r :: r in rs <==> r in old(Working(now)).recipes.Values
      ensures |ks| == |rs| && NoDuplicates(ks)
      ensures forall k :: k in ks <==> k in old(Working(now)).recipes
      ensures forall i :: 0 <= i < |rs| ==> ks[i] in old(Working(now)).recipes && rs[i] == old(Working(now)).recipes[ks[i]]
    {
      var d := Initialize(now);
      rs, ks := ValuesOf(d.recipes);
    }

    method GetRecipeById(id: Id, now: Timestamp) returns (r: Option<Recipe>)
      modifies this`cache, backend`stored
      ensures Unchanged(now)
      ensures var d := old(Working(now)); r == if id in d.recipes then Some(d.recipes[id]) else None
    {
      var d := Initialize(now);
      r := if id in d.recipes then Some(d.recipes[id]) else None;
    }

    method AddRecipe(draft: RecipeDraft, now: Timestamp) returns (r: Recipe)
      modifies this, backend`stored
      ensures var d := old(Working(now));
        && r.id !in Keys(d) && r.id !in old(issued)
        && r == NewRecipe(draft, r.id, now)
        && Saved(d.(recipes := d.recipes[r.id := r]), now)
      ensures issued == old(issued) + {r.id}
    {
      var d := Initialize(now);
      var id := NextId(d);
      r := NewRecipe(draft, id, now);
      d := d.(recipes := d.recipes[id := r]);
      var _ := SaveData(d, now);
    }

    method UpdateRecipe(id: Id, patch: RecipePatch, now: Timestamp) returns (r: Option<Recipe>)
      modifies this, backend`stored
      ensures var d := old(Working(now));
        if id !in d.recipes then r == None && Unchanged(now)
        else
          && r == Some(PatchRecipe(d.recipes[id], patch, now))
          && Saved(d.(recipes := d.recipes[id := r.value]), now)
          && issued == old(issued)
    {
      var d := Initialize(now);
      if id !in d.recipes {
        return None;
      }
      var u := PatchRecipe(d.recipes[id], patch, now);
      d := d.(recipes := d.recipes[id := u]);
      var _ := SaveData(d, now);
      r := Some(u);
    }

    /** Deletion does not cascade: meal plans and shopping lists keep their references. */
    method DeleteRecipe(id: Id, now: Timestamp) returns (deleted: bool)
      modifies this, backend`stored
      ensures var d := old(Working(now));
        && (deleted <==> id in d.recipes)
        && (if deleted then Saved(d.(recipes := d.recipes - {id}), now) && issued == old(issued)
            else Unchanged(now))
    {
      var d := Initialize(now);
      if id !in d.recipes {
        return false;
      }
      d := d.(recipes := d.recipes - {id});
      var _ := SaveData(d, now);
      deleted := true;
    }

    method UpdateRecipeLastUsed(id: Id, now: Timestamp) returns (r: Option<Recipe>)
      modifies this, backend`stored
      ensures var d := old(Working(now));
        if id !in d.recipes then r == None && Unchanged(now)
        else
          && r == Some(Touched(d.recipes[id], now))
          && Saved(d.(recipes := d.recipes[id := r.value]), now)
          && issued == old(issued)
    {
      var d := Initialize(now);
      if id !in d.recipes {
        return None;
      }
      var u := Touched(d.recipes[id], now);
      d := d.(recipes := d.recipes[id := u]);
      var _ := SaveData(d, now);
      r := Some(u);
    }

    method GetAllMealPlans(now: Timestamp) returns (ps: seq<MealPlan>, ghost ks: seq<Id>)
      modifies this`cache, backend`stored
      ensures Unchanged(now)
      ensures |ps| == |old(Working(now)).mealPlans|
      ensures forall p :: p in ps <==> p in old(Working(now)).mealPlans.Values
      ensures |ks| == |ps| && NoDuplicates(ks)
      ensures forall k :: k in ks <==> k in old(Working(now)).mealPlans
      ensures forall i :: 0 <= i < |ps| ==> ks[i] in old(Working(now)).mealPlans && ps[i] == old(Working(now)).mealPlans[ks[i]]
    {
      var d := Initialize(now);
      ps, ks := ValuesOf(d.mealPlans);
    }

    method GetMealPlanById(id: Id, now: Timestamp) returns (p: Option<MealPlan>)
      modifies this`cache, backend`stored
      ensures Unchanged(now)
      ensures var d := old(Working(now)); p == if id in d.mealPlans then Some(d.mealPlans[id]) else None
    {
      var d := Initialize(now);
      p := if id in d.mealPlans then Some(d.mealPlans[id]) else None;
    }

    /**
     * The loop of `addMealPlan` and `updateMealPlan`: calls
     * `updateRecipeLastUsed` for every meal, each call saving the cached
     * document (which already holds `base`'s meal plans) again.
     */
    method TouchMealRecipes(meals: seq<Meal>, ghost base: AppData, now: Timestamp)
      modifies this, backend`stored
      requires cache.Some?
      requires cache.value == base || cache.value == Stamped(backend.outcome, base, now)
      ensures cache.Some?
      ensures var touched := base.(recipes := TouchRecipes(base.recipes, meals, now));
        cache.value == touched || cache.value == Stamped(backend.outcome, touched, now)
      ensures backend.outcome != Succeeds ==> backend.stored == old(backend.stored)
      ensures backend.outcome == Succeeds ==>
        backend.stored == if Referenced(meals) * base.recipes.Keys == {} then old(backend.stored) else cache
      ensures issued == old(issued)
    {
      var i := 0;
      while i < |meals|
        invariant 0 <= i <= |meals|
        invariant cache.Some?
        invariant var touched := base.(recipes := TouchRecipes(base.recipes, meals[..i], now));
          cache.value == touched || cache.value == Stamped(backend.outcome, touched, now)
        invariant backend.outcome != Succeeds ==> backend.stored == old(backend.stored)
        invariant backend.outcome == Succeeds ==>
          backend.stored == if Referenced(meals[..i]) * base.recipes.Keys == {} then old(backend.stored) else cache
        invariant issued == old(issued)
      {
        ghost var d0 := cache.value;
        ghost var before := TouchRecipes(base.recipes, meals[..i], now);
        var id := meals[i].recipeId;
        var _ := UpdateRecipeLastUsed(id, now);
        assert meals[..i + 1] == meals[..i] + [meals[i]];
        TouchRecipesSnoc(base.recipes, meals[..i], meals[i], now);
        ReferencedSnoc(meals[..i], meals[i]);
        assert d0.recipes.Keys == base.recipes.Keys;
        if id in d0.recipes {
          RestampWithRecipes(backend.outcome, base.(recipes := before), d0,
                             before[id := Touched(before[id], now)], now);
          assert id in Referenced(meals[..i + 1]) * base.recipes.Keys;
        } else {
          assert Referenced(meals[..i + 1]) * base.recipes.Keys == Referenced(meals[..i]) * base.recipes.Keys;
        }
        i := i + 1;
      }
      assert meals[..i] == meals;
    }

    /** `addMealPlan`: stores the plan under a fresh id and touches every existing recipe its meals reference. */
    method AddMealPlan(draft: MealPlanDraft, now: Timestamp) returns (p: MealPlan)
      modifies this, backend`stored
      ensures var d := old(Working(now));
        && p.id !in Keys(d) && p.id !in old(issued)
        && p == NewMealPlan(draft, p.id, now)
        && Saved(d.(mealPlans := d.mealPlans[p.id := p],
                    recipes := TouchRecipes(d.recipes, p.meals, now)), now)
      ensures issued == old(issued) + {p.id}
    {
      var d := Initialize(now);
      var id := NextId(d);
      p := NewMealPlan(draft, id, now);
      d := d.(mealPlans := d.mealPlans[id := p]);
      cache := Some(d);
      TouchMealRecipes(p.meals, d, now);
      var _ := SaveData(cache.value, now);
    }

    /** `updateMealPlan`: recipes are touched only when the patch carries a meal list. */
    method UpdateMealPlan(id: Id, patch: MealPlanPatch, now: Timestamp) returns (p: Option<MealPlan>)
      modifies this, backend`stored
      ensures var d := old(Working(now));
        if id !in d.mealPlans then p == None && Unchanged(now)
        else
          && p == Some(PatchMealPlan(d.mealPlans[id], patch, now))
          && Saved(d.(mealPlans := d.mealPlans[id := p.value],
                      recipes := if patch.meals.Some? then TouchRecipes(d.recipes, p.value.meals, now)
                                 else d.recipes), now)
          && issued == old(issued)
    {
      var d := Initialize(now);
      if id !in d.mealPlans {
        return None;
      }
      var u := PatchMealPlan(d.mealPlans[id], patch, now);
      d := d.(mealPlans := d.mealPlans[id := u]);
      cache := Some(d);
      if patch.meals.Some? {
        TouchMealRecipes(u.meals, d, now);
      }
      var _ := SaveData(cache.value, now);
      p := Some(u);
    }

    method DeleteMealPlan(id: Id, now: Timestamp) returns (deleted: bool)
      modifies this, backend`stored
      ensures var d := old(Working(now));
        && (deleted <==> id in d.mealPlans)
        && (if deleted then Saved(d.(mealPlans := d.mealPlans - {id}), now) && issued == old(issued)
            else Unchanged(now))
    {
      var d := Initialize(now);
      if id !in d.mealPlans {
        return false;
      }
      d := d.(mealPlans := d.mealPlans - {id});
      var _ := SaveData(d, now);
      deleted := true;
    }

    /**
     * `generateShoppingList`: a new list under a fresh id, one unchecked item
     * per ingredient of every referenced recipe that exists, in meal order
     * and then ingredient order; existing lists are left alone.
     */
    method GenerateShoppingList(planId: Id, now: Timestamp) returns (l: Option<ShoppingList>)
      modifies this, backend`stored
      ensures var d := old(Working(now));
        if planId !in d.mealPlans then l == None && Unchanged(now)
        else
          && l.Some?
          && l.value.mealPlanId == planId
          && l.value.createdAt == now && l.value.updatedAt == now
          && ItemsFrom(l.value.items, PlanItems(d.mealPlans[planId].meals, d.recipes))
          && DistinctIds(l.value.items)
          && (forall k :: 0 <= k < |l.value.items| ==>
                l.value.items[k].id !in old(issued) && l.value.items[k].id in issued)
          && l.value.id !in Keys(d) && l.value.id !in old(issued) && l.value.id in issued
          && old(issued) <= issued
          && Saved(d.(shoppingLists := d.shoppingLists[l.value.id := l.value]), now)
    {
      var d := Initialize(now);
      if planId !in d.mealPlans {
        return None;
      }
      var meals := d.mealPlans[planId].meals;
      var items: seq<ShoppingItem> := [];
      var i := 0;
      while i < |meals|
        invariant 0 <= i <= |meals|
        invariant cache == Some(d)
        invariant backend.stored == old(StoredAfterLoad(now))
        invariant old(issued) <= issued
        invariant ItemsFrom(items, PlanItems(meals[..i], d.recipes))
        invariant DistinctIds(items)
        invariant forall k :: 0 <= k < |items| ==> items[k].id !in old(issued) && items[k].id in issued
      {
        assert meals[..i + 1][..i] == meals[..i];
        if meals[i].recipeId in d.recipes {
          var recipe := d.recipes[meals[i].recipeId];
          ghost var src := PlanItems(meals[..i], d.recipes);
          var j := 0;
          while j < |recipe.ingredients|
            invariant 0 <= j <= |recipe.ingredients|
            invariant cache == Some(d)
            invariant backend.stored == old(StoredAfterLoad(now))
            invariant old(issued) <= issued
            invariant ItemsFrom(items, src + MealItems(meals[i], d.recipes)[..j])
            invariant DistinctIds(items)
            invariant forall k :: 0 <= k < |items| ==> items[k].id !in old(issued) && items[k].id in issued
          {
            var itemId := NextId(d);
            items := items + [ShoppingItem(itemId, recipe.ingredients[j], recipe.id, false)];
            assert MealItems(meals[i], d.recipes)[..j + 1]
                == MealItems(meals[i], d.recipes)[..j] + [ItemSource(recipe.ingredients[j], recipe.id)];
            j := j + 1;
          }
          assert MealItems(meals[i], d.recipes)[..j] == MealItems(meals[i], d.recipes);
        }
        i := i + 1;
      }
      assert meals[..i] == meals;
      var listId := NextId(d);
      var list := ShoppingList(listId, planId, items, now, now);
      d := d.(shoppingLists := d.shoppingLists[listId := list]);
      var _ := SaveData(d, now);
      l := Some(list);
    }

    method GetAllShoppingLists(now: Timestamp) returns (ls: seq<ShoppingList>, ghost ks: seq<Id>)
      modifies this`cache, backend`stored
      ensures Unchanged(now)
      ensures |ls| == |old(Working(now)).shoppingLists|
      ensures forall l :: l in ls <==> l in old(Working(now)).shoppingLists.Values
      ensures |ks| == |ls| && NoDuplicates(ks)
      ensures forall k :: k in ks <==> k in old(Working(now)).shoppingLists
      ensures forall i :: 0 <= i < |ls| ==> ks[i] in old(Working(now)).shoppingLists && ls[i] == old(Working(now)).shoppingLists[ks[i]]
    {
      var d := Initialize(now);
      ls, ks := ValuesOf(d.shoppingLists);
    }

    method GetShoppingListById(id: Id, now: Timestamp) returns (l: Option<ShoppingList>)
      modifies this`cache, backend`stored
      ensures Unchanged(now)
      ensures var d := old(Working(now)); l == if id in d.shoppingLists then Some(d.shoppingLists[id]) else None
    {
      var d := Initialize(now);
      l := if id in d.shoppingLists then Some(d.shoppingLists[id]) else None;
    }

    /**
     * `updateShoppingListItem`: patches the first item with the id in place
     * and refreshes the list's updatedAt; null when the list or the item is
     * missing, and then nothing is saved.
     */
    method UpdateShoppingListItem(listId: Id, itemId: Id, patch: ItemPatch, now: Timestamp)
      returns (l: Option<ShoppingList>)
      modifies this, backend`stored
      ensures var d := old(Working(now));
        if listId !in d.shoppingLists || FindItem(d.shoppingLists[listId].items, itemId) == -1 then
          l == None && Unchanged(now)
        else
          var list := d.shoppingLists[listId];
          var k := FindItem(list.items, itemId);
          && l == Some(list.(items := list.items[k := PatchItem(list.items[k], patch)], updatedAt := now))
          && Saved(d.(shoppingLists := d.shoppingLists[listId := l.value]), now)
          && issued == old(issued)
    {
      var d := Initialize(now);
      if listId !in d.shoppingLists {
        return None;
      }
      var list := d.shoppingLists[listId];
      var k := FindItem(list.items, itemId);
      if k == -1 {
        return None;
      }
      list := list.(items := list.items[k := PatchItem(list.items[k], patch)]);
      list := list.(updatedAt := now);
      d := d.(shoppingLists := d.shoppingLists[listId := list]);
      var _ := SaveData(d, now);
      l := Some(list);
    }

    method DeleteShoppingList(id: Id, now: Timestamp) returns (deleted: bool)
      modifies this, backend`stored
      ensures var d := old(Working(now));
        && (deleted <==> id in d.shoppingLists)
        && (if deleted then Saved(d.(shoppingLists := d.shoppingLists - {id}), now) && issued == old(issued)
            else Unchanged(now))
    {
      var d := Initialize(now);
      if id !in d.shoppingLists {
        return false;
      }
      d := d.(shoppingLists := d.shoppingLists - {id});
      var _ := SaveData(d, now);
      deleted := true;
    }
  }
}
