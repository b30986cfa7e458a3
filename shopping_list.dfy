/**
 * The shopping-list helpers (lib/shopping-list.ts): fetching a list with
 * the recipes and the meal plan it refers to, toggling an item, and
 * grouping a list's items by recipe.
 */
module ShoppingLists {
  import opened Wrappers
  import opened Types
  import opened Storage
  import opened DataManager
  import opened Seqs

  // ---------------------------------------------------------------------
  // Toggling an item
  // ---------------------------------------------------------------------

  /** The items after flipping `checked` on the first item with the id; unchanged when there is none. */
  function ToggleItems(items: seq<ShoppingItem>, itemId: Id): (r: seq<ShoppingItem>)
    ensures |r| == |items|
    ensures FindItem(items, itemId) == -1 ==> r == items
    ensures forall j :: 0 <= j < |items| && j != FindItem(items, itemId) ==> r[j] == items[j]
    ensures var k := FindItem(items, itemId);
      k >= 0 ==> r[k] == items[k].(checked := !items[k].checked)
  {
    var k := FindItem(items, itemId);
    if k == -1 then items
    else items[k := PatchItem(items[k], ItemPatch(None, Some(!items[k].checked)))]
  }

  /** Where the first item with an id sits depends only on the ids. */
  lemma {:induction false} FindItemIdsOnly(a: seq<ShoppingItem>, b: seq<ShoppingItem>, itemId: Id)
    requires |a| == |b|
    requires forall j :: 0 <= j < |a| ==> a[j].id == b[j].id
    ensures FindItem(a, itemId) == FindItem(b, itemId)
  {
    if a != [] {
      FindItemIdsOnly(a[1..], b[1..], itemId);
    }
  }

  /** Toggling the same item twice restores the list. */
  lemma ToggleTwice(items: seq<ShoppingItem>, itemId: Id)
    ensures ToggleItems(ToggleItems(items, itemId), itemId) == items
  {
    var once := ToggleItems(items, itemId);
    FindItemIdsOnly(once, items, itemId);
    var twice := ToggleItems(once, itemId);
    assert forall j :: 0 <= j < |items| ==> twice[j] == items[j];
  }

  /** Toggling keeps every item's id, name and recipe: only `checked` can change. */
  lemma ToggleKeepsIdentity(items: seq<ShoppingItem>, itemId: Id)
    ensures forall j :: 0 <= j < |items| ==>
      ToggleItems(items, itemId)[j].(checked := items[j].checked) == items[j]
  {
  }

  /**
   * `toggleShoppingListItem`: null when the list or the item is missing;
   * otherwise the list with that item's `checked` flipped, saved.
   */
  method ToggleShoppingListItem(store: Store, listId: Id, itemId: Id, now: Timestamp)
    returns (l: Option<ShoppingList>)
    modifies store, store.backend`stored
    ensures store.issued == old(store.issued)
    ensures var d := old(store.Working(now));
      if listId !in d.shoppingLists || FindItem(d.shoppingLists[listId].items, itemId) == -1 then
        l == None && store.Unchanged(now)
      else
        var list := d.shoppingLists[listId];
        && l == Some(list.(items := ToggleItems(list.items, itemId), updatedAt := now))
        && store.cache == Some(Stamped(store.backend.outcome, d.(shoppingLists := d.shoppingLists[listId := l.value]), now))
        && store.backend.stored ==
             (if store.backend.outcome == Succeeds then store.cache else old(store.StoredAfterLoad(now)))
  {
    var found := store.GetShoppingListById(listId, now);
    if found.None? {
      return None;
    }
    var list := found.value;
    var k := FindItem(list.items, itemId);
    if k == -1 {
      return None;
    }
    l := store.UpdateShoppingListItem(listId, itemId, ItemPatch(None, Some(!list.items[k].checked)), now);
  }

  // ---------------------------------------------------------------------
  // Grouping by recipe
  // ---------------------------------------------------------------------

  function RecipeIs(recipeId: Id): ShoppingItem -> bool
  {
    (item: ShoppingItem) => item.recipeId == recipeId
  }

  /** The items of one recipe, in list order. */
  function ItemsOfRecipe(items: seq<ShoppingItem>, recipeId: Id): seq<ShoppingItem>
  {
    Filter(items, RecipeIs(recipeId))
  }

  /** The recipe ids the items refer to. */
  function RecipeIds(items: seq<ShoppingItem>): (ids: set<Id>)
    ensures forall j :: 0 <= j < |items| ==> items[j].recipeId in ids
    ensures forall id :: id in ids ==> exists j :: 0 <= j < |items| && items[j].recipeId == id
  {
    set j | 0 <= j < |items| :: items[j].recipeId
  }

  lemma ItemsOfRecipeSnoc(items: seq<ShoppingItem>, item: ShoppingItem, recipeId: Id)
    ensures ItemsOfRecipe(items + [item], recipeId) ==
      ItemsOfRecipe(items, recipeId) + (if item.recipeId == recipeId then [item] else [])
  {
    FilterConcat(items, [item], RecipeIs(recipeId));
    assert [item][1..] == [];
  }

  /** The groups after adding the items one by one, each to the end of its recipe's group. */
  function Groups(items: seq<ShoppingItem>): map<Id, seq<ShoppingItem>>
  {
    if items == [] then map[]
    else
      var g := Groups(items[..|items| - 1]);
      var item := items[|items| - 1];
      g[item.recipeId := (if item.recipeId in g then g[item.recipeId] else []) + [item]]
  }

  lemma RecipeIdsSnoc(init: seq<ShoppingItem>, item: ShoppingItem)
    ensures RecipeIds(init + [item]) == RecipeIds(init) + {item.recipeId}
  {
    var items := init + [item];
    forall r | r in RecipeIds(items) ensures r in RecipeIds(init) + {item.recipeId} {
      var j :| 0 <= j < |items| && items[j].recipeId == r;
      if j < |init| {
        assert init[j] == items[j];
      }
    }
    forall r | r in RecipeIds(init) ensures r in RecipeIds(items) {
      var j :| 0 <= j < |init| && init[j].recipeId == r;
      assert items[j] == init[j];
    }
    assert items[|init|] == item;
  }

  /** A recipe without a group yet has no items so far. */
  lemma {:induction false} NoGroupNoItems(init: seq<ShoppingItem>, id: Id)
    requires id !in RecipeIds(init)
    ensures ItemsOfRecipe(init, id) == []
  {
    if init != [] {
      assert init[0].recipeId != id;
      forall r | r in RecipeIds(init[1..]) ensures r in RecipeIds(init) {
        var j :| 0 <= j < |init[1..]| && init[1..][j].recipeId == r;
        assert init[j + 1] == init[1..][j];
      }
      NoGroupNoItems(init[1..], id);
    }
  }

  /** The groups are keyed by the recipe ids that occur, each holding that recipe's items in order. */
  lemma {:induction false} GroupsSpec(items: seq<ShoppingItem>)
    ensures Groups(items).Keys == RecipeIds(items)
    ensures forall id :: id in Groups(items) ==> Groups(items)[id] == ItemsOfRecipe(items, id)
  {
    if items != [] {
      var init := items[..|items| - 1];
      var item := items[|items| - 1];
      assert items == init + [item];
      GroupsSpec(init);
      RecipeIdsSnoc(init, item);
      var g := Groups(init);
      if item.recipeId !in g {
        NoGroupNoItems(init, item.recipeId);
      }
      forall id | id in Groups(items) ensures Groups(items)[id] == ItemsOfRecipe(items, id) {
        ItemsOfRecipeSnoc(init, item, id);
      }
    }
  }

  /**
   * `groupShoppingListByRecipe`: one group per recipe id that occurs, holding
   * that recipe's items in list order. The recipes argument is not used.
   */
  method GroupShoppingListByRecipe(list: ShoppingList, recipes: map<Id, Recipe>)
    returns (grouped: map<Id, seq<ShoppingItem>>)
    ensures grouped.Keys == RecipeIds(list.items)
    ensures forall id :: id in grouped ==> grouped[id] == ItemsOfRecipe(list.items, id)
  {
    var items := list.items;
    grouped := map[];
    for i := 0 to |items|
      invariant grouped == Groups(items[..i])
    {
      var item := items[i];
      assert items[..i + 1][..i] == items[..i];
      if item.recipeId !in grouped {
        grouped := grouped[item.recipeId := []];
      }
      grouped := grouped[item.recipeId := grouped[item.recipeId] + [item]];
    }
    assert items[..|items|] == items;
    GroupsSpec(items);
  }

  /** Every item is in the group of its own recipe and in no other. */
  lemma GroupMembership(items: seq<ShoppingItem>, item: ShoppingItem, recipeId: Id)
    ensures item in ItemsOfRecipe(items, recipeId) <==> item in items && item.recipeId == recipeId
  {
    FilterMembers(items, RecipeIs(recipeId));
  }

  /** A group keeps the order the items have in the list. */
  lemma GroupOrder(items: seq<ShoppingItem>, recipeId: Id)
    ensures IsSubsequence(ItemsOfRecipe(items, recipeId), items)
  {
    FilterIsSubsequence(items, RecipeIs(recipeId));
  }

  /** The sizes of the groups of the listed recipe ids. */
  function GroupSizes(items: seq<ShoppingItem>, ids: seq<Id>): nat
  {
    if ids == [] then 0 else |ItemsOfRecipe(items, ids[0])| + GroupSizes(items, ids[1..])
  }

  /** How many of the ids equal `id`. */
  function Occurrences(ids: seq<Id>, id: Id): nat
  {
    if ids == [] then 0 else (if ids[0] == id then 1 else 0) + Occurrences(ids[1..], id)
  }

  lemma {:induction false} OccurrencesOnce(ids: seq<Id>, id: Id)
    requires NoDuplicates(ids) && id in ids
    ensures Occurrences(ids, id) == 1
  {
    if ids[0] == id {
      OccurrencesNone(ids[1..], id);
    } else {
      OccurrencesOnce(ids[1..], id);
    }
  }

  lemma {:induction false} OccurrencesNone(ids: seq<Id>, id: Id)
    requires id !in ids
    ensures Occurrences(ids, id) == 0
  {
    if ids != [] {
      OccurrencesNone(ids[1..], id);
    }
  }

  lemma {:induction false} GroupSizesEmpty(ids: seq<Id>)
    ensures GroupSizes([], ids) == 0
  {
    if ids != [] {
      GroupSizesEmpty(ids[1..]);
    }
  }

  lemma {:induction false} GroupSizesCons(item: ShoppingItem, items: seq<ShoppingItem>, ids: seq<Id>)
    ensures GroupSizes([item] + items, ids) == Occurrences(ids, item.recipeId) + GroupSizes(items, ids)
  {
    if ids != [] {
      GroupSizesCons(item, items, ids[1..]);
      var s := [item] + items;
      assert s[0] == item && s[1..] == items;
    }
  }

  /** The groups of all recipe ids, each counted once, hold exactly as many items as the list. */
  lemma {:induction false} GroupSizesTotal(items: seq<ShoppingItem>, ids: seq<Id>)
    requires NoDuplicates(ids)
    requires forall j :: 0 <= j < |items| ==> items[j].recipeId in ids
    ensures GroupSizes(items, ids) == |items|
  {
    if items == [] {
      GroupSizesEmpty(ids);
    } else {
      assert items == [items[0]] + items[1..];
      GroupSizesCons(items[0], items[1..], ids);
      OccurrencesOnce(ids, items[0].recipeId);
      GroupSizesTotal(items[1..], ids);
    }
  }

  // ---------------------------------------------------------------------
  // Lists with their recipes and meal plan
  // ---------------------------------------------------------------------

  /** The item recipe ids in first-occurrence order (`[...new Set(items.map(i => i.recipeId))]`). */
  function RecipeIdOrder(items: seq<ShoppingItem>): seq<Id>
  {
    Distinct(seq(|items|, j requires 0 <= j < |items| => items[j].recipeId))
  }

  /** The recipes a list refers to that exist in the document. */
  function ListRecipes(items: seq<ShoppingItem>, recipes: map<Id, Recipe>): (m: map<Id, Recipe>)
    ensures m.Keys == RecipeIds(items) * recipes.Keys
    ensures forall id :: id in m ==> m[id] == recipes[id]
  {
    map id | id in RecipeIds(items) && id in recipes :: recipes[id]
  }

  /** The loop of `getShoppingListWithRecipes`: looks each id up, keeping the recipes that exist. */
  method FetchRecipes(store: Store, ids: seq<Id>, now: Timestamp) returns (recipes: map<Id, Recipe>)
    requires store.cache.Some?
    modifies store`cache, store.backend`stored
    ensures store.cache == old(store.cache) && store.backend.stored == old(store.backend.stored)
    ensures store.issued == old(store.issued)
    ensures recipes.Keys == (set r | r in ids) * store.cache.value.recipes.Keys
    ensures forall r :: r in recipes ==> recipes[r] == store.cache.value.recipes[r]
  {
    ghost var d := store.cache.value;
    recipes := map[];
    for i := 0 to |ids|
      invariant store.cache == Some(d) && store.backend.stored == old(store.backend.stored)
      invariant store.issued == old(store.issued)
      invariant recipes.Keys == (set r | r in ids[..i]) * d.recipes.Keys
      invariant forall r :: r in recipes ==> recipes[r] == d.recipes[r]
    {
      assert ids[..i + 1] == ids[..i] + [ids[i]];
      var recipe := store.GetRecipeById(ids[i], now);
      if recipe.Some? {
        recipes := recipes[ids[i] := recipe.value];
      }
    }
    assert ids[..|ids|] == ids;
  }

  /** The ids `RecipeIdOrder` lists are the list's recipe ids. */
  lemma RecipeIdOrderSpec(items: seq<ShoppingItem>)
    ensures (set r | r in RecipeIdOrder(items)) == RecipeIds(items)
    ensures NoDuplicates(RecipeIdOrder(items))
  {
    var all := seq(|items|, j requires 0 <= j < |items| => items[j].recipeId);
    assert forall j :: 0 <= j < |items| ==> all[j] == items[j].recipeId;
    var ids := RecipeIdOrder(items);
    forall r | r in RecipeIds(items) ensures r in ids {
      var j :| 0 <= j < |items| && items[j].recipeId == r;
      assert all[j] in ids;
    }
    forall r | r in ids ensures r in RecipeIds(items) {
      var k :| 0 <= k < |ids| && ids[k] == r;
      var j :| 0 <= j < |all| && all[j] == r;
    }
  }

  /**
   * `getShoppingListWithRecipes`: the list, or null, together with every
   * recipe its items refer to that still exists (empty when there is no list).
   */
  method GetShoppingListWithRecipes(store: Store, id: Id, now: Timestamp)
    returns (list: Option<ShoppingList>, recipes: map<Id, Recipe>)
    modifies store`cache, store.backend`stored
    ensures store.Unchanged(now)
    ensures var d := old(store.Working(now));
      && list == (if id in d.shoppingLists then Some(d.shoppingLists[id]) else None)
      && recipes == (if list.None? then map[] else ListRecipes(list.value.items, d.recipes))
  {
    list := store.GetShoppingListById(id, now);
    recipes := map[];
    if list.Some? {
      RecipeIdOrderSpec(list.value.items);
      recipes := FetchRecipes(store, RecipeIdOrder(list.value.items), now);
    }
  }

  /**
   * `getShoppingListWithMealPlan`: as above, plus the meal plan the list was
   * generated from, which is null when there is no list or the plan has gone.
   */
  method GetShoppingListWithMealPlan(store: Store, id: Id, now: Timestamp)
    returns (list: Option<ShoppingList>, plan: Option<MealPlan>, recipes: map<Id, Recipe>)
    modifies store`cache, store.backend`stored
    ensures store.Unchanged(now)
    ensures var d := old(store.Working(now));
      && list == (if id in d.shoppingLists then Some(d.shoppingLists[id]) else None)
      && recipes == (if list.None? then map[] else ListRecipes(list.value.items, d.recipes))
      && plan == (if list.Some? && list.value.mealPlanId in d.mealPlans
                  then Some(d.mealPlans[list.value.mealPlanId]) else None)
  {
    list, recipes := GetShoppingListWithRecipes(store, id, now);
    plan := None;
    if list.Some? {
      plan := store.GetMealPlanById(list.value.mealPlanId, now);
    }
  }
}
