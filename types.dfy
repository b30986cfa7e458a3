/**
 * The persisted data model: recipes, meal plans, shopping lists and the
 * single application document that owns them (lib/types.ts).
 */
module Types {
  import opened Wrappers

  /** Entity identifiers (UUID strings in the source). */
  type Id = string

  /** ISO-8601 timestamps, modelled by the instant they denote. */
  type Timestamp = int

  datatype Recipe = Recipe(
    id: Id,
    title: string,
    description: string,
    ingredients: seq<string>,
    tags: seq<string>,
    imageUrl: Option<string>,
    lastUsed: Option<Timestamp>,
    createdAt: Timestamp,
    updatedAt: Timestamp)

  /** A meal references a recipe by id; it does not own it. */
  datatype Meal = Meal(id: Id, date: string, recipeId: Id, notes: Option<string>)

  datatype MealPlan = MealPlan(
    id: Id,
    name: string,
    startDate: string,
    endDate: string,
    meals: seq<Meal>,
    createdAt: Timestamp,
    updatedAt: Timestamp)

  /** `recipeId` is a weak back-reference that may dangle. */
  datatype ShoppingItem = ShoppingItem(id: Id, name: string, recipeId: Id, checked: bool)

  datatype ShoppingList = ShoppingList(
    id: Id,
    mealPlanId: Id,
    items: seq<ShoppingItem>,
    createdAt: Timestamp,
    updatedAt: Timestamp)

  /** The root document: three maps keyed by id, a schema version and a write stamp. */
  datatype AppData = AppData(
    recipes: map<Id, Recipe>,
    mealPlans: map<Id, MealPlan>,
    shoppingLists: map<Id, ShoppingList>,
    version: int,
    lastUpdated: Timestamp)

  datatype MigrationRecord = MigrationRecord(fromVersion: int, toVersion: int, migratedAt: Timestamp)

  /** The schema version the code writes (lib/storage.ts and lib/migrations.ts both fix it at 1). */
  const CURRENT_DATA_VERSION: int := 1

  /** `DEFAULT_APP_DATA`: empty maps at the current version, stamped when the module was loaded. */
  function DefaultAppData(loadedAt: Timestamp): (d: AppData)
    ensures d.recipes == map[] && d.mealPlans == map[] && d.shoppingLists == map[]
    ensures d.version == CURRENT_DATA_VERSION && d.lastUpdated == loadedAt
  {
    AppData(map[], map[], map[], CURRENT_DATA_VERSION, loadedAt)
  }

  /** Every id the document uses as a key. */
  function Keys(d: AppData): set<Id> {
    d.recipes.Keys + d.mealPlans.Keys + d.shoppingLists.Keys
  }
}
