# Family Meal Planner: a verified model of its data core

The Family Meal Planner is a browser application. It keeps recipes, meal plans and shopping lists in a single JSON document, stored either in the origin-private file system or in localStorage. This project models the parts of the application that decide what that document holds, and proves properties of them:

- **The storage backend** (`storage.dfy`). It reads and writes one blob. Its write stamps `lastUpdated`.
- **The data manager** (`data_manager.dfy`). It keeps a module-level cached document. Its create, read, update and delete operations change that document in place and then hand it to `saveData`.
- **Migrations** (`migrations.dfy`). A loop raises the document's `version` one step at a time and appends a record to an in-memory history for each step.
- **Import and merge** (`export_import.dfy`). Import validates the document's shape, then migrates it, then saves it. Merge unions two documents, with existing entries winning a shared id.
- **Shopping-list helpers** (`shopping_list.dfy`). Fetching a list with its recipes and its meal plan, toggling an item, and grouping items by recipe.
- **Search, tag filter and sort** (`search.dfy`). This models JavaScript's `trim` and `includes`, and the stable sort with the comparator the source passes.
- **Component logic**. This is the state logic of the tag and ingredient editors, the recipe and meal-plan forms (their zod schemas and submission), and the recipe browser's tag list and filters (`tag_input.dfy`, `ingredient_input.dfy`, `recipe_form.dfy`, `meal_plan_form.dfy`, `recipes_page.dfy`).

Shared definitions sit in `types.dfy` (the entities, `CURRENT_DATA_VERSION` and `DEFAULT_APP_DATA`), in `wrappers.dfy` (`Option` and `Result`) and in `seqs.dfy` (`Array.prototype.filter`, index removal and `Set` de-duplication, with their lemmas).

The source mutates state in three places, and the model mirrors each with a class:

- **`DataManager.Store`** holds `appDataCache` together with the backend and the set of identifiers issued so far.
- **`Storage.Backend`** holds the stored blob and what the environment makes reads and writes do.
- **`Migrations.Migrator`** holds `migrationHistory`.

Each mutating method states its whole new state in terms of the state before the call, through two predicates:

- **`Store.Working(now)`** is the document the operation works on once `initializeDataManager` has run.
- **`Store.Saved(doc, now)`** holds when the cache has `doc` as the write stamped it and the backend has it too exactly when the write succeeded.

The pure parts are functions, and lemmas state what they promise.

The following become inputs of the model:

- The clock: every operation takes `now`.
- `uuidv4` and `crypto.randomUUID`: fresh identifiers come from `FreshId`, which avoids every identifier in use; meal ids are parameters.
- `toLowerCase`: a parameter `lower`.
- Which storage backend the browser offers and how it behaves: the state of `Storage.Backend`.

Timestamps are integers rather than ISO strings.

## Model

| member | source | states |
|---|---|---|
| Types.DefaultAppData | lib/storage.ts:11-17 | the default document has no recipes, meal plans or shopping lists, is at the current version, and carries the time the module was loaded |
| Storage.Stamped | lib/storage.ts:46-71 | an attempted write leaves the three maps and the version alone and sets lastUpdated to now, except when no file-system root exists, which returns before stamping |
| Storage.StampedIdempotent | lib/storage.ts:52 | stamping twice at the same time gives the same document as stamping once |
| Storage.Backend.Loaded | lib/storage.ts:76-104 | a failed read yields nothing, and a read that does not fail yields exactly the stored blob, which is nothing on a first run |
| Storage.Backend.Read | lib/storage.ts:148-158 | reading returns nothing when the read throws and otherwise the stored blob, nothing when none is stored; this is the same value a load yields |
| Storage.Backend.Write | lib/storage.ts:130-143 | a write reports success exactly when the backend accepts it, returns the stamped document, and the stored blob becomes that document only on success |
| DataManager.NewRecipe | lib/data-manager.ts:94-100 | a new recipe carries every field of the draft, the fresh id, and createdAt = updatedAt = now |
| DataManager.PatchRecipe | lib/data-manager.ts:117-121 | a patched recipe keeps id and createdAt, takes every field the patch carries, keeps every field it lacks, and has updatedAt = now |
| DataManager.Touched | lib/data-manager.ts:152-156 | marking a recipe used changes only lastUsed and updatedAt, both to now |
| DataManager.NewMealPlan | lib/data-manager.ts:186-192 | a new plan carries every field of the draft, the fresh id, and createdAt = updatedAt = now |
| DataManager.PatchMealPlan | lib/data-manager.ts:215-219 | a patched plan keeps id and createdAt, takes the fields the patch carries, keeps the rest, and has updatedAt = now |
| DataManager.PatchItem | lib/data-manager.ts:322-325 | a patched item keeps its id and recipe and takes the name and checked state the patch carries |
| DataManager.Referenced | lib/data-manager.ts:197-199 | the ids referenced by a meal list are exactly the meals' recipe ids |
| DataManager.TouchRecipes | lib/data-manager.ts:196-199 | after touching a meal list's recipes, the recipe keys are unchanged, each existing referenced recipe is touched, and every other recipe is unchanged |
| DataManager.FindItem | lib/data-manager.ts:319-320 | findIndex returns -1 exactly when no item has the id, and otherwise the first index whose item has it |
| DataManager.MealItems | lib/data-manager.ts:261-273 | a meal contributes one item per ingredient of its recipe, in ingredient order and tagged with the recipe id, and nothing when its recipe is missing |
| DataManager.PlanItemsAppend | lib/data-manager.ts:261-273 | the items of two meal lists in sequence are the items of the first followed by those of the second |
| DataManager.PlanItemsCount | lib/data-manager.ts:258-273 | a generated list has as many items as the existing referenced recipes have ingredients, counted per meal |
| DataManager.FreshId | lib/data-manager.ts:97 | a generated identifier is not among the identifiers in use |
| DataManager.ValuesOf | lib/data-manager.ts:77 | Object.values lists each entry of the map once: the values come in the order of a duplicate-free list of exactly the map's keys, each value being the one stored under its key |
| DataManager.Store.constructor | lib/data-manager.ts:24 | the cache starts empty and no identifier has been issued |
| DataManager.Store.Initialize | lib/data-manager.ts:30-55 | the result is the cached document if there is one, else the loaded one, else the default document as saveData stamped it (a write is attempted only in that last case), and it is cached |
| DataManager.Store.SaveData | lib/data-manager.ts:60-70 | saveData reports success exactly when the backend accepts the write, and the cache holds the stamped document whatever the outcome |
| DataManager.Store.NextId | lib/data-manager.ts:97 | a new id is not a key of the document and has not been issued before, and it is recorded as issued |
| DataManager.Store.GetAllRecipes | lib/data-manager.ts:75-78 | returns the working document's recipes one per key, in the order of a duplicate-free list of its keys, and changes nothing beyond loading |
| DataManager.Store.GetRecipeById | lib/data-manager.ts:83-86 | returns the recipe stored under the id, or null when there is none, and changes nothing beyond loading |
| DataManager.Store.AddRecipe | lib/data-manager.ts:91-106 | the new recipe is the draft under a fresh id with both timestamps now, and the document saved is the working one with that recipe added |
| DataManager.Store.UpdateRecipe | lib/data-manager.ts:111-127 | a missing id returns null and saves nothing; otherwise the patched recipe replaces the old one and the document is saved |
| DataManager.Store.DeleteRecipe | lib/data-manager.ts:132-141 | returns true exactly when the recipe existed; only then is it removed and the document saved, while plans and lists keep their references |
| DataManager.Store.UpdateRecipeLastUsed | lib/data-manager.ts:146-162 | a missing id returns null and saves nothing; otherwise lastUsed and updatedAt become now and the document is saved |
| DataManager.Store.GetAllMealPlans | lib/data-manager.ts:167-170 | returns the working document's meal plans one per key, in the order of a duplicate-free list of its keys, and changes nothing beyond loading |
| DataManager.Store.GetMealPlanById | lib/data-manager.ts:175-178 | returns the plan stored under the id, or null, and changes nothing beyond loading |
| DataManager.Store.TouchMealRecipes | lib/data-manager.ts:196-199 | calling updateRecipeLastUsed for each meal in turn leaves the cached document with exactly the referenced existing recipes touched; when writes fail nothing new is stored, and when they succeed the backend holds the cached document exactly when some meal names an existing recipe and is untouched otherwise |
| DataManager.Store.AddMealPlan | lib/data-manager.ts:183-204 | the new plan is the draft under a fresh id, and the document saved has the plan added and every existing recipe the meals reference touched |
| DataManager.Store.UpdateMealPlan | lib/data-manager.ts:209-233 | a missing id returns null and saves nothing; otherwise the patched plan is saved, and recipes are touched only when the patch carries a meal list |
| DataManager.Store.DeleteMealPlan | lib/data-manager.ts:238-247 | returns true exactly when the plan existed; only then is it removed and the document saved |
| DataManager.Store.GenerateShoppingList | lib/data-manager.ts:252-288 | a missing plan returns null and saves nothing; otherwise the new list has one unchecked item per ingredient of each existing referenced recipe, in meal then ingredient order, with distinct fresh ids, and the document saved has the list added |
| DataManager.Store.GetAllShoppingLists | lib/data-manager.ts:293-296 | returns the working document's shopping lists one per key, in the order of a duplicate-free list of its keys, and changes nothing beyond loading |
| DataManager.Store.GetShoppingListById | lib/data-manager.ts:301-304 | returns the list stored under the id, or null, and changes nothing beyond loading |
| DataManager.Store.UpdateShoppingListItem | lib/data-manager.ts:309-332 | a missing list or item returns null and saves nothing; otherwise the first item with the id is patched in place, the list's updatedAt becomes now, and the document is saved |
| DataManager.Store.DeleteShoppingList | lib/data-manager.ts:337-346 | returns true exactly when the list existed; only then is it removed and the document saved |
| Migrations.MigrateFromV0ToV1 | lib/migrations.ts:66-77 | the v0 step keeps the three maps, sets version 1 and sets lastUpdated to now |
| Migrations.Step | lib/migrations.ts:38-48 | each loop iteration raises the version by exactly one, through the v0 step or the forced advance |
| Migrations.RunStepsResult | lib/migrations.ts:33-57 | from any version below the current one, the loop ends at the current version with the maps untouched and lastUpdated refreshed |
| Migrations.MigratedSpec | lib/migrations.ts:23-60 | migrateData returns the document unchanged when it needs no migration, and otherwise the document at the current version with the same maps; the result never needs migration |
| Migrations.StepRecordsSpec | lib/migrations.ts:52-56 | starting at version v the history gains one record per step, the k-th going from v+k to v+k+1 |
| Migrations.Migrator.constructor | lib/migrations.ts:11 | the migration history starts empty |
| Migrations.Migrator.MigrateData | lib/migrations.ts:23-60 | the loop returns the migrated document and appends exactly the step records to the history, and appends nothing when no migration is needed |
| Migrations.Migrator.GetMigrationHistory | lib/migrations.ts:82-84 | returns the recorded history as a value that the caller cannot use to change it |
| ExportImport.ValidateImportedData | lib/export-import.ts:79-89 | a payload is accepted exactly when it is a non-null object or array whose recipes, mealPlans and shoppingLists are present and of typeof object, whose version is a number and whose lastUpdated is a string |
| ExportImport.NullMapsPass | lib/export-import.ts:82-84 | entity maps that are null pass the shape validation, because typeof null is 'object' |
| ExportImport.MissingVersionRejected | lib/export-import.ts:85 | a payload without a version property is rejected |
| ExportImport.ImportData | lib/export-import.ts:47-74 | an invalid payload fails and saves nothing; a valid one is migrated exactly when it needs it, saved, and returned as saved, with the migration recorded |
| ExportImport.MergeEntries | lib/export-import.ts:108-126 | the merged map has the keys of both maps, keeps every existing entry, and adds each imported entry whose id is new |
| ExportImport.MergeData | lib/export-import.ts:95-136 | the merged document has the union of the maps with existing entries winning, the existing version and lastUpdated = now, and it is saved |
| Seqs.FilterIndex | components/recipes/tag-input.tsx:29 | filtering out one index removes exactly that element when the index is in range and changes nothing otherwise |
| Seqs.Distinct | lib/shopping-list.ts:34 | spreading a Set keeps each element once, loses none, and keeps the elements in their order in the input |
| ShoppingLists.ToggleItems | lib/shopping-list.ts:76-81 | toggling flips checked on the first item with the id and leaves every other item alone, and leaves the list alone when no item has the id |
| ShoppingLists.ToggleTwice | lib/shopping-list.ts:69-82 | toggling the same item twice restores the items |
| ShoppingLists.ToggleKeepsIdentity | lib/shopping-list.ts:79-81 | toggling changes no item's id, name or recipe |
| ShoppingLists.FindItemIdsOnly | lib/shopping-list.ts:76 | which item the lookup finds depends only on the item ids |
| ShoppingLists.ToggleShoppingListItem | lib/shopping-list.ts:69-82 | a missing list or item returns null and saves nothing; otherwise the list with that item toggled and updatedAt = now is saved |
| ShoppingLists.RecipeIds | lib/shopping-list.ts:93-99 | the grouping keys are exactly the recipe ids of the items |
| ShoppingLists.GroupsSpec | lib/shopping-list.ts:91-101 | the groups built item by item have one key per recipe id, and each holds exactly that recipe's items in list order |
| ShoppingLists.GroupShoppingListByRecipe | lib/shopping-list.ts:87-102 | grouping yields one group per recipe id that occurs, holding exactly that recipe's items in list order |
| ShoppingLists.GroupMembership | lib/shopping-list.ts:98 | an item is in a recipe's group exactly when it is in the list and belongs to that recipe |
| ShoppingLists.GroupOrder | lib/shopping-list.ts:93-99 | each group keeps the items' relative order in the list |
| ShoppingLists.GroupSizesTotal | lib/shopping-list.ts:87-102 | when every item's recipe id is listed once, the group sizes add up to the number of items, so nothing is lost or duplicated |
| ShoppingLists.ListRecipes | lib/shopping-list.ts:37-42 | the fetched recipes are exactly those the items refer to that exist, each as stored |
| ShoppingLists.FetchRecipes | lib/shopping-list.ts:37-42 | looking up each id in turn keeps exactly the ids that name a recipe, each with its stored recipe, and changes nothing |
| ShoppingLists.RecipeIdOrderSpec | lib/shopping-list.ts:34 | the de-duplicated id list has each recipe id of the items exactly once |
| ShoppingLists.GetShoppingListWithRecipes | lib/shopping-list.ts:25-46 | returns the list or null, together with the existing recipes the list refers to (empty without a list), and changes nothing beyond loading |
| ShoppingLists.GetShoppingListWithMealPlan | lib/shopping-list.ts:51-64 | as above, plus the list's meal plan, which is null when there is no list or the plan has been deleted |
| Search.TrimStart | lib/search.ts:14 | removes exactly a whitespace prefix, leaving nothing or a non-whitespace first character |
| Search.TrimEnd | lib/search.ts:14 | removes exactly a whitespace suffix, leaving nothing or a non-whitespace last character |
| Search.Trim | lib/search.ts:10 | the trimmed text is no longer than the original and starts and ends with non-whitespace |
| Search.TrimBlank | lib/search.ts:10-12 | a text trims to empty exactly when it is all whitespace |
| Search.TrimIdempotent | components/recipes/tag-input.tsx:15 | trimming twice is trimming once |
| Search.IncludesSpec | lib/search.ts:18 | includes holds exactly when the term occurs at some position of the text |
| Search.SearchRecipes | lib/search.ts:9-43 | a blank term returns the recipes unchanged; otherwise a recipe is kept exactly when its lower-cased title, description, an ingredient or a tag contains the trimmed lower-cased term; every occurrence of a kept recipe is kept, none of the others, and the order is kept |
| Search.FilterRecipesByTags | lib/search.ts:52-70 | no tags returns the recipes unchanged; otherwise a recipe is kept exactly when it has all the tags (or any of them); every occurrence of a kept recipe is kept, and the order is kept |
| Search.AllTagsWithinAnyTag | lib/search.ts:61-69 | the recipes having all the tags are a subsequence of those having any of them |
| Search.Insert | lib/search.ts:84 | inserting adds exactly one occurrence of the recipe |
| Search.InsertSorted | lib/search.ts:84-99 | inserting into a sorted sequence keeps it sorted by the comparator |
| Search.SortRecipes | lib/search.ts:79-100 | the sorted copy is ordered by the lastUsed-or-createdAt key (or createdAt) in the chosen direction and is a permutation of the input |
| Search.SortStable | lib/search.ts:84-99 | sorting is stable: the recipes with equal keys keep their input order |
| Search.ProcessRecipes | lib/search.ts:108-136 | with the defaults filled in, the result is sorted, and it holds exactly the recipes that pass the search (when a term is given) and the tag filter (when tags are given), each as many times as in the input |
| Search.ProcessRecipesIsPipeline | lib/search.ts:126-133 | the result is search, then tag filter, then sort, each applied only when its option is given |
| TagInput.AddTag | components/recipes/tag-input.tsx:14-26 | a blank tag changes nothing; a tag already present clears the input without a change; otherwise the trimmed tag is appended and the input cleared |
| TagInput.AddTagKeepsDistinct | components/recipes/tag-input.tsx:18-24 | adding keeps a duplicate-free tag list duplicate-free, and the added tag is non-empty and trimmed |
| TagInput.RemoveTag | components/recipes/tag-input.tsx:28-31 | removing passes the list without the tag at the index and keeps the input text |
| TagInput.HandleKeyDown | components/recipes/tag-input.tsx:33-38 | Enter and comma add the typed text as a tag; other keys do nothing |
| IngredientInput.HandleIngredientChange | components/recipes/ingredient-input.tsx:14-18 | only the row at the index changes, to the new text |
| IngredientInput.AddIngredient | components/recipes/ingredient-input.tsx:20-22 | adds one empty row at the end and keeps the others |
| IngredientInput.RemoveIngredient | components/recipes/ingredient-input.tsx:24-33 | a single row is cleared rather than removed; otherwise exactly the row at the index goes |
| IngredientInput.Apply | components/recipes/ingredient-input.tsx:14-33 | no edit empties a non-empty ingredient list |
| IngredientInput.NeverEmpty | components/recipes/ingredient-input.tsx:24-33 | from one row or more, no sequence of edits leaves the list empty |
| MealPlanForm.NewPlanDefaults | components/meal-plans/meal-plan-form.tsx:58-65 | a new plan starts with no name, so the schema rejects it, and spans today to a week later with no meals |
| MealPlanForm.EditDefaults | components/meal-plans/meal-plan-form.tsx:51-57 | an edit starts from the plan's name, dates and meals |
| MealPlanForm.AddMeal | components/meal-plans/meal-plan-form.tsx:97-107 | appends one meal with the given id, date and recipe (default empty) and empty notes |
| MealPlanForm.DefaultMealBlocksSubmit | components/meal-plans/meal-plan-form.tsx:23-35 | a meal added without a recipe makes the schema reject the values |
| MealPlanForm.AddMealKeepsIdsDistinct | components/meal-plans/meal-plan-form.tsx:97-107 | a fresh meal id keeps the meal ids distinct |
| MealPlanForm.RemoveMeal | components/meal-plans/meal-plan-form.tsx:110-113 | removes every meal with the id and keeps every occurrence of the others, in order |
| MealPlanForm.UpdateMealRecipe | components/meal-plans/meal-plan-form.tsx:116-121 | sets the recipe of the meals with the id and changes nothing else |
| MealPlanForm.UpdateMealNotes | components/meal-plans/meal-plan-form.tsx:124-129 | sets the notes of the meals with the id and changes nothing else |
| MealPlanForm.ChoosingRecipeUnblocks | components/meal-plans/meal-plan-form.tsx:23-35 | choosing a non-empty recipe for the meal that lacked one makes otherwise valid values pass the schema |
| MealPlanForm.UpdatesCommute | components/meal-plans/meal-plan-form.tsx:116-129 | a recipe edit and a notes edit commute, and neither changes a meal id |
| MealPlanForm.RemoveAfterUpdate | components/meal-plans/meal-plan-form.tsx:110-121 | removing a meal after editing it gives the same list, in the same order, as removing it straight away |
| MealPlanForm.PatchOf | components/meal-plans/meal-plan-form.tsx:73 | the values reach updateMealPlan with every field present |
| MealPlanForm.DraftOf | components/meal-plans/meal-plan-form.tsx:76 | the values reach addMealPlan with every field unchanged |
| MealPlanForm.CreatedPlanReopens | components/meal-plans/meal-plan-form.tsx:51-76 | a plan created from the form opens for editing with the values it was created from |
| MealPlanForm.UnchangedEditRoundTrip | components/meal-plans/meal-plan-form.tsx:51-57 | submitting an edit unchanged saves the plan as it was, apart from updatedAt |
| MealPlanForm.HandleSubmit | components/meal-plans/meal-plan-form.tsx:68-91 | rejected values change nothing; otherwise an edit updates the plan (null if it has gone) and a new plan is added, and either way the meals' recipes are touched |
| RecipeForm.NewDefaultsNeedTitleAndDescription | components/recipes/recipe-form.tsx:54-60 | the new-recipe defaults fail the schema, and filling in a title and a description alone makes them pass |
| RecipeForm.EditDefaults | components/recipes/recipe-form.tsx:47-53 | an edit starts from the recipe's fields, with an absent image shown as the empty text |
| RecipeForm.EditDefaultsValid | components/recipes/recipe-form.tsx:24-30 | an edit can be submitted unchanged exactly when the recipe has a title, a description and an ingredient |
| RecipeForm.PatchOf | components/recipes/recipe-form.tsx:68 | the values reach updateRecipe with the form's fields and without lastUsed |
| RecipeForm.DraftOf | components/recipes/recipe-form.tsx:71 | the values reach addRecipe with the form's title, description, ingredients, tags and image, and without lastUsed |
| RecipeForm.CreatedRecipeReopens | components/recipes/recipe-form.tsx:46-71 | a recipe created from values with an image text opens for editing with the same values |
| RecipeForm.UnchangedEditRoundTrip | components/recipes/recipe-form.tsx:46-72 | submitting an edit unchanged keeps the recipe, lastUsed included, except that updatedAt moves and an absent image is stored as the empty text |
| RecipeForm.HandleSubmit | components/recipes/recipe-form.tsx:63-86 | rejected values change nothing; otherwise an edit updates the recipe (null if it has gone) and a new recipe is added under a fresh id |
| RecipesPage.StrLessIrreflexive | app/recipes/page.tsx:28-30 | no string sorts before itself |
| RecipesPage.StrLessTransitive | app/recipes/page.tsx:28-30 | the default string order is transitive |
| RecipesPage.StrLessTotal | app/recipes/page.tsx:28-30 | of two different strings, one sorts before the other |
| RecipesPage.InsertString | app/recipes/page.tsx:30 | inserting adds the string and loses none |
| RecipesPage.InsertStringSorted | app/recipes/page.tsx:30 | inserting a new string into a strictly sorted list keeps it strictly sorted |
| RecipesPage.SortStrings | app/recipes/page.tsx:30 | sorting keeps the same strings, and on distinct strings the result is strictly increasing |
| RecipesPage.FlatTags | app/recipes/page.tsx:29 | flatMap yields exactly the tags some recipe has |
| RecipesPage.AllTags | app/recipes/page.tsx:28-31 | the offered tags are strictly sorted and are exactly the tags some recipe has |
| RecipesPage.AllTagsDistinct | app/recipes/page.tsx:28-31 | no tag is offered twice |
| RecipesPage.HandleTagClick | app/recipes/page.tsx:43-49 | clicking a tag that is not selected appends it; clicking a selected tag removes every occurrence of it and keeps every occurrence of the others, in order |
| RecipesPage.ClickTwiceRestores | app/recipes/page.tsx:43-49 | clicking an unselected tag twice restores the selection |
| RecipesPage.ClickKeepsDistinct | app/recipes/page.tsx:43-49 | clicking keeps the selection free of duplicates |
| RecipesPage.FilterKeepsDistinct | app/recipes/page.tsx:46 | filtering a duplicate-free list keeps it duplicate-free |
| RecipesPage.ClearFilters | app/recipes/page.tsx:52-55 | clearing empties both the search text and the selected tags |
| RecipesPage.ClicksAfterClear | app/recipes/page.tsx:43-55 | after clearing, clicking distinct tags selects exactly those tags in click order |
| RecipesPage.ClickAllFresh | app/recipes/page.tsx:43-49 | clicking distinct tags that are not selected appends them in click order |

Storage.StampedIdempotent, Search.ProcessRecipesIsPipeline and RecipesPage.ClearFilters are there for the reader. They state a fact about a definition, and no other proof uses them.

Four definitions carry no contract of their own, since each is the source's rule written out. Their properties are stated by the rows cited here:

- Migrations.NeedsMigration (lib/migrations.ts:16-18): Migrations.MigratedSpec.
- RecipeForm.RecipeFormSchema (components/recipes/recipe-form.tsx:24-30): RecipeForm.NewDefaultsNeedTitleAndDescription and RecipeForm.EditDefaultsValid.
- RecipeForm.NewRecipeDefaults (components/recipes/recipe-form.tsx:54-60): RecipeForm.NewDefaultsNeedTitleAndDescription.
- MealPlanForm.MealPlanFormSchema (components/meal-plans/meal-plan-form.tsx:23-35): min(1) on the name, both dates and every meal's recipeId. MealPlanForm.NewPlanDefaults, MealPlanForm.DefaultMealBlocksSubmit and MealPlanForm.ChoosingRecipeUnblocks state its properties.

## Left out

- The origin-private file system and localStorage APIs: `getDirectory`, file handles, writable streams, `JSON.stringify` and `JSON.parse`. The backend is one blob with a read that may fail and a write that is unavailable, fails, or succeeds.
- Backend choice per call: the source checks `isOPFSSupported` on each call and never falls back to the other backend after a failure. The model keeps one backend per store and also has no fallback. The comment at lib/storage.ts:128 describes this per-call choice.
- Storage.Backend.Write and DataManager.Store.Saved: every write in one operation has the same outcome, since the backend's `outcome` is fixed. The source fetches the storage root afresh for each write, so writes can differ. Two partial saves are therefore not represented. In `addMealPlan` and `updateMealPlan`, the per-meal `updateRecipeLastUsed` writes may succeed and the final save fail, leaving storage with the new plan and some recipes touched. In `initializeDataManager`, the default document's save may succeed and the operation's own write then fail, leaving storage with the default document rather than what it held before.
- A read error and a missing file both yield null, so the data manager then saves the default document over whatever was stored, if the write succeeds. The model has this behaviour. It does not distinguish kinds of read errors.
- DataManager.Store.SaveData: `lastUpdated` is stamped even when the write then throws (the `Fails` outcome), because both backends stamp before writing. The model keeps the code's behaviour rather than stamping only on success.
- Concurrency: calls are sequential. Overlapping `initializeDataManager` calls, which could each load and save, and interleaved writes are not modelled.
- `initializeDataManager` does not migrate a loaded document, and neither does the model.
- Aliasing of `DEFAULT_APP_DATA`: the source shallow-copies it, so its empty maps are shared with the first document. The model is on values and cannot express that sharing.
- `exportData` and `resetData` in lib/export-import.ts, and the `deleteFrom*` storage functions. These are I/O (a file download, the removal of the blob, a page reload) and change no document state that the rest of the core reads.
- ExportImport.ImportData: `file.text()` and `JSON.parse` happen before the model starts. The parsed value is described by the JSON kinds of its root and properties, plus the typed document the cast produces. Entities are not decoded. A payload whose maps are null or arrays passes validation, as `NullMapsPass` shows, but the typed document cannot hold such maps. So the later behaviour on those payloads is not modelled, nor is `migrateFromV0ToV1` replacing null maps with `{}`.
- Migrations.MigratedSpec: versions are integers. A fractional or NaN version, which would skip the v0 case or end the loop at once, is not modelled.
- Timestamps are integers, so an empty-string `lastUsed` cannot be represented, nor can the `||` fallback that string would trigger. Date parsing and invalid dates (NaN keys in the comparator) are not modelled.
- DataManager.ValuesOf: the key order is that of some duplicate-free list of the keys, not the insertion order Object.values follows, which the model does not track.
- `toLowerCase` is a parameter, since the model has no Unicode case mapping. The default `.sort()` compares UTF-16 code units; the model compares characters, which agree outside surrogate pairs.
- An id that names an `Object.prototype` member (such as `toString`) is truthy in the source's `data.recipes[id]` lookups. The model uses maps and treats it as missing.
- Patch keys set explicitly to `undefined` overwrite a field with `undefined` in the source. A patch field in the model is either carried or absent.
- The uuid and `crypto.randomUUID` generators are replaced by `FreshId` and by meal-id parameters.
- IngredientInput.HandleIngredientChange requires an index in range, because it is only called from a rendered row. An index the source is never given, which would leave holes in the array, is not modelled.
- React state, effects and rendering, `isSubmitting`, navigation, `onSuccess` callbacks, and the catch-and-log paths of the components. `RecipeList` receiving `searchTerm` and `selectedTags` but ignoring them is also rendering only.
- The new-plan default dates (`today` and a week later) are parameters, not computed from the clock.
- `generateShoppingList` and `removeShoppingList` in lib/shopping-list.ts (lines 18-20 and 107-109) only delegate. They are modelled by `DataManager.Store.GenerateShoppingList` and `DataManager.Store.DeleteShoppingList`.
