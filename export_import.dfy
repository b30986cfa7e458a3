/**
 * Import and merge of whole documents (lib/export-import.ts). Reading the
 * file and `JSON.parse` happen before the model starts: an import receives
 * the parsed value, described by the JSON kinds of its root and of the
 * root's properties, together with the typed document the source's
 * `as AppData` cast lets later code read it as.
 */
module ExportImport {
  import opened Wrappers
  import opened Types
  import opened Storage
  import opened Migrations
  import opened DataManager

  /** The kind of a parsed JSON value. */
  datatype JsonKind = Null | Boolean | Number | String | Array | Object

  /** `typeof v === 'object'`: true of null and of arrays as well as of objects. */
  predicate TypeofObject(k: JsonKind)
  {
    k == Null || k == Array || k == Object
  }

  /**
   * A parsed import file: the kind of the root value, the kinds of the
   * root's own properties (a missing key is absent from the map), and the
   * document the cast reads it as.
   */
  datatype Parsed = Parsed(root: JsonKind, properties: map<string, JsonKind>, asAppData: AppData)

  /** `'key' in data && typeof data.key` satisfies `test` */
  predicate PropertyIs(p: Parsed, key: string, test: JsonKind -> bool)
  {
    key in p.properties && test(p.properties[key])
  }

  /** `validateImportedData`, check by check as the source makes them. */
  function ValidateImportedData(p: Parsed): (valid: bool)
    ensures valid <==>
      && (p.root == Array || p.root == Object)
      && "recipes" in p.properties && TypeofObject(p.properties["recipes"])
      && "mealPlans" in p.properties && TypeofObject(p.properties["mealPlans"])
      && "shoppingLists" in p.properties && TypeofObject(p.properties["shoppingLists"])
      && "version" in p.properties && p.properties["version"] == Number
      && "lastUpdated" in p.properties && p.properties["lastUpdated"] == String
  {
    if p.root == Null || !TypeofObject(p.root) then false
    else if !PropertyIs(p, "recipes", TypeofObject) then false
    else if !PropertyIs(p, "mealPlans", TypeofObject) then false
    else if !PropertyIs(p, "shoppingLists", TypeofObject) then false
    else if !PropertyIs(p, "version", k => k == Number) then false
    else if !PropertyIs(p, "lastUpdated", k => k == String) then false
    else true
  }

  /** Because `typeof null` is 'object', entity maps that are null pass the shape check. */
  lemma NullMapsPass(doc: AppData)
    ensures ValidateImportedData(Parsed(Object,
      map["recipes" := Null, "mealPlans" := Null, "shoppingLists" := Null,
          "version" := Number, "lastUpdated" := String], doc))
  {
  }

  /** A file without a `version` property is rejected, whatever else it holds. */
  lemma MissingVersionRejected(p: Parsed)
    requires "version" !in p.properties
    ensures !ValidateImportedData(p)
  {
  }

  datatype ImportError = ImportFailed

  /**
   * `importData`: an invalid payload throws before anything is saved; a
   * valid one is migrated when it needs it, saved, and returned as saved.
   */
  method ImportData(store: Store, migrator: Migrator, p: Parsed, now: Timestamp)
    returns (r: Result<AppData, ImportError>)
    modifies store, store.backend`stored, migrator
    ensures store.issued == old(store.issued)
    ensures !ValidateImportedData(p) ==>
      && r == Failure(ImportFailed)
      && store.cache == old(store.cache)
      && store.backend.stored == old(store.backend.stored)
      && migrator.history == old(migrator.history)
    ensures ValidateImportedData(p) ==>
      var m := Migrated(p.asAppData, now);
      && store.Saved(m, now)
      && r == Success(store.cache.value)
      && migrator.history == old(migrator.history) +
           (if NeedsMigration(p.asAppData) then StepRecords(p.asAppData.version, now) else [])
  {
    if !ValidateImportedData(p) {
      return Failure(ImportFailed);
    }
    var migrated := p.asAppData;
    if NeedsMigration(p.asAppData) {
      migrated := migrator.MigrateData(p.asAppData, now);
    }
    var _ := store.SaveData(migrated, now);
    r := Success(store.cache.value);
  }

  /**
   * One map of `mergeData`: a copy of `existing`, then every imported entry
   * whose id the copy lacks. The arguments are values, so neither changes.
   */
  method MergeEntries<T>(existing: map<Id, T>, imported: map<Id, T>) returns (merged: map<Id, T>)
    ensures merged.Keys == existing.Keys + imported.Keys
    ensures forall id :: id in existing ==> merged[id] == existing[id]
    ensures forall id :: id in imported && id !in existing ==> merged[id] == imported[id]
  {
    merged := existing;
    var rest := imported.Keys;
    while rest != {}
      invariant rest <= imported.Keys
      invariant forall id :: id in merged <==> id in existing || (id in imported && id !in rest)
      invariant forall id :: id in existing ==> merged[id] == existing[id]
      invariant forall id :: id in imported && id !in rest && id !in existing ==> merged[id] == imported[id]
      decreases |rest|
    {
      var id :| id in rest;
      if id !in merged {
        merged := merged[id := imported[id]];
      }
      rest := rest - {id};
    }
  }

  /**
   * `mergeData`: the union of both documents' maps, existing entries winning
   * on a shared id; the existing version; lastUpdated = now; saved and returned.
   */
  method MergeData(store: Store, existing: AppData, imported: AppData, now: Timestamp) returns (merged: AppData)
    modifies store`cache, store.backend`stored
    ensures merged.version == existing.version && merged.lastUpdated == now
    ensures merged.recipes.Keys == existing.recipes.Keys + imported.recipes.Keys
    ensures merged.mealPlans.Keys == existing.mealPlans.Keys + imported.mealPlans.Keys
    ensures merged.shoppingLists.Keys == existing.shoppingLists.Keys + imported.shoppingLists.Keys
    ensures forall id :: id in existing.recipes ==> merged.recipes[id] == existing.recipes[id]
    ensures forall id :: id in existing.mealPlans ==> merged.mealPlans[id] == existing.mealPlans[id]
    ensures forall id :: id in existing.shoppingLists ==> merged.shoppingLists[id] == existing.shoppingLists[id]
    ensures forall id :: id in imported.recipes && id !in existing.recipes ==>
      merged.recipes[id] == imported.recipes[id]
    ensures forall id :: id in imported.mealPlans && id !in existing.mealPlans ==>
      merged.mealPlans[id] == imported.mealPlans[id]
    ensures forall id :: id in imported.shoppingLists && id !in existing.shoppingLists ==>
      merged.shoppingLists[id] == imported.shoppingLists[id]
    ensures store.Saved(merged, now) && store.cache == Some(merged)
  {
    var recipes := MergeEntries(existing.recipes, imported.recipes);
    var mealPlans := MergeEntries(existing.mealPlans, imported.mealPlans);
    var shoppingLists := MergeEntries(existing.shoppingLists, imported.shoppingLists);
    merged := AppData(recipes, mealPlans, shoppingLists, existing.version, now);
    var _ := store.SaveData(merged, now);
  }
}
