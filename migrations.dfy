/**
 * Schema migrations (lib/migrations.ts): a loop that raises a document's
 * version one step at a time until it reaches CURRENT_DATA_VERSION,
 * recording each step in a module-level, append-only history.
 */
module Migrations {
  import opened Types

  predicate NeedsMigration(data: AppData)
  {
    data.version < CURRENT_DATA_VERSION
  }

  /** `migrateFromV0ToV1`: keeps the three maps, sets version 1 and refreshes lastUpdated. */
  function MigrateFromV0ToV1(data: AppData, now: Timestamp): (r: AppData)
    ensures r.recipes == data.recipes && r.mealPlans == data.mealPlans
    ensures r.shoppingLists == data.shoppingLists
    ensures r.version == 1 && r.lastUpdated == now
  {
    AppData(data.recipes, data.mealPlans, data.shoppingLists, 1, now)
  }

  /** One iteration of the loop: the registered v0 step, or the forced advance for any other version. */
  function Step(data: AppData, now: Timestamp): (r: AppData)
    ensures r.version == data.version + 1
  {
    if data.version == 0 then MigrateFromV0ToV1(data, now)
    else data.(version := data.version + 1)
  }

  /** The document the loop ends with. */
  function RunSteps(data: AppData, now: Timestamp): AppData
    decreases CURRENT_DATA_VERSION - data.version
  {
    if data.version >= CURRENT_DATA_VERSION then data
    else RunSteps(Step(data, now), now)
  }

  /** `migrateData`'s result. */
  function Migrated(data: AppData, now: Timestamp): AppData
  {
    if !NeedsMigration(data) then data else RunSteps(data, now)
  }

  /** The records the loop appends when it starts at version `v`. */
  function StepRecords(v: int, now: Timestamp): seq<MigrationRecord>
    decreases CURRENT_DATA_VERSION - v
  {
    if v >= CURRENT_DATA_VERSION then []
    else [MigrationRecord(v, v + 1, now)] + StepRecords(v + 1, now)
  }

  /**
   * For a version below the current one the loop ends at exactly the current
   * version, with the maps untouched and lastUpdated refreshed by the v0 step.
   */
  lemma {:induction false} RunStepsResult(data: AppData, now: Timestamp)
    requires data.version < CURRENT_DATA_VERSION
    ensures RunSteps(data, now) == data.(version := CURRENT_DATA_VERSION, lastUpdated := now)
    decreases CURRENT_DATA_VERSION - data.version
  {
    if data.version < 0 {
      RunStepsResult(Step(data, now), now);
    }
  }

  /** A migration changes a document exactly when it needs one, and leaves it at the current version. */
  lemma MigratedSpec(data: AppData, now: Timestamp)
    ensures !NeedsMigration(data) ==> Migrated(data, now) == data
    ensures NeedsMigration(data) ==>
      Migrated(data, now) == data.(version := CURRENT_DATA_VERSION, lastUpdated := now)
    ensures Migrated(data, now).version >= CURRENT_DATA_VERSION
    ensures Migrated(data, now).recipes == data.recipes
    ensures Migrated(data, now).mealPlans == data.mealPlans
    ensures Migrated(data, now).shoppingLists == data.shoppingLists
  {
    if NeedsMigration(data) {
      RunStepsResult(data, now);
    }
  }

  /** Starting at v, the history grows by one record per version step: from v + k to v + k + 1. */
  lemma {:induction false} StepRecordsSpec(v: int, now: Timestamp)
    ensures |StepRecords(v, now)| == if v < CURRENT_DATA_VERSION then CURRENT_DATA_VERSION - v else 0
    ensures forall k :: 0 <= k < |StepRecords(v, now)| ==>
      StepRecords(v, now)[k] == MigrationRecord(v + k, v + k + 1, now)
    decreases CURRENT_DATA_VERSION - v
  {
    if v < CURRENT_DATA_VERSION {
      StepRecordsSpec(v + 1, now);
    }
  }

  /** The module-level `migrationHistory` array and the functions that use it. */
  class Migrator {
    var history: seq<MigrationRecord>

    constructor ()
      ensures history == []
    {
      history := [];
    }

    /**
     * `migrateData`. The caller's document is a value, so the shallow copy
     * the source makes before the loop is implicit: the argument keeps its
     * version.
     */
    method MigrateData(data: AppData, now: Timestamp) returns (r: AppData)
      modifies this
      ensures r == Migrated(data, now)
      ensures history == old(history) + (if NeedsMigration(data) then StepRecords(data.version, now) else [])
    {
      if !NeedsMigration(data) {
        return data;
      }
      r := data;
      while r.version < CURRENT_DATA_VERSION
        invariant data.version <= r.version <= CURRENT_DATA_VERSION
        invariant RunSteps(r, now) == RunSteps(data, now)
        invariant old(history) + StepRecords(data.version, now) == history + StepRecords(r.version, now)
        decreases CURRENT_DATA_VERSION - r.version
      {
        var currentVersion := r.version;
        if currentVersion == 0 {
          r := MigrateFromV0ToV1(r, now);
        } else {
          r := r.(version := currentVersion + 1);
        }
        history := history + [MigrationRecord(currentVersion, r.version, now)];
      }
    }

    /** `getMigrationHistory`: the result is a value, so changing it cannot reach the recorded history. */
    method GetMigrationHistory() returns (h: seq<MigrationRecord>)
      ensures h == history
    {
      h := history;
    }
  }
}
