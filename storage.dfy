/**
 * The storage backend seen from the data manager (lib/storage.ts): one
 * blob that can be read and written. Whether the browser offers the
 * origin-private file system or only localStorage, the data manager picks
 * one backend per call and never retries the other; what the chosen
 * backend does on a call is the environment's choice, kept here as state.
 */
module Storage {
  import opened Wrappers
  import opened Types

  /** What a write does. */
  datatype WriteOutcome =
    | Unavailable   // no file-system root: returns false before touching the document
    | Fails         // stamps `lastUpdated`, then the write throws: returns false
    | Succeeds      // stamps `lastUpdated` and writes: returns true

  /** The document as a write leaves it: both backends set `lastUpdated` on the object they are given before writing. */
  function Stamped(outcome: WriteOutcome, doc: AppData, now: Timestamp): (d: AppData)
    ensures d.recipes == doc.recipes && d.mealPlans == doc.mealPlans && d.shoppingLists == doc.shoppingLists
    ensures d.version == doc.version
    ensures d.lastUpdated == if outcome == Unavailable then doc.lastUpdated else now
  {
    if outcome == Unavailable then doc else doc.(lastUpdated := now)
  }

  lemma StampedIdempotent(outcome: WriteOutcome, doc: AppData, now: Timestamp)
    ensures Stamped(outcome, Stamped(outcome, doc, now), now) == Stamped(outcome, doc, now)
  {
  }

  class Backend {
    /** The blob last written successfully, or nothing on a first run. */
    var stored: Option<AppData>
    /** A read throws for a reason other than "not found"; the source then reports nothing stored. */
    var readFails: bool
    /** What every write does. */
    var outcome: WriteOutcome

    constructor (stored: Option<AppData>, readFails: bool, outcome: WriteOutcome)
      ensures this.stored == stored && this.readFails == readFails && this.outcome == outcome
    {
      this.stored := stored;
      this.readFails := readFails;
      this.outcome := outcome;
    }

    /** What a load yields: `null` both when nothing is stored and when the read fails. */
    function Loaded(): (d: Option<AppData>)
      reads this
      ensures readFails ==> d == None
      ensures !readFails ==> d == stored
    {
      if readFails then None else stored
    }

    /** `loadFromOPFS` / `loadFromLocalStorage`. */
    method Read() returns (d: Option<AppData>)
      ensures readFails ==> d == None
      ensures !readFails ==> d == stored
      ensures d == Loaded()
    {
      d := if readFails then None else stored;
    }

    /** `saveToOPFS` / `saveToLocalStorage`: returns whether the write succeeded and the document as stamped. */
    method Write(doc: AppData, now: Timestamp) returns (ok: bool, written: AppData)
      modifies this`stored
      ensures ok <==> outcome == Succeeds
      ensures written == Stamped(outcome, doc, now)
      ensures stored == if ok then Some(written) else old(stored)
    {
      written := Stamped(outcome, doc, now);
      ok := outcome == Succeeds;
      if ok {
        stored := Some(written);
      }
    }
  }
}
