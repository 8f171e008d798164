/** The sync hook (hooks/use-sync.ts): a small state machine — `isSyncing`,
    the last error and the displayed last-sync time — around the engine's
    push and bootstrap. Each call runs to completion before the next
    begins. */
module SyncHooks {
  import opened Wrappers
  import opened Records
  import opened LocalDb
  import opened Sync

  const SYNC_FAILED: string := "Sync failed"
  const BOOTSTRAP_FAILED: string := "Bootstrap failed"

  /** The steps a call performs, in the order it performs them. */
  datatype Step = Pushed | Bootstrapped | Refreshed | Notified

  /** The message of the error the hook keeps for a thrown value: the value
      itself when it is an `Error`, otherwise a new `Error(fallback)`. */
  function ErrorMessage(t: Thrown, fallback: string): (msg: string)
    ensures t.ErrorObject? ==> msg == t.message
    ensures t.OtherValue? ==> msg == fallback
  {
    match t
    case ErrorObject(message) => message
    case OtherValue => fallback
  }

  class SyncHook {
    const engine: SyncEngine
    const bus: ChangeBus
    var isSyncing: bool
    var lastSyncTime: Option<string>
    /** The message of the last error, `None` for `null`. */
    var error: Option<string>
    /** Every step taken so far. */
    var steps: seq<Step>

    ghost predicate Valid()
      reads this, engine, engine.db
    {
      engine.Valid()
    }

    constructor (engine: SyncEngine, bus: ChangeBus)
      ensures this.engine == engine && this.bus == bus
      ensures !isSyncing && lastSyncTime == None && error == None && steps == []
    {
      this.engine := engine;
      this.bus := bus;
      isSyncing := false;
      lastSyncTime := None;
      error := None;
      steps := [];
    }

    /** `refreshLastSync`, also run on mount: shows the stored time. */
    method RefreshLastSync()
      modifies this`lastSyncTime, this`steps
      ensures lastSyncTime == engine.lastSyncSlot
      ensures steps == old(steps) + [Refreshed]
    {
      var time := engine.GetLastSyncTime();
      lastSyncTime := time;
      steps := steps + [Refreshed];
    }

    /** `sync`: ignored while a call is running. Otherwise clears the error
      and pushes; on success refreshes the shown time and then signals the
      change; on failure keeps the error's message and signals nothing.
      The stored last-sync time is never written. */
    method Sync(readError: Option<Thrown>, respond: (nat, Request) -> Reply)
      requires Valid()
      modifies this`isSyncing, this`lastSyncTime, this`error, this`steps
      modifies engine`requests, engine.db, bus
      ensures Valid() && isSyncing == old(isSyncing)
      ensures engine.lastSyncSlot == old(engine.lastSyncSlot)
      ensures old(isSyncing) ==>
                error == old(error) && lastSyncTime == old(lastSyncTime) && steps == old(steps) &&
                engine.requests == old(engine.requests) && engine.db.expenses == old(engine.db.expenses) &&
                bus.emitted == old(bus.emitted)
      ensures !old(isSyncing) && readError.Some? ==>
                error == Some(ErrorMessage(readError.value, SYNC_FAILED)) &&
                lastSyncTime == old(lastSyncTime) && steps == old(steps) + [Pushed] &&
                engine.requests == old(engine.requests) && engine.db.expenses == old(engine.db.expenses) &&
                bus.emitted == old(bus.emitted)
      ensures !old(isSyncing) && readError.None? ==>
                error == None && lastSyncTime == engine.lastSyncSlot &&
                steps == old(steps) + [Pushed, Refreshed, Notified] &&
                engine.requests == old(engine.requests) + PushRequests(PendingOf(old(engine.db.expenses))) &&
                engine.db.expenses == PushResult(old(engine.db.expenses), |old(engine.requests)|, respond) &&
                bus.emitted == old(bus.emitted) + 1
      ensures engine.db.categories == old(engine.db.categories) && engine.db.subcategories == old(engine.db.subcategories)
      ensures engine.db.nextLocalId == old(engine.db.nextLocalId)
    {
      if isSyncing {
        return;
      }
      isSyncing := true;
      error := None;
      var r := engine.PushChanges(readError, respond);
      steps := steps + [Pushed];
      if r.Fail? {
        error := Some(ErrorMessage(r.error, SYNC_FAILED));
      } else {
        RefreshLastSync();
        bus.Emit();
        steps := steps + [Notified];
      }
      isSyncing := false;
    }

    /** `bootstrap`: ignored while a call is running. Otherwise runs the
      engine's bootstrap without clearing an earlier error; on success
      (including a skipped download) refreshes the shown time and signals
      the change; on failure keeps the error's message and signals nothing. */
    method Bootstrap(cats: Fetch<Category>, subs: Fetch<SubCategory>, exps: Fetch<Expense>, now: string)
      requires Valid()
      modifies this`isSyncing, this`lastSyncTime, this`error, this`steps
      modifies engine, engine.db, bus
      ensures Valid() && isSyncing == old(isSyncing)
      ensures old(isSyncing) ==>
                error == old(error) && lastSyncTime == old(lastSyncTime) && steps == old(steps) &&
                engine.requests == old(engine.requests) && engine.db.Snapshot() == old(engine.db.Snapshot()) &&
                engine.lastSyncSlot == old(engine.lastSyncSlot) && bus.emitted == old(bus.emitted)
      ensures !old(isSyncing) ==>
                var b := BootstrapRun(old(engine.db.Snapshot()), cats, subs, exps, now);
                engine.db.Snapshot() == b.tables && engine.requests == old(engine.requests) + b.requests &&
                engine.lastSyncSlot == (if b.stamp.Some? then b.stamp else old(engine.lastSyncSlot)) &&
                if b.outcome.Pass? then
                  error == old(error) && lastSyncTime == engine.lastSyncSlot &&
                  steps == old(steps) + [Bootstrapped, Refreshed, Notified] && bus.emitted == old(bus.emitted) + 1
                else
                  error == Some(ErrorMessage(b.outcome.error, BOOTSTRAP_FAILED)) &&
                  lastSyncTime == old(lastSyncTime) && steps == old(steps) + [Bootstrapped] &&
                  bus.emitted == old(bus.emitted)
    {
      if isSyncing {
        return;
      }
      isSyncing := true;
      var r := engine.Bootstrap(cats, subs, exps, now);
      steps := steps + [Bootstrapped];
      if r.Fail? {
        error := Some(ErrorMessage(r.error, BOOTSTRAP_FAILED));
      } else {
        RefreshLastSync();
        bus.Emit();
        steps := steps + [Notified];
      }
      isSyncing := false;
    }
  }
}
