// The context shared by the scanner, the workers and the engine loop, and the
// bounded channel that carries tasks from the first to the second.
module EngineContexts {
  import opened PathCaching
  import opened Reconcile
  import opened Persistence
  import opened Providers

  datatype Sent = Accepted | Closed | Blocked

  // While a scan or a flush runs nobody takes tasks out: the receiver is another
  // arm of the loop that awaits it. A send into a full channel never returns.
  class TaskChannel {
    const capacity: nat
    var queue: seq<Task>
    var closed: bool

    constructor (capacity: nat)
      ensures this.capacity == capacity && queue == [] && !closed
    {
      this.capacity := capacity;
      queue := [];
      closed := false;
    }

    method Send(task: Task) returns (r: Sent)
      modifies this
      ensures r == Closed <==> closed
      ensures old(closed) ==> closed
      ensures r == Accepted ==> |old(queue)| < capacity && queue == old(queue) + [task]
      ensures r != Accepted ==> queue == old(queue)
      ensures r == Blocked ==> |queue| >= capacity
    {
      if * {
        closed := true;
      }
      if closed {
        return Closed;
      }
      if |queue| >= capacity {
        return Blocked;
      }
      queue := queue + [task];
      return Accepted;
    }
  }

  class EngineContext {
    const env: Env
    const dryRun: bool
    const cache: PathCache
    const db: Database
    const provider: Provider
    const shutdown: CancellationToken

    constructor (env: Env, dryRun: bool, cache: PathCache, db: Database, provider: Provider,
                 shutdown: CancellationToken)
      requires cache.Valid() && provider.Valid() && provider.env == env
      ensures Valid() && this.env == env && this.dryRun == dryRun
      ensures this.cache == cache && this.db == db && this.provider == provider && this.shutdown == shutdown
    {
      this.env, this.dryRun := env, dryRun;
      this.cache, this.db, this.provider, this.shutdown := cache, db, provider, shutdown;
    }

    ghost predicate Valid()
      reads this, cache, provider
    {
      cache.Valid() && provider.Valid() && provider.env == env
    }

    ghost function View(): World
      reads this, cache, db, provider
    {
      World(provider.tree, cache.model, db.fileIndex)
    }
  }
}
