// The worker: executes one task against the provider, the cache and the database.
module Worker {
  import opened Paths
  import opened RemoteTree
  import opened PathCaching
  import opened Reconcile
  import opened Agreement
  import opened Persistence
  import opened Providers
  import opened EngineContexts

  // `Stopped`: the engine is shutting down and the task was given up.
  datatype Handled = Finished | Stopped | Failed

  // The ids from `low` on that the provider has given out up to `high`.
  predicate IdBetween(low: int, id: Id, high: int) {
    id.Drive? && low <= id.n <= high
  }

  // At most as many requests as there are attempts, of which there always is one.
  predicate Within(env: Env, before: nat, after: nat) {
    before <= after <= before + Max(1, env.maxAttempts)
  }

  // Why a task may fail: the engine shuts down, the attempts are used up, the parent
  // folder is not cached, the local file is gone, or the database refuses the row.
  predicate Excused(env: Env, local: Local, w: World, task: Task, cancelled: bool, requests: int) {
    || cancelled
    || requests == Max(1, env.maxAttempts)
    || (task.SyncFile? && task.path !in local)
    || (SyncedPath(task).Some? && SyncedPath(task).value != [] && ParentId(env, w.cache, SyncedPath(task).value).None?)
    || RowCollision(w, task)
  }

  // What an upload that was given up may leave behind: an object or new bytes at
  // the task's path, with cache and database untouched.
  ghost predicate LeftBehind(env: Env, w: World, p: Path, w': World) {
    && w'.cache == w.cache && w'.db == w.db
    && (w'.tree == w.tree || exists newId, bytes :: StoredBytes(env, w, p, w'.tree, newId, bytes))
  }

  ghost predicate StoredBytes(env: Env, w: World, p: Path, t: Tree, newId: Id, bytes: Content) {
    && p != [] && ParentId(env, w.cache, p).Some? && Fresh(w.tree, env.root, newId)
    && (var r := Uploaded(env, w.tree, p, ParentId(env, w.cache, p).value, CachedId(w.cache, p), newId, bytes);
        r.Some? && r.value.0 == t)
  }

  // How a failed task may leave things: as they were, with something left behind by
  // an upload, or moved except for the row.
  ghost predicate FailedEnd(env: Env, local: Local, w: World, job: Job, w': World)
    requires TaskPaths(job.task)
  {
    || w' == w
    || (SyncedPath(job.task).Some? && LeftBehind(env, w, SyncedPath(job.task).value, w'))
    || (RowCollision(w, job.task) && Execute(env, local, w, job) == Outcome(w', false))
  }

  // What each end of a task means, from w to w'.
  ghost predicate EndsAs(env: Env, local: Local, w: World, job: Job, r: Handled, w': World, cancelled: bool,
                         requests: int) {
    TaskPaths(job.task) &&
    match r
    case Finished => Verified(env, local, job) && Execute(env, local, w, job) == Outcome(w', true)
    case Stopped => cancelled && w' == w
    case Failed => Excused(env, local, w, job.task, cancelled, requests) && FailedEnd(env, local, w, job, w')
  }

  // The rename of an unknown original is an upload of the target.
  lemma UnknownEndsAs(env: Env, local: Local, w: World, from: Path, to: Path, sync: Job, r: Handled, w': World,
                      cancelled: bool, requests: int)
    requires TaskPaths(Task.Rename(from, to)) && !KnownOriginal(w, from)
    requires IsFile(local, to) && !env.ignored(to, false)
    requires sync.task == Task.SyncFile(to) && EndsAs(env, local, w, sync, r, w', cancelled, requests)
    ensures EndsAs(env, local, w, sync.(task := Task.Rename(from, to)), r, w', cancelled, requests)
  {
  }

  // Uploading again to the id of a previous upload is the same as having
  // uploaded the new bytes in the first place: still at most one new object.
  lemma UploadAgain(env: Env, t: Tree, p: Path, parent: Id, existing: Option<Id>,
                    newId: Id, first: Content, t1: Tree, id: Id, other: Id, second: Content)
    requires p != [] && Uploaded(env, t, p, parent, existing, newId, first) == Some((t1, id))
    ensures Uploaded(env, t1, p, parent, Some(id), other, second)
         == Uploaded(env, t, p, parent, existing, newId, second)
    ensures t1.Keys <= t.Keys + {newId}
  {
    var again := Uploaded(env, t1, p, parent, Some(id), other, second).value.0;
    var direct := Uploaded(env, t, p, parent, existing, newId, second).value.0;
    assert again == direct;
  }

  // The tree between two attempts: untouched, or as one single upload leaves it.
  ghost predicate Attempted(env: Env, w: World, p: Path, parent: Id, newId: Id, stored: Content, touched: bool,
                            t: Tree, lastId: Option<Id>)
    requires p != []
  {
    && Fresh(w.tree, env.root, newId)
    && if !touched then t == w.tree && lastId == CachedId(w.cache, p)
       else
         && lastId.Some?
         && Uploaded(env, w.tree, p, parent, CachedId(w.cache, p), newId, stored) == Some((t, lastId.value))
  }

  lemma AttemptedAgain(env: Env, w: World, p: Path, parent: Id, newId: Id, first: Content, touched: bool,
                       t: Tree, lastId: Option<Id>, other: Id, second: Content, t': Tree, id: Id)
    requires p != [] && Attempted(env, w, p, parent, newId, first, touched, t, lastId)
    requires !touched ==> other == newId
    requires Uploaded(env, t, p, parent, lastId, other, second) == Some((t', id))
    ensures Attempted(env, w, p, parent, newId, second, true, t', Some(id))
  {
    if touched {
      UploadAgain(env, w.tree, p, parent, CachedId(w.cache, p), newId, first, t, lastId.value, other, second);
    }
  }

  lemma AttemptedLeaves(env: Env, w: World, p: Path, parent: Id, newId: Id, stored: Content, touched: bool,
                        t: Tree, lastId: Option<Id>)
    requires p != [] && ParentId(env, w.cache, p) == Some(parent)
    requires Attempted(env, w, p, parent, newId, stored, touched, t, lastId)
    ensures t.Keys <= w.tree.Keys + {newId} && LeftBehind(env, w, p, w.(tree := t))
  {
    if touched {
      assert StoredBytes(env, w, p, t, newId, stored);
    }
  }

  // Uploads until the stored bytes have the local hash. Every attempt after the
  // first success goes to the id that success returned.
  method UploadVerified(ctx: EngineContext, bytes: Content, p: Path, parent: Id)
    returns (r: Option<Id>, ghost newId: Id, ghost stored: Content)
    requires ctx.Valid() && p != [] && Canonical(p)
    requires ParentId(ctx.env, ctx.cache.model, p) == Some(parent)
    modifies ctx.provider, ctx.shutdown
    ensures ctx.Valid() && ctx.provider.calls == old(ctx.provider.calls)
    ensures Within(ctx.env, old(ctx.provider.uploads), ctx.provider.uploads)
    ensures r.None? && !ctx.shutdown.cancelled ==>
              ctx.provider.uploads - old(ctx.provider.uploads) == Max(1, ctx.env.maxAttempts)
    ensures Fresh(old(ctx.provider.tree), ctx.env.root, newId)
    ensures IdBetween(old(ctx.provider.nextId), newId, ctx.provider.nextId)
    ensures ctx.provider.tree.Keys <= old(ctx.provider.tree).Keys + {newId}
    ensures r.Some? ==>
              && ctx.env.hash(stored) == ctx.env.hash(bytes)
              && Uploaded(ctx.env, old(ctx.provider.tree), p, parent, CachedId(ctx.cache.model, p), newId, stored)
                 == Some((ctx.provider.tree, r.value))
    ensures r.None? ==> LeftBehind(ctx.env, old(ctx.View()), p, ctx.View())
  {
    ghost var w := ctx.View();
    var known := ctx.cache.Lookup(p);
    var lastId := if known.Some? then Some(known.value.driveId) else None;
    newId := Drive(ctx.provider.nextId);
    stored := bytes;
    var attempt := 1;
    ghost var touched := false;
    while true
      invariant ctx.Valid() && 1 <= attempt <= Max(1, ctx.env.maxAttempts)
      invariant ctx.provider.uploads == old(ctx.provider.uploads) + attempt - 1
      invariant ctx.provider.calls == old(ctx.provider.calls)
      invariant IdBetween(old(ctx.provider.nextId), newId, ctx.provider.nextId)
      invariant !touched ==> newId == Drive(ctx.provider.nextId)
      invariant Attempted(ctx.env, w, p, parent, newId, stored, touched, ctx.provider.tree, lastId)
      decreases Max(1, ctx.env.maxAttempts) - attempt
    {
      AttemptedLeaves(ctx.env, w, p, parent, newId, stored, touched, ctx.provider.tree, lastId);
      var stop := ctx.shutdown.IsCancelled();
      if stop {
        return None, newId, stored;
      }
      ghost var t, other := ctx.provider.tree, Drive(ctx.provider.nextId);
      ghost var sent;
      var result;
      result, sent := ctx.provider.Upload(bytes, p, parent, lastId);
      if result.Some? {
        AttemptedAgain(ctx.env, w, p, parent, newId, stored, touched, t, lastId, other, sent,
                       ctx.provider.tree, result.value.driveId);
        stored, touched, lastId := sent, true, Some(result.value.driveId);
      }
      AttemptedLeaves(ctx.env, w, p, parent, newId, stored, touched, ctx.provider.tree, lastId);
      if result.Some? && ctx.env.hash(bytes) == result.value.md5 {
        return lastId, newId, stored;
      }
      if attempt >= ctx.env.maxAttempts {
        return None, newId, stored;
      }
      stop := ctx.shutdown.IsCancelled();
      if stop {
        return None, newId, stored;
      }
      attempt := attempt + 1;
    }
  }

  // The folder a new object goes into.
  method FindParent(ctx: EngineContext, p: Path) returns (parent: Option<Id>)
    requires ctx.Valid() && p != [] && Canonical(p)
    ensures parent == ParentId(ctx.env, ctx.cache.model, p)
  {
    if |p| == 1 {
      return Some(ctx.env.root);
    }
    InitCanonical(p);
    var folder := ctx.cache.Lookup(Init(p));
    return if folder.Some? then Some(folder.value.driveId) else None;
  }

  lemma UploadedAndRecorded(env: Env, local: Local, w: World, job: Job, parent: Id, id: Id, w': World,
                            cancelled: bool, requests: int)
    requires job.task.SyncFile? && TaskPaths(job.task) && IsFile(local, job.task.path)
    requires !SkippedAtOnce(env, local, w, job.task.path) && !SameHash(env, local, w, job.task.path)
    requires ParentId(env, w.cache, job.task.path) == Some(parent)
    requires env.hash(job.stored) == FileHash(env, local, job.task.path)
    requires Uploaded(env, w.tree, job.task.path, parent, CachedId(w.cache, job.task.path), job.newId, job.stored)
             == Some((w'.tree, id))
    requires w'.cache == w.cache[job.task.path := CacheEntry(id, parent)]
    requires w'.db == w.db[job.task.path := Row(FileHash(env, local, job.task.path), local[job.task.path].mtime)]
    ensures EndsAs(env, local, w, job, Finished, w', cancelled, requests)
  {
  }

  // The part of `sync_file` after the skip checks: upload, then cache and row.
  method UploadAndRecord(ctx: EngineContext, local: Local, p: Path) returns (r: Handled, ghost job: Job)
    requires ctx.Valid() && p != [] && Canonical(p) && IsFile(local, p)
    requires !SkippedAtOnce(ctx.env, local, ctx.View(), p) && !SameHash(ctx.env, local, ctx.View(), p)
    modifies ctx.provider, ctx.cache, ctx.db`fileIndex, ctx.shutdown
    ensures ctx.Valid() && job.task == Task.SyncFile(p) && Fresh(old(ctx.provider.tree), ctx.env.root, job.newId)
    ensures IdBetween(old(ctx.provider.nextId), job.newId, ctx.provider.nextId)
    ensures Within(ctx.env, old(ctx.provider.Requests()), ctx.provider.Requests())
    ensures ctx.provider.tree.Keys <= old(ctx.provider.tree).Keys + {job.newId}
    ensures EndsAs(ctx.env, local, old(ctx.View()), job, r, ctx.View(), ctx.shutdown.cancelled,
                   ctx.provider.Requests() - old(ctx.provider.Requests()))
  {
    ghost var w, before := ctx.View(), ctx.provider.Requests();
    job := Job(Task.SyncFile(p), Drive(ctx.provider.nextId), local[p].content);
    var parent := FindParent(ctx, p);
    if parent.None? {
      return Failed, job;
    }
    var id;
    ghost var newId, stored;
    id, newId, stored := UploadVerified(ctx, local[p].content, p, parent.value);
    job := Job(Task.SyncFile(p), newId, stored);
    if id.None? {
      return Failed, job;
    }
    ctx.cache.Insert(p, id.value, parent.value);
    ctx.db.Upsert(p, Row(FileHash(ctx.env, local, p), local[p].mtime));
    UploadedAndRecorded(ctx.env, local, w, job, parent.value, id.value, ctx.View(), ctx.shutdown.cancelled,
                        ctx.provider.Requests() - before);
    return Finished, job;
  }

  // The ends of `sync_file` before any upload.
  lemma SyncEndsEarly(env: Env, local: Local, w: World, p: Path, job: Job, cancelled: bool)
    requires LocalTree(local) && job.task == Task.SyncFile(p) && TaskPaths(job.task)
    requires IsFile(local, p) ==> job.stored == local[p].content
    ensures p !in local ==> EndsAs(env, local, w, job, Failed, w, cancelled, 0)
    ensures p in local && SkippedAtOnce(env, local, w, p) ==> EndsAs(env, local, w, job, Finished, w, cancelled, 0)
    ensures IsFile(local, p) && !SkippedAtOnce(env, local, w, p) && SameHash(env, local, w, p) ==>
              EndsAs(env, local, w, job, Finished, w.(db := w.db[p := Row(FileHash(env, local, p), local[p].mtime)]),
                     cancelled, 0)
  {
  }

  method SyncFile(ctx: EngineContext, local: Local, p: Path) returns (r: Handled, ghost job: Job)
    requires ctx.Valid() && LocalTree(local) && p != [] && Canonical(p)
    modifies ctx.provider, ctx.cache, ctx.db`fileIndex, ctx.shutdown
    ensures ctx.Valid() && job.task == Task.SyncFile(p) && Fresh(old(ctx.provider.tree), ctx.env.root, job.newId)
    ensures IdBetween(old(ctx.provider.nextId), job.newId, ctx.provider.nextId)
    ensures Within(ctx.env, old(ctx.provider.Requests()), ctx.provider.Requests())
    ensures ctx.provider.tree.Keys <= old(ctx.provider.tree).Keys + {job.newId}
    ensures EndsAs(ctx.env, local, old(ctx.View()), job, r, ctx.View(), ctx.shutdown.cancelled,
                   ctx.provider.Requests() - old(ctx.provider.Requests()))
  {
    job := Job(Task.SyncFile(p), Drive(ctx.provider.nextId), if IsFile(local, p) then local[p].content else []);
    SyncEndsEarly(ctx.env, local, ctx.View(), p, job, ctx.shutdown.cancelled);
    if p !in local {
      return Failed, job;
    }
    if ctx.env.ignored(p, local[p].Dir?) || !local[p].LocalFile? {
      return Finished, job;
    }
    if local[p].content == [] {
      return Finished, job;
    }
    var row := ctx.db.Lookup(p);
    var cached := ctx.cache.Lookup(p);
    if row.Some? && row.value.mtime == local[p].mtime && cached.Some? {
      return Finished, job;
    }
    var stop := ctx.shutdown.IsCancelled();
    if stop {
      return Stopped, job;
    }
    var hash := ctx.env.hash(local[p].content);
    if row.Some? && row.value.hash == hash && cached.Some? {
      ctx.db.Upsert(p, Row(hash, local[p].mtime));
      return Finished, job;
    }
    r, job := UploadAndRecord(ctx, local, p);
  }

  method DeletePath(ctx: EngineContext, local: Local, p: Path) returns (r: Handled)
    requires ctx.Valid() && p != [] && Canonical(p)
    modifies ctx.provider, ctx.cache, ctx.db`fileIndex, ctx.shutdown
    ensures ctx.Valid() && r != Stopped && ctx.provider.nextId >= old(ctx.provider.nextId)
    ensures Within(ctx.env, old(ctx.provider.Requests()), ctx.provider.Requests())
    ensures r == Failed ==>
              Excused(ctx.env, local, old(ctx.View()), Task.Delete(p), ctx.shutdown.cancelled,
                      ctx.provider.Requests() - old(ctx.provider.Requests()))
    ensures r == Finished ==> ExecDelete(ctx.env, local, old(ctx.View()), p) == Outcome(ctx.View(), true)
    ensures r == Failed ==> ctx.View() == old(ctx.View())
  {
    if ctx.env.ignored(p, IsDir(local, p)) {
      return Finished;
    }
    var entry := ctx.cache.Lookup(p);
    if entry.Some? {
      var deleted, waited := ctx.provider.Retry(DeleteId(entry.value.driveId), ctx.shutdown);
      if deleted.None? {
        return Failed;
      }
      ctx.cache.RemoveCascades(p);
    }
    ctx.db.Delete(p);
    return Finished;
  }

  lemma MovedAsSpecified(env: Env, local: Local, w: World, job: Job, parent: Id, w': World, ok: bool)
    requires job.task.Rename? && TaskPaths(job.task) && KnownOriginal(w, job.task.from)
    requires !(env.ignored(job.task.from, IsDir(local, job.task.from))
               && env.ignored(job.task.to, IsDir(local, job.task.to)))
    requires ParentId(env, w.cache, job.task.to) == Some(parent)
    requires var id := w.cache[job.task.from].driveId;
             && CallEffect(env, w.tree, RenameId(id, Last(job.task.to), parent), w'.tree, id)
             && w'.cache == Cascade(w.cache, job.task.from)[job.task.to := CacheEntry(id, parent)]
    requires w'.db == MovedRow(w.db, job.task.from, job.task.to) && ok == !KeyConflict(w.db, job.task.from, job.task.to)
    ensures Execute(env, local, w, job) == Outcome(w', ok)
    ensures !ok ==> RowCollision(w, job.task)
  {
  }

  // The remote part of a rename; None when the parent is unknown or the call failed.
  method MoveObject(ctx: EngineContext, id: Id, to: Path) returns (parent: Option<Id>)
    requires ctx.Valid() && to != [] && Canonical(to)
    modifies ctx.provider, ctx.shutdown
    ensures ctx.Valid() && ctx.provider.nextId >= old(ctx.provider.nextId)
    ensures Within(ctx.env, old(ctx.provider.Requests()), ctx.provider.Requests())
    ensures parent.Some? ==>
              && ParentId(ctx.env, ctx.cache.model, to) == parent
              && CallEffect(ctx.env, old(ctx.provider.tree), RenameId(id, Last(to), parent.value),
                            ctx.provider.tree, id)
    ensures parent.None? ==>
              && ctx.provider.tree == old(ctx.provider.tree)
              && (ParentId(ctx.env, ctx.cache.model, to).None? || ctx.shutdown.cancelled
                  || ctx.provider.Requests() - old(ctx.provider.Requests()) == Max(1, ctx.env.maxAttempts))
  {
    parent := FindParent(ctx, to);
    if parent.Some? {
      var moved, waited := ctx.provider.Retry(RenameId(id, Last(to), parent.value), ctx.shutdown);
      if moved.None? {
        parent := None;
      }
    }
  }

  // The part of `rename` for an original that is both cached and recorded.
  method MoveKnown(ctx: EngineContext, local: Local, from: Path, to: Path, ghost job: Job) returns (r: Handled)
    requires ctx.Valid() && job.task == Task.Rename(from, to) && TaskPaths(job.task)
    requires KnownOriginal(ctx.View(), from) && Verified(ctx.env, local, job)
    requires !(ctx.env.ignored(from, IsDir(local, from)) && ctx.env.ignored(to, IsDir(local, to)))
    modifies ctx.provider, ctx.cache, ctx.db`fileIndex, ctx.shutdown
    ensures ctx.Valid() && r != Stopped && ctx.provider.nextId >= old(ctx.provider.nextId)
    ensures Within(ctx.env, old(ctx.provider.Requests()), ctx.provider.Requests())
    ensures EndsAs(ctx.env, local, old(ctx.View()), job, r, ctx.View(), ctx.shutdown.cancelled,
                   ctx.provider.Requests() - old(ctx.provider.Requests()))
  {
    ghost var w := ctx.View();
    var entry := ctx.cache.Lookup(from);
    var id := entry.value.driveId;
    var parent := MoveObject(ctx, id, to);
    if parent.None? {
      return Failed;
    }
    ctx.cache.RemoveCascades(from);
    ctx.cache.Insert(to, id, parent.value);
    var ok := ctx.db.Rename(from, to);
    MovedAsSpecified(ctx.env, local, w, job, parent.value, ctx.View(), ok);
    return if ok then Finished else Failed;
  }

  method RenamePath(ctx: EngineContext, local: Local, from: Path, to: Path) returns (r: Handled, ghost job: Job)
    requires ctx.Valid() && LocalTree(local) && TaskPaths(Task.Rename(from, to))
    modifies ctx.provider, ctx.cache, ctx.db`fileIndex, ctx.shutdown
    ensures ctx.Valid() && job.task == Task.Rename(from, to) && Fresh(old(ctx.provider.tree), ctx.env.root, job.newId)
    ensures IdBetween(old(ctx.provider.nextId), job.newId, ctx.provider.nextId)
    ensures Within(ctx.env, old(ctx.provider.Requests()), ctx.provider.Requests())
    ensures EndsAs(ctx.env, local, old(ctx.View()), job, r, ctx.View(), ctx.shutdown.cancelled,
                   ctx.provider.Requests() - old(ctx.provider.Requests()))
  {
    job := Job(Task.Rename(from, to), Drive(ctx.provider.nextId), if IsFile(local, to) then local[to].content else []);
    if ctx.env.ignored(from, IsDir(local, from)) && ctx.env.ignored(to, IsDir(local, to)) {
      return Finished, job;
    }
    var entry := ctx.cache.Lookup(from);
    var row := ctx.db.Lookup(from);
    if entry.None? || row.None? {
      if IsFile(local, to) && !ctx.env.ignored(to, false) {
        ghost var w, before := ctx.View(), ctx.provider.Requests();
        ghost var sync;
        r, sync := SyncFile(ctx, local, to);
        UnknownEndsAs(ctx.env, local, w, from, to, sync, r, ctx.View(), ctx.shutdown.cancelled,
                      ctx.provider.Requests() - before);
        job := sync.(task := Task.Rename(from, to));
        return;
      }
      return Finished, job;
    }
    r := MoveKnown(ctx, local, from, to, job);
  }

  // One handled task. In a simulation nothing is touched. Any id the task may have
  // used comes before those of later tasks.
  method HandleTask(ctx: EngineContext, local: Local, task: Task) returns (r: Handled, ghost job: Job)
    requires ctx.Valid() && LocalTree(local) && TaskPaths(task)
    modifies ctx.provider, ctx.cache, ctx.db`fileIndex, ctx.shutdown
    ensures ctx.Valid() && job.task == task && Fresh(old(ctx.provider.tree), ctx.env.root, job.newId)
    ensures IdBetween(old(ctx.provider.nextId), job.newId, ctx.provider.nextId - 1)
    ensures Within(ctx.env, old(ctx.provider.Requests()), ctx.provider.Requests())
    ensures ctx.dryRun ==>
              r == Finished && ctx.View() == old(ctx.View()) && ctx.provider.Requests() == old(ctx.provider.Requests())
    ensures !ctx.dryRun ==>
              EndsAs(ctx.env, local, old(ctx.View()), job, r, ctx.View(), ctx.shutdown.cancelled,
                     ctx.provider.Requests() - old(ctx.provider.Requests()))
  {
    job := Job(task, Drive(ctx.provider.nextId), []);
    if ctx.dryRun {
      r := Finished;
    } else {
      match task {
        case SyncFile(p) => r, job := SyncFile(ctx, local, p);
        case Delete(p) => r := DeletePath(ctx, local, p);
        case Rename(from, to) => r, job := RenamePath(ctx, local, from, to);
      }
    }
    ctx.provider.SkipId();
  }
}
