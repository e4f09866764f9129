// Every successful operation keeps the cache exactly the listing of the remote
// tree, and the recorded hashes those of the remote bytes.
module Agreement {
  import opened Paths
  import opened RemoteTree
  import opened PathCaching
  import opened Reconcile

  lemma CachedParent(env: Env, w: World, p: Path)
    requires Consistent(env, w) && p != [] && ParentId(env, w.cache, p).Some?
    ensures At(w.tree, env.root, Init(p), ParentId(env, w.cache, p).value)
  {
    if |p| == 1 {
      assert Init(p) == [];
    }
  }

  // An agreeing cache holds every parent of its entries.
  lemma AgreesParentClosed(env: Env, w: World)
    requires Consistent(env, w)
    ensures ParentClosed(w.cache, env.root)
  {
    forall p | p in w.cache
      ensures |p| == 1 ==> w.cache[p].parentId == env.root
      ensures |p| > 1 ==> Init(p) in w.cache && w.cache[Init(p)].driveId == w.cache[p].parentId
    {
      assert At(w.tree, env.root, Init(p), w.tree[w.cache[p].driveId].parent);
    }
  }

  lemma InsertAgrees(env: Env, w: World, p: Path, parent: Id, id: Id, body: Body)
    requires Consistent(env, w) && p != [] && Canonical(p) && p !in w.cache
    requires Fresh(w.tree, env.root, id)
    requires At(w.tree, env.root, Init(p), parent) && IsFolder(w.tree, env.root, parent)
    ensures var t := w.tree[id := Node(Last(p), parent, body)];
            WellFormed(t, env.root) && Agrees(w.cache[p := CacheEntry(id, parent)], t, env.root)
  {
    InitCanonical(p);
    UnlistedNameFree(w.tree, env.root, p, parent);
    var node := Node(Last(p), parent, body);
    var t := w.tree[id := node];
    InsertWellFormed(w.tree, env.root, id, node);
    var cache := w.cache[p := CacheEntry(id, parent)];
    forall q | q in cache
      ensures q != [] && At(t, env.root, q, cache[q].driveId) && cache[q].parentId == t[cache[q].driveId].parent
    {
      InsertAt(w.tree, env.root, id, node, q, cache[q].driveId);
    }
    forall q, j | q != [] && At(t, env.root, q, j) ensures q in cache && cache[q].driveId == j {
      InsertAt(w.tree, env.root, id, node, q, j);
      if j == id && !At(w.tree, env.root, q, j) {
        PathUnique(w.tree, env.root, Init(q), Init(p), parent);
        assert q == Init(q) + [Last(q)] && p == Init(p) + [Last(p)];
      }
    }
  }

  // Rewriting the file cached at p, under its own name, changes no path.
  lemma RewriteAgrees(env: Env, w: World, p: Path, bytes: Content)
    requires Consistent(env, w) && p in w.cache && w.tree[w.cache[p].driveId].body.File?
    ensures var id := w.cache[p].driveId;
            var t := w.tree[id := w.tree[id].(name := Last(p), body := File(bytes))];
            WellFormed(t, env.root) && Agrees(w.cache, t, env.root)
  {
    var id := w.cache[p].driveId;
    assert w.tree[id].name == Last(p);
    var t := w.tree[id := w.tree[id].(body := File(bytes))];
    forall q, j ensures At(t, env.root, q, j) <==> At(w.tree, env.root, q, j) {
      ContentAt(w.tree, env.root, id, File(bytes), q, j);
    }
  }

  lemma DeleteAgrees(env: Env, w: World, p: Path)
    requires Consistent(env, w) && p in w.cache
    ensures var id := w.cache[p].driveId;
            WellFormed(w.tree - {id}, env.root) && Agrees(Cascade(w.cache, p), w.tree - {id}, env.root)
  {
    var id := w.cache[p].driveId;
    var t, cache := w.tree - {id}, Cascade(w.cache, p);
    forall q, j ensures At(t, env.root, q, j) <==> At(w.tree, env.root, q, j) && !IsPrefix(p, q) {
      DeleteAt(w.tree, env.root, p, id, q, j);
    }
    forall q | q in cache ensures q != [] && At(t, env.root, q, cache[q].driveId) {
    }
  }

  // A rename that neither overwrites a cached path nor moves a folder.
  ghost predicate SafeRename(w: World, from: Path, to: Path) {
    KnownOriginal(w, from) ==>
      && to !in w.cache
      && w.cache[from].driveId in w.tree && w.tree[w.cache[from].driveId].body.File?
  }

  lemma NothingBelowFile(env: Env, w: World, p: Path, q: Path)
    requires Consistent(env, w) && p in w.cache && w.tree[w.cache[p].driveId].body.File?
    requires q in w.cache && IsPrefix(p, q)
    ensures q == p
  {
    var a := AncestorAt(w.tree, env.root, p, q, w.cache[q].driveId);
    assert a == w.cache[p].driveId;
  }

  ghost predicate Movable(env: Env, w: World, from: Path, to: Path, parent: Id) {
    && Consistent(env, w) && from in w.cache && to !in w.cache && to != [] && Canonical(to)
    && w.cache[from].driveId in w.tree && w.tree[w.cache[from].driveId].body.File?
    && At(w.tree, env.root, Init(to), parent) && IsFolder(w.tree, env.root, parent)
  }

  function MovedTree(w: World, from: Path, to: Path, parent: Id): Tree
    requires from in w.cache && w.cache[from].driveId in w.tree && to != []
  {
    var id := w.cache[from].driveId;
    w.tree[id := w.tree[id].(name := Last(to), parent := parent)]
  }

  function MovedCache(w: World, from: Path, to: Path, parent: Id): Entries
    requires from in w.cache
  {
    Cascade(w.cache, from)[to := CacheEntry(w.cache[from].driveId, parent)]
  }

  lemma MovedKeys(env: Env, w: World, from: Path, to: Path, parent: Id, q: Path)
    requires Movable(env, w, from, to, parent)
    ensures q in MovedCache(w, from, to, parent) <==> q == to || (q in w.cache && q != from)
  {
    if q in w.cache && IsPrefix(from, q) { NothingBelowFile(env, w, from, q); }
  }

  lemma MovedEntryListed(env: Env, w: World, from: Path, to: Path, parent: Id, q: Path)
    requires Movable(env, w, from, to, parent) && q in MovedCache(w, from, to, parent)
    ensures var t, e := MovedTree(w, from, to, parent), MovedCache(w, from, to, parent)[q];
            q != [] && At(t, env.root, q, e.driveId) && e.parentId == t[e.driveId].parent
  {
    var id := w.cache[from].driveId;
    MovedKeys(env, w, from, to, parent, q);
    UnlistedNameFree(w.tree, env.root, to, parent);
    MoveAt(w.tree, env.root, id, Last(to), parent, q, MovedCache(w, from, to, parent)[q].driveId);
    if q != to && w.cache[q].driveId == id {
      PathUnique(w.tree, env.root, q, from, id);
    }
  }

  lemma ListedIsMovedEntry(env: Env, w: World, from: Path, to: Path, parent: Id, q: Path, j: Id)
    requires Movable(env, w, from, to, parent) && q != [] && At(MovedTree(w, from, to, parent), env.root, q, j)
    ensures q in MovedCache(w, from, to, parent) && MovedCache(w, from, to, parent)[q].driveId == j
  {
    var id := w.cache[from].driveId;
    MovedKeys(env, w, from, to, parent, q);
    UnlistedNameFree(w.tree, env.root, to, parent);
    MoveAt(w.tree, env.root, id, Last(to), parent, q, j);
    if j == id {
      PathUnique(w.tree, env.root, Init(q), Init(to), parent);
      assert q == Init(q) + [Last(q)] && to == Init(to) + [Last(to)];
    } else if q == from {
      IdUnique(w.tree, env.root, q, j, id);
    }
  }

  lemma MoveAgrees(env: Env, w: World, from: Path, to: Path, parent: Id)
    requires Movable(env, w, from, to, parent)
    ensures WellFormed(MovedTree(w, from, to, parent), env.root)
    ensures Agrees(MovedCache(w, from, to, parent), MovedTree(w, from, to, parent), env.root)
  {
    InitCanonical(to);
    UnlistedNameFree(w.tree, env.root, to, parent);
    var t, cache := MovedTree(w, from, to, parent), MovedCache(w, from, to, parent);
    forall q | q in cache
      ensures q != [] && At(t, env.root, q, cache[q].driveId) && cache[q].parentId == t[cache[q].driveId].parent
    {
      MovedEntryListed(env, w, from, to, parent, q);
    }
    forall q, j | q != [] && At(t, env.root, q, j) ensures q in cache && cache[q].driveId == j {
      ListedIsMovedEntry(env, w, from, to, parent, q, j);
    }
  }

  // The entry a cached path would get from its cached parent is the one it has.
  lemma SameParent(env: Env, w: World, p: Path)
    requires Consistent(env, w) && p in w.cache && ParentId(env, w.cache, p).Some?
    ensures w.cache[p].parentId == ParentId(env, w.cache, p).value
  {
    CachedParent(env, w, p);
    var up := w.tree[w.cache[p].driveId].parent;
    assert At(w.tree, env.root, Init(p), up);
    IdUnique(w.tree, env.root, Init(p), up, ParentId(env, w.cache, p).value);
  }

  lemma UploadAgrees(env: Env, w: World, p: Path, parent: Id, newId: Id, stored: Content)
    requires Consistent(env, w) && p != [] && Canonical(p) && Fresh(w.tree, env.root, newId)
    requires ParentId(env, w.cache, p) == Some(parent)
    requires Uploaded(env, w.tree, p, parent, CachedId(w.cache, p), newId, stored).Some?
    ensures var (t, id) := Uploaded(env, w.tree, p, parent, CachedId(w.cache, p), newId, stored).value;
            WellFormed(t, env.root) && Agrees(w.cache[p := CacheEntry(id, parent)], t, env.root)
  {
    if p in w.cache {
      RewriteAgrees(env, w, p, stored);
      SameParent(env, w, p);
      assert w.cache[p := w.cache[p]] == w.cache;
    } else {
      CachedParent(env, w, p);
      InsertAgrees(env, w, p, parent, newId, File(stored));
    }
  }

  // Moving a file keeps the cache equal to the listing exactly if the target was
  // not cached (or is the source itself); over another object it never does.
  lemma RenameAgreement(env: Env, local: Local, w: World, job: Job)
    requires Consistent(env, w) && job.task.Rename? && TaskPaths(job.task)
    requires KnownOriginal(w, job.task.from) && w.tree[w.cache[job.task.from].driveId].body.File?
    requires Execute(env, local, w, job).world != w
    ensures Consistent(env, Execute(env, local, w, job).world) <==>
            (job.task.to !in w.cache || job.task.to == job.task.from)
  {
    var (from, to) := (job.task.from, job.task.to);
    var w' := Execute(env, local, w, job).world;
    var id, parent := w.cache[from].driveId, ParentId(env, w.cache, to).value;
    CachedParent(env, w, to);
    if to !in w.cache {
      MoveAgrees(env, w, from, to, parent);
    } else if to == from {
      SameParent(env, w, to);
      assert w'.tree == w.tree;
      forall q | q in w.cache && IsPrefix(from, q) ensures q == from {
        NothingBelowFile(env, w, from, q);
      }
      assert w'.cache == w.cache;
    } else {
      var j := w.cache[to].driveId;
      if j == id { PathUnique(w.tree, env.root, from, to, id); }
      MoveAt(w.tree, env.root, id, Last(to), parent, to, j);
      assert At(w'.tree, env.root, to, j) && w'.cache[to].driveId == id;
    }
  }

  lemma SyncConsistent(env: Env, local: Local, w: World, p: Path, newId: Id, stored: Content)
    requires Consistent(env, w) && p != [] && Canonical(p) && Fresh(w.tree, env.root, newId)
    ensures Consistent(env, ExecSync(env, local, w, p, newId, stored).world)
  {
    var parent := ParentId(env, w.cache, p);
    if parent.Some? && Uploaded(env, w.tree, p, parent.value, CachedId(w.cache, p), newId, stored).Some? {
      UploadAgrees(env, w, p, parent.value, newId, stored);
    }
  }

  ghost predicate JobAllowed(env: Env, local: Local, w: World, job: Job) {
    && LocalTree(local) && TaskPaths(job.task)
    && Fresh(w.tree, env.root, job.newId)
    && (job.task.Rename? ==> SafeRename(w, job.task.from, job.task.to))
  }

  lemma ExecuteConsistent(env: Env, local: Local, w: World, job: Job)
    requires Consistent(env, w) && JobAllowed(env, local, w, job)
    ensures Consistent(env, Execute(env, local, w, job).world)
  {
    var o := Execute(env, local, w, job);
    match job.task
    case SyncFile(p) => SyncConsistent(env, local, w, p, job.newId, job.stored);
    case Delete(p) =>
      if p in w.cache { DeleteAgrees(env, w, p); }
    case Rename(from, to) =>
      if !KnownOriginal(w, from) {
        SyncConsistent(env, local, w, to, job.newId, job.stored);
      } else if o.world != w {
        CachedParent(env, w, to);
        MoveAgrees(env, w, from, to, ParentId(env, w.cache, to).value);
      }
  }

  // ---- Recorded hashes -----------------------------------------------------

  // The path whose bytes the job uploads, if any.
  function SyncedPath(task: Task): Option<Path> {
    match task
    case SyncFile(p) => Some(p)
    case Delete(_) => None
    case Rename(_, to) => Some(to)
  }

  // The accepted upload stored bytes whose hash is the local file's.
  ghost predicate Verified(env: Env, local: Local, job: Job) {
    var p := SyncedPath(job.task);
    p.Some? && IsFile(local, p.value) ==> env.hash(job.stored) == FileHash(env, local, p.value)
  }

  // The rename finds both rows present: the database refuses to move the row.
  predicate RowCollision(w: World, task: Task) {
    task.Rename? && KnownOriginal(w, task.from) && task.to in w.db && task.from != task.to
  }

  lemma DistinctIds(env: Env, w: World, p: Path, q: Path)
    requires Consistent(env, w) && p in w.cache && q in w.cache && w.cache[p].driveId == w.cache[q].driveId
    ensures p == q
  {
    PathUnique(w.tree, env.root, p, q, w.cache[p].driveId);
  }

  lemma SyncSound(env: Env, local: Local, w: World, p: Path, newId: Id, stored: Content)
    requires Consistent(env, w) && DbSound(env, w) && p != [] && Fresh(w.tree, env.root, newId)
    requires IsFile(local, p) ==> env.hash(stored) == FileHash(env, local, p)
    ensures DbSound(env, ExecSync(env, local, w, p, newId, stored).world)
  {
    var w' := ExecSync(env, local, w, p, newId, stored).world;
    forall q ensures RowTrue(env, w', q) {
      assert RowTrue(env, w, q);
      if q != p && q in w.cache && p in w.cache && w.cache[p].driveId == w.cache[q].driveId {
        DistinctIds(env, w, p, q);
      }
    }
  }

  lemma DeleteSound(env: Env, local: Local, w: World, p: Path)
    requires Consistent(env, w) && DbSound(env, w)
    ensures DbSound(env, ExecDelete(env, local, w, p).world)
  {
    var w' := ExecDelete(env, local, w, p).world;
    forall q ensures RowTrue(env, w', q) {
      assert RowTrue(env, w, q);
    }
  }

  // One handled task keeps every recorded hash true, except when a rename meets
  // an existing row at its target: then exactly if that row's hash was already
  // the one of the moved file.
  lemma ExecuteSound(env: Env, local: Local, w: World, job: Job)
    requires Consistent(env, w) && DbSound(env, w) && JobAllowed(env, local, w, job) && Verified(env, local, job)
    ensures var o := Execute(env, local, w, job);
            DbSound(env, o.world) <==>
            (RowCollision(w, job.task) && o.world != w ==>
               w.db[job.task.to].hash == w.db[job.task.from].hash)
  {
    match job.task
    case SyncFile(p) => SyncSound(env, local, w, p, job.newId, job.stored);
    case Delete(p) => DeleteSound(env, local, w, p);
    case Rename(from, to) =>
      if !KnownOriginal(w, from) {
        SyncSound(env, local, w, to, job.newId, job.stored);
      } else {
        RenameSound(env, local, w, job, from, to);
      }
  }

  lemma RenameSound(env: Env, local: Local, w: World, job: Job, from: Path, to: Path)
    requires Consistent(env, w) && DbSound(env, w) && JobAllowed(env, local, w, job)
    requires job.task == Rename(from, to) && KnownOriginal(w, from)
    ensures var o := Execute(env, local, w, job);
            DbSound(env, o.world) <==>
            (to in w.db && from != to && o.world != w ==> w.db[to].hash == w.db[from].hash)
  {
    var w' := Execute(env, local, w, job).world;
    if w' != w {
      var id := w.cache[from].driveId;
      assert from != to && RowTrue(env, w, from);
      assert w'.tree[id].body == w.tree[id].body && w'.cache[to].driveId == id;
      assert RowTrue(env, w', to) <==> w'.db[to].hash == w.db[from].hash;
      forall q | q != to ensures RowTrue(env, w', q) {
        assert RowTrue(env, w, q);
        if q in w.cache && w.cache[q].driveId == id {
          DistinctIds(env, w, q, from);
        }
      }
    }
  }

  // ---- Uploads that fail after storing something ---------------------------

  // When every attempt ends in a hash mismatch the worker gives up without
  // touching cache or database. The cache still agrees with the tree exactly if
  // the path was cached before, and the recorded hashes stay true exactly if the
  // bytes left behind have the recorded hash or no row refers to them.
  lemma FailedUpload(env: Env, w: World, p: Path, parent: Id, newId: Id, left: Content)
    requires Consistent(env, w) && DbSound(env, w) && p != [] && Canonical(p) && Fresh(w.tree, env.root, newId)
    requires ParentId(env, w.cache, p) == Some(parent)
    requires Uploaded(env, w.tree, p, parent, CachedId(w.cache, p), newId, left).Some?
    ensures var (t, _) := Uploaded(env, w.tree, p, parent, CachedId(w.cache, p), newId, left).value;
            && (Agrees(w.cache, t, env.root) <==> p in w.cache)
            && (DbSound(env, w.(tree := t)) <==> (p in w.cache && p in w.db ==> w.db[p].hash == env.hash(left)))
  {
    var (t, id) := Uploaded(env, w.tree, p, parent, CachedId(w.cache, p), newId, left).value;
    UploadAgrees(env, w, p, parent, newId, left);
    var w' := w.(tree := t);
    var cache' := w.cache[p := CacheEntry(id, parent)];
    assert p in cache' && At(t, env.root, p, id);
    if p in w.cache {
      SameParent(env, w, p);
      assert cache' == w.cache;
    }
    assert RowTrue(env, w', p) <==> (p in w.cache && p in w.db ==> w.db[p].hash == env.hash(left));
    forall q | q != p ensures RowTrue(env, w', q) {
      assert RowTrue(env, w, q);
      if q in w.cache && p in w.cache && w.cache[q].driveId == id {
        DistinctIds(env, w, q, p);
      }
    }
  }

  // ---- Caches with stale entries -------------------------------------------

  // An id the remote no longer has.
  ghost predicate Dead(t: Tree, root: Id, id: Id) {
    id !in t && id != root && forall j | j in t :: t[j].parent != id
  }

  // The entries under which the remote has an object.
  ghost function Live(env: Env, w: World): Entries {
    map p | p in w.cache && At(w.tree, env.root, p, w.cache[p].driveId) :: w.cache[p]
  }

  // The cache holds the whole listing, and besides it entries with dead ids.
  ghost predicate RightOrDead(env: Env, w: World) {
    && Consistent(env, w.(cache := Live(env, w)))
    && forall p | p in w.cache ::
         p != [] && (At(w.tree, env.root, p, w.cache[p].driveId) || Dead(w.tree, env.root, w.cache[p].driveId))
  }

  // Nothing below a dead folder is on the remote.
  lemma AboveIsLive(env: Env, w: World, p: Path, id: Id, d: Path)
    requires RightOrDead(env, w) && At(w.tree, env.root, p, id) && d != [] && IsPrefix(d, p)
    ensures d in Live(env, w) && w.cache[d].driveId in w.tree
  {
    var a := AncestorAt(w.tree, env.root, d, p, id);
    assert d in Live(env, w);
  }

  lemma LiveAfter(env: Env, w: World, w': World, live: Entries)
    requires RightOrDead(env, w) && WellFormed(w'.tree, env.root) && Agrees(live, w'.tree, env.root)
    requires forall p | p in live :: p in w'.cache && w'.cache[p] == live[p]
    requires forall p | p in w'.cache && p !in live :: p != [] && Dead(w'.tree, env.root, w'.cache[p].driveId)
    ensures Live(env, w') == live && RightOrDead(env, w')
  {
    forall p | p in w'.cache ensures p in Live(env, w') <==> p in live {
      if p !in live {
        assert !At(w'.tree, env.root, p, w'.cache[p].driveId);
      }
    }
    assert Live(env, w') == live;
  }

  lemma ParentIsLive(env: Env, w: World, p: Path)
    requires RightOrDead(env, w) && p != [] && ParentId(env, w.cache, p).Some?
    requires !Dead(w.tree, env.root, ParentId(env, w.cache, p).value)
    ensures ParentId(env, Live(env, w), p) == ParentId(env, w.cache, p)
    ensures At(w.tree, env.root, Init(p), ParentId(env, w.cache, p).value)
  {
    if |p| == 1 {
      assert Init(p) == [];
    }
  }

  // A new folder below a live one.
  lemma InsertRightOrDead(env: Env, w: World, p: Path, parent: Id, id: Id, w': World)
    requires RightOrDead(env, w) && p != [] && Canonical(p) && p !in w.cache && Fresh(w.tree, env.root, id)
    requires ParentId(env, w.cache, p) == Some(parent) && IsFolder(w.tree, env.root, parent)
    requires w'.tree == w.tree[id := Node(Last(p), parent, Folder)] && w'.cache == w.cache[p := CacheEntry(id, parent)]
    requires forall q | q in w.cache && w.cache[q].driveId !in w.tree :: w.cache[q].driveId !in w'.tree
    ensures RightOrDead(env, w')
  {
    ParentIsLive(env, w, p);
    InsertAgrees(env, w.(cache := Live(env, w)), p, parent, id, Folder);
    LiveAfter(env, w, w', Live(env, w)[p := CacheEntry(id, parent)]);
  }
}
