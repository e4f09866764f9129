// The three views the engine reconciles, and the effect of one handled task.
module Reconcile {
  import opened Paths
  import opened RemoteTree
  import opened PathCaching

  type Hash = string

  datatype Row = Row(hash: Hash, mtime: int)

  datatype LocalNode = Dir | LocalFile(content: Content, mtime: int)

  type Local = map<Path, LocalNode>

  // What the engine is configured with. `hash` stands for MD5 and `ignored` for
  // the glob matcher (path, is_directory); nothing is assumed of either here.
  datatype Env = Env(root: Id, hash: Content -> Hash, ignored: (Path, bool) -> bool, maxAttempts: nat, backoffMs: nat)

  datatype World = World(tree: Tree, cache: Entries, db: map<Path, Row>)

  datatype Task = SyncFile(path: Path) | Delete(path: Path) | Rename(from: Path, to: Path)

  // A task with the choices the provider makes while it runs: the id given to a
  // new object, and the bytes that ended up stored by the accepted upload.
  datatype Job = Job(task: Task, newId: Id, stored: Content)

  datatype Outcome = Outcome(world: World, ok: bool)

  ghost predicate LocalTree(local: Local) {
    && [] in local
    && (forall p | p in local :: Canonical(p))
    && (forall p | p in local && p != [] :: Init(p) in local && local[Init(p)].Dir?)
    && local[[]].Dir?
  }

  predicate IsDir(local: Local, p: Path) {
    p in local && local[p].Dir?
  }

  predicate IsFile(local: Local, p: Path) {
    p in local && local[p].LocalFile?
  }

  function FileHash(env: Env, local: Local, p: Path): Hash
    requires IsFile(local, p)
  {
    env.hash(local[p].content)
  }

  // The folder an object at p goes into: the root, or the cached parent.
  function ParentId(env: Env, cache: Entries, p: Path): Option<Id>
    requires p != []
  {
    if |p| == 1 then Some(env.root)
    else if Init(p) in cache then Some(cache[Init(p)].driveId)
    else None
  }

  // ---- sync_file -----------------------------------------------------------

  // The skip checks, in the order the worker makes them.
  predicate SkippedAtOnce(env: Env, local: Local, w: World, p: Path)
    requires p in local
  {
    || env.ignored(p, local[p].Dir?)
    || local[p].Dir?
    || local[p].content == []
    || (p in w.db && w.db[p].mtime == local[p].mtime && p in w.cache)
  }

  predicate SameHash(env: Env, local: Local, w: World, p: Path)
    requires IsFile(local, p)
  {
    p in w.db && w.db[p].hash == FileHash(env, local, p) && p in w.cache
  }

  // The remote effect of an upload: a new object, or new bytes under the known id.
  function Uploaded(env: Env, t: Tree, p: Path, parent: Id, existing: Option<Id>, newId: Id,
                    bytes: Content): Option<(Tree, Id)>
    requires p != []
  {
    match existing
    case None =>
      if IsFolder(t, env.root, parent)
      then Some((t[newId := Node(Last(p), parent, File(bytes))], newId))
      else None
    case Some(id) =>
      if id in t && t[id].body.File?
      then Some((t[id := t[id].(name := Last(p), body := File(bytes))], id))
      else None
  }

  function CachedId(cache: Entries, p: Path): Option<Id> {
    if p in cache then Some(cache[p].driveId) else None
  }

  function ExecSync(env: Env, local: Local, w: World, p: Path, newId: Id, stored: Content): Outcome
    requires p != []
  {
    if p !in local then Outcome(w, false)
    else if SkippedAtOnce(env, local, w, p) then Outcome(w, true)
    else
      var row := Row(FileHash(env, local, p), local[p].mtime);
      if SameHash(env, local, w, p) then Outcome(w.(db := w.db[p := row]), true)
      else
        var parent := ParentId(env, w.cache, p);
        if parent.None? then Outcome(w, false)
        else
          match Uploaded(env, w.tree, p, parent.value, CachedId(w.cache, p), newId, stored)
          case None => Outcome(w, false)
          case Some((t, id)) =>
            Outcome(World(t, w.cache[p := CacheEntry(id, parent.value)], w.db[p := row]), true)
  }

  // ---- delete --------------------------------------------------------------

  function ExecDelete(env: Env, local: Local, w: World, p: Path): Outcome {
    if env.ignored(p, IsDir(local, p)) then Outcome(w, true)
    else if p in w.cache then
      var id := w.cache[p].driveId;
      if id in w.tree then Outcome(World(w.tree - {id}, Cascade(w.cache, p), w.db - {p}), true)
      else Outcome(w, false)
    else Outcome(w.(db := w.db - {p}), true)
  }

  // ---- rename --------------------------------------------------------------

  predicate KnownOriginal(w: World, from: Path) {
    from in w.cache && from in w.db
  }

  // The row moves to the new key; an occupied key is an error and moves nothing.
  predicate KeyConflict(db: map<Path, Row>, from: Path, to: Path) {
    from in db && to in db && from != to
  }

  function MovedRow(db: map<Path, Row>, from: Path, to: Path): map<Path, Row> {
    if from in db && !KeyConflict(db, from, to) then (db - {from})[to := db[from]] else db
  }

  function ExecRename(env: Env, local: Local, w: World, from: Path, to: Path, newId: Id, stored: Content): Outcome
    requires to != []
  {
    if env.ignored(from, IsDir(local, from)) && env.ignored(to, IsDir(local, to)) then Outcome(w, true)
    else if !KnownOriginal(w, from) then
      if IsFile(local, to) && !env.ignored(to, false) then ExecSync(env, local, w, to, newId, stored)
      else Outcome(w, true)
    else
      var id := w.cache[from].driveId;
      var parent := ParentId(env, w.cache, to);
      if parent.None? || id !in w.tree || !IsFolder(w.tree, env.root, parent.value) || parent.value == id
      then Outcome(w, false)
      else
        Outcome(
          World(
            w.tree[id := w.tree[id].(name := Last(to), parent := parent.value)],
            Cascade(w.cache, from)[to := CacheEntry(id, parent.value)],
            MovedRow(w.db, from, to)),
          !KeyConflict(w.db, from, to))
  }

  predicate TaskPaths(task: Task) {
    match task
    case SyncFile(p) => p != [] && Canonical(p)
    case Delete(p) => p != [] && Canonical(p)
    case Rename(from, to) => from != [] && to != [] && Canonical(from) && Canonical(to)
  }

  function Execute(env: Env, local: Local, w: World, job: Job): Outcome
    requires TaskPaths(job.task)
  {
    match job.task
    case SyncFile(p) => ExecSync(env, local, w, p, job.newId, job.stored)
    case Delete(p) => ExecDelete(env, local, w, p)
    case Rename(from, to) => ExecRename(env, local, w, from, to, job.newId, job.stored)
  }

  // ---- Agreement between the cache and the remote tree ---------------------

  ghost predicate Agrees(cache: Entries, t: Tree, root: Id) {
    && (forall p | p in cache ::
          p != [] && At(t, root, p, cache[p].driveId) && cache[p].parentId == t[cache[p].driveId].parent)
    && (forall p, id | p != [] && At(t, root, p, id) :: p in cache && cache[p].driveId == id)
  }

  ghost predicate Consistent(env: Env, w: World) {
    WellFormed(w.tree, env.root) && Agrees(w.cache, w.tree, env.root)
  }

  // The recorded hash is the hash of the bytes stored under the cached id.
  predicate RowTrue(env: Env, w: World, p: Path) {
    p in w.db && p in w.cache && w.cache[p].driveId in w.tree && w.tree[w.cache[p].driveId].body.File? ==>
      w.db[p].hash == env.hash(w.tree[w.cache[p].driveId].body.content)
  }

  ghost predicate DbSound(env: Env, w: World) {
    forall p :: RowTrue(env, w, p)
  }
}
