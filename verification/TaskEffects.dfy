// What each task does to the remote, the cache and the rows, path by path and case by
// case.
module TaskEffects {
  import opened Paths
  import opened RemoteTree
  import opened PathCaching
  import opened Reconcile

  function SyncJob(p: Path, newId: Id, stored: Content): Job {
    Job(Task.SyncFile(p), newId, stored)
  }

  // ---- Uploads -------------------------------------------------------------

  // Nothing is done for a path that is gone, a directory, an ignored path, an empty
  // file, or a cached file whose row has its modification time.
  lemma SyncSkipsExactly(env: Env, local: Local, w: World, p: Path, newId: Id, stored: Content)
    requires p != [] && Canonical(p)
    ensures p !in local ==> Execute(env, local, w, SyncJob(p, newId, stored)) == Outcome(w, false)
    ensures p in local && local[p].Dir? ==> Execute(env, local, w, SyncJob(p, newId, stored)) == Outcome(w, true)
    ensures p in local && env.ignored(p, local[p].Dir?) ==>
              Execute(env, local, w, SyncJob(p, newId, stored)) == Outcome(w, true)
    ensures p in local && local[p].LocalFile? && local[p].content == [] ==>
              Execute(env, local, w, SyncJob(p, newId, stored)) == Outcome(w, true)
    ensures p in local && local[p].LocalFile? && p in w.cache && p in w.db && w.db[p].mtime == local[p].mtime ==>
              Execute(env, local, w, SyncJob(p, newId, stored)) == Outcome(w, true)
  {
  }

  // A file worth looking at: there, not ignored, not empty, and not known to be unchanged.
  predicate Examined(env: Env, local: Local, w: World, p: Path) {
    && p in local && local[p].LocalFile? && !env.ignored(p, false) && local[p].content != []
    && !(p in w.cache && p in w.db && w.db[p].mtime == local[p].mtime)
  }

  // A cached file with the recorded hash gets a row with its present time, and that
  // is all.
  lemma SyncRefreshesExactly(env: Env, local: Local, w: World, p: Path, newId: Id, stored: Content)
    requires p != [] && Canonical(p) && Examined(env, local, w, p)
    requires p in w.cache && p in w.db && w.db[p].hash == env.hash(local[p].content)
    ensures var o := Execute(env, local, w, SyncJob(p, newId, stored));
            && o.ok && o.world.tree == w.tree && o.world.cache == w.cache
            && o.world.db == w.db[p := Row(env.hash(local[p].content), local[p].mtime)]
  {
  }

  // Any other examined file needs its parent folder in the cache, at top level none.
  lemma SyncNeedsParent(env: Env, local: Local, w: World, p: Path, newId: Id, stored: Content)
    requires p != [] && Canonical(p) && Examined(env, local, w, p)
    requires !(p in w.cache && p in w.db && w.db[p].hash == env.hash(local[p].content))
    requires |p| > 1 && p[..|p| - 1] !in w.cache
    ensures Execute(env, local, w, SyncJob(p, newId, stored)) == Outcome(w, false)
  {
  }

  // What a stored file leaves: its bytes under its name, its entry and its row; every
  // other object, entry and row as it was.
  ghost predicate StoredAs(env: Env, local: Local, w: World, p: Path, id: Id, folder: Id, parent: Id,
                           bytes: Content, w': World)
  {
    && p != [] && p in local && local[p].LocalFile?
    && id in w'.tree && w'.tree[id] == Node(p[|p| - 1], folder, File(bytes))
    && (forall j | j != id :: (j in w'.tree <==> j in w.tree) && (j in w.tree ==> w'.tree[j] == w.tree[j]))
    && p in w'.cache && w'.cache[p] == CacheEntry(id, parent)
    && (forall q | q != p :: (q in w'.cache <==> q in w.cache) && (q in w.cache ==> w'.cache[q] == w.cache[q]))
    && p in w'.db && w'.db[p] == Row(env.hash(local[p].content), local[p].mtime)
    && (forall q | q != p :: (q in w'.db <==> q in w.db) && (q in w.db ==> w'.db[q] == w.db[q]))
  }

  // A cached file is stored under its id, if that is still a file on the remote.
  lemma SyncRewritesExactly(env: Env, local: Local, w: World, p: Path, parent: Id, newId: Id, stored: Content)
    requires p != [] && Canonical(p) && Examined(env, local, w, p) && p in w.cache
    requires !(p in w.db && w.db[p].hash == env.hash(local[p].content))
    requires if |p| == 1 then parent == env.root
             else p[..|p| - 1] in w.cache && parent == w.cache[p[..|p| - 1]].driveId
    ensures var (id, o) := (w.cache[p].driveId, Execute(env, local, w, SyncJob(p, newId, stored)));
            if id in w.tree && w.tree[id].body.File?
            then o.ok && StoredAs(env, local, w, p, id, w.tree[id].parent, parent, stored, o.world)
            else o == Outcome(w, false)
  {
  }

  // Another one as a new object in its parent folder.
  lemma SyncCreatesExactly(env: Env, local: Local, w: World, p: Path, parent: Id, newId: Id, stored: Content)
    requires p != [] && Canonical(p) && Examined(env, local, w, p) && p !in w.cache
    requires if |p| == 1 then parent == env.root
             else p[..|p| - 1] in w.cache && parent == w.cache[p[..|p| - 1]].driveId
    ensures var o := Execute(env, local, w, SyncJob(p, newId, stored));
            if parent == env.root || (parent in w.tree && w.tree[parent].body.Folder?)
            then o.ok && StoredAs(env, local, w, p, newId, parent, parent, stored, o.world)
            else o == Outcome(w, false)
  {
  }

  // ---- Deletions -----------------------------------------------------------

  lemma DeleteExactly(env: Env, local: Local, w: World, p: Path, newId: Id, stored: Content)
    requires p != [] && Canonical(p)
    ensures var o := Execute(env, local, w, Job(Task.Delete(p), newId, stored));
            if env.ignored(p, p in local && local[p].Dir?) then o == Outcome(w, true)
            else if p in w.cache && w.cache[p].driveId !in w.tree then o == Outcome(w, false)
            else
              && o.ok
              && o.world.tree == (if p in w.cache then w.tree - {w.cache[p].driveId} else w.tree)
              && (forall q :: q in o.world.cache <==>
                    q in w.cache && !(p in w.cache && |p| <= |q| && q[..|p|] == p))
              && (forall q | q in o.world.cache :: o.world.cache[q] == w.cache[q])
              && o.world.db == w.db - {p}
  {
  }

  // ---- Renames -------------------------------------------------------------

  // A rename within what is ignored does nothing; of an original that is not cached or
  // has no row, it is the upload of the target, if that is a file worth looking at.
  lemma RenameUnknownExactly(env: Env, local: Local, w: World, from: Path, to: Path, newId: Id, stored: Content)
    requires from != [] && to != [] && Canonical(from) && Canonical(to)
    ensures var o := Execute(env, local, w, Job(Task.Rename(from, to), newId, stored));
            && (env.ignored(from, from in local && local[from].Dir?)
                && env.ignored(to, to in local && local[to].Dir?) ==>
                  o == Outcome(w, true))
            && (!(env.ignored(from, from in local && local[from].Dir?)
                  && env.ignored(to, to in local && local[to].Dir?))
                && (from !in w.cache || from !in w.db) ==>
                  o == (if to in local && local[to].LocalFile? && !env.ignored(to, false)
                        then Execute(env, local, w, SyncJob(to, newId, stored))
                        else Outcome(w, true)))
  {
  }

  // A row moves to the new key with all it says; an occupied key refuses it, and then
  // no row changes.
  lemma RowMovesExactly(db: map<Path, Row>, from: Path, to: Path)
    ensures var db' := MovedRow(db, from, to);
            && (from in db && !(to in db && to != from) ==> to in db' && db'[to] == db[from])
            && (from in db && !(to in db && to != from) && from != to ==> from !in db')
            && (from !in db || (to in db && to != from) ==> db' == db)
            && (forall q | q != from && q != to :: (q in db' <==> q in db) && (q in db ==> db'[q] == db[q]))
    ensures KeyConflict(db, from, to) <==> from in db && to in db && to != from
  {
  }

  // A known original is moved: the object keeps its bytes and gets the new name and
  // folder, its entry moves and takes everything cached below it away, its row moves
  // if the new key is free. Everything else is as it was.
  lemma RenameKnownExactly(env: Env, local: Local, w: World, from: Path, to: Path, parent: Id, newId: Id,
                           stored: Content)
    requires from != [] && to != [] && Canonical(from) && Canonical(to) && from in w.cache && from in w.db
    requires !(env.ignored(from, from in local && local[from].Dir?) && env.ignored(to, to in local && local[to].Dir?))
    requires if |to| == 1 then parent == env.root
             else to[..|to| - 1] in w.cache && parent == w.cache[to[..|to| - 1]].driveId
    ensures var (id, o) := (w.cache[from].driveId, Execute(env, local, w, Job(Task.Rename(from, to), newId, stored)));
            if id !in w.tree || parent == id
               || !(parent == env.root || (parent in w.tree && w.tree[parent].body.Folder?))
            then o == Outcome(w, false)
            else
              && o.world.tree == w.tree[id := Node(to[|to| - 1], parent, w.tree[id].body)]
              && to in o.world.cache && o.world.cache[to] == CacheEntry(id, parent)
              && (forall q | q != to ::
                    (q in o.world.cache <==> q in w.cache && !(|from| <= |q| && q[..|from|] == from))
                    && (q in o.world.cache ==> o.world.cache[q] == w.cache[q]))
              && (o.ok <==> !(to in w.db && to != from))
              && (o.ok ==> to in o.world.db && o.world.db[to] == w.db[from])
              && (o.ok && from != to ==> from !in o.world.db)
              && (!o.ok ==> o.world.db == w.db)
              && (forall q | q != from && q != to ::
                    (q in o.world.db <==> q in w.db) && (q in w.db ==> o.world.db[q] == w.db[q]))
  {
  }

  lemma RenameNeedsParent(env: Env, local: Local, w: World, from: Path, to: Path, newId: Id, stored: Content)
    requires from != [] && to != [] && Canonical(from) && Canonical(to) && from in w.cache && from in w.db
    requires !(env.ignored(from, from in local && local[from].Dir?) && env.ignored(to, to in local && local[to].Dir?))
    requires |to| > 1 && to[..|to| - 1] !in w.cache
    ensures Execute(env, local, w, Job(Task.Rename(from, to), newId, stored)) == Outcome(w, false)
  {
  }
}
