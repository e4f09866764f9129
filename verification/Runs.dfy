// Whole runs: listings, folders made, files compared, tasks handled and uploads
// given up, in any order and number, each seeing the local tree of its moment.
module Runs {
  import opened Paths
  import opened RemoteTree
  import opened PathCaching
  import opened Reconcile
  import opened Agreement
  import opened Providers
  import opened Worker
  import opened Listing
  import opened Decisions
  import opened Scan
  import opened Convergence

  // `Fill` is phase 0 of a scan, which got a listing and has put its first n entries
  // into the cache: all of them, unless a command dropped the scan, and none if the
  // listing failed. `MakeDir` is a successful mkdir of its directory phase, which
  // makes a folder or finds one; a scan dropped meanwhile never gets the answer.
  // `Compare` is the comparison of one inventoried file, `Handle` a task handled as
  // specified, and `GaveUp` an upload whose last attempt stored the wrong bytes.
  datatype Action =
    | Fill(index: RemoteIndex, n: nat)
    | MakeDir(path: Path, id: Id, answered: bool)
    | Compare(local: Local, path: Path)
    | Handle(local: Local, job: Job)
    | GaveUp(path: Path, newId: Id, bytes: Content)

  function EntriesOf(index: RemoteIndex): seq<IndexEntry> {
    index.dirs + index.files
  }

  function MadeDir(env: Env, w: World, p: Path, id: Id, answered: bool): World
    requires p != []
  {
    var parent := ParentId(env, w.cache, p);
    if parent.None? then w
    else
      World(
        if id in w.tree then w.tree else w.tree[id := Node(Last(p), parent.value, Folder)],
        if answered then w.cache[p := CacheEntry(id, parent.value)] else w.cache,
        w.db)
  }

  function UploadAt(env: Env, w: World, p: Path, newId: Id, bytes: Content): Option<(Tree, Id)>
    requires p != []
  {
    var parent := ParentId(env, w.cache, p);
    if parent.None? then None else Uploaded(env, w.tree, p, parent.value, CachedId(w.cache, p), newId, bytes)
  }

  ghost predicate Allowed(env: Env, w: World, a: Action) {
    match a
    case Fill(index, n) => n <= |EntriesOf(index)| && (n > 0 ==> IsListing(w.tree, env.root, index))
    case MakeDir(p, id, answered) =>
      && p != [] && Canonical(p) && p !in w.cache
      && (var parent := ParentId(env, w.cache, p);
          parent.Some? ==>
            CallEffect(env, w.tree, Mkdir(parent.value, Last(p)), MadeDir(env, w, p, id, answered).tree, id))
    case Compare(local, p) => IsFile(local, p)
    case Handle(local, job) => JobAllowed(env, local, w, job)
    case GaveUp(p, newId, bytes) =>
      p != [] && Canonical(p) && Fresh(w.tree, env.root, newId) && UploadAt(env, w, p, newId, bytes).Some?
  }

  ghost function Act(env: Env, w: World, a: Action): World
    requires Allowed(env, w, a)
  {
    match a
    case Fill(index, n) => w.(cache := Filled(w.cache, EntriesOf(index)[..n]))
    case MakeDir(p, id, answered) => MadeDir(env, w, p, id, answered)
    case Compare(local, p) => w.(db := Compared(env, local, w.cache.Keys, w.db, [p]))
    case Handle(local, job) => Execute(env, local, w, job).world
    case GaveUp(p, newId, bytes) => w.(tree := UploadAt(env, w, p, newId, bytes).value.0)
  }

  // Every end of a task is one of these actions, or changes nothing.
  lemma EndIsAction(env: Env, local: Local, w: World, job: Job, r: Handled, w': World, cancelled: bool, requests: int)
    requires EndsAs(env, local, w, job, r, w', cancelled, requests) && JobAllowed(env, local, w, job)
    ensures w' == w || exists a: Action :: (a.Handle? || a.GaveUp?) && Allowed(env, w, a) && Act(env, w, a) == w'
  {
    if w' != w {
      if Execute(env, local, w, job).world == w' {
        assert Allowed(env, w, Handle(local, job)) && Act(env, w, Handle(local, job)) == w';
      } else {
        var p := SyncedPath(job.task).value;
        var newId, bytes :| StoredBytes(env, w, p, w'.tree, newId, bytes);
        assert Allowed(env, w, GaveUp(p, newId, bytes)) && Act(env, w, GaveUp(p, newId, bytes)) == w';
      }
    }
  }

  // A whole fill is what the scan's phase 0 specifies.
  lemma {:induction false} FilledConcat(m: Entries, a: seq<IndexEntry>, b: seq<IndexEntry>)
    ensures Filled(m, a + b) == Filled(Filled(m, a), b)
    decreases |b|
  {
    if b == [] {
      assert a + b == a;
    } else {
      FilledConcat(m, a, b[..|b| - 1]);
      assert (a + b)[..|a + b| - 1] == a + b[..|b| - 1];
    }
  }

  lemma WholeFill(env: Env, w: World, index: RemoteIndex)
    requires IsListing(w.tree, env.root, index)
    ensures Act(env, w, Fill(index, |EntriesOf(index)|)) == w.(cache := FilledFrom(w.cache, index))
  {
    assert EntriesOf(index)[..|EntriesOf(index)|] == EntriesOf(index);
    FilledConcat(w.cache, index.dirs, index.files);
  }

  // ---- What the cache lacks ------------------------------------------------

  // `listed` is the listing of the remote tree; the cache lacks the paths `left`:
  // those it never got, and those where given-up uploads and dropped mkdirs have
  // created objects since.
  ghost predicate Lacking(env: Env, w: World, listed: Entries, left: set<Path>) {
    && WellFormed(w.tree, env.root) && Agrees(listed, w.tree, env.root)
    && left <= listed.Keys && w.cache == listed - left
  }

  ghost function NextLeft(env: Env, w: World, left: set<Path>, a: Action): set<Path>
    requires Allowed(env, w, a)
  {
    match a
    case Fill(index, n) => set p | p in left && p !in PathsOf(EntriesOf(index)[..n])
    case MakeDir(p, _, answered) =>
      if ParentId(env, w.cache, p).None? then left
      else if answered then left - {p}
      else if Act(env, w, a) == w then left
      else left + {p}
    case Compare(_, _) => left
    case Handle(local, job) =>
      if job.task.Delete? && Act(env, w, a).tree != w.tree
      then set q | q in left && !IsPrefix(job.task.path, q)
      else left
    case GaveUp(p, _, _) => if p in w.cache then left else left + {p}
  }

  // The action puts nothing at a path where such an object already is.
  ghost predicate Clear(env: Env, w: World, left: set<Path>, a: Action)
    requires Allowed(env, w, a)
  {
    match a
    case Fill(_, _) => true
    case MakeDir(p, _, _) => p in left ==> Act(env, w, a).tree == w.tree
    case Compare(_, _) => true
    case Handle(local, job) =>
      var p := SyncedPath(job.task); p.Some? && p.value in left ==> Act(env, w, a) == w
    case GaveUp(p, _, _) => p !in left
  }

  lemma AgreesUnique(t: Tree, root: Id, a: Entries, b: Entries)
    requires WellFormed(t, root) && Agrees(a, t, root) && Agrees(b, t, root)
    ensures a == b
  {
    forall p ensures Get(a, p) == Get(b, p) {
      if p in a { assert At(t, root, p, a[p].driveId); }
      if p in b { assert At(t, root, p, b[p].driveId); }
    }
    SameMap(a, b);
  }

  lemma LackingParent(env: Env, w: World, listed: Entries, left: set<Path>, p: Path)
    requires Lacking(env, w, listed, left) && p != [] && ParentId(env, w.cache, p).Some?
    ensures ParentId(env, listed, p) == ParentId(env, w.cache, p)
    ensures At(w.tree, env.root, Init(p), ParentId(env, w.cache, p).value)
  {
    CachedParent(env, w.(cache := listed), p);
  }

  lemma FillLacking(env: Env, w: World, listed: Entries, left: set<Path>, index: RemoteIndex, n: nat)
    requires Lacking(env, w, listed, left) && Allowed(env, w, Fill(index, n))
    ensures Lacking(env, Act(env, w, Fill(index, n)), listed, NextLeft(env, w, left, Fill(index, n)))
  {
    var es := EntriesOf(index)[..n];
    var cache, left' := Filled(w.cache, es), NextLeft(env, w, left, Fill(index, n));
    forall p ensures Get(cache, p) == Get(listed - left', p) {
      FilledOnce(env, w, listed, index, n, p);
      assert p in w.cache <==> p in listed && p !in left;
    }
    SameMap(cache, listed - left');
  }

  lemma FilledOnce(env: Env, w: World, listed: Entries, index: RemoteIndex, n: nat, p: Path)
    requires WellFormed(w.tree, env.root) && Agrees(listed, w.tree, env.root) && Allowed(env, w, Fill(index, n))
    ensures Get(Filled(w.cache, EntriesOf(index)[..n]), p) ==
            if p in PathsOf(EntriesOf(index)[..n]) then Get(listed, p) else Get(w.cache, p)
    ensures p in PathsOf(EntriesOf(index)[..n]) ==> p in listed
  {
    var es := EntriesOf(index)[..n];
    FilledKeys(w.cache, es, p);
    if p in PathsOf(es) {
      var i :| 0 <= i < |es| && PathsOf(es)[i] == p;
      assert es[i] in es && es[i].relativePath == p;
    }
    forall e | e in es && e.relativePath == p
      ensures p in PathsOf(es) && p in listed && listed[p] == CacheEntry(e.driveId, e.parentId)
    {
      var i :| 0 <= i < |es| && es[i] == e;
      assert PathsOf(es)[i] == p;
      assert e in index.files + index.dirs;
      assert At(w.tree, env.root, p, e.driveId) && e.parentId == w.tree[e.driveId].parent;
    }
  }

  lemma EntryOf(t: Tree, root: Id, index: RemoteIndex, p: Path, id: Id)
    requires IsListing(t, root, index) && p != [] && At(t, root, p, id)
    ensures p in PathsOf(EntriesOf(index))
  {
    var e, es := IndexEntry(p, id, t[id].parent), EntriesOf(index);
    assert e in (if t[id].body.File? then index.files else index.dirs);
    assert e in es;
    var i :| 0 <= i < |es| && es[i] == e;
    assert PathsOf(es)[i] == p;
  }

  // A complete listing brings everything in.
  lemma RelistLacking(env: Env, w: World, listed: Entries, left: set<Path>, index: RemoteIndex)
    requires Lacking(env, w, listed, left) && IsListing(w.tree, env.root, index)
    ensures var a := Fill(index, |EntriesOf(index)|);
            Act(env, w, a).cache == listed && NextLeft(env, w, left, a) == {}
  {
    var a := Fill(index, |EntriesOf(index)|);
    var es := EntriesOf(index)[..|EntriesOf(index)|];
    FillLacking(env, w, listed, left, index, |EntriesOf(index)|);
    assert es == EntriesOf(index);
    forall p | p in listed ensures p in PathsOf(es) {
      EntryOf(w.tree, env.root, index, p, listed[p].driveId);
    }
    assert NextLeft(env, w, left, a) == {};
    assert listed - {} == listed;
  }

  lemma AddedLeft(listed: Entries, left: set<Path>, cache: Entries, p: Path, entry: CacheEntry)
    requires left <= listed.Keys && cache == listed - left && p !in left
    ensures left <= listed[p := entry].Keys && cache[p := entry] == listed[p := entry] - left
    ensures p !in cache ==> left + {p} <= listed[p := entry].Keys && cache == listed[p := entry] - (left + {p})
    ensures p in cache && listed[p] == entry ==> cache == listed[p := entry] - left
  {
  }

  // A mkdir that makes a new folder.
  lemma NewDirLacking(env: Env, w: World, listed: Entries, left: set<Path>, p: Path, id: Id, answered: bool)
    requires Lacking(env, w, listed, left) && p !in left && Allowed(env, w, MakeDir(p, id, answered))
    requires ParentId(env, w.cache, p).Some?
    ensures id !in w.tree && Fresh(w.tree, env.root, id)
    ensures Lacking(env, MadeDir(env, w, p, id, answered),
                    listed[p := CacheEntry(id, ParentId(env, w.cache, p).value)], if answered then left else left + {p})
  {
    var parent := ParentId(env, w.cache, p).value;
    LackingParent(env, w, listed, left, p);
    FolderIsListed(env, w, listed, left, p, parent);
    AddedLeft(listed, left, w.cache, p, CacheEntry(id, parent));
    InsertAgrees(env, w.(cache := listed), p, parent, id, Folder);
  }

  // A folder of that name in that place is the one listed at p.
  lemma FolderIsListed(env: Env, w: World, listed: Entries, left: set<Path>, p: Path, parent: Id)
    requires Lacking(env, w, listed, left) && p != [] && At(w.tree, env.root, Init(p), parent)
    ensures forall j | j in w.tree && w.tree[j] == Node(Last(p), parent, Folder) ::
              p in listed && listed[p] == CacheEntry(j, parent)
  {
    forall j | j in w.tree && w.tree[j] == Node(Last(p), parent, Folder)
      ensures p in listed && listed[p] == CacheEntry(j, parent)
    {
      assert At(w.tree, env.root, p, j);
    }
  }

  // A mkdir that finds the folder.
  lemma FoundDirLacking(env: Env, w: World, listed: Entries, left: set<Path>, p: Path, id: Id, answered: bool)
    requires Lacking(env, w, listed, left) && p in left && Allowed(env, w, MakeDir(p, id, answered))
    requires ParentId(env, w.cache, p).Some? && MadeDir(env, w, p, id, answered).tree == w.tree
    ensures Lacking(env, MadeDir(env, w, p, id, answered), listed, if answered then left - {p} else left)
  {
    var parent := ParentId(env, w.cache, p).value;
    LackingParent(env, w, listed, left, p);
    FolderIsListed(env, w, listed, left, p, parent);
    FoundLeft(listed, left, w.cache, p);
  }

  lemma FoundLeft(listed: Entries, left: set<Path>, cache: Entries, p: Path)
    requires left <= listed.Keys && cache == listed - left && p in left
    ensures cache[p := listed[p]] == listed - (left - {p})
  {
  }

  lemma UploadLacking(env: Env, w: World, listed: Entries, left: set<Path>, p: Path, newId: Id, bytes: Content)
    requires Lacking(env, w, listed, left) && p !in left && Allowed(env, w, GaveUp(p, newId, bytes))
    ensures var (t, id) := UploadAt(env, w, p, newId, bytes).value;
            var entry := CacheEntry(id, ParentId(env, w.cache, p).value);
            && WellFormed(t, env.root) && Agrees(listed[p := entry], t, env.root)
            && (p in w.cache ==> listed[p] == entry)
  {
    LackingParent(env, w, listed, left, p);
    UploadAgrees(env, w.(cache := listed), p, ParentId(env, w.cache, p).value, newId, bytes);
    if p in w.cache {
      SameParent(env, w.(cache := listed), p);
    }
  }

  lemma GaveUpLacking(env: Env, w: World, listed: Entries, left: set<Path>, p: Path, newId: Id, bytes: Content)
    returns (listed': Entries)
    requires Lacking(env, w, listed, left) && p !in left && Allowed(env, w, GaveUp(p, newId, bytes))
    ensures var a := GaveUp(p, newId, bytes); Lacking(env, Act(env, w, a), listed', NextLeft(env, w, left, a))
  {
    UploadLacking(env, w, listed, left, p, newId, bytes);
    var entry := CacheEntry(UploadAt(env, w, p, newId, bytes).value.1, ParentId(env, w.cache, p).value);
    AddedLeft(listed, left, w.cache, p, entry);
    listed' := listed[p := entry];
  }

  // What `sync_file` does: it refreshes a row at most, or it uploads.
  lemma SyncStores(env: Env, local: Local, w: World, p: Path, newId: Id, stored: Content)
    requires p != [] && Fresh(w.tree, env.root, newId)
    ensures var w' := ExecSync(env, local, w, p, newId, stored).world;
            || (w'.tree == w.tree && w'.cache == w.cache && RowKeptOrRefreshed(env, local, w, p, w'.db))
            || (var up := UploadAt(env, w, p, newId, stored);
                && up.Some? && w' != w && w'.tree == up.value.0 && IsFile(local, p)
                && w'.cache == w.cache[p := CacheEntry(up.value.1, ParentId(env, w.cache, p).value)]
                && w'.db == w.db[p := Row(FileHash(env, local, p), local[p].mtime)])
  {
    var w' := ExecSync(env, local, w, p, newId, stored).world;
    if w'.tree != w.tree || w'.cache != w.cache {
      assert w' != w;
    }
  }

  ghost predicate RowKeptOrRefreshed(env: Env, local: Local, w: World, p: Path, db: map<Path, Row>) {
    || db == w.db
    || (IsFile(local, p) && SameHash(env, local, w, p) && db == w.db[p := Row(FileHash(env, local, p), local[p].mtime)])
  }

  lemma StoredLacking(env: Env, w: World, listed: Entries, left: set<Path>, p: Path, newId: Id, stored: Content,
                      w': World)
    requires Lacking(env, w, listed, left) && p !in left && Allowed(env, w, GaveUp(p, newId, stored))
    requires var (t, id) := UploadAt(env, w, p, newId, stored).value;
             w'.tree == t && w'.cache == w.cache[p := CacheEntry(id, ParentId(env, w.cache, p).value)]
    ensures var entry := CacheEntry(UploadAt(env, w, p, newId, stored).value.1, ParentId(env, w.cache, p).value);
            Lacking(env, w', listed[p := entry], left)
  {
    UploadLacking(env, w, listed, left, p, newId, stored);
    var entry := CacheEntry(UploadAt(env, w, p, newId, stored).value.1, ParentId(env, w.cache, p).value);
    AddedLeft(listed, left, w.cache, p, entry);
  }

  lemma SyncLacking(env: Env, local: Local, w: World, listed: Entries, left: set<Path>, p: Path, newId: Id,
                    stored: Content)
    returns (listed': Entries)
    requires Lacking(env, w, listed, left) && p != [] && Canonical(p) && Fresh(w.tree, env.root, newId)
    requires p in left ==> ExecSync(env, local, w, p, newId, stored).world == w
    ensures Lacking(env, ExecSync(env, local, w, p, newId, stored).world, listed', left)
  {
    var w' := ExecSync(env, local, w, p, newId, stored).world;
    SyncStores(env, local, w, p, newId, stored);
    if w'.tree == w.tree && w'.cache == w.cache {
      listed' := listed;
    } else {
      StoredLacking(env, w, listed, left, p, newId, stored, w');
      listed' := listed[p := CacheEntry(UploadAt(env, w, p, newId, stored).value.1, ParentId(env, w.cache, p).value)];
    }
  }

  lemma DroppedLacking(listed: Entries, left: set<Path>, cache: Entries, p: Path)
    requires left <= listed.Keys && cache == listed - left
    ensures var left' := set q | q in left && !IsPrefix(p, q);
            left' <= Cascade(listed, p).Keys && Cascade(cache, p) == Cascade(listed, p) - left'
  {
  }

  lemma DeleteLacking(env: Env, local: Local, w: World, listed: Entries, left: set<Path>, p: Path)
    returns (listed': Entries)
    requires Lacking(env, w, listed, left)
    ensures var w' := ExecDelete(env, local, w, p).world;
            Lacking(env, w', listed', if w'.tree != w.tree then set q | q in left && !IsPrefix(p, q) else left)
  {
    var w' := ExecDelete(env, local, w, p).world;
    listed' := listed;
    if w'.tree != w.tree {
      DeleteAgrees(env, w.(cache := listed), p);
      DroppedLacking(listed, left, w.cache, p);
      listed' := Cascade(listed, p);
    }
  }

  lemma MovedLeft(listed: Entries, left: set<Path>, cache: Entries, from: Path, to: Path, entry: CacheEntry)
    requires left <= listed.Keys && cache == listed - left
    requires to !in left && forall q | q in left :: !IsPrefix(from, q)
    ensures left <= Cascade(listed, from)[to := entry].Keys
    ensures Cascade(cache, from)[to := entry] == Cascade(listed, from)[to := entry] - left
  {
  }

  lemma NothingLeftBelow(env: Env, w: World, listed: Entries, left: set<Path>, from: Path)
    requires Lacking(env, w, listed, left) && from in w.cache
    requires w.cache[from].driveId in w.tree && w.tree[w.cache[from].driveId].body.File?
    ensures forall q | q in left :: !IsPrefix(from, q)
  {
    forall q | q in left ensures !IsPrefix(from, q) {
      if IsPrefix(from, q) { NothingBelowFile(env, w.(cache := listed), from, q); }
    }
  }

  lemma MovedLacking(env: Env, w: World, listed: Entries, left: set<Path>, from: Path, to: Path, parent: Id)
    requires Lacking(env, w, listed, left) && Movable(env, w.(cache := listed), from, to, parent) && from in w.cache
    ensures to !in left && left <= MovedCache(w.(cache := listed), from, to, parent).Keys
    ensures MovedCache(w, from, to, parent) == MovedCache(w.(cache := listed), from, to, parent) - left
  {
    NothingLeftBelow(env, w, listed, left, from);
    MovedLeft(listed, left, w.cache, from, to, CacheEntry(w.cache[from].driveId, parent));
  }

  lemma MoveLacking(env: Env, local: Local, w: World, listed: Entries, left: set<Path>, job: Job)
    returns (listed': Entries)
    requires Lacking(env, w, listed, left) && job.task.Rename? && JobAllowed(env, local, w, job)
    requires KnownOriginal(w, job.task.from)
    requires job.task.to in left ==> Execute(env, local, w, job).world == w
    ensures Lacking(env, Execute(env, local, w, job).world, listed', left)
  {
    var (from, to) := (job.task.from, job.task.to);
    listed' := listed;
    if Execute(env, local, w, job).world != w {
      var parent := ParentId(env, w.cache, to).value;
      LackingParent(env, w, listed, left, to);
      MovedLacking(env, w, listed, left, from, to, parent);
      MoveAgrees(env, w.(cache := listed), from, to, parent);
      listed' := MovedCache(w.(cache := listed), from, to, parent);
    }
  }

  lemma MakeDirLacking(env: Env, w: World, listed: Entries, left: set<Path>, p: Path, id: Id, answered: bool)
    returns (listed': Entries)
    requires Lacking(env, w, listed, left) && Allowed(env, w, MakeDir(p, id, answered))
    requires Clear(env, w, left, MakeDir(p, id, answered))
    ensures var a := MakeDir(p, id, answered); Lacking(env, Act(env, w, a), listed', NextLeft(env, w, left, a))
    ensures var t := Act(env, w, MakeDir(p, id, answered)).tree;
            if t == w.tree then listed' == listed
            else
              && Fresh(w.tree, env.root, id) && ParentId(env, w.cache, p).Some?
              && t == w.tree[id := Node(Last(p), ParentId(env, w.cache, p).value, Folder)]
              && listed' == listed[p := CacheEntry(id, ParentId(env, w.cache, p).value)]
  {
    listed' := listed;
    if ParentId(env, w.cache, p).Some? {
      if p in left {
        FoundDirLacking(env, w, listed, left, p, id, answered);
      } else {
        NewDirLacking(env, w, listed, left, p, id, answered);
        listed' := listed[p := CacheEntry(id, ParentId(env, w.cache, p).value)];
        assert left - {p} == left;
      }
    }
  }

  lemma ActLacking(env: Env, w: World, listed: Entries, left: set<Path>, a: Action) returns (listed': Entries)
    requires Lacking(env, w, listed, left) && Allowed(env, w, a) && Clear(env, w, left, a)
    ensures Lacking(env, Act(env, w, a), listed', NextLeft(env, w, left, a))
  {
    listed' := listed;
    match a
    case Fill(index, n) => FillLacking(env, w, listed, left, index, n);
    case MakeDir(p, id, answered) => listed' := MakeDirLacking(env, w, listed, left, p, id, answered);
    case Compare(_, _) =>
    case GaveUp(p, newId, bytes) => listed' := GaveUpLacking(env, w, listed, left, p, newId, bytes);
    case Handle(local, job) =>
      match job.task
      case SyncFile(p) => listed' := SyncLacking(env, local, w, listed, left, p, job.newId, job.stored);
      case Delete(p) => listed' := DeleteLacking(env, local, w, listed, left, p);
      case Rename(from, to) =>
        if KnownOriginal(w, from) {
          listed' := MoveLacking(env, local, w, listed, left, job);
        } else if Act(env, w, a) != w {
          listed' := SyncLacking(env, local, w, listed, left, to, job.newId, job.stored);
        }
  }

  // Putting an object where one has been left makes a second one of that name.
  lemma CollidesAt(env: Env, w: World, listed: Entries, left: set<Path>, p: Path, parent: Id, id: Id, body: Body)
    requires Lacking(env, w, listed, left) && p in left && p != [] && Canonical(p) && Fresh(w.tree, env.root, id)
    requires ParentId(env, w.cache, p) == Some(parent) && IsFolder(w.tree, env.root, parent)
    ensures !WellFormed(w.tree[id := Node(Last(p), parent, body)], env.root)
  {
    LackingParent(env, w, listed, left, p);
    assert At(w.tree, env.root, p, listed[p].driveId);
    InsertCollides(w.tree, env.root, p, parent, id, body);
  }

  lemma MoveCollidesAt(env: Env, local: Local, w: World, listed: Entries, left: set<Path>, job: Job)
    requires Lacking(env, w, listed, left) && job.task.Rename? && JobAllowed(env, local, w, job)
    requires KnownOriginal(w, job.task.from) && job.task.to in left && Execute(env, local, w, job).world != w
    ensures !WellFormed(Execute(env, local, w, job).world.tree, env.root)
  {
    var (from, to) := (job.task.from, job.task.to);
    var id, parent := w.cache[from].driveId, ParentId(env, w.cache, to).value;
    LackingParent(env, w, listed, left, to);
    assert At(w.tree, env.root, to, listed[to].driveId) && At(w.tree, env.root, from, id);
    if At(w.tree, env.root, to, id) { PathUnique(w.tree, env.root, from, to, id); }
    MoveCollides(w.tree, env.root, id, to, parent);
  }

  // An action keeps names unique exactly if it is clear of the left objects.
  lemma ClearExactly(env: Env, w: World, listed: Entries, left: set<Path>, a: Action)
    requires Lacking(env, w, listed, left) && Allowed(env, w, a)
    ensures WellFormed(Act(env, w, a).tree, env.root) <==> Clear(env, w, left, a)
  {
    if Clear(env, w, left, a) {
      var listed' := ActLacking(env, w, listed, left, a);
    } else {
      match a
      case MakeDir(p, id, _) => CollidesAt(env, w, listed, left, p, ParentId(env, w.cache, p).value, id, Folder);
      case GaveUp(p, newId, bytes) =>
        CollidesAt(env, w, listed, left, p, ParentId(env, w.cache, p).value, newId, File(bytes));
      case Handle(local, job) =>
        if job.task.Rename? && KnownOriginal(w, job.task.from) {
          MoveCollidesAt(env, local, w, listed, left, job);
        } else {
          var p := SyncedPath(job.task).value;
          CollidesAt(env, w, listed, left, p, ParentId(env, w.cache, p).value, job.newId, File(job.stored));
        }
    }
  }

  // The cache agrees exactly if nothing is left out, and the next complete listing
  // brings everything in.
  lemma AgreesExactly(env: Env, w: World, listed: Entries, left: set<Path>)
    requires Lacking(env, w, listed, left)
    ensures Agrees(w.cache, w.tree, env.root) <==> left == {}
  {
    assert left == {} ==> w.cache == listed;
    if Agrees(w.cache, w.tree, env.root) {
      AgreesUnique(w.tree, env.root, w.cache, listed);
      assert w.cache.Keys == listed.Keys - left;
    }
  }

  // ---- Runs ----------------------------------------------------------------

  ghost predicate RunAllowed(env: Env, w: World, run: seq<Action>)
    decreases |run|
  {
    run == [] || (Allowed(env, w, run[0]) && RunAllowed(env, Act(env, w, run[0]), run[1..]))
  }

  ghost function After(env: Env, w: World, run: seq<Action>): World
    requires RunAllowed(env, w, run)
    decreases |run|
  {
    if run == [] then w else After(env, Act(env, w, run[0]), run[1..])
  }

  ghost function LeftAfter(env: Env, w: World, left: set<Path>, run: seq<Action>): set<Path>
    requires RunAllowed(env, w, run)
    decreases |run|
  {
    if run == [] then left else LeftAfter(env, Act(env, w, run[0]), NextLeft(env, w, left, run[0]), run[1..])
  }

  ghost predicate RunClear(env: Env, w: World, left: set<Path>, run: seq<Action>)
    requires RunAllowed(env, w, run)
    decreases |run|
  {
    run == [] ||
    (Clear(env, w, left, run[0]) && RunClear(env, Act(env, w, run[0]), NextLeft(env, w, left, run[0]), run[1..]))
  }

  lemma {:induction false} RunLacking(env: Env, w: World, listed: Entries, left: set<Path>, run: seq<Action>)
    returns (listed': Entries)
    requires Lacking(env, w, listed, left) && RunAllowed(env, w, run) && RunClear(env, w, left, run)
    ensures Lacking(env, After(env, w, run), listed', LeftAfter(env, w, left, run))
    decreases |run|
  {
    listed' := listed;
    if run != [] {
      listed' := ActLacking(env, w, listed, left, run[0]);
      listed' := RunLacking(env, Act(env, w, run[0]), listed', NextLeft(env, w, left, run[0]), run[1..]);
    }
  }

  // The engine starts with an empty cache, which lacks all there is. At every point
  // of every run that puts no second object where the cache lacks one, the cache is
  // the map that a listing of the remote tree of that moment would give without the
  // paths it lacks; so it is the whole map exactly if it lacks none, as after every
  // complete listing.
  lemma CacheIsListing(env: Env, w: World, first: RemoteIndex, run: seq<Action>, now: RemoteIndex)
    requires WellFormed(w.tree, env.root) && w.cache == map[] && IsListing(w.tree, env.root, first)
    requires RunAllowed(env, w, run) && RunClear(env, w, FilledFrom(map[], first).Keys, run)
    requires IsListing(After(env, w, run).tree, env.root, now)
    ensures var left := LeftAfter(env, w, FilledFrom(map[], first).Keys, run);
            && After(env, w, run).cache == FilledFrom(map[], now) - left
            && left <= FilledFrom(map[], now).Keys
            && (After(env, w, run).cache == FilledFrom(map[], now) <==> left == {})
  {
    var all := FilledFrom(map[], first);
    ListingAgrees(env, map[], w.tree, first);
    assert all - all.Keys == map[];
    var listed := RunLacking(env, w, all, all.Keys, run);
    var w2 := After(env, w, run);
    ListingAgrees(env, map[], w2.tree, now);
    AgreesUnique(w2.tree, env.root, listed, FilledFrom(map[], now));
    AgreesExactly(env, w2, listed, LeftAfter(env, w, all.Keys, run));
    AgreesIsListing(env, w2.cache, w2.tree, now);
  }

  // ---- The rows ------------------------------------------------------------

  // The action writes no false hash: an adopted file has the remote bytes' hash, an
  // accepted upload stored what it was asked to store, a rename that meets a row at
  // its target meets the hash it brings, and bytes left by a given-up upload have
  // the hash of the row at their path, if there is one.
  ghost predicate Truthful(env: Env, w: World, a: Action)
    requires Allowed(env, w, a)
  {
    match a
    case Fill(_, _) => true
    case MakeDir(_, _, _) => true
    case Compare(local, p) =>
      Judge(env, local, w.cache.Keys, w.db, p) == Adopt ==>
        RowTrue(env, w.(db := w.db[p := Row(FileHash(env, local, p), local[p].mtime)]), p)
    case Handle(local, job) =>
      && Verified(env, local, job)
      && (RowCollision(w, job.task) && Act(env, w, a) != w ==> w.db[job.task.to].hash == w.db[job.task.from].hash)
    case GaveUp(p, _, bytes) => p in w.db ==> w.db[p].hash == env.hash(bytes)
  }

  // Every row is true of the bytes at its path, cached or not.
  ghost predicate RowsTrue(env: Env, w: World, listed: Entries) {
    DbSound(env, w.(cache := listed))
  }

  lemma CompareSound(env: Env, w: World, listed: Entries, left: set<Path>, local: Local, p: Path)
    requires Lacking(env, w, listed, left) && RowsTrue(env, w, listed) && IsFile(local, p)
    ensures RowsTrue(env, Act(env, w, Compare(local, p)), listed) <==> Truthful(env, w, Compare(local, p))
  {
    var w0, w1 := w.(cache := listed), Act(env, w, Compare(local, p)).(cache := listed);
    ComparedRow(env, local, w.cache.Keys, w.db, [p], p);
    assert RowTrue(env, w0, p) && [p][0] == p;
    assert RowTrue(env, w1, p) <==> Truthful(env, w, Compare(local, p));
    forall q | q != p ensures RowTrue(env, w1, q) {
      ComparedRow(env, local, w.cache.Keys, w.db, [p], q);
      assert RowTrue(env, w0, q) && Get(w1.db, q) == Get(w.db, q);
    }
  }

  // Comparing the files of a scan one after the other is comparing them all.
  lemma ComparedInSteps(env: Env, local: Local, keys: set<Path>, db: map<Path, Row>, files: seq<Path>, p: Path)
    requires (forall i | 0 <= i < |files| :: IsFile(local, files[i])) && IsFile(local, p) && p !in files
    ensures Compared(env, local, keys, db, files + [p])
         == Compared(env, local, keys, Compared(env, local, keys, db, files), [p])
  {
    ComparedRow(env, local, keys, db, files, p);
    assert (files + [p])[..|files|] == files;
    assert [p][..0] == [];
  }

  lemma MakeDirSound(env: Env, w: World, listed: Entries, p: Path, entry: CacheEntry, node: Node)
    requires RowsTrue(env, w, listed) && Fresh(w.tree, env.root, entry.driveId) && node.body.Folder?
    requires forall q | q in listed :: listed[q].driveId in w.tree
    ensures RowsTrue(env, w.(tree := w.tree[entry.driveId := node]), listed[p := entry])
  {
    var w1 := World(w.tree[entry.driveId := node], listed[p := entry], w.db);
    forall q ensures RowTrue(env, w1, q) {
      assert RowTrue(env, w.(cache := listed), q);
    }
  }

  // Bytes stored at p make all rows true exactly if the row at p is true of them.
  lemma UploadRows(env: Env, w: World, listed: Entries, left: set<Path>, p: Path, newId: Id, bytes: Content, w1: World,
                   listed': Entries)
    requires Lacking(env, w, listed, left) && RowsTrue(env, w, listed) && p !in left
    requires Allowed(env, w, GaveUp(p, newId, bytes)) && w1.tree == UploadAt(env, w, p, newId, bytes).value.0
    requires Agrees(listed', w1.tree, env.root)
    requires forall q | q != p :: Get(w1.db, q) == Get(w.db, q)
    ensures RowsTrue(env, w1, listed') <==> (p in w1.db ==> w1.db[p].hash == env.hash(bytes))
  {
    var w0, w2 := w.(cache := listed), w1.(cache := listed');
    UploadLacking(env, w, listed, left, p, newId, bytes);
    var (t, id) := UploadAt(env, w, p, newId, bytes).value;
    AgreesUnique(t, env.root, listed', listed[p := CacheEntry(id, ParentId(env, w.cache, p).value)]);
    assert t[id].body == File(bytes);
    assert RowTrue(env, w2, p) <==> (p in w1.db ==> w1.db[p].hash == env.hash(bytes));
    forall q | q != p ensures RowTrue(env, w2, q) {
      assert RowTrue(env, w0, q) && Get(w1.db, q) == Get(w.db, q);
      if q in listed && listed[q].driveId == id {
        assert p in listed;
        DistinctIds(env, w0, p, q);
      }
    }
  }

  lemma SyncRows(env: Env, local: Local, w: World, listed: Entries, left: set<Path>, p: Path, newId: Id,
                 stored: Content,
                 listed': Entries)
    requires Lacking(env, w, listed, left) && RowsTrue(env, w, listed) && p != [] && Canonical(p)
    requires Fresh(w.tree, env.root, newId) && (IsFile(local, p) ==> env.hash(stored) == FileHash(env, local, p))
    requires p in left ==> ExecSync(env, local, w, p, newId, stored).world == w
    requires Lacking(env, ExecSync(env, local, w, p, newId, stored).world, listed', left)
    ensures RowsTrue(env, ExecSync(env, local, w, p, newId, stored).world, listed')
  {
    var w1 := ExecSync(env, local, w, p, newId, stored).world;
    SyncStores(env, local, w, p, newId, stored);
    if w1.tree == w.tree && w1.cache == w.cache {
      AgreesUnique(w1.tree, env.root, listed, listed');
      if RowKeptOrRefreshed(env, local, w, p, w1.db) {
        RefreshedRows(env, local, w, listed, p, w1);
      } else {
        UploadRows(env, w, listed, left, p, newId, stored, w1, listed');
      }
    } else {
      UploadRows(env, w, listed, left, p, newId, stored, w1, listed');
    }
  }

  // Setting the row of a file to its hash where the row had that hash changes nothing.
  lemma RefreshedRows(env: Env, local: Local, w: World, listed: Entries, p: Path, w1: World)
    requires RowsTrue(env, w, listed) && w1.tree == w.tree && RowKeptOrRefreshed(env, local, w, p, w1.db)
    ensures RowsTrue(env, w1, listed)
  {
    forall q ensures RowTrue(env, w1.(cache := listed), q) {
      assert RowTrue(env, w.(cache := listed), q);
    }
  }

  lemma DroppedRows(env: Env, w: World, listed: Entries, w1: World, listed': Entries)
    requires RowsTrue(env, w, listed)
    requires forall q | q in listed' :: q in listed && listed'[q] == listed[q]
    requires forall q | q in w1.db :: q in w.db && w1.db[q] == w.db[q]
    requires forall id | id in w1.tree :: id in w.tree && w1.tree[id] == w.tree[id]
    ensures RowsTrue(env, w1, listed')
  {
    forall q ensures RowTrue(env, w1.(cache := listed'), q) {
      assert RowTrue(env, w.(cache := listed), q);
    }
  }

  lemma DeleteRows(env: Env, local: Local, w: World, listed: Entries, left: set<Path>, p: Path, listed': Entries)
    requires Lacking(env, w, listed, left) && RowsTrue(env, w, listed)
    requires var w1 := ExecDelete(env, local, w, p).world;
             WellFormed(w1.tree, env.root) && Agrees(listed', w1.tree, env.root)
    ensures RowsTrue(env, ExecDelete(env, local, w, p).world, listed')
  {
    var w1 := ExecDelete(env, local, w, p).world;
    if w1.tree == w.tree {
      AgreesUnique(w.tree, env.root, listed, listed');
    } else {
      DeleteAgrees(env, w.(cache := listed), p);
      AgreesUnique(w1.tree, env.root, listed', Cascade(listed, p));
    }
    DroppedRows(env, w, listed, w1, listed');
  }

  lemma MoveRows(env: Env, local: Local, w: World, listed: Entries, left: set<Path>, job: Job, listed': Entries)
    requires Lacking(env, w, listed, left) && RowsTrue(env, w, listed)
    requires job.task.Rename? && JobAllowed(env, local, w, job)
    requires KnownOriginal(w, job.task.from)
    requires job.task.to in left ==> Execute(env, local, w, job).world == w
    requires Lacking(env, Execute(env, local, w, job).world, listed', left)
    ensures RowsTrue(env, Execute(env, local, w, job).world, listed') <==>
            (RowCollision(w, job.task) && Execute(env, local, w, job).world != w ==>
               w.db[job.task.to].hash == w.db[job.task.from].hash)
  {
    var (from, to) := (job.task.from, job.task.to);
    var w0, w1 := w.(cache := listed), Execute(env, local, w, job).world;
    if w1 == w {
      AgreesUnique(w.tree, env.root, listed, listed');
    } else {
      LackingParent(env, w, listed, left, to);
      MoveAgrees(env, w0, from, to, ParentId(env, w.cache, to).value);
      AgreesUnique(w1.tree, env.root, listed', MovedCache(w0, from, to, ParentId(env, w.cache, to).value));
      RenameSound(env, local, w0, job, from, to);
      assert Execute(env, local, w0, job).world == w1.(cache := listed');
    }
  }

  lemma HandleSound(env: Env, local: Local, w: World, listed: Entries, left: set<Path>, job: Job, listed': Entries)
    requires Lacking(env, w, listed, left) && RowsTrue(env, w, listed)
    requires JobAllowed(env, local, w, job) && Clear(env, w, left, Handle(local, job)) && Verified(env, local, job)
    requires Lacking(env, Execute(env, local, w, job).world, listed', NextLeft(env, w, left, Handle(local, job)))
    ensures RowsTrue(env, Execute(env, local, w, job).world, listed') <==> Truthful(env, w, Handle(local, job))
  {
    match job.task
    case SyncFile(p) => SyncRows(env, local, w, listed, left, p, job.newId, job.stored, listed');
    case Delete(p) => DeleteRows(env, local, w, listed, left, p, listed');
    case Rename(from, to) =>
      if KnownOriginal(w, from) {
        MoveRows(env, local, w, listed, left, job, listed');
      } else if Execute(env, local, w, job).world == w {
        AgreesUnique(w.tree, env.root, listed, listed');
      } else {
        SyncRows(env, local, w, listed, left, to, job.newId, job.stored, listed');
      }
  }

  lemma MadeDirSound(env: Env, w: World, listed: Entries, left: set<Path>, p: Path, id: Id, answered: bool,
                     listed': Entries)
    requires Lacking(env, w, listed, left) && RowsTrue(env, w, listed)
    requires Allowed(env, w, MakeDir(p, id, answered)) && Clear(env, w, left, MakeDir(p, id, answered))
    requires Lacking(env, MadeDir(env, w, p, id, answered), listed',
                     NextLeft(env, w, left, MakeDir(p, id, answered)))
    ensures RowsTrue(env, MadeDir(env, w, p, id, answered), listed')
  {
    var w1 := MadeDir(env, w, p, id, answered);
    var made := MakeDirLacking(env, w, listed, left, p, id, answered);
    AgreesUnique(w1.tree, env.root, listed', made);
    if w1.tree == w.tree {
      AgreesUnique(w.tree, env.root, listed, listed');
    } else {
      var entry := CacheEntry(id, ParentId(env, w.cache, p).value);
      assert listed' == listed[p := entry];
      MakeDirSound(env, w, listed, p, entry, Node(Last(p), entry.parentId, Folder));
    }
  }

  // An action keeps every recorded hash true exactly if it writes no false one.
  lemma ActSound(env: Env, w: World, listed: Entries, left: set<Path>, a: Action, listed': Entries)
    requires Lacking(env, w, listed, left) && RowsTrue(env, w, listed)
    requires Allowed(env, w, a) && Clear(env, w, left, a) && (a.Handle? ==> Verified(env, a.local, a.job))
    requires Lacking(env, Act(env, w, a), listed', NextLeft(env, w, left, a))
    ensures RowsTrue(env, Act(env, w, a), listed') <==> Truthful(env, w, a)
  {
    match a
    case Fill(_, _) => AgreesUnique(w.tree, env.root, listed, listed');
    case MakeDir(p, id, answered) => MadeDirSound(env, w, listed, left, p, id, answered, listed');
    case Compare(local, p) =>
      AgreesUnique(w.tree, env.root, listed, listed');
      CompareSound(env, w, listed, left, local, p);
    case GaveUp(p, newId, bytes) => UploadRows(env, w, listed, left, p, newId, bytes, Act(env, w, a), listed');
    case Handle(local, job) => HandleSound(env, local, w, listed, left, job, listed');
  }

  ghost predicate RunTruthful(env: Env, w: World, run: seq<Action>)
    requires RunAllowed(env, w, run)
    decreases |run|
  {
    run == [] || (Truthful(env, w, run[0]) && RunTruthful(env, Act(env, w, run[0]), run[1..]))
  }

  // A run that writes no false hash keeps all recorded hashes true.
  lemma {:induction false} RunSound(env: Env, w: World, listed: Entries, left: set<Path>, run: seq<Action>)
    returns (listed': Entries)
    requires Lacking(env, w, listed, left) && RowsTrue(env, w, listed)
    requires RunAllowed(env, w, run) && RunClear(env, w, left, run) && RunTruthful(env, w, run)
    ensures Lacking(env, After(env, w, run), listed', LeftAfter(env, w, left, run))
    ensures RowsTrue(env, After(env, w, run), listed') && DbSound(env, After(env, w, run))
    decreases |run|
  {
    listed' := listed;
    if run == [] {
      CachedRowsTrue(env, w, listed, left);
    } else {
      listed' := ActLacking(env, w, listed, left, run[0]);
      ActSound(env, w, listed, left, run[0], listed');
      listed' := RunSound(env, Act(env, w, run[0]), listed', NextLeft(env, w, left, run[0]), run[1..]);
    }
  }

  lemma CachedRowsTrue(env: Env, w: World, listed: Entries, left: set<Path>)
    requires Lacking(env, w, listed, left) && RowsTrue(env, w, listed)
    ensures DbSound(env, w)
  {
    forall q ensures RowTrue(env, w, q) {
      assert RowTrue(env, w.(cache := listed), q);
    }
  }

  // ---- What becomes of a left object ---------------------------------------

  // A remote file without a row is adopted: whatever the scan and its tasks do, its
  // bytes stay, so the local hash is there afterwards exactly if it was there before.
  lemma UnrecordedStays(r: Round, p: Path, id: Id, bytes: Content)
    requires Reconciled(r) && VisitedFile(r.env, r.local, p) && r.local[p].content != [] && p !in r.start.db
    requires At(r.start.tree, r.env.root, p, id) && id in r.start.tree && r.start.tree[id].body == File(bytes)
    ensures HoldsHash(r.env, r.end.tree, p, FileHash(r.env, r.local, p)) <==>
            r.env.hash(bytes) == FileHash(r.env, r.local, p)
  {
    PreparedConsistent(r);
    assert p != [] && p in ListedCache(r);
    FileConverges(r, p);
    HashUnderId(r.env, r.start, p, id);
  }

  lemma LeftAt(env: Env, w: World, p: Path, newId: Id, bytes: Content)
    requires Consistent(env, w) && p !in w.cache && Allowed(env, w, GaveUp(p, newId, bytes))
    ensures var t := Act(env, w, GaveUp(p, newId, bytes)).tree;
            At(t, env.root, p, newId) && newId in t && t[newId].body == File(bytes)
  {
    UploadLacking(env, w, w.cache, {}, p, newId, bytes);
    var cache := w.cache[p := CacheEntry(newId, ParentId(env, w.cache, p).value)];
    assert p in cache && cache[p].driveId == newId;
  }

  // So an upload of a new file that was given up is not repaired by the next scan:
  // the wrong bytes are adopted.
  lemma LeftObjectIsAdopted(env: Env, w: World, p: Path, newId: Id, bytes: Content, r: Round)
    requires Consistent(env, w) && p !in w.cache && p !in w.db && Allowed(env, w, GaveUp(p, newId, bytes))
    requires Reconciled(r) && r.env == env && r.start == Act(env, w, GaveUp(p, newId, bytes))
    requires VisitedFile(env, r.local, p) && r.local[p].content != []
    ensures HoldsHash(env, r.end.tree, p, FileHash(env, r.local, p)) <==> env.hash(bytes) == FileHash(env, r.local, p)
  {
    LeftAt(env, w, p, newId, bytes);
    UnrecordedStays(r, p, newId, bytes);
  }

  // And handled again before the next listing, the task makes a second object with
  // the same name in the same folder.
  lemma SecondUploadDuplicates(env: Env, local: Local, w: World, p: Path, newId: Id, bytes: Content, again: Job)
    requires Consistent(env, w) && p !in w.cache && Allowed(env, w, GaveUp(p, newId, bytes))
    requires var w1 := Act(env, w, GaveUp(p, newId, bytes));
             && JobAllowed(env, local, w1, again) && again.task == Task.SyncFile(p)
             && IsFile(local, p) && local[p].content != [] && !env.ignored(p, false)
    ensures var w2 := Act(env, Act(env, w, GaveUp(p, newId, bytes)), Handle(local, again));
            && newId in w2.tree && again.newId in w2.tree && newId != again.newId
            && w2.tree[newId].parent == w2.tree[again.newId].parent && w2.tree[newId].name == w2.tree[again.newId].name
  {
  }
}
