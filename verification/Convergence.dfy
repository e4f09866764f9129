// A scan followed by its tasks, in any order, brings the remote in line with the
// local tree; a second scan then has nothing to do.
module Convergence {
  import opened Paths
  import opened RemoteTree
  import opened PathCaching
  import opened Reconcile
  import opened Agreement
  import opened Confluence
  import opened Listing
  import opened Decisions
  import opened Scan
  import opened Draining

  // ---- Setting -------------------------------------------------------------

  ghost predicate RemoteFile(t: Tree, root: Id, p: Path) {
    exists id :: At(t, root, p, id) && id in t && t[id].body.File?
  }

  ghost predicate RemoteFolder(t: Tree, root: Id, p: Path) {
    exists id :: At(t, root, p, id) && IsFolder(t, root, id)
  }

  ghost predicate FilePath(local: Local, t: Tree, root: Id, db: map<Path, Row>, p: Path) {
    IsFile(local, p) || RemoteFile(t, root, p) || p in db
  }

  ghost predicate DirPath(local: Local, t: Tree, root: Id, db: map<Path, Row>, p: Path) {
    IsDir(local, p) || RemoteFolder(t, root, p) || exists q :: q in db && IsBelow(q, p)
  }

  // No path is a file in one view and a directory in another.
  ghost predicate KindsAgree(local: Local, t: Tree, root: Id, db: map<Path, Row>) {
    forall p :: !(FilePath(local, t, root, db, p) && DirPath(local, t, root, db, p))
  }

  // Whatever lies below an ignored directory is ignored too.
  ghost predicate IgnoreClosed(env: Env) {
    forall p, q, d | env.ignored(p, true) && IsPrefix(p, q) :: env.ignored(q, d)
  }

  // The cache holds no path that the remote does not have (in particular: it is empty).
  ghost predicate NothingStale(cache: Entries, t: Tree, root: Id) {
    forall p | p in cache :: exists id :: At(t, root, p, id)
  }

  // One scan and the handling of its tasks: what it meets (a local tree in the order
  // it is walked, the recorded paths in the order they are iterated, the state at
  // the start, the listing it got), the state it leaves, its tasks as they are
  // handled, and the state after them.
  datatype Round = Round(env: Env, local: Local, walk: seq<Path>, rows: seq<Path>, start: World, index: RemoteIndex,
                         scanned: World, jobs: seq<Job>, end: World)

  function ListedCache(r: Round): Entries {
    FilledFrom(r.start.cache, r.index)
  }

  function Decided(r: Round): Report {
    Decision(r.env, r.local, r.walk, r.rows, r.start, r.index)
  }

  ghost predicate Complete(r: Round) {
    IsListing(r.start.tree, r.env.root, r.index)
  }

  // What a scan meets apart from its cache. A listing that failed counts as empty.
  ghost predicate Views(r: Round) {
    && InventoryOf(r.env, r.local, r.walk)
    && WellFormed(r.start.tree, r.env.root) && (Complete(r) || r.index == RemoteIndex([], []))
    && KindsAgree(r.local, r.start.tree, r.env.root, r.start.db)
    && (forall p | p in r.start.db :: p != [] && Canonical(p))
    && NoRepeats(r.rows) && AsSet(r.rows) == r.start.db.Keys
  }

  // The scan starts from a cache without stale paths and a complete listing, or from
  // an agreeing cache and a listing that failed.
  ghost predicate Setting(r: Round) {
    && Views(r)
    && (if Complete(r)
        then (forall p | p in r.start.cache :: p != []) && NothingStale(r.start.cache, r.start.tree, r.env.root)
        else Agrees(r.start.cache, r.start.tree, r.env.root))
  }

  // ---- The listing fills the cache -----------------------------------------

  // Adding a complete listing to a cache without stale paths makes it agree.
  lemma ListingAgrees(env: Env, cache: Entries, t: Tree, index: RemoteIndex)
    requires WellFormed(t, env.root) && IsListing(t, env.root, index)
    requires (forall p | p in cache :: p != []) && NothingStale(cache, t, env.root)
    ensures Agrees(FilledFrom(cache, index), t, env.root)
  {
    var filled := FilledFrom(cache, index);
    forall p, id | p != [] && At(t, env.root, p, id) ensures p in filled {
      FilledListed(cache, t, env.root, index, p, id);
    }
    forall p | p in filled
      ensures p != [] && At(t, env.root, p, filled[p].driveId) && filled[p].parentId == t[filled[p].driveId].parent
    {
      FilledKeys(Filled(cache, index.dirs), index.files, p);
      FilledKeys(cache, index.dirs, p);
      ListedAt(t, env.root, index, p);
      var id :| At(t, env.root, p, id);
      FilledListed(cache, t, env.root, index, p, id);
    }
    forall p, id | p != [] && At(t, env.root, p, id) ensures filled[p].driveId == id {
      FilledListed(cache, t, env.root, index, p, id);
    }
  }

  lemma ListedAt(t: Tree, root: Id, index: RemoteIndex, p: Path)
    requires IsListing(t, root, index)
    ensures
      (exists e :: e in index.files && e.relativePath == p) || (exists e :: e in index.dirs && e.relativePath == p) ==>
              p != [] && exists id :: At(t, root, p, id)
  {
    forall e | (e in index.files || e in index.dirs) && e.relativePath == p
      ensures p != [] && At(t, root, p, e.driveId)
    {
      assert e in index.files + index.dirs;
    }
  }

  lemma FilledListed(cache: Entries, t: Tree, root: Id, index: RemoteIndex, p: Path, id: Id)
    requires WellFormed(t, root) && IsListing(t, root, index) && p != [] && At(t, root, p, id)
    ensures p in FilledFrom(cache, index) && FilledFrom(cache, index)[p] == CacheEntry(id, t[id].parent)
  {
    FilledKeys(Filled(cache, index.dirs), index.files, p);
    FilledKeys(cache, index.dirs, p);
    forall e | (e in index.files || e in index.dirs) && e.relativePath == p
      ensures CacheEntry(e.driveId, e.parentId) == CacheEntry(id, t[id].parent)
    {
      assert e in index.files + index.dirs;
      IdUnique(t, root, p, e.driveId, id);
    }
    assert IndexEntry(p, id, t[id].parent) in (if t[id].body.File? then index.files else index.dirs);
  }

  // The cache is exactly the map a listing gives.
  lemma AgreesIsListing(env: Env, cache: Entries, t: Tree, index: RemoteIndex)
    requires WellFormed(t, env.root) && IsListing(t, env.root, index)
    ensures Agrees(cache, t, env.root) <==> cache == FilledFrom(map[], index)
  {
    var listed := FilledFrom(map[], index);
    ListingAgrees(env, map[], t, index);
    if Agrees(cache, t, env.root) {
      forall p ensures Get(cache, p) == Get(listed, p) {
        if p in cache {
          assert p in listed && listed[p].driveId == cache[p].driveId;
        }
        if p in listed {
          assert p in cache;
        }
      }
      SameMap(cache, listed);
    }
  }

  // ---- What the scan emits -------------------------------------------------

  lemma {:induction false} LocalAncestor(local: Local, q: Path, p: Path)
    requires LocalTree(local) && p in local && IsBelow(p, q)
    ensures IsDir(local, q)
    decreases |p|
  {
    if |q| == |p| - 1 {
      assert q == Init(p);
    } else {
      assert Init(p)[..|q|] == p[..|q|];
      LocalAncestor(local, q, Init(p));
    }
  }

  lemma VisitedAncestor(env: Env, local: Local, q: Path, p: Path)
    requires LocalTree(local) && Visited(env, local, p) && IsPrefix(q, p)
    ensures Visited(env, local, q)
  {
    if |q| < |p| {
      LocalAncestor(local, q, p);
    } else {
      assert q == p[..|p|] == p;
    }
    forall k | 0 <= k <= |q| ensures !env.ignored(q[..k], IsDir(local, q[..k])) {
      assert q[..k] == p[..k];
    }
  }

  // With a closed ignore predicate a file is inventoried unless it is ignored.
  lemma VisitedUnlessIgnored(env: Env, local: Local, p: Path)
    requires LocalTree(local) && IgnoreClosed(env) && IsFile(local, p) && !env.ignored(p, false)
    ensures Visited(env, local, p)
  {
    forall k | 0 <= k <= |p| ensures !env.ignored(p[..k], IsDir(local, p[..k])) {
      if k < |p| {
        LocalAncestor(local, p[..k], p);
        assert IsPrefix(p[..k], p);
      } else {
        assert p[..k] == p;
      }
    }
  }

  ghost predicate VisitedFile(env: Env, local: Local, p: Path) {
    Visited(env, local, p) && IsFile(local, p)
  }

  lemma InventoriedFiles(env: Env, local: Local, walk: seq<Path>, p: Path)
    requires InventoryOf(env, local, walk)
    ensures p in Filter(FileTest(local), walk) <==> VisitedFile(env, local, p)
    ensures p in Filter(DirTest(local), walk) <==> p != [] && Visited(env, local, p) && IsDir(local, p)
  {
    FilterIn(FileTest(local), walk, p);
    FilterIn(DirTest(local), walk, p);
  }

  lemma CreatedFacts(r: Round, p: Path)
    requires InventoryOf(r.env, r.local, r.walk)
    ensures p in Decided(r).created ==>
              IsDir(r.local, p) && p !in ListedCache(r)
    ensures p != [] && Visited(r.env, r.local, p) && IsDir(r.local, p) ==>
              p in ListedCache(r) || p in Decided(r).created
  {
    var dirs, keys := Filter(DirTest(r.local), r.walk), ListedCache(r).Keys;
    MadeDirsIn(dirs, keys, p);
    if Missing(dirs, keys, p) {
      var d :| d in dirs && d !in keys && IsPrefix(p, d);
      InventoriedFiles(r.env, r.local, r.walk, d);
      if |p| < |d| {
        LocalAncestor(r.local, p, d);
      } else {
        assert p == d[..|d|] == d;
      }
    }
    InventoriedFiles(r.env, r.local, r.walk, p);
    assert IsPrefix(p, p);
  }

  // Files to send: inventoried, not empty, and judged out of date.
  lemma UploadFacts(r: Round, p: Path)
    requires InventoryOf(r.env, r.local, r.walk)
    ensures p in Decided(r).uploads <==>
            VisitedFile(r.env, r.local, p) && r.local[p].content != []
            && Judge(r.env, r.local, ListedCache(r).Keys, r.start.db, p) == Upload
  {
    var keys := ListedCache(r).Keys;
    var created := Decided(r).created;
    var files := Filter(FileTest(r.local), r.walk);
    var test := UploadTest(r.env, r.local, keys + AsSet(created), r.start.db);
    FilterIn(NonEmptyTest(r.local), Filter(test, files), p);
    FilterIn(test, files, p);
    InventoriedFiles(r.env, r.local, r.walk, p);
    CreatedFacts(r, p);
  }

  lemma DbOrphanFacts(r: Round, p: Path)
    requires InventoryOf(r.env, r.local, r.walk) && AsSet(r.rows) == r.start.db.Keys
    ensures p in Decided(r).dbOrphans <==> p in r.start.db && !VisitedFile(r.env, r.local, p)
  {
    FilterIn(DbOrphanTest(Filter(FileTest(r.local), r.walk)), r.rows, p);
    InventoriedFiles(r.env, r.local, r.walk, p);
    assert p in AsSet(r.rows) <==> p in r.start.db;
  }

  lemma ListedFiles(t: Tree, root: Id, index: RemoteIndex, p: Path)
    requires WellFormed(t, root) && IsListing(t, root, index)
    ensures p in PathsOf(index.files) <==> RemoteFile(t, root, p)
  {
    var paths := PathsOf(index.files);
    if p in paths {
      var i :| 0 <= i < |paths| && paths[i] == p;
      assert index.files[i] in index.files + index.dirs && index.files[i] in index.files;
      assert At(t, root, p, index.files[i].driveId);
    }
    if RemoteFile(t, root, p) {
      var id :| At(t, root, p, id) && id in t && t[id].body.File?;
      var e := IndexEntry(p, id, t[id].parent);
      assert e in index.files;
      var i :| 0 <= i < |index.files| && index.files[i] == e;
      assert paths[i] == p;
    }
  }

  lemma RemoteOrphanFacts(r: Round, p: Path)
    requires InventoryOf(r.env, r.local, r.walk) && WellFormed(r.start.tree, r.env.root)
    requires Complete(r) || r.index == RemoteIndex([], [])
    ensures p in Decided(r).remoteOrphans <==>
            && Complete(r) && RemoteFile(r.start.tree, r.env.root, p)
            && !VisitedFile(r.env, r.local, p) && !IsDir(r.local, p)
            && p !in r.start.db && !r.env.ignored(p, IsDir(r.local, p))
  {
    var files := Filter(FileTest(r.local), r.walk);
    FilterIn(RemoteOrphanTest(r.env, r.local, files, r.start.db.Keys), PathsOf(r.index.files), p);
    InventoriedFiles(r.env, r.local, r.walk, p);
    if Complete(r) {
      ListedFiles(r.start.tree, r.env.root, r.index, p);
    }
  }

  lemma TaskMembership(r: Report, task: Task)
    ensures task in TasksOf(r) <==>
            match task
            case SyncFile(p) => p in r.uploads
            case Delete(p) => p in r.dbOrphans || p in r.remoteOrphans
            case Rename(_, _) => false
  {
    var a, b, c := Syncs(r.uploads), Deletes(r.dbOrphans), Deletes(r.remoteOrphans);
    assert task in TasksOf(r) <==> task in a || task in b || task in c;
    match task {
      case SyncFile(p) =>
        if p in r.uploads {
          var i :| 0 <= i < |r.uploads| && r.uploads[i] == p;
          assert a[i] == task;
        }
      case Delete(p) =>
        if p in r.dbOrphans {
          var i :| 0 <= i < |r.dbOrphans| && r.dbOrphans[i] == p;
          assert b[i] == task;
        }
        if p in r.remoteOrphans {
          var i :| 0 <= i < |r.remoteOrphans| && r.remoteOrphans[i] == p;
          assert c[i] == task;
        }
      case Rename(_, _) =>
    }
  }

  // The three groups of tasks name different paths, no deletion names an
  // inventoried file, and every path named is a file in some view.
  lemma EmittedPaths(r: Round, p: Path)
    requires Views(r)
    ensures var d := Decided(r);
            && (p in d.uploads ==> p !in d.dbOrphans && p !in d.remoteOrphans)
            && (p in d.dbOrphans ==> p !in d.remoteOrphans)
            && (p in d.dbOrphans || p in d.remoteOrphans ==> !VisitedFile(r.env, r.local, p))
            && (p in d.uploads || p in d.dbOrphans || p in d.remoteOrphans ==>
                  FilePath(r.local, r.start.tree, r.env.root, r.start.db, p) && p != [] && Canonical(p))
  {
    UploadFacts(r, p);
    DbOrphanFacts(r, p);
    RemoteOrphanFacts(r, p);
    if RemoteFile(r.start.tree, r.env.root, p) {
      var id :| At(r.start.tree, r.env.root, p, id) && id in r.start.tree && r.start.tree[id].body.File?;
      AtCanonical(r.start.tree, r.env.root, p, id);
    }
  }

  // Two different file paths: neither is above the other.
  lemma FilePathsApart(env: Env, local: Local, t: Tree, db: map<Path, Row>, p: Path, q: Path)
    requires LocalTree(local) && WellFormed(t, env.root) && KindsAgree(local, t, env.root, db)
    requires FilePath(local, t, env.root, db, p) && FilePath(local, t, env.root, db, q) && p != q
    ensures Apart(p, q)
  {
    if IsPrefix(p, q) { AboveIsDir(env, local, t, db, p, q); }
    if IsPrefix(q, p) { AboveIsDir(env, local, t, db, q, p); }
  }

  lemma AboveIsDir(env: Env, local: Local, t: Tree, db: map<Path, Row>, p: Path, q: Path)
    requires LocalTree(local) && WellFormed(t, env.root)
    requires FilePath(local, t, env.root, db, q) && IsPrefix(p, q) && p != q
    ensures DirPath(local, t, env.root, db, p)
  {
    assert q[..|q|] == q;
    assert IsBelow(q, p);
    if IsFile(local, q) {
      LocalAncestor(local, p, q);
    } else if RemoteFile(t, env.root, q) {
      var id :| At(t, env.root, q, id) && id in t && t[id].body.File?;
      var a := AncestorAt(t, env.root, p, q, id);
    }
  }

  lemma SyncsNoRepeats(ps: seq<Path>)
    requires NoRepeats(ps)
    ensures NoRepeats(Syncs(ps)) && NoRepeats(Deletes(ps))
  {
  }

  lemma PathsNoRepeats(t: Tree, root: Id, index: RemoteIndex)
    requires WellFormed(t, root) && IsListing(t, root, index)
    ensures NoRepeats(PathsOf(index.files))
  {
    var paths, es := PathsOf(index.files), index.files + index.dirs;
    forall i, j | 0 <= i < j < |paths| ensures paths[i] != paths[j] {
      assert es[i] == index.files[i] && es[j] == index.files[j] && es[i] in es && es[j] in es;
      if paths[i] == paths[j] {
        IdUnique(t, root, paths[i], es[i].driveId, es[j].driveId);
      }
    }
  }

  lemma GroupsOnce(r: Round)
    requires Views(r)
    ensures var d := Decided(r);
            NoRepeats(d.uploads) && NoRepeats(d.dbOrphans) && NoRepeats(d.remoteOrphans)
  {
    var d := Decided(r);
    var files := Filter(FileTest(r.local), r.walk);
    var keys := ListedCache(r).Keys + AsSet(d.created);
    FilterNoRepeats(FileTest(r.local), r.walk);
    FilterNoRepeats(UploadTest(r.env, r.local, keys, r.start.db), files);
    FilterNoRepeats(NonEmptyTest(r.local), Filter(UploadTest(r.env, r.local, keys, r.start.db), files));
    FilterNoRepeats(DbOrphanTest(files), r.rows);
    if Complete(r) {
      PathsNoRepeats(r.start.tree, r.env.root, r.index);
    }
    FilterNoRepeats(RemoteOrphanTest(r.env, r.local, files, r.start.db.Keys), PathsOf(r.index.files));
  }

  lemma TasksNoRepeats(r: Report)
    requires NoRepeats(r.uploads) && NoRepeats(r.dbOrphans) && NoRepeats(r.remoteOrphans)
    requires forall p | p in r.dbOrphans :: p !in r.remoteOrphans
    ensures NoRepeats(TasksOf(r))
  {
    SyncsNoRepeats(r.uploads);
    SyncsNoRepeats(r.dbOrphans);
    SyncsNoRepeats(r.remoteOrphans);
    var a, b, c := Syncs(r.uploads), Deletes(r.dbOrphans), Deletes(r.remoteOrphans);
    assert forall task | task in b :: task.Delete? && task.path in r.dbOrphans;
    assert forall task | task in c :: task.Delete? && task.path in r.remoteOrphans;
    ConcatNoRepeats(a, b);
    ConcatNoRepeats(a + b, c);
  }

  // No task is emitted twice.
  lemma EmittedOnce(r: Round)
    requires Views(r)
    ensures NoRepeats(TasksOf(Decided(r)))
  {
    var d := Decided(r);
    GroupsOnce(r);
    forall p | p in d.dbOrphans ensures p !in d.remoteOrphans {
      EmittedPaths(r, p);
    }
    TasksNoRepeats(d);
  }

  // ---- After the scan ------------------------------------------------------

  // The tasks of the scan as they are handled: in any order, each with the id and
  // the stored bytes the provider chooses for it.
  ghost predicate Handles(env: Env, local: Local, w1: World, tasks: seq<Task>, jobs: seq<Job>) {
    && multiset(tasks) == multiset(Tasks(jobs))
    && (forall i | 0 <= i < |jobs| :: Fresh(w1.tree, env.root, jobs[i].newId) && Verified(env, local, jobs[i]))
    && (forall i, j | 0 <= i < j < |jobs| :: jobs[i].newId != jobs[j].newId)
  }

  function Tasks(jobs: seq<Job>): seq<Task> {
    seq(|jobs|, i requires 0 <= i < |jobs| => jobs[i].task)
  }

  lemma SameBagNoRepeats<T(!new)>(a: seq<T>, b: seq<T>)
    requires NoRepeats(a) && multiset(a) == multiset(b)
    ensures NoRepeats(b)
    ensures forall x :: x in a <==> x in b
  {
    forall x ensures x in a <==> x in b {
      assert x in multiset(a) <==> x in multiset(b);
    }
    forall i, j | 0 <= i < j < |b| ensures b[i] != b[j] {
      if b[i] == b[j] {
        assert b == b[..i] + [b[i]] + b[i + 1..j] + [b[j]] + b[j + 1..];
        assert multiset(b)[b[i]] >= 2;
        AtMostOnce(a, b[i]);
      }
    }
  }

  lemma {:induction false} AtMostOnce<T(!new)>(a: seq<T>, x: T)
    requires NoRepeats(a)
    ensures multiset(a)[x] <= 1
  {
    if a != [] {
      assert a == [a[0]] + a[1..];
      AtMostOnce(a[1..], x);
      if a[0] == x {
        assert x !in a[1..];
      }
    }
  }

  // What a finished real scan has left behind.
  ghost predicate Prepared(r: Round) {
    && Setting(r)
    && Scanned(r.env, false, r.local, r.walk, r.rows, r.start, r.index, r.scanned)
  }

  lemma PreparedConsistent(r: Round)
    requires Prepared(r)
    ensures Agrees(ListedCache(r), r.start.tree, r.env.root)
    ensures Consistent(r.env, r.scanned) && GrownByFolders(r.start.tree, r.scanned.tree)
    ensures forall p | p in ListedCache(r) :: p in r.scanned.cache && r.scanned.cache[p] == ListedCache(r)[p]
    ensures forall p | p in r.scanned.cache && p !in ListedCache(r) ::
              && p in Decided(r).created
              && r.scanned.cache[p].driveId in r.scanned.tree && r.scanned.tree[r.scanned.cache[p].driveId].body.Folder?
  {
    if Complete(r) {
      ListingAgrees(r.env, r.start.cache, r.start.tree, r.index);
    }
    var filled := ListedCache(r);
    var created := Decided(r).created;
    assert Consistent(r.env, r.start.(cache := filled));
    assert r.scanned.cache.Keys == filled.Keys + AsSet(created);
    forall p | p in r.scanned.cache && p !in filled ensures p in created {
      assert p in r.scanned.cache.Keys;
    }
  }

  lemma SameVerdict(r: Round, p: Path)
    requires InventoryOf(r.env, r.local, r.walk) && IsFile(r.local, p)
    ensures var keys := ListedCache(r).Keys;
            Judge(r.env, r.local, keys + AsSet(Decided(r).created), r.start.db, p)
            == Judge(r.env, r.local, keys, r.start.db, p)
  {
    CreatedFacts(r, p);
  }

  lemma PreparedRow(r: Round, p: Path)
    requires Prepared(r)
    ensures Get(r.scanned.db, p) ==
            if VisitedFile(r.env, r.local, p) && Rewritten(r.env, r.local, ListedCache(r).Keys, r.start.db, p)
            then Some(Row(FileHash(r.env, r.local, p), r.local[p].mtime))
            else Get(r.start.db, p)
  {
    var keys := ListedCache(r).Keys + AsSet(Decided(r).created);
    InventoriedFiles(r.env, r.local, r.walk, p);
    if IsFile(r.local, p) {
      SameVerdict(r, p);
    }
    ComparedRow(r.env, r.local, keys, r.start.db, Filter(FileTest(r.local), r.walk), p);
  }

  // What is sent, case by case: the inventoried, non-empty files that are not cached,
  // and the cached ones whose row has another time and another hash.
  lemma UploadsExactly(r: Round, p: Path)
    requires InventoryOf(r.env, r.local, r.walk)
    ensures p in Decided(r).uploads <==>
            && VisitedFile(r.env, r.local, p) && r.local[p].content != []
            && (p in ListedCache(r) ==>
                  && p in r.start.db && r.start.db[p].mtime != r.local[p].mtime
                  && r.start.db[p].hash != r.env.hash(r.local[p].content))
  {
    UploadFacts(r, p);
  }

  // What the comparison leaves in the rows, case by case: a cached file without a row,
  // or whose row has another time but its hash, gets a row with its hash and time; all
  // other rows are as they were. In a simulation too.
  lemma RowsExactly(r: Round, dryRun: bool, p: Path)
    requires InventoryOf(r.env, r.local, r.walk)
    requires Scanned(r.env, dryRun, r.local, r.walk, r.rows, r.start, r.index, r.scanned)
    ensures if VisitedFile(r.env, r.local, p) && p in ListedCache(r)
               && (p !in r.start.db ||
                   (r.start.db[p].mtime != r.local[p].mtime && r.start.db[p].hash == r.env.hash(r.local[p].content)))
            then p in r.scanned.db && r.scanned.db[p] == Row(r.env.hash(r.local[p].content), r.local[p].mtime)
            else (p in r.scanned.db <==> p in r.start.db) && (p in r.start.db ==> r.scanned.db[p] == r.start.db[p])
  {
    var keys := ListedCache(r).Keys + AsSet(Decided(r).created);
    InventoriedFiles(r.env, r.local, r.walk, p);
    if IsFile(r.local, p) {
      SameVerdict(r, p);
    }
    ComparedRow(r.env, r.local, keys, r.start.db, Filter(FileTest(r.local), r.walk), p);
  }

  // So a cached file with the recorded hash has its present time in its row.
  lemma TouchedRowRefreshed(r: Round, p: Path)
    requires Prepared(r) && VisitedFile(r.env, r.local, p) && p in ListedCache(r)
    requires p in r.start.db && r.start.db[p].hash == FileHash(r.env, r.local, p)
    ensures p in r.scanned.db && r.scanned.db[p] == Row(FileHash(r.env, r.local, p), r.local[p].mtime)
  {
    RowsExactly(r, false, p);
  }

  // Nothing ignored, and nothing below it, is uploaded or made.
  lemma NothingIgnoredIsSent(r: Round, p: Path, k: nat)
    requires InventoryOf(r.env, r.local, r.walk) && k <= |p|
    requires p in Decided(r).uploads || p in Decided(r).created
    ensures p[..k] in r.local ==> !r.env.ignored(p[..k], r.local[p[..k]].Dir?)
  {
    if p in Decided(r).uploads {
      UploadFacts(r, p);
    } else {
      var dirs, keys := Filter(DirTest(r.local), r.walk), ListedCache(r).Keys;
      MadeDirsIn(dirs, keys, p);
      var d :| d in dirs && d !in keys && IsPrefix(p, d);
      InventoriedFiles(r.env, r.local, r.walk, d);
      assert d[..k] == p[..k];
    }
  }

  // A cached file path is cached at a file.
  lemma CachedFile(r: Round, p: Path)
    requires Prepared(r)
    requires FilePath(r.local, r.start.tree, r.env.root, r.start.db, p) && p in r.scanned.cache
    ensures p in ListedCache(r)
    ensures r.scanned.cache[p].driveId in r.start.tree && r.scanned.cache[p].driveId in r.scanned.tree
    ensures r.scanned.tree[r.scanned.cache[p].driveId] == r.start.tree[r.scanned.cache[p].driveId]
    ensures r.start.tree[r.scanned.cache[p].driveId].body.File?
    ensures At(r.start.tree, r.env.root, p, r.scanned.cache[p].driveId)
  {
    PreparedConsistent(r);
    CreatedFacts(r, p);
    assert !DirPath(r.local, r.start.tree, r.env.root, r.start.db, p);
    assert p in ListedCache(r);
    var id := r.scanned.cache[p].driveId;
    assert At(r.start.tree, r.env.root, p, id);
  }

  // Every inventoried directory is cached, at a folder.
  lemma CachedFolder(r: Round, p: Path)
    requires Prepared(r)
    requires p != [] && Visited(r.env, r.local, p) && IsDir(r.local, p)
    ensures p in r.scanned.cache && IsFolder(r.scanned.tree, r.env.root, r.scanned.cache[p].driveId)
  {
    PreparedConsistent(r);
    CreatedFacts(r, p);
    var filled := ListedCache(r);
    assert p in filled.Keys + AsSet(Decided(r).created);
    assert p in r.scanned.cache;
    if p in filled {
      var id := filled[p].driveId;
      assert At(r.start.tree, r.env.root, p, id) && id in r.start.tree;
      if r.start.tree[id].body.File? {
        assert RemoteFile(r.start.tree, r.env.root, p);
        assert FilePath(r.local, r.start.tree, r.env.root, r.start.db, p);
        assert DirPath(r.local, r.start.tree, r.env.root, r.start.db, p);
      }
    }
  }

  lemma UploadParent(r: Round, p: Path)
    requires Prepared(r) && VisitedFile(r.env, r.local, p) && p != []
    ensures var parent := ParentId(r.env, r.scanned.cache, p);
            parent.Some? && IsFolder(r.scanned.tree, r.env.root, parent.value)
  {
    if |p| > 1 {
      assert IsPrefix(Init(p), p);
      VisitedAncestor(r.env, r.local, Init(p), p);
      LocalAncestor(r.local, Init(p), p);
      CachedFolder(r, Init(p));
    }
  }

  lemma UploadDue(r: Round, job: Job)
    requires Prepared(r)
    requires job.task.SyncFile? && job.task.path in Decided(r).uploads
    requires Fresh(r.scanned.tree, r.env.root, job.newId) && Verified(r.env, r.local, job)
    ensures Due(r.env, r.local, r.scanned, job)
  {
    var p := job.task.path;
    UploadFacts(r, p);
    EmittedPaths(r, p);
    assert p[..|p|] == p;
    UploadParent(r, p);
    if p in r.scanned.cache {
      CachedFile(r, p);
      PreparedRow(r, p);
    }
  }

  lemma DeleteDue(r: Round, job: Job)
    requires Prepared(r)
    requires job.task.Delete?
    requires job.task.path in Decided(r).dbOrphans
          || job.task.path in Decided(r).remoteOrphans
    requires Fresh(r.scanned.tree, r.env.root, job.newId)
    ensures Due(r.env, r.local, r.scanned, job)
  {
    var p := job.task.path;
    EmittedPaths(r, p);
    if p in r.scanned.cache {
      CachedFile(r, p);
    }
  }

  lemma JobsAreTheTasks(tasks: seq<Task>, jobs: seq<Job>)
    requires NoRepeats(tasks) && multiset(tasks) == multiset(Tasks(jobs))
    ensures NoRepeats(Tasks(jobs))
    ensures forall task :: task in tasks <==> exists i :: 0 <= i < |jobs| && jobs[i].task == task
  {
    SameBagNoRepeats(tasks, Tasks(jobs));
    forall task ensures task in tasks <==> exists i :: 0 <= i < |jobs| && jobs[i].task == task {
      if task in tasks {
        var i :| 0 <= i < |jobs| && Tasks(jobs)[i] == task;
        assert jobs[i].task == task;
      }
      if i :| 0 <= i < |jobs| && jobs[i].task == task {
        assert Tasks(jobs)[i] == task;
      }
    }
  }

  lemma JobDue(r: Round, job: Job)
    requires Prepared(r) && job.task in TasksOf(Decided(r))
    requires Fresh(r.scanned.tree, r.env.root, job.newId) && Verified(r.env, r.local, job)
    ensures Due(r.env, r.local, r.scanned, job)
  {
    TaskMembership(Decided(r), job.task);
    if job.task.SyncFile? { UploadDue(r, job); } else { DeleteDue(r, job); }
  }

  // The jobs of a scan are due and independent of one another.
  lemma ScanJobsDue(r: Round)
    requires Prepared(r)
    requires Handles(r.env, r.local, r.scanned, TasksOf(Decided(r)), r.jobs)
    ensures DueBatch(r.env, r.local, r.scanned, r.jobs)
    ensures forall task :: task in TasksOf(Decided(r)) <==> exists i :: 0 <= i < |r.jobs| && r.jobs[i].task == task
  {
    PreparedConsistent(r);
    EmittedOnce(r);
    JobsAreTheTasks(TasksOf(Decided(r)), r.jobs);
    forall i | 0 <= i < |r.jobs| ensures Due(r.env, r.local, r.scanned, r.jobs[i]) {
      JobDue(r, r.jobs[i]);
    }
    forall i, j | 0 <= i < |r.jobs| && 0 <= j < |r.jobs| && i != j ensures Independent(r.jobs[i], r.jobs[j]) {
      JobsApart(r, i, j);
    }
  }

  lemma JobsApart(r: Round, i: nat, j: nat)
    requires Views(r) && NoRepeats(Tasks(r.jobs))
    requires forall k | 0 <= k < |r.jobs| :: r.jobs[k].task in TasksOf(Decided(r))
    requires i < |r.jobs| && j < |r.jobs| && i != j
    ensures Apart(TargetPath(r.jobs[i].task), TargetPath(r.jobs[j].task))
  {
    var d := Decided(r);
    var p, q := TargetPath(r.jobs[i].task), TargetPath(r.jobs[j].task);
    assert Tasks(r.jobs)[i] == r.jobs[i].task && Tasks(r.jobs)[j] == r.jobs[j].task;
    TaskMembership(d, r.jobs[i].task);
    TaskMembership(d, r.jobs[j].task);
    EmittedPaths(r, p);
    EmittedPaths(r, q);
    FilePathsApart(r.env, r.local, r.start.tree, r.start.db, p, q);
  }

  // ---- Convergence ---------------------------------------------------------

  // The remote has a file at p whose bytes have the given hash.
  ghost predicate HoldsHash(env: Env, t: Tree, p: Path, h: Hash) {
    exists id :: At(t, env.root, p, id) && id in t && t[id].body.File? && env.hash(t[id].body.content) == h
  }

  lemma NotATarget(r: Report, jobs: seq<Job>, p: Path)
    requires forall i | 0 <= i < |jobs| :: jobs[i].task in TasksOf(r)
    requires p !in r.uploads && p !in r.dbOrphans && p !in r.remoteOrphans
    ensures forall i | 0 <= i < |jobs| :: TargetPath(jobs[i].task) != p
  {
    forall i | 0 <= i < |jobs| ensures TargetPath(jobs[i].task) != p {
      TaskMembership(r, jobs[i].task);
    }
  }

  // The scan and its tasks have been carried out, from w over w1 to w2.
  ghost predicate Reconciled(r: Round) {
    && Prepared(r)
    && Handles(r.env, r.local, r.scanned, TasksOf(Decided(r)), r.jobs)
    && (forall i | 0 <= i < |r.jobs| :: TaskPaths(r.jobs[i].task))
    && r.end == Drain(r.env, r.local, r.scanned, r.jobs)
  }

  // Paths the scan decided nothing about are as the scan left them.
  lemma UntouchedPath(r: Round, p: Path)
    requires Reconciled(r)
    requires var d := Decided(r);
             p !in d.uploads && p !in d.dbOrphans && p !in d.remoteOrphans
    ensures Consistent(r.env, r.end) && Same(r.scanned, r.end, p) && AllSucceed(r.env, r.local, r.scanned, r.jobs)
  {
    ScanJobsDue(r);
    NotATarget(Decided(r), r.jobs, p);
    DrainKeeps(r.env, r.local, r.scanned, r.jobs, p);
  }

  // Every task succeeds, and the cache still agrees with the remote tree.
  lemma TasksSucceed(r: Round)
    requires Reconciled(r)
    ensures AllSucceed(r.env, r.local, r.scanned, r.jobs) && Consistent(r.env, r.end)
  {
    EmittedPaths(r, []);
    UntouchedPath(r, []);
  }

  // Any other order of the same jobs ends in the same state.
  lemma OrderDoesNotMatter(r: Round, other: seq<Job>)
    requires Reconciled(r) && multiset(other) == multiset(r.jobs)
    requires forall i | 0 <= i < |other| :: TaskPaths(other[i].task)
    ensures Drain(r.env, r.local, r.scanned, other) == r.end
  {
    ScanJobsDue(r);
    DueIsBatch(r.env, r.local, r.scanned, r.jobs);
    AnyOrder(r.env, r.local, r.scanned, r.jobs, other);
  }

  lemma UploadedPath(r: Round, p: Path)
    requires Reconciled(r)
    requires p in Decided(r).uploads
    ensures IsFile(r.local, p) && Consistent(r.env, r.end) && p in r.end.cache && p in r.end.db
    ensures r.end.db[p] == Row(FileHash(r.env, r.local, p), r.local[p].mtime)
    ensures HoldsHash(r.env, r.end.tree, p, FileHash(r.env, r.local, p))
  {
    ScanJobsDue(r);
    TaskMembership(Decided(r), Task.SyncFile(p));
    var k :| 0 <= k < |r.jobs| && r.jobs[k].task == Task.SyncFile(p);
    DrainAchieves(r.env, r.local, r.scanned, r.jobs, k);
    TasksSucceed(r);
    assert At(r.end.tree, r.env.root, p, r.end.cache[p].driveId);
  }

  lemma DeletedPath(r: Round, p: Path)
    requires Reconciled(r)
    requires var d := Decided(r); p in d.dbOrphans || p in d.remoteOrphans
    requires !r.env.ignored(p, IsDir(r.local, p))
    ensures p !in r.end.cache && p !in r.end.db
  {
    ScanJobsDue(r);
    TaskMembership(Decided(r), Task.Delete(p));
    var k :| 0 <= k < |r.jobs| && r.jobs[k].task == Task.Delete(p);
    DrainAchieves(r.env, r.local, r.scanned, r.jobs, k);
  }

  // An inventoried file that was already remote and was not sent.
  lemma KeptPath(r: Round, p: Path)
    requires Reconciled(r)
    requires VisitedFile(r.env, r.local, p) && p in ListedCache(r)
    requires p !in Decided(r).uploads
    ensures Consistent(r.env, r.end) && p in r.end.cache && Get(r.end.db, p) == Get(r.scanned.db, p)
    ensures forall h :: HoldsHash(r.env, r.end.tree, p, h) <==> HoldsHash(r.env, r.start.tree, p, h)
  {
    EmittedPaths(r, p);
    UntouchedPath(r, p);
    PreparedConsistent(r);
    CachedFile(r, p);
    var id := r.scanned.cache[p].driveId;
    assert Get(r.scanned.cache, p) == Get(r.end.cache, p) && Get(r.scanned.tree, id) == Get(r.end.tree, id);
    assert At(r.end.tree, r.env.root, p, id) && r.end.tree[id] == r.start.tree[id];
    HashUnderId(r.env, r.end, p, id);
    HashUnderId(r.env, r.start, p, id);
  }

  // An inventoried, non-empty file ends up on the remote with the local hash,
  // whatever the order of the tasks, exactly if the scan judged it out of date or
  // the remote already had it with that hash. The files that miss are those the
  // comparison skips without looking at the remote bytes: unchanged modification
  // time, hash equal to the recorded one, or adopted because no row exists.
  lemma FileConverges(r: Round, p: Path)
    requires Reconciled(r)
    requires VisitedFile(r.env, r.local, p) && r.local[p].content != []
    ensures HoldsHash(r.env, r.end.tree, p, FileHash(r.env, r.local, p)) <==>
            || Judge(r.env, r.local, ListedCache(r).Keys, r.start.db, p) == Upload
            || HoldsHash(r.env, r.start.tree, p, FileHash(r.env, r.local, p))
  {
    UploadFacts(r, p);
    if p in Decided(r).uploads {
      UploadedPath(r, p);
    } else {
      KeptPath(r, p);
    }
  }

  // At a path that is neither ignored nor an inventoried file, a remote file remains
  // exactly if it was there without a row and the listing that would have shown it
  // failed.
  lemma RemainsExactly(r: Round, p: Path)
    requires Reconciled(r) && !r.env.ignored(p, IsDir(r.local, p)) && !VisitedFile(r.env, r.local, p)
    ensures RemoteFile(r.end.tree, r.env.root, p) <==>
            !Complete(r) && RemoteFile(r.start.tree, r.env.root, p) && p !in r.start.db
  {
    TasksSucceed(r);
    var d := Decided(r);
    UploadFacts(r, p);
    DbOrphanFacts(r, p);
    RemoteOrphanFacts(r, p);
    if p in d.dbOrphans || p in d.remoteOrphans {
      DeletedPath(r, p);
    } else {
      UntouchedRemote(r, p);
      if RemoteFile(r.start.tree, r.env.root, p) {
        var id :| At(r.start.tree, r.env.root, p, id) && id in r.start.tree && r.start.tree[id].body.File?;
        RemoteFileIsNoDir(r.local, r.env, r.start, p, id);
      }
    }
  }

  // A path that is no target has a remote file at the end exactly if it had one.
  lemma UntouchedRemote(r: Round, p: Path)
    requires Reconciled(r)
    requires var d := Decided(r); p !in d.uploads && p !in d.dbOrphans && p !in d.remoteOrphans
    ensures RemoteFile(r.end.tree, r.env.root, p) <==> RemoteFile(r.start.tree, r.env.root, p)
  {
    UntouchedPath(r, p);
    PreparedConsistent(r);
    if RemoteFile(r.end.tree, r.env.root, p) {
      var id :| At(r.end.tree, r.env.root, p, id) && id in r.end.tree && r.end.tree[id].body.File?;
      assert p != [] && p in r.end.cache && r.end.cache[p].driveId == id;
      assert Get(r.scanned.cache, p) == Get(r.end.cache, p) && Get(r.scanned.tree, id) == Get(r.end.tree, id);
      assert p in ListedCache(r);
      assert At(r.start.tree, r.env.root, p, id) && r.start.tree[id] == r.scanned.tree[id];
    }
    if RemoteFile(r.start.tree, r.env.root, p) {
      var id :| At(r.start.tree, r.env.root, p, id) && id in r.start.tree && r.start.tree[id].body.File?;
      assert p != [] && p in ListedCache(r) && ListedCache(r)[p].driveId == id;
      assert Get(r.scanned.cache, p) == Get(r.end.cache, p) && Get(r.scanned.tree, id) == Get(r.end.tree, id);
      assert At(r.end.tree, r.env.root, p, id);
    }
  }

  lemma RemoteFileIsNoDir(local: Local, env: Env, w: World, p: Path, id: Id)
    requires KindsAgree(local, w.tree, env.root, w.db)
    requires At(w.tree, env.root, p, id) && id in w.tree && w.tree[id].body.File?
    ensures RemoteFile(w.tree, env.root, p) && !IsDir(local, p)
  {
    assert FilePath(local, w.tree, env.root, w.db, p);
  }

  // A file whose modification time is the recorded one has the recorded hash.
  ghost predicate HonestTimes(env: Env, local: Local, db: map<Path, Row>) {
    forall p | IsFile(local, p) && p in db && db[p].mtime == local[p].mtime :: db[p].hash == FileHash(env, local, p)
  }

  // Every local file that is neither ignored nor empty nor adopted is on the remote
  // with its hash, and no other file is there at a path that is not ignored, except,
  // if the listing failed, those the remote had and no row recorded.
  ghost predicate Converged(r: Round) {
    && (forall p | IsFile(r.local, p) && r.local[p].content != [] && !r.env.ignored(p, false)
                   && (p in r.start.db || !RemoteFile(r.start.tree, r.env.root, p)) ::
          HoldsHash(r.env, r.end.tree, p, FileHash(r.env, r.local, p)))
    && (forall p | !IsFile(r.local, p) && !r.env.ignored(p, IsDir(r.local, p)) ::
          RemoteFile(r.end.tree, r.env.root, p) <==>
          !Complete(r) && RemoteFile(r.start.tree, r.env.root, p) && p !in r.start.db)
  }

  lemma Converges(r: Round)
    requires Reconciled(r) && IgnoreClosed(r.env)
    requires DbSound(r.env, r.start.(cache := ListedCache(r))) && HonestTimes(r.env, r.local, r.start.db)
    ensures Converged(r)
  {
    forall p | IsFile(r.local, p) && r.local[p].content != [] && !r.env.ignored(p, false)
               && (p in r.start.db || !RemoteFile(r.start.tree, r.env.root, p))
      ensures HoldsHash(r.env, r.end.tree, p, FileHash(r.env, r.local, p))
    {
      VisitedUnlessIgnored(r.env, r.local, p);
      FileConverges(r, p);
      SkippedIsCurrent(r, p);
    }
    forall p | !IsFile(r.local, p) && !r.env.ignored(p, IsDir(r.local, p))
      ensures RemoteFile(r.end.tree, r.env.root, p) <==>
              !Complete(r) && RemoteFile(r.start.tree, r.env.root, p) && p !in r.start.db
    {
      RemainsExactly(r, p);
    }
  }

  // A recorded file the comparison skips is on the remote with the local hash.
  lemma SkippedIsCurrent(r: Round, p: Path)
    requires Prepared(r) && IsFile(r.local, p)
    requires DbSound(r.env, r.start.(cache := ListedCache(r))) && HonestTimes(r.env, r.local, r.start.db)
    requires p in r.start.db || !RemoteFile(r.start.tree, r.env.root, p)
    ensures Judge(r.env, r.local, ListedCache(r).Keys, r.start.db, p) != Upload ==>
              HoldsHash(r.env, r.start.tree, p, FileHash(r.env, r.local, p))
  {
    var filled := ListedCache(r);
    PreparedConsistent(r);
    if p in filled {
      CachedFile(r, p);
      var id := filled[p].driveId;
      assert RowTrue(r.env, r.start.(cache := filled), p);
      assert At(r.start.tree, r.env.root, p, id) && r.start.tree[id].body.File?;
    }
  }

  // If the hash tells contents apart, the bytes are the local ones.
  lemma SameHashSameBytes(env: Env, local: Local, t: Tree, p: Path)
    requires forall a, b | env.hash(a) == env.hash(b) :: a == b
    requires IsFile(local, p) && HoldsHash(env, t, p, FileHash(env, local, p))
    ensures exists id :: At(t, env.root, p, id) && id in t && t[id].body == File(local[p].content)
  {
    var id :| && At(t, env.root, p, id) && id in t && t[id].body.File?
              && env.hash(t[id].body.content) == FileHash(env, local, p);
    assert t[id].body == File(local[p].content);
  }

  // The rows stay true through a scan exactly if every adopted file has the same
  // hash on the remote.
  lemma ScanSound(r: Round)
    requires Prepared(r)
    requires DbSound(r.env, r.start.(cache := ListedCache(r)))
    ensures DbSound(r.env, r.scanned) <==>
            forall p | VisitedFile(r.env, r.local, p)
                       && Judge(r.env, r.local, ListedCache(r).Keys, r.start.db, p) == Adopt ::
              HoldsHash(r.env, r.start.tree, p, FileHash(r.env, r.local, p))
  {
    var filled := ListedCache(r);
    forall p ensures RowTrue(r.env, r.scanned, p) <==>
                     (VisitedFile(r.env, r.local, p) && Judge(r.env, r.local, filled.Keys, r.start.db, p) == Adopt ==>
                        HoldsHash(r.env, r.start.tree, p, FileHash(r.env, r.local, p)))
    {
      RowAfterScan(r, p);
    }
  }

  lemma RowAfterScan(r: Round, p: Path)
    requires Prepared(r)
    requires DbSound(r.env, r.start.(cache := ListedCache(r)))
    ensures RowTrue(r.env, r.scanned, p) <==>
            (VisitedFile(r.env, r.local, p) && Judge(r.env, r.local, ListedCache(r).Keys, r.start.db, p) == Adopt ==>
               HoldsHash(r.env, r.start.tree, p, FileHash(r.env, r.local, p)))
  {
    PreparedConsistent(r);
    PreparedRow(r, p);
    if p in r.scanned.cache && FilePath(r.local, r.start.tree, r.env.root, r.start.db, p) {
      CachedFile(r, p);
      CachedRowAfterScan(r, p);
    }
  }

  lemma CachedRowAfterScan(r: Round, p: Path)
    requires WellFormed(r.start.tree, r.env.root) && RowTrue(r.env, r.start.(cache := ListedCache(r)), p)
    requires Get(r.scanned.db, p) ==
             if VisitedFile(r.env, r.local, p) && Rewritten(r.env, r.local, ListedCache(r).Keys, r.start.db, p)
             then Some(Row(FileHash(r.env, r.local, p), r.local[p].mtime))
             else Get(r.start.db, p)
    requires p in r.scanned.cache && p in ListedCache(r) && r.scanned.cache[p] == ListedCache(r)[p]
    requires var id := r.scanned.cache[p].driveId;
             && id in r.start.tree && id in r.scanned.tree && r.scanned.tree[id] == r.start.tree[id]
             && r.start.tree[id].body.File? && At(r.start.tree, r.env.root, p, id)
    ensures RowTrue(r.env, r.scanned, p) <==>
            (VisitedFile(r.env, r.local, p) && Judge(r.env, r.local, ListedCache(r).Keys, r.start.db, p) == Adopt ==>
               HoldsHash(r.env, r.start.tree, p, FileHash(r.env, r.local, p)))
  {
    var id := r.scanned.cache[p].driveId;
    HashUnderId(r.env, r.start, p, id);
    assert RowTrue(r.env, r.scanned, p) <==>
        (p in r.scanned.db ==> r.scanned.db[p].hash == r.env.hash(r.start.tree[id].body.content));
  }

  lemma HashUnderId(env: Env, w: World, p: Path, id: Id)
    requires WellFormed(w.tree, env.root) && At(w.tree, env.root, p, id) && id in w.tree && w.tree[id].body.File?
    ensures forall h :: HoldsHash(env, w.tree, p, h) <==> env.hash(w.tree[id].body.content) == h
  {
    forall j | At(w.tree, env.root, p, j) ensures j == id {
      IdUnique(w.tree, env.root, p, id, j);
    }
  }

  // ---- Fixpoint ------------------------------------------------------------

  lemma AMember(ps: seq<Path>) returns (p: Path)
    requires ps != []
    ensures p in ps
  {
    p := ps[0];
  }

  // The next scan of the same local tree, whatever its orders and its listing.
  ghost predicate Follows(r: Round, next: Round) {
    && next.env == r.env && next.local == r.local && next.start == r.end
    && InventoryOf(next.env, next.local, next.walk) && AsSet(next.rows) == next.start.db.Keys
    && (Complete(next) || next.index == RemoteIndex([], []))
  }

  // A second scan of an unchanged local tree creates no directory, sends no file, and
  // deletes rows of ignored paths only. From the remote it deletes exactly what the
  // first scan could not see because its listing failed: nothing, if it succeeded.
  lemma SecondScanIsIdle(r: Round, next: Round)
    requires Reconciled(r) && Follows(r, next)
    ensures var d := Decided(next);
            && d.created == [] && d.uploads == []
            && (forall p :: p in d.dbOrphans <==>
                  p in r.start.db && !VisitedFile(r.env, r.local, p) && r.env.ignored(p, IsDir(r.local, p)))
            && (forall p :: p in d.remoteOrphans <==>
                  && Complete(next) && !Complete(r) && RemoteFile(r.start.tree, r.env.root, p) && p !in r.start.db
                  && !VisitedFile(r.env, r.local, p) && !r.env.ignored(p, IsDir(r.local, p)))
            && (Complete(r) ==> d.remoteOrphans == [])
  {
    var d := Decided(next);
    SameCache(r, next);
    if d.created != [] {
      var p := AMember(d.created);
      NothingToCreate(r, next, p);
    }
    if d.uploads != [] {
      var p := AMember(d.uploads);
      NothingToSend(r, next, p);
    }
    forall p ensures p in d.remoteOrphans <==>
                       && Complete(next) && !Complete(r) && RemoteFile(r.start.tree, r.env.root, p) && p !in r.start.db
                       && !VisitedFile(r.env, r.local, p) && !r.env.ignored(p, IsDir(r.local, p))
    {
      OrphansLeft(r, next, p);
    }
    if Complete(r) && d.remoteOrphans != [] {
      var p := AMember(d.remoteOrphans);
    }
    forall p ensures p in d.dbOrphans <==>
                       p in r.start.db && !VisitedFile(r.env, r.local, p) && r.env.ignored(p, IsDir(r.local, p))
    {
      DbOrphanFacts(next, p);
      if !VisitedFile(r.env, r.local, p) {
        RowsLeft(r, p);
      }
    }
  }

  lemma SameCache(r: Round, next: Round)
    requires Reconciled(r) && Follows(r, next)
    ensures Consistent(r.env, r.end) && forall p :: p in ListedCache(next) <==> p in r.end.cache
  {
    TasksSucceed(r);
    if Complete(next) {
      var filled := ListedCache(next);
      ListingAgrees(r.env, r.end.cache, r.end.tree, next.index);
      forall p ensures p in filled <==> p in r.end.cache {
        if p in filled { assert At(r.end.tree, r.env.root, p, filled[p].driveId); }
        if p in r.end.cache { assert At(r.end.tree, r.env.root, p, r.end.cache[p].driveId); }
      }
    }
  }

  lemma OrphansLeft(r: Round, next: Round, p: Path)
    requires Reconciled(r) && Follows(r, next)
    ensures p in Decided(next).remoteOrphans <==>
              && Complete(next) && !Complete(r) && RemoteFile(r.start.tree, r.env.root, p) && p !in r.start.db
              && !VisitedFile(r.env, r.local, p) && !r.env.ignored(p, IsDir(r.local, p))
  {
    TasksSucceed(r);
    RemoteOrphanFacts(next, p);
    if !VisitedFile(r.env, r.local, p) && !r.env.ignored(p, IsDir(r.local, p)) {
      RemainsExactly(r, p);
      if p in r.end.db { RowsLeft(r, p); }
      if RemoteFile(r.start.tree, r.env.root, p) {
        var id :| At(r.start.tree, r.env.root, p, id) && id in r.start.tree && r.start.tree[id].body.File?;
        RemoteFileIsNoDir(r.local, r.env, r.start, p, id);
      }
    }
  }

  lemma NothingToCreate(r: Round, next: Round, p: Path)
    requires Reconciled(r) && InventoryOf(next.env, next.local, next.walk) && next.env == r.env && next.local == r.local
    requires forall q :: q in ListedCache(next) <==> q in r.end.cache
    ensures p !in Decided(next).created
  {
    var dirs, keys := Filter(DirTest(r.local), next.walk), ListedCache(next).Keys;
    MadeDirsIn(dirs, keys, p);
    forall d | d in dirs ensures d in keys {
      InventoriedFiles(r.env, r.local, next.walk, d);
      CachedFolder(r, d);
      DirIsNoTarget(r, d);
      UntouchedPath(r, d);
      assert Get(r.scanned.cache, d) == Get(r.end.cache, d);
    }
  }

  lemma DirIsNoTarget(r: Round, p: Path)
    requires Views(r) && IsDir(r.local, p)
    ensures var d := Decided(r);
            p !in d.uploads && p !in d.dbOrphans && p !in d.remoteOrphans
  {
    EmittedPaths(r, p);
    assert DirPath(r.local, r.start.tree, r.env.root, r.start.db, p);
  }

  // After the tasks every inventoried, non-empty file is cached and recorded with
  // its current modification time.
  lemma RowsCurrent(r: Round, p: Path)
    requires Reconciled(r) && VisitedFile(r.env, r.local, p) && r.local[p].content != []
    ensures p in r.end.cache && p in r.end.db && r.end.db[p].mtime == r.local[p].mtime
  {
    UploadsExactly(r, p);
    if p in Decided(r).uploads {
      UploadedPath(r, p);
    } else {
      KeptPath(r, p);
      RowsExactly(r, false, p);
    }
  }

  lemma NothingToSend(r: Round, next: Round, p: Path)
    requires Reconciled(r) && Follows(r, next)
    requires forall q :: q in ListedCache(next) <==> q in r.end.cache
    ensures p !in Decided(next).uploads
    ensures VisitedFile(r.env, r.local, p) && r.local[p].content != [] ==>
              p in r.end.db && r.end.db[p].mtime == r.local[p].mtime
  {
    UploadsExactly(next, p);
    if VisitedFile(r.env, r.local, p) && r.local[p].content != [] {
      RowsCurrent(r, p);
    }
  }

  // A row without an inventoried file is still there after the tasks exactly if its
  // path is ignored.
  lemma RowsLeft(r: Round, p: Path)
    requires Reconciled(r) && !VisitedFile(r.env, r.local, p)
    ensures p in r.end.db <==> p in r.start.db && r.env.ignored(p, IsDir(r.local, p))
  {
    var d := Decided(r);
    UploadFacts(r, p);
    DbOrphanFacts(r, p);
    PreparedRow(r, p);
    if p in d.dbOrphans || p in d.remoteOrphans {
      if r.env.ignored(p, IsDir(r.local, p)) {
        IgnoredPath(r, p);
      } else {
        DeletedPath(r, p);
      }
    } else {
      UntouchedPath(r, p);
    }
  }

  // The deletion of an ignored path is not carried out.
  lemma IgnoredPath(r: Round, p: Path)
    requires Reconciled(r) && r.env.ignored(p, IsDir(r.local, p))
    requires var d := Decided(r); p in d.dbOrphans || p in d.remoteOrphans
    ensures Same(r.scanned, r.end, p)
  {
    ScanJobsDue(r);
    TaskMembership(Decided(r), Task.Delete(p));
    var k :| 0 <= k < |r.jobs| && r.jobs[k].task == Task.Delete(p);
    DrainAchieves(r.env, r.local, r.scanned, r.jobs, k);
  }

  // Every later scan of the same tree sends the same deletions of ignored rows again.
  lemma {:induction false} DeletionsRepeat(rounds: seq<Round>, k: nat, p: Path)
    requires 0 < k < |rounds|
    requires forall i | 0 <= i < |rounds| :: Reconciled(rounds[i])
    requires forall i | 0 < i < |rounds| :: Follows(rounds[i - 1], rounds[i])
    ensures var r := rounds[0];
            p in Decided(rounds[k]).dbOrphans <==>
            p in r.start.db && !VisitedFile(r.env, r.local, p) && r.env.ignored(p, IsDir(r.local, p))
    decreases k
  {
    SecondScanIsIdle(rounds[k - 1], rounds[k]);
    if k > 1 {
      DeletionsRepeat(rounds, k - 1, p);
      SameTree(rounds, k - 1);
      DbOrphanFacts(rounds[k - 1], p);
    }
  }

  lemma {:induction false} SameTree(rounds: seq<Round>, k: nat)
    requires k < |rounds|
    requires forall i | 0 < i < |rounds| :: Follows(rounds[i - 1], rounds[i])
    ensures rounds[k].env == rounds[0].env && rounds[k].local == rounds[0].local
  {
    if k > 0 {
      SameTree(rounds, k - 1);
    }
  }
}
