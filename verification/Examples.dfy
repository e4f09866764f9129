// A directory with one file, seen by scans of different remotes: where everything
// that convergence assumes holds, and where each of its exceptions really occurs.
module Examples {
  import opened Paths
  import opened RemoteTree
  import opened PathCaching
  import opened Reconcile
  import opened Confluence
  import opened Listing
  import opened Decisions
  import opened Scan
  import opened Convergence
  import opened Runs
  import opened FailedListing
  import opened StaleCache

  ghost predicate OneFile(env: Env, local: Local, walk: seq<Path>, a: Path) {
    && |a| == 1 && IsName(a[0]) && NoRepeats(walk) && (forall p :: p in walk <==> p in local)
    && (forall p :: p in local <==> p == [] || p == a)
    && local[[]].Dir? && local[a].LocalFile? && local[a].content != []
    && forall p, dir :: !env.ignored(p, dir)
  }

  lemma OneFileWalked(env: Env, local: Local, walk: seq<Path>, a: Path)
    requires OneFile(env, local, walk, a)
    ensures InventoryOf(env, local, walk) && IgnoreClosed(env) && a != [] && Canonical(a)
  {
    assert Init(a) == [] && a[..0] == [] && a[..1] == a;
  }

  lemma NoMember(ps: seq<Path>)
    requires forall p :: p !in ps
    ensures ps == []
  {
    if ps != [] {
      var p := AMember(ps);
    }
  }

  lemma OnlyMember(ps: seq<Path>, a: Path)
    requires NoRepeats(ps) && forall p :: p in ps <==> p == a
    ensures ps == [a]
  {
    assert a in ps;
    var i :| 0 <= i < |ps| && ps[i] == a;
    forall k | 0 <= k < |ps| ensures ps[k] == a && k == i {
      assert ps[k] in ps;
    }
    assert ps[0] == ps[|ps| - 1];
  }

  lemma OneFileFilters(env: Env, local: Local, walk: seq<Path>, a: Path)
    requires OneFile(env, local, walk, a)
    ensures Filter(DirTest(local), walk) == [] && Filter(FileTest(local), walk) == [a] && IsFile(local, a)
  {
    var dirs, files := Filter(DirTest(local), walk), Filter(FileTest(local), walk);
    forall p ensures p !in dirs && (p in files <==> p == a) {
      FilterIn(DirTest(local), walk, p);
      FilterIn(FileTest(local), walk, p);
    }
    FilterNoRepeats(FileTest(local), walk);
    NoMember(dirs);
    OnlyMember(files, a);
  }

  lemma FilterOne(f: Path -> bool, a: Path)
    ensures Filter(f, [a]) == if f(a) then [a] else []
  {
    assert [a][..0] == [];
  }

  lemma FilterNone(f: Path -> bool, ps: seq<Path>)
    requires forall p | p in ps :: !f(p)
    ensures Filter(f, ps) == []
  {
    forall p ensures p !in Filter(f, ps) {
      FilterIn(f, ps, p);
    }
    NoMember(Filter(f, ps));
  }

  lemma OneFileUploads(env: Env, local: Local, a: Path, keys: set<Path>, db: map<Path, Row>)
    requires IsFile(local, a) && local[a].content != []
    ensures Filter(NonEmptyTest(local), Filter(UploadTest(env, local, keys, db), [a]))
         == if Judge(env, local, keys, db, a) == Upload then [a] else []
  {
    FilterOne(UploadTest(env, local, keys, db), a);
    FilterOne(NonEmptyTest(local), a);
  }

  lemma DecidedByFiles(env: Env, local: Local, walk: seq<Path>, keys: set<Path>, db: map<Path, Row>,
                       rows: seq<Path>, listed: seq<IndexEntry>, files: seq<Path>)
    requires Filter(DirTest(local), walk) == [] && Filter(FileTest(local), walk) == files
    requires Filter(DbOrphanTest(files), rows) == []
    requires Filter(RemoteOrphanTest(env, local, files, db.Keys), PathsOf(listed)) == []
    ensures Decide(env, local, walk, keys, db, rows, listed)
         == Report([], Filter(NonEmptyTest(local), Filter(UploadTest(env, local, keys, db), files)), [], [])
  {
    assert keys + AsSet<Path>([]) == keys;
  }

  // What is decided when nothing but the one file is recorded or listed.
  lemma OneFileDecided(env: Env, local: Local, walk: seq<Path>, a: Path, keys: set<Path>, db: map<Path, Row>,
                       rows: seq<Path>, listed: seq<IndexEntry>)
    requires OneFile(env, local, walk, a) && (forall p | p in rows :: p == a)
    requires forall e | e in listed :: e.relativePath == a
    ensures IsFile(local, a)
    ensures Decide(env, local, walk, keys, db, rows, listed)
         == Report([], if Judge(env, local, keys, db, a) == Upload then [a] else [], [], [])
  {
    OneFileFilters(env, local, walk, a);
    OneFileUploads(env, local, a, keys, db);
    FilterNone(DbOrphanTest([a]), rows);
    assert forall p | p in PathsOf(listed) :: p == a;
    FilterNone(RemoteOrphanTest(env, local, [a], db.Keys), PathsOf(listed));
    DecidedByFiles(env, local, walk, keys, db, rows, listed, [a]);
  }

  lemma OneFileRows(env: Env, local: Local, a: Path, keys: set<Path>, db: map<Path, Row>)
    requires IsFile(local, a)
    ensures Compared(env, local, keys, db, [a])
         == if Rewritten(env, local, keys, db, a) then db[a := Row(FileHash(env, local, a), local[a].mtime)] else db
  {
    assert [a][..0] == [];
  }

  // A scan of one file that has no folder to make, simulated or real.
  lemma ScannedWithoutFolders(env: Env, dryRun: bool, local: Local, walk: seq<Path>, rows: seq<Path>, w: World,
                              index: RemoteIndex, w1: World, a: Path)
    requires Decision(env, local, walk, rows, w, index).created == []
    requires w1.tree == w.tree && w1.cache == FilledFrom(w.cache, index)
    requires Filter(FileTest(local), walk) == [a] && IsFile(local, a)
    requires w1.db == Compared(env, local, w1.cache.Keys, w.db, [a])
    ensures Scanned(env, dryRun, local, walk, rows, w, index, w1)
  {
    assert w1.cache.Keys + AsSet<Path>([]) == w1.cache.Keys;
  }

  // Once the tasks of a scan can be handled, there is a state they lead to.
  lemma ReconciledBy(r: Round)
    requires Prepared(r) && Handles(r.env, r.local, r.scanned, TasksOf(Decided(r)), r.jobs)
    requires forall i | 0 <= i < |r.jobs| :: TaskPaths(r.jobs[i].task)
    ensures Reconciled(r.(end := Drain(r.env, r.local, r.scanned, r.jobs)))
  {
  }

  lemma NothingToHandle(r: Round)
    requires Prepared(r) && Decided(r) == Report([], [], [], []) && r.jobs == [] && r.end == r.scanned
    ensures Reconciled(r)
  {
    assert TasksOf(Report([], [], [], [])) == [] == Tasks([]);
    ReconciledBy(r);
  }

  // ---- A new file ----------------------------------------------------------

  function NewFileRound(env: Env, local: Local, walk: seq<Path>, a: Path, id: Id, bytes: Content): Round {
    var w := World(map[], map[], map[]);
    Round(env, local, walk, [], w, RemoteIndex([], []), w, [Job(Task.SyncFile(a), id, bytes)], w)
  }

  lemma NewFileSetting(r: Round, a: Path)
    requires OneFile(r.env, r.local, r.walk, a) && r.start == World(map[], map[], map[])
    requires r.index == RemoteIndex([], []) && r.rows == []
    ensures Setting(r)
  {
    OneFileWalked(r.env, r.local, r.walk, a);
    assert forall p | RemoteFolder(r.start.tree, r.env.root, p) :: p == [];
  }

  lemma NewFilePrepared(r: Round, a: Path)
    requires OneFile(r.env, r.local, r.walk, a) && r.start == World(map[], map[], map[])
    requires r.index == RemoteIndex([], []) && r.rows == [] && r.scanned == r.start
    ensures Prepared(r) && Decided(r) == Report([], [a], [], [])
  {
    var (w, keys) := (r.start, r.start.cache.Keys);
    NewFileSetting(r, a);
    OneFileFilters(r.env, r.local, r.walk, a);
    OneFileDecided(r.env, r.local, r.walk, a, keys, w.db, [], []);
    OneFileRows(r.env, r.local, a, keys, w.db);
    ScannedWithoutFolders(r.env, false, r.local, r.walk, [], w, r.index, w, a);
  }

  lemma NewFileHandled(r: Round, a: Path, id: Id)
    requires OneFile(r.env, r.local, r.walk, a) && r.scanned.tree == map[] && id != r.env.root
    requires r.jobs == [Job(Task.SyncFile(a), id, r.local[a].content)]
    ensures Handles(r.env, r.local, r.scanned, TasksOf(Report([], [a], [], [])), r.jobs)
    ensures forall i | 0 <= i < |r.jobs| :: TaskPaths(r.jobs[i].task)
  {
    OneFileWalked(r.env, r.local, r.walk, a);
    assert TasksOf(Report([], [a], [], [])) == [Task.SyncFile(a)] == Tasks(r.jobs);
  }

  // All that convergence assumes can be had at once, with a file to upload.
  lemma NewFileReconciled(env: Env, local: Local, walk: seq<Path>, a: Path, id: Id) returns (r: Round)
    requires OneFile(env, local, walk, a) && id != env.root
    ensures r == NewFileRound(env, local, walk, a, id, local[a].content).(end := r.end)
    ensures Reconciled(r) && Decided(r).uploads == [a]
    ensures IgnoreClosed(env) && DbSound(env, r.start.(cache := ListedCache(r))) && HonestTimes(env, local, r.start.db)
  {
    r := NewFileRound(env, local, walk, a, id, local[a].content);
    OneFileWalked(env, local, walk, a);
    NewFilePrepared(r, a);
    NewFileHandled(r, a, id);
    ReconciledBy(r);
    r := r.(end := Drain(env, local, r.scanned, r.jobs));
  }

  // ---- A remote file with other bytes --------------------------------------

  // The remote has one file, at a, with bytes of another hash.
  ghost predicate OtherBytes(env: Env, local: Local, a: Path, id: Id, other: Content, w: World) {
    && |a| == 1 && IsFile(local, a) && id != env.root && env.hash(other) != env.hash(local[a].content)
    && (forall j :: j in w.tree <==> j == id) && w.tree[id] == Node(Last(a), env.root, File(other))
    && w.cache == map[]
  }

  function OneEntry(env: Env, a: Path, id: Id): RemoteIndex {
    RemoteIndex([IndexEntry(a, id, env.root)], [])
  }

  lemma StoredAt(env: Env, local: Local, a: Path, id: Id, other: Content, w: World, p: Path, j: Id)
    requires OtherBytes(env, local, a, id, other, w)
    ensures At(w.tree, env.root, p, j) <==> (p == [] && j == env.root) || (p == a && j == id)
  {
    assert Init(a) == [];
    if p != [] && At(w.tree, env.root, p, j) {
      assert p == Init(p) + [Last(p)];
    }
  }

  lemma StoredListed(env: Env, local: Local, walk: seq<Path>, a: Path, id: Id, other: Content, w: World)
    requires OneFile(env, local, walk, a) && OtherBytes(env, local, a, id, other, w)
    ensures WellFormed(w.tree, env.root) && IsListing(w.tree, env.root, OneEntry(env, a, id))
  {
    forall p, j ensures At(w.tree, env.root, p, j) <==> (p == [] && j == env.root) || (p == a && j == id) {
      StoredAt(env, local, a, id, other, w, p, j);
    }
  }

  ghost predicate StoredRound(r: Round, a: Path, id: Id, other: Content) {
    && OneFile(r.env, r.local, r.walk, a) && OtherBytes(r.env, r.local, a, id, other, r.start)
    && (forall p | p in r.start.db :: p == a) && r.rows == (if a in r.start.db then [a] else [])
    && r.index == OneEntry(r.env, a, id) && r.jobs == [] && r.end == r.scanned
  }

  lemma StoredSetting(r: Round, a: Path, id: Id, other: Content)
    requires StoredRound(r, a, id, other)
    ensures Setting(r)
  {
    OneFileWalked(r.env, r.local, r.walk, a);
    StoredListed(r.env, r.local, r.walk, a, id, other, r.start);
    forall p, j ensures At(r.start.tree, r.env.root, p, j) <==> (p == [] && j == r.env.root) || (p == a && j == id) {
      StoredAt(r.env, r.local, a, id, other, r.start, p, j);
    }
    assert forall p | RemoteFolder(r.start.tree, r.env.root, p) :: p == [];
  }

  lemma FilledWithOne(env: Env, a: Path, id: Id, cache: Entries)
    requires cache == map[]
    ensures FilledFrom(cache, OneEntry(env, a, id)) == map[a := CacheEntry(id, env.root)]
  {
    assert OneEntry(env, a, id).files[..0] == [];
  }

  lemma StoredDecided(r: Round, a: Path, id: Id, other: Content)
    requires StoredRound(r, a, id, other) && Judge(r.env, r.local, {a}, r.start.db, a) != Upload
    ensures ListedCache(r) == map[a := CacheEntry(id, r.env.root)] && ListedCache(r).Keys == {a}
    ensures Decided(r) == Report([], [], [], [])
  {
    FilledWithOne(r.env, a, id, r.start.cache);
    assert ListedCache(r).Keys == {a};
    OneFileDecided(r.env, r.local, r.walk, a, {a}, r.start.db, r.rows, r.index.files);
  }

  // The scan of such a round, if its comparison does not ask for an upload.
  lemma StoredScanned(r: Round, a: Path, id: Id, other: Content, dryRun: bool)
    requires StoredRound(r, a, id, other) && Judge(r.env, r.local, {a}, r.start.db, a) != Upload
    requires r.scanned == World(r.start.tree, ListedCache(r), Compared(r.env, r.local, {a}, r.start.db, [a]))
    ensures Scanned(r.env, dryRun, r.local, r.walk, r.rows, r.start, r.index, r.scanned)
  {
    StoredDecided(r, a, id, other);
    OneFileFilters(r.env, r.local, r.walk, a);
    ScannedWithoutFolders(r.env, dryRun, r.local, r.walk, r.rows, r.start, r.index, r.scanned, a);
  }

  // Nothing is sent then, and the remote never gets the local content.
  lemma StoredStays(r: Round, a: Path, id: Id, other: Content)
    requires StoredRound(r, a, id, other) && Judge(r.env, r.local, {a}, r.start.db, a) != Upload
    requires r.scanned == World(r.start.tree, ListedCache(r), Compared(r.env, r.local, {a}, r.start.db, [a]))
    ensures Reconciled(r) && Complete(r) && !HoldsHash(r.env, r.end.tree, a, FileHash(r.env, r.local, a))
  {
    StoredSetting(r, a, id, other);
    StoredScanned(r, a, id, other, false);
    StoredDecided(r, a, id, other);
    NothingToHandle(r);
    forall j | At(r.end.tree, r.env.root, a, j) ensures j == id {
      StoredAt(r.env, r.local, a, id, other, r.start, a, j);
    }
    StoredListed(r.env, r.local, r.walk, a, id, other, r.start);
  }

  lemma StoredRow(r: Round, a: Path, id: Id, other: Content)
    requires StoredRound(r, a, id, other) && ListedCache(r) == map[a := CacheEntry(id, r.env.root)]
    ensures DbSound(r.env, r.start.(cache := ListedCache(r))) <==>
            (a in r.start.db ==> r.start.db[a].hash == r.env.hash(other))
  {
    assert RowTrue(r.env, r.start.(cache := ListedCache(r)), a) <==>
        (a in r.start.db ==> r.start.db[a].hash == r.env.hash(other));
  }

  // Adoption: without a row everything that convergence assumes of rows and times
  // holds, the remote still never gets the local content, and the new row is false.
  lemma AdoptedFileStaysDifferent(r: Round, a: Path, id: Id, other: Content)
    requires StoredRound(r, a, id, other) && r.start.db == map[]
    requires r.scanned == World(r.start.tree, ListedCache(r), Compared(r.env, r.local, {a}, r.start.db, [a]))
    ensures Reconciled(r) && Complete(r) && !HoldsHash(r.env, r.end.tree, a, FileHash(r.env, r.local, a))
    ensures DbSound(r.env, r.start.(cache := ListedCache(r))) && HonestTimes(r.env, r.local, r.start.db)
    ensures !DbSound(r.env, r.end)
  {
    FilledWithOne(r.env, a, id, r.start.cache);
    StoredStays(r, a, id, other);
    StoredRow(r, a, id, other);
    OneFileRows(r.env, r.local, a, {a}, r.start.db);
    assert !RowTrue(r.env, r.end, a);
  }

  // A file changed within the second its row records: rows are true, but the time is
  // not honest, and the remote never gets the new content.
  lemma SameTimeStaysDifferent(r: Round, a: Path, id: Id, other: Content)
    requires StoredRound(r, a, id, other)
    requires r.start.db == map[a := Row(r.env.hash(other), r.local[a].mtime)]
    requires r.scanned == r.start.(cache := ListedCache(r))
    ensures Reconciled(r) && Complete(r) && !HoldsHash(r.env, r.end.tree, a, FileHash(r.env, r.local, a))
    ensures DbSound(r.env, r.start.(cache := ListedCache(r))) && !HonestTimes(r.env, r.local, r.start.db)
  {
    FilledWithOne(r.env, a, id, r.start.cache);
    OneFileRows(r.env, r.local, a, {a}, r.start.db);
    StoredStays(r, a, id, other);
    StoredRow(r, a, id, other);
  }

  // A simulated scan adopts as well: it writes a row, though nothing is to be written.
  lemma SimulationWritesRow(r: Round, a: Path, id: Id, other: Content)
    requires StoredRound(r, a, id, other) && r.start.db == map[]
    requires r.scanned == World(r.start.tree, ListedCache(r), Compared(r.env, r.local, {a}, r.start.db, [a]))
    ensures Scanned(r.env, true, r.local, r.walk, r.rows, r.start, r.index, r.scanned) && r.scanned.db != r.start.db
  {
    StoredScanned(r, a, id, other, true);
    OneFileRows(r.env, r.local, a, {a}, r.start.db);
    assert a in r.scanned.db;
  }

  // ---- A file someone else deleted -----------------------------------------

  // The engine had stored the file; then it was deleted on the remote. Its entry is
  // still cached, its row is right.
  ghost predicate DeletedRound(r: Round, a: Path, dead: Id) {
    && OneFile(r.env, r.local, r.walk, a) && dead != r.env.root
    && r.start == World(map[], map[a := CacheEntry(dead, r.env.root)],
                        map[a := Row(FileHash(r.env, r.local, a), r.local[a].mtime)])
    && r.rows == [a] && r.index == RemoteIndex([], [])
    && r.scanned == r.start && r.jobs == [] && r.end == r.start
  }

  lemma DeletedViews(r: Round, a: Path, dead: Id)
    requires DeletedRound(r, a, dead)
    ensures Views(r) && Complete(r)
  {
    OneFileWalked(r.env, r.local, r.walk, a);
    assert forall p | RemoteFolder(r.start.tree, r.env.root, p) :: p == [];
  }

  lemma DeletedIsStale(r: Round, a: Path, dead: Id)
    requires DeletedRound(r, a, dead) && Views(r) && Complete(r)
    ensures StaleSetting(r) && StaleAbove(r, a)
  {
    assert a[..|a|] == a && StaleAt(r, a);
  }

  lemma DeletedDecided(r: Round, a: Path, dead: Id)
    requires DeletedRound(r, a, dead)
    ensures Decided(r) == Report([], [], [], [])
    ensures Scanned(r.env, false, r.local, r.walk, r.rows, r.start, r.index, r.scanned)
  {
    OneFileFilters(r.env, r.local, r.walk, a);
    assert ListedCache(r) == r.start.cache && r.start.cache.Keys == {a};
    OneFileDecided(r.env, r.local, r.walk, a, {a}, r.start.db, r.rows, []);
    OneFileRows(r.env, r.local, a, {a}, r.start.db);
    ScannedWithoutFolders(r.env, false, r.local, r.walk, r.rows, r.start, r.index, r.scanned, a);
  }

  lemma DeletedHandled(r: Round, a: Path, dead: Id)
    requires DeletedRound(r, a, dead)
    ensures StaleRound(r) && Complete(r) && StaleAbove(r, a)
  {
    DeletedViews(r, a, dead);
    DeletedIsStale(r, a, dead);
    DeletedDecided(r, a, dead);
    NoTasks(r.env, r.local, r.scanned);
  }

  lemma NoTasks(env: Env, local: Local, w: World)
    ensures Handles(env, local, w, TasksOf(Report([], [], [], [])), []) && w == Drain(env, local, w, [])
  {
    assert TasksOf(Report([], [], [], [])) == [] == Tasks([]);
  }

  lemma DeletedHonest(r: Round, a: Path, dead: Id)
    requires DeletedRound(r, a, dead)
    ensures DbSound(r.env, r.start.(cache := ListedCache(r))) && HonestTimes(r.env, r.local, r.start.db)
  {
    assert ListedCache(r) == r.start.cache;
  }

  // The listing is complete, rows and times are beyond reproach, and yet the scan
  // sends nothing: the file never comes back to the remote.
  lemma DeletedFileStaysAway(r: Round, a: Path, dead: Id)
    requires DeletedRound(r, a, dead)
    ensures StaleRound(r) && Complete(r) && IgnoreClosed(r.env)
    ensures DbSound(r.env, r.start.(cache := ListedCache(r))) && HonestTimes(r.env, r.local, r.start.db)
    ensures !HoldsHash(r.env, r.end.tree, a, FileHash(r.env, r.local, a))
  {
    OneFileWalked(r.env, r.local, r.walk, a);
    DeletedHandled(r, a, dead);
    DeletedHonest(r, a, dead);
    FileConvergesUnlessStale(r, a);
  }

  // ---- A failed listing over a remote that is not empty --------------------

  // The remote has the file, the cache is empty, the listing fails.
  ghost predicate UnlistedRound(r: Round, a: Path, id: Id, other: Content, newId: Id) {
    && OneFile(r.env, r.local, r.walk, a) && OtherBytes(r.env, r.local, a, id, other, r.start)
    && r.start.db == map[] && r.rows == [] && r.index == RemoteIndex([], []) && r.scanned == r.start
    && newId != id && newId != r.env.root && r.jobs == [Job(Task.SyncFile(a), newId, r.local[a].content)]
  }

  lemma UnlistedViews(r: Round, a: Path, id: Id, other: Content, newId: Id)
    requires UnlistedRound(r, a, id, other, newId)
    ensures Views(r)
  {
    OneFileWalked(r.env, r.local, r.walk, a);
    StoredListed(r.env, r.local, r.walk, a, id, other, r.start);
    forall p, j ensures At(r.start.tree, r.env.root, p, j) <==> (p == [] && j == r.env.root) || (p == a && j == id) {
      StoredAt(r.env, r.local, a, id, other, r.start, p, j);
    }
    assert forall p | RemoteFolder(r.start.tree, r.env.root, p) :: p == [];
  }

  lemma UnlistedDecided(r: Round, a: Path, id: Id, other: Content, newId: Id)
    requires UnlistedRound(r, a, id, other, newId)
    ensures Decided(r) == Report([], [a], [], []) && Unlisted(r)
  {
    var (w, keys) := (r.start, r.start.cache.Keys);
    UnlistedViews(r, a, id, other, newId);
    OneFileFilters(r.env, r.local, r.walk, a);
    OneFileDecided(r.env, r.local, r.walk, a, keys, w.db, [], []);
    OneFileRows(r.env, r.local, a, keys, w.db);
    ScannedWithoutFolders(r.env, false, r.local, r.walk, [], w, r.index, w, a);
  }

  lemma UnlistedTasks(r: Round, a: Path, id: Id, other: Content, newId: Id)
    requires UnlistedRound(r, a, id, other, newId)
    ensures Handles(r.env, r.local, r.scanned, TasksOf(Report([], [a], [], [])), r.jobs)
    ensures forall i | 0 <= i < |r.jobs| :: TaskPaths(r.jobs[i].task)
  {
    OneFileWalked(r.env, r.local, r.walk, a);
    assert TasksOf(Report([], [a], [], [])) == [Task.SyncFile(a)] == Tasks(r.jobs);
  }

  // The file ends up twice on the remote.
  lemma FileIsDuplicated(r: Round, a: Path, id: Id, other: Content, newId: Id)
    requires UnlistedRound(r, a, id, other, newId)
    requires forall i | 0 <= i < |r.jobs| :: TaskPaths(r.jobs[i].task)
    requires r.end == Drain(r.env, r.local, r.scanned, r.jobs)
    ensures UnlistedHandled(r) && Twice(r.end.tree, r.env.root, Last(a))
  {
    UnlistedDecided(r, a, id, other, newId);
    UnlistedTasks(r, a, id, other, newId);
    StoredAt(r.env, r.local, a, id, other, r.start, a, id);
    assert VisitedFile(r.env, r.local, a);
    DuplicatedExactly(r, a, id);
  }

  // ---- A given-up upload of a new file -------------------------------------

  // The wrong bytes it leaves are adopted by the next scan and stay.
  lemma GivenUpFileStays(r: Round, a: Path, id: Id, left: Content)
    requires StoredRound(r, a, id, left) && r.start.db == map[]
    requires r.scanned == World(r.start.tree, ListedCache(r), Compared(r.env, r.local, {a}, r.start.db, [a]))
    ensures var w := World(map[], map[], map[]);
            && Consistent(r.env, w) && Allowed(r.env, w, GaveUp(a, id, left))
            && r.start == Act(r.env, w, GaveUp(a, id, left)) && Reconciled(r)
            && !HoldsHash(r.env, r.end.tree, a, FileHash(r.env, r.local, a))
  {
    OneFileWalked(r.env, r.local, r.walk, a);
    StoredStays(r, a, id, left);
    GaveUpNew(r.env, a, id, left);
    assert r.start.tree == map[id := Node(Last(a), r.env.root, File(left))];
  }

  lemma GaveUpNew(env: Env, a: Path, id: Id, left: Content)
    requires |a| == 1 && Canonical(a) && id != env.root
    ensures var w := World(map[], map[], map[]);
            && Consistent(env, w) && Allowed(env, w, GaveUp(a, id, left))
            && Act(env, w, GaveUp(a, id, left)) == World(map[id := Node(Last(a), env.root, File(left))], map[], map[])
  {
  }

  // Handled again before a listing, the same task makes a second object.
  lemma GivenUpFileIsDuplicated(env: Env, local: Local, walk: seq<Path>, a: Path, id: Id, left: Content, newId: Id)
    requires OneFile(env, local, walk, a) && id != env.root && newId != env.root && newId != id
    ensures var w := World(map[], map[], map[]);
            var again := Job(Task.SyncFile(a), newId, local[a].content);
            && Allowed(env, w, GaveUp(a, id, left))
            && Allowed(env, Act(env, w, GaveUp(a, id, left)), Handle(local, again))
            && Twice(Act(env, Act(env, w, GaveUp(a, id, left)), Handle(local, again)).tree, env.root, Last(a))
  {
    var (w, again) := (World(map[], map[], map[]), Job(Task.SyncFile(a), newId, local[a].content));
    OneFileWalked(env, local, walk, a);
    GaveUpNew(env, a, id, left);
    SecondUploadDuplicates(env, local, w, a, id, left, again);
    var t := Act(env, Act(env, w, GaveUp(a, id, left)), Handle(local, again)).tree;
    assert FileIn(t, env.root, Last(a), id) && FileIn(t, env.root, Last(a), newId);
  }

  // ---- A rename onto a recorded path ---------------------------------------

  ghost predicate TwoFiles(env: Env, w: World, from: Path, to: Path, i: Id, j: Id) {
    && |from| == 1 && |to| == 1 && IsName(from[0]) && IsName(to[0]) && from != to
    && i != env.root && j != env.root && i != j
    && (forall k :: k in w.tree <==> k == i || k == j)
    && w.tree[i].name == from[0] && w.tree[i].parent == env.root && w.tree[i].body.File?
    && w.tree[j].name == to[0] && w.tree[j].parent == env.root && w.tree[j].body.File?
    && w.cache == map[from := CacheEntry(i, env.root), to := CacheEntry(j, env.root)]
    && w.db.Keys == {from, to}
    && w.db[from].hash == env.hash(w.tree[i].body.content) && w.db[to].hash == env.hash(w.tree[j].body.content)
  }

  lemma TwoFilesAt(env: Env, w: World, from: Path, to: Path, i: Id, j: Id, p: Path, k: Id)
    requires TwoFiles(env, w, from, to, i, j)
    ensures At(w.tree, env.root, p, k) <==> (p == [] && k == env.root) || (p == from && k == i) || (p == to && k == j)
  {
    assert Init(from) == [] && Init(to) == [];
    if p != [] && At(w.tree, env.root, p, k) {
      assert p == Init(p) + [Last(p)];
    }
  }

  lemma TwoFilesSound(env: Env, w: World, from: Path, to: Path, i: Id, j: Id)
    requires TwoFiles(env, w, from, to, i, j)
    ensures Consistent(env, w) && DbSound(env, w)
  {
    forall p, k ensures At(w.tree, env.root, p, k) <==>
                        (p == [] && k == env.root) || (p == from && k == i) || (p == to && k == j) {
      TwoFilesAt(env, w, from, to, i, j, p, k);
    }
  }

  // From a consistent state with true rows, the rename fails after it has moved the
  // object: two objects of one name, and, if their hashes differ, a false row.
  lemma RenameOntoRecorded(env: Env, local: Local, w: World, from: Path, to: Path, i: Id, j: Id, job: Job)
    requires TwoFiles(env, w, from, to, i, j) && job.task == Task.Rename(from, to)
    requires forall p, dir :: !env.ignored(p, dir)
    ensures Consistent(env, w) && DbSound(env, w) && TaskPaths(job.task)
    ensures var o := Execute(env, local, w, job);
            && !o.ok && !Consistent(env, o.world)
            && (w.db[from].hash != w.db[to].hash ==> !DbSound(env, o.world))
  {
    TwoFilesSound(env, w, from, to, i, j);
    var w' := Execute(env, local, w, job).world;
    assert w'.tree[i].name == to[0] == w'.tree[j].name && i in w'.tree && j in w'.tree;
    SameNameTwice(w'.tree, env.root, i, j);
    assert w.db[from].hash != w.db[to].hash ==> !RowTrue(env, w', to);
  }
}
