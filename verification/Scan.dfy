// The scanner: lists the remote, fills the cache, creates the missing folders,
// compares the files and sends the tasks.
module Scan {
  import opened Paths
  import opened RemoteTree
  import opened PathCaching
  import opened Reconcile
  import opened Agreement
  import opened Persistence
  import opened Providers
  import opened EngineContexts
  import opened Listing
  import opened Decisions

  // `Failed`: a mkdir failed for good. `Stuck`: waiting for room in a channel nobody
  // empties.
  datatype ScanEnd = Done | Interrupted | Failed | Stuck

  // What a part of the scan yields, or how it cut the scan short.
  datatype Part<+T> = Whole(value: T) | Cut(end: ScanEnd)

  // Why a scan may end early. It fails only with the mkdir that used up its attempts.
  predicate ScanExcused(env: Env, dryRun: bool, end: ScanEnd, cancelled: bool, closed: bool,
                        c: Counters, c': Counters) {
    match end
    case Done => true
    case Interrupted => cancelled || closed
    case Failed => !dryRun && (cancelled || AttemptsUsedUp(env, c, c'))
    case Stuck => !dryRun
  }

  // The only changes a scan asks of the provider are mkdirs; a simulation asks none.
  predicate OnlyMkdirs(dryRun: bool, c: Counters, c': Counters) {
    && c'.uploads == c.uploads && c'.nextId >= c.nextId && c'.mkdirs >= c.mkdirs
    && c'.calls - c.calls >= c'.mkdirs - c.mkdirs
    && (dryRun ==> c' == c)
  }

  // Of those, exactly n succeeded.
  predicate MkdirsMade(dryRun: bool, c: Counters, n: nat, c': Counters) {
    OnlyMkdirs(dryRun, c, c') && c'.mkdirs == c.mkdirs + if dryRun then 0 else n
  }

  // ---- Phase 0: remote listing ---------------------------------------------

  lemma IndexPaths(t: Tree, root: Id, index: RemoteIndex)
    requires WellFormed(t, root) && IsListing(t, root, index)
    ensures forall e | e in index.dirs :: Canonical(e.relativePath) && e.relativePath != []
    ensures forall e | e in index.files :: Canonical(e.relativePath) && e.relativePath != []
  {
    forall e | e in index.dirs || e in index.files ensures Canonical(e.relativePath) && e.relativePath != [] {
      assert e in index.files + index.dirs;
      AtCanonical(t, root, e.relativePath, e.driveId);
    }
  }

  // A listing that fails counts as an empty one. It fails only if the server
  // answers some request with an error.
  method FillCache(ctx: EngineContext, order: ChildOrder, stalls: nat, refuse: nat -> bool)
    returns (index: RemoteIndex, listed: bool)
    requires ctx.Valid() && WellFormed(ctx.provider.tree, ctx.env.root) && Lists(ctx.provider.tree, ctx.env.root, order)
    modifies ctx.cache
    ensures ctx.Valid()
    ensures listed ==> IsListing(ctx.provider.tree, ctx.env.root, index)
    ensures !listed ==> index == RemoteIndex([], []) && exists k :: refuse(k)
    ensures ctx.cache.model == Filled(Filled(old(ctx.cache.model), index.dirs), index.files)
  {
    var r, asked := ListRemote(ctx.provider.tree, ctx.env.root, order, stalls, refuse);
    if r.None? {
      assert refuse(asked - 1);
      return RemoteIndex([], []), false;
    }
    index, listed := r.value, true;
    ListedExactly(ctx.provider.tree, ctx.env.root, order, index);
    IndexPaths(ctx.provider.tree, ctx.env.root, index);
    ctx.cache.InsertAll(index.dirs);
    ctx.cache.InsertAll(index.files);
  }

  // ---- Phase 1: local inventory --------------------------------------------

  method Inventory(local: Local, walk: seq<Path>) returns (dirs: seq<Path>, files: seq<Path>)
    requires forall p | p in walk :: p in local
    ensures dirs == Filter(DirTest(local), walk) && files == Filter(FileTest(local), walk)
  {
    dirs, files := [], [];
    assert walk[..0] == [];
    for i := 0 to |walk|
      invariant dirs == Filter(DirTest(local), walk[..i]) && files == Filter(FileTest(local), walk[..i])
    {
      assert walk[..i + 1][..i] == walk[..i];
      var p := walk[i];
      if local[p].Dir? {
        if p != [] {
          dirs := dirs + [p];
        }
      } else {
        files := files + [p];
      }
    }
    assert walk[..|walk|] == walk;
  }

  // ---- Phase 2: missing folders --------------------------------------------

  // The placeholder id a simulated scan gives to a folder it would create.
  function Underscored(s: string): string {
    if s == "" then "" else [if s[0] == '/' then '_' else s[0]] + Underscored(s[1..])
  }

  function PlaceholderId(p: Path): Id {
    DryRun("dry_run_dir_" + Underscored(Join(p)))
  }

  lemma {:induction false} UnderscoredAt(s: string, i: nat)
    requires i < |s|
    ensures |Underscored(s)| == |s| && Underscored(s)[i] == if s[i] == '/' then '_' else s[i]
  {
    if |s| > 1 {
      UnderscoredAt(s[1..], if i > 0 then i - 1 else 0);
    }
  }

  // Different folders may share a placeholder, but none is the id of an object.
  lemma PlaceholderIsNoDriveId(p: Path)
    ensures PlaceholderId(p).DryRun? && PlaceholderId(p).tag == "dry_run_dir_" + Underscored(Join(p))
  {
  }

  // The new entries are those of `made`; the old ones are unchanged.
  ghost predicate Extended(m: Entries, made: seq<Path>, m': Entries) {
    m'.Keys == m.Keys + AsSet(made) && forall p | p in m :: m'[p] == m[p]
  }

  // The tree has grown by folders only.
  ghost predicate GrownByFolders(t: Tree, t': Tree) {
    && (forall id | id in t :: id in t' && t'[id] == t[id])
    && (forall id | id in t' && id !in t :: t'[id].body.Folder?)
  }

  // With an agreeing cache, creating an uncached folder never finds an old one.
  lemma MkdirAgrees(env: Env, w: World, p: Path, parent: Id, t': Tree, id: Id)
    requires Consistent(env, w) && p != [] && Canonical(p) && p !in w.cache
    requires At(w.tree, env.root, Init(p), parent)
    requires CallEffect(env, w.tree, Mkdir(parent, Last(p)), t', id)
    ensures Consistent(env, World(t', w.cache[p := CacheEntry(id, parent)], w.db))
    ensures GrownByFolders(w.tree, t') && id in t' && t'[id].body.Folder? && |t'| == |w.tree| + 1
  {
    forall j | j in w.tree && w.tree[j] == Node(Last(p), parent, Folder) ensures false {
      assert At(w.tree, env.root, p, j);
    }
    InsertAgrees(env, w, p, parent, id, Folder);
  }

  lemma InsertParentClosed(m: Entries, root: Id, p: Path, id: Id, parent: Id)
    requires ParentClosed(m, root) && p != [] && p !in m
    requires |p| == 1 ==> parent == root
    requires |p| > 1 ==> Init(p) in m && m[Init(p)].driveId == parent
    ensures ParentClosed(m[p := CacheEntry(id, parent)], root)
  {
  }

  // Creates one folder remotely, or only pretends to.
  method MakeFolder(ctx: EngineContext, p: Path, parent: Id) returns (r: Option<Id>)
    requires ctx.Valid() && p != [] && Canonical(p) && p !in ctx.cache.model
    modifies ctx.cache, ctx.provider, ctx.shutdown
    ensures ctx.Valid()
    ensures NewIds(old(ctx.provider.tree), old(ctx.provider.nextId), ctx.provider.tree)
    ensures r.Some? ==> ctx.cache.model == old(ctx.cache.model)[p := CacheEntry(r.value, parent)]
    ensures r.None? ==> ctx.cache.model == old(ctx.cache.model) && ctx.provider.tree == old(ctx.provider.tree)
    ensures r.Some? && !ctx.dryRun ==>
              CallEffect(ctx.env, old(ctx.provider.tree), Mkdir(parent, Last(p)), ctx.provider.tree, r.value)
    ensures ctx.dryRun ==> r == Some(PlaceholderId(p)) && ctx.provider.tree == old(ctx.provider.tree)
    ensures MkdirsMade(ctx.dryRun, old(ctx.provider.Count()), if r.Some? then 1 else 0, ctx.provider.Count())
    ensures r.None? ==>
              ctx.shutdown.cancelled || AttemptsUsedUp(ctx.env, old(ctx.provider.Count()), ctx.provider.Count())
  {
    if ctx.dryRun {
      r := Some(PlaceholderId(p));
    } else {
      var waited;
      r, waited := ctx.provider.Retry(Mkdir(parent, Last(p)), ctx.shutdown);
      if r.None? {
        return;
      }
    }
    ctx.cache.Insert(p, r.value, parent);
  }

  // Folders with one name in one place are one folder, and files have no children.
  // Unlike a well-formed tree, it may hold a file twice.
  ghost predicate FolderTree(t: Tree, root: Id) {
    && root !in t
    && (forall id | id in t && t[id].parent in t :: t[t[id].parent].body.Folder?)
    && (forall i, j | i in t && j in t && t[i].body.Folder? && t[j].body.Folder?
                      && t[i].parent == t[j].parent && t[i].name == t[j].name :: i == j)
  }

  // Every entry is right, though some path may be missing.
  ghost predicate CachedAt(cache: Entries, t: Tree, root: Id) {
    forall p | p in cache ::
      p != [] && At(t, root, p, cache[p].driveId) && cache[p].parentId == t[cache[p].driveId].parent
  }

  // No id of a stale entry has been given out again.
  ghost predicate IdsNotReused(w: World, w': World) {
    forall p | p in w.cache && w.cache[p].driveId !in w.tree :: w.cache[p].driveId !in w'.tree
  }

  // What the directory phase keeps, whatever it starts from.
  ghost predicate FoldersKept(env: Env, dryRun: bool, w: World, w': World) {
    && w'.db == w.db
    && (forall p | p in w.cache :: p in w'.cache && w'.cache[p] == w.cache[p])
    && (ParentClosed(w.cache, env.root) ==> ParentClosed(w'.cache, env.root))
    && (dryRun ==> w'.tree == w.tree)
    && GrownByFolders(w.tree, w'.tree)
    && (!dryRun ==> FoldersReal(env, w, w'))
  }

  // What a real directory phase keeps besides: the new entries are folders, and the
  // cache stays as right as it was.
  ghost predicate FoldersReal(env: Env, w: World, w': World) {
    && (forall p | p in w'.cache && p !in w.cache ::
          w'.cache[p].driveId in w'.tree && w'.tree[w'.cache[p].driveId].body.Folder?)
    && (Consistent(env, w) ==> Consistent(env, w'))
    && (RightOrDead(env, w) && IdsNotReused(w, w') ==> RightOrDead(env, w'))
    && (FolderTree(w.tree, env.root) && CachedAt(w.cache, w.tree, env.root) ==>
          FolderTree(w'.tree, env.root) && CachedAt(w'.cache, w'.tree, env.root))
  }

  lemma NotReusedBetween(env: Env, w: World, w1: World, w2: World)
    requires GrownByFolders(w.tree, w1.tree) && GrownByFolders(w1.tree, w2.tree) && FoldersReal(env, w, w1)
    requires forall p | p in w.cache :: p in w1.cache && w1.cache[p] == w.cache[p]
    requires IdsNotReused(w, w2)
    ensures IdsNotReused(w, w1) && IdsNotReused(w1, w2)
  {
  }

  lemma FoldersRealTransitive(env: Env, w: World, w1: World, w2: World)
    requires GrownByFolders(w.tree, w1.tree) && GrownByFolders(w1.tree, w2.tree)
    requires forall p | p in w.cache :: p in w1.cache && w1.cache[p] == w.cache[p]
    requires forall p | p in w1.cache :: p in w2.cache && w2.cache[p] == w1.cache[p]
    requires FoldersReal(env, w, w1) && FoldersReal(env, w1, w2)
    ensures FoldersReal(env, w, w2)
  {
    if IdsNotReused(w, w2) {
      NotReusedBetween(env, w, w1, w2);
    }
  }

  lemma FoldersKeptTransitive(env: Env, dryRun: bool, w: World, w1: World, w2: World)
    requires FoldersKept(env, dryRun, w, w1) && FoldersKept(env, dryRun, w1, w2)
    ensures FoldersKept(env, dryRun, w, w2)
  {
    if !dryRun {
      FoldersRealTransitive(env, w, w1, w2);
    }
  }

  // `parent` is the id of the folder that p belongs into.
  ghost predicate ParentKnown(env: Env, cache: Entries, p: Path, parent: Id) {
    p != [] && Canonical(p) && ParentId(env, cache, p) == Some(parent)
  }

  // The state after the folder p was looked up, or created under `parent`.
  ghost predicate FolderEnsured(env: Env, dryRun: bool, w: World, p: Path, id: Id, made: bool, w': World) {
    && FoldersKept(env, dryRun, w, w')
    && made == (p !in w.cache)
    && p in w'.cache && w'.cache[p].driveId == id
    && Extended(w.cache, if made then [p] else [], w'.cache)
  }

  lemma {:induction false} GrownAt(t: Tree, root: Id, t': Tree, p: Path, id: Id)
    requires GrownByFolders(t, t') && At(t, root, p, id)
    ensures At(t', root, p, id)
    decreases |p|
  {
    if p != [] {
      GrownAt(t, root, t', Init(p), t[id].parent);
    }
  }

  // Without agreement mkdir may hand back an old folder: then it is the right one.
  lemma MkdirFolderTree(env: Env, t: Tree, parent: Id, name: string, t': Tree, id: Id)
    requires FolderTree(t, env.root) && CallEffect(env, t, Mkdir(parent, name), t', id)
    ensures FolderTree(t', env.root) && GrownByFolders(t, t')
    ensures id in t' && t'[id] == Node(name, parent, Folder)
  {
  }

  lemma MkdirCachedAt(env: Env, w: World, p: Path, parent: Id, t': Tree, id: Id)
    requires CachedAt(w.cache, w.tree, env.root) && ParentKnown(env, w.cache, p, parent)
    requires GrownByFolders(w.tree, t') && id in t' && t'[id] == Node(Last(p), parent, Folder)
    ensures CachedAt(w.cache[p := CacheEntry(id, parent)], t', env.root)
  {
    if |p| == 1 { assert Init(p) == []; }
    forall q | q in w.cache ensures At(t', env.root, q, w.cache[q].driveId) {
      GrownAt(w.tree, env.root, t', q, w.cache[q].driveId);
    }
    assert At(w.tree, env.root, Init(p), parent);
    GrownAt(w.tree, env.root, t', Init(p), parent);
  }

  // A mkdir below a dead folder does not succeed, so the parent is live.
  lemma MkdirRightOrDead(env: Env, w: World, p: Path, parent: Id, t': Tree, id: Id)
    requires RightOrDead(env, w) && ParentKnown(env, w.cache, p, parent) && p !in w.cache
    requires CallEffect(env, w.tree, Mkdir(parent, Last(p)), t', id)
    requires IdsNotReused(w, World(t', w.cache[p := CacheEntry(id, parent)], w.db))
    ensures RightOrDead(env, World(t', w.cache[p := CacheEntry(id, parent)], w.db))
  {
    assert !Dead(w.tree, env.root, parent);
    ParentIsLive(env, w, p);
    forall j | j in w.tree && w.tree[j] == Node(Last(p), parent, Folder) ensures false {
      AboveIsLive(env, w, p, j, p);
    }
    InsertRightOrDead(env, w, p, parent, id, World(t', w.cache[p := CacheEntry(id, parent)], w.db));
  }

  lemma FolderMade(env: Env, dryRun: bool, w: World, p: Path, parent: Id, id: Id, w': World)
    requires ParentKnown(env, w.cache, p, parent) && p !in w.cache
    requires w'.cache == w.cache[p := CacheEntry(id, parent)] && w'.db == w.db
    requires if dryRun then w'.tree == w.tree else CallEffect(env, w.tree, Mkdir(parent, Last(p)), w'.tree, id)
    ensures FolderEnsured(env, dryRun, w, p, id, true, w')
  {
    if FolderTree(w.tree, env.root) && CachedAt(w.cache, w.tree, env.root) && !dryRun {
      MkdirFolderTree(env, w.tree, parent, Last(p), w'.tree, id);
      MkdirCachedAt(env, w, p, parent, w'.tree, id);
    }
    if RightOrDead(env, w) && IdsNotReused(w, w') && !dryRun {
      MkdirRightOrDead(env, w, p, parent, w'.tree, id);
    }
    if Consistent(env, w) && !dryRun {
      CachedParent(env, w, p);
      MkdirAgrees(env, w, p, parent, w'.tree, id);
    }
    if ParentClosed(w.cache, env.root) {
      InsertParentClosed(w.cache, env.root, p, id, parent);
    }
  }

  // One level of the walk: the cached id of p, or a folder created for it.
  method EnsureFolder(ctx: EngineContext, p: Path, parent: Id) returns (r: Option<Id>, made: bool)
    requires ctx.Valid() && ParentKnown(ctx.env, ctx.cache.model, p, parent)
    modifies ctx.cache, ctx.provider, ctx.shutdown
    ensures ctx.Valid()
    ensures NewIds(old(ctx.provider.tree), old(ctx.provider.nextId), ctx.provider.tree)
    ensures r.Some? ==> FolderEnsured(ctx.env, ctx.dryRun, old(ctx.View()), p, r.value, made, ctx.View())
    ensures r.None? ==> ctx.View() == old(ctx.View()) && !ctx.dryRun
    ensures MkdirsMade(ctx.dryRun, old(ctx.provider.Count()), if r.Some? && made then 1 else 0, ctx.provider.Count())
    ensures r.None? ==>
              ctx.shutdown.cancelled || AttemptsUsedUp(ctx.env, old(ctx.provider.Count()), ctx.provider.Count())
  {
    var found := ctx.cache.Lookup(p);
    if found.Some? {
      return Some(found.value.driveId), false;
    }
    ghost var w := ctx.View();
    r := MakeFolder(ctx, p, parent);
    made := true;
    if r.Some? {
      FolderMade(ctx.env, ctx.dryRun, w, p, parent, r.value, ctx.View());
    }
  }

  lemma ExtendedTransitive(m: Entries, a: seq<Path>, m1: Entries, b: seq<Path>, m2: Entries)
    requires Extended(m, a, m1) && Extended(m1, b, m2)
    ensures Extended(m, a + b, m2)
  {
    assert AsSet(a + b) == AsSet(a) + AsSet(b);
  }

  lemma MissingPrefixesLonger(d: Path, keys: set<Path>, k: nat, q: Path)
    requires k < |d| && q == d[..k + 1]
    ensures q !in MissingPrefixes(d, keys, k)
    ensures MissingPrefixes(d, keys, k + 1) == MissingPrefixes(d, keys, k) + (if q in keys then [] else [q])
  {
    MissingPrefixesIn(d, keys, k, q);
  }

  // The walk down d has reached its k-th prefix, whose folder has the id `parent`.
  ghost predicate Reached(env: Env, dryRun: bool, w: World, d: Path, k: nat, made: seq<Path>, parent: Id, w': World)
    requires k <= |d|
  {
    && FoldersKept(env, dryRun, w, w')
    && made == MissingPrefixes(d, w.cache.Keys, k) && Extended(w.cache, made, w'.cache)
    && (k < |d| ==> ParentKnown(env, w'.cache, d[..k + 1], parent))
  }

  lemma NextPrefix(d: Path, k: nat)
    requires k < |d|
    ensures d[..k] + [d[k]] == d[..k + 1]
  {
  }

  lemma ReachStart(env: Env, dryRun: bool, w: World, d: Path)
    requires d != [] && Canonical(d)
    ensures Reached(env, dryRun, w, d, 0, [], env.root, w)
  {
    assert d[..1] == [d[0]];
  }

  lemma ReachNext(env: Env, dryRun: bool, w: World, d: Path, k: nat, made: seq<Path>, parent: Id, w1: World,
                  id: Id, created: bool, w2: World)
    requires Canonical(d) && k < |d| && Reached(env, dryRun, w, d, k, made, parent, w1)
    requires FolderEnsured(env, dryRun, w1, d[..k + 1], id, created, w2)
    ensures Reached(env, dryRun, w, d, k + 1, made + (if created then [d[..k + 1]] else []), id, w2)
  {
    MissingPrefixesLonger(d, w.cache.Keys, k, d[..k + 1]);
    FoldersKeptTransitive(env, dryRun, w, w1, w2);
    ExtendedTransitive(w.cache, made, w1.cache, if created then [d[..k + 1]] else [], w2.cache);
    if k + 1 < |d| {
      assert Init(d[..k + 2]) == d[..k + 1] && Canonical(d[..k + 2]);
    }
  }

  // Walks down one uncached directory, creating the prefixes that are missing.
  method EnsureDir(ctx: EngineContext, d: Path) returns (r: Option<seq<Path>>)
    requires ctx.Valid() && d != [] && Canonical(d)
    modifies ctx.cache, ctx.provider, ctx.shutdown
    ensures ctx.Valid() && FoldersKept(ctx.env, ctx.dryRun, old(ctx.View()), ctx.View())
    ensures NewIds(old(ctx.provider.tree), old(ctx.provider.nextId), ctx.provider.tree)
    ensures r.Some? ==>
              && r.value == MissingPrefixes(d, old(ctx.cache.model).Keys, |d|)
              && Extended(old(ctx.cache.model), r.value, ctx.cache.model)
    ensures if r.Some? then MkdirsMade(ctx.dryRun, old(ctx.provider.Count()), |r.value|, ctx.provider.Count())
            else OnlyMkdirs(ctx.dryRun, old(ctx.provider.Count()), ctx.provider.Count())
    ensures r.None? ==>
              ScanExcused(ctx.env, ctx.dryRun, Failed, ctx.shutdown.cancelled, false,
                          old(ctx.provider.Count()), ctx.provider.Count())
  {
    ghost var start := ctx.View();
    var made: seq<Path> := [];
    var currentRel: Path := [];
    var currentParent := ctx.env.root;
    ReachStart(ctx.env, ctx.dryRun, start, d);
    for k := 0 to |d|
      invariant currentRel == d[..k] && ctx.Valid()
      invariant Reached(ctx.env, ctx.dryRun, start, d, k, made, currentParent, ctx.View())
      invariant MkdirsMade(ctx.dryRun, old(ctx.provider.Count()), |made|, ctx.provider.Count())
      invariant NewIds(old(ctx.provider.tree), old(ctx.provider.nextId), ctx.provider.tree)
    {
      ghost var before := ctx.View();
      NextPrefix(d, k);
      currentRel := currentRel + [d[k]];
      var id, created := EnsureFolder(ctx, currentRel, currentParent);
      if id.None? {
        return None;
      }
      ReachNext(ctx.env, ctx.dryRun, start, d, k, made, currentParent, before, id.value, created, ctx.View());
      made := made + (if created then [currentRel] else []);
      currentParent := id.value;
    }
    return Some(made);
  }

  ghost predicate DirsReached(env: Env, dryRun: bool, w: World, dirs: seq<Path>, i: nat, made: seq<Path>, w': World)
    requires i <= |dirs|
  {
    && FoldersKept(env, dryRun, w, w')
    && made == MadeDirs(dirs[..i], w.cache.Keys) && Extended(w.cache, made, w'.cache)
  }

  lemma DirsStart(env: Env, dryRun: bool, w: World, dirs: seq<Path>)
    ensures DirsReached(env, dryRun, w, dirs, 0, [], w)
  {
  }

  lemma DirsSkip(env: Env, dryRun: bool, w: World, dirs: seq<Path>, i: nat, made: seq<Path>, w1: World)
    requires i < |dirs| && DirsReached(env, dryRun, w, dirs, i, made, w1) && dirs[i] in w1.cache
    ensures DirsReached(env, dryRun, w, dirs, i + 1, made, w1)
  {
    assert dirs[..i + 1][..i] == dirs[..i];
  }

  lemma DirsNext(env: Env, dryRun: bool, w: World, dirs: seq<Path>, i: nat, made: seq<Path>, w1: World,
                 added: seq<Path>, w2: World)
    requires i < |dirs| && DirsReached(env, dryRun, w, dirs, i, made, w1) && dirs[i] !in w1.cache
    requires FoldersKept(env, dryRun, w1, w2)
    requires added == MissingPrefixes(dirs[i], w1.cache.Keys, |dirs[i]|) && Extended(w1.cache, added, w2.cache)
    ensures DirsReached(env, dryRun, w, dirs, i + 1, made + added, w2)
  {
    assert dirs[..i + 1][..i] == dirs[..i];
    FoldersKeptTransitive(env, dryRun, w, w1, w2);
    ExtendedTransitive(w.cache, made, w1.cache, added, w2.cache);
  }

  // The whole directory phase. Every folder it reports was made by one successful
  // mkdir, and no other mkdir succeeded.
  method CreateDirs(ctx: EngineContext, dirs: seq<Path>) returns (r: Part<seq<Path>>)
    requires ctx.Valid() && forall i | 0 <= i < |dirs| :: dirs[i] != [] && Canonical(dirs[i])
    modifies ctx.cache, ctx.provider, ctx.shutdown
    ensures ctx.Valid() && FoldersKept(ctx.env, ctx.dryRun, old(ctx.View()), ctx.View())
    ensures NewIds(old(ctx.provider.tree), old(ctx.provider.nextId), ctx.provider.tree)
    ensures r.Whole? ==>
              && r.value == MadeDirs(dirs, old(ctx.cache.model).Keys)
              && Extended(old(ctx.cache.model), r.value, ctx.cache.model)
              && MkdirsMade(ctx.dryRun, old(ctx.provider.Count()), |r.value|, ctx.provider.Count())
    ensures OnlyMkdirs(ctx.dryRun, old(ctx.provider.Count()), ctx.provider.Count())
    ensures r.Cut? ==>
              && (r.end == Interrupted || r.end == Failed)
              && ScanExcused(ctx.env, ctx.dryRun, r.end, ctx.shutdown.cancelled, false,
                             old(ctx.provider.Count()), ctx.provider.Count())
  {
    ghost var start := ctx.View();
    var made: seq<Path> := [];
    DirsStart(ctx.env, ctx.dryRun, start, dirs);
    for i := 0 to |dirs|
      invariant ctx.Valid() && DirsReached(ctx.env, ctx.dryRun, start, dirs, i, made, ctx.View())
      invariant MkdirsMade(ctx.dryRun, old(ctx.provider.Count()), |made|, ctx.provider.Count())
      invariant NewIds(old(ctx.provider.tree), old(ctx.provider.nextId), ctx.provider.tree)
    {
      var stop := ctx.shutdown.IsCancelled();
      if stop {
        return Cut(Interrupted);
      }
      var found := ctx.cache.Lookup(dirs[i]);
      if found.Some? {
        DirsSkip(ctx.env, ctx.dryRun, start, dirs, i, made, ctx.View());
      } else {
        ghost var before := ctx.View();
        var added := EnsureDir(ctx, dirs[i]);
        if added.None? {
          FoldersKeptTransitive(ctx.env, ctx.dryRun, start, before, ctx.View());
          return Cut(Failed);
        }
        DirsNext(ctx.env, ctx.dryRun, start, dirs, i, made, before, added.value, ctx.View());
        made := made + added.value;
      }
    }
    assert dirs[..|dirs|] == dirs;
    return Whole(made);
  }

  // ---- Phase 3: comparison -------------------------------------------------

  lemma ComparedNext(env: Env, local: Local, keys: set<Path>, db: map<Path, Row>, files: seq<Path>, i: nat)
    requires (forall k | 0 <= k < |files| :: IsFile(local, files[k])) && NoRepeats(files) && i < |files|
    ensures var p := files[i];
            var rows := Compared(env, local, keys, db, files[..i]);
            && Get(rows, p) == Get(db, p)
            && Compared(env, local, keys, db, files[..i + 1]) ==
               (if Rewritten(env, local, keys, db, p)
                then rows[p := Row(FileHash(env, local, p), local[p].mtime)]
                else rows)
            && Filter(UploadTest(env, local, keys, db), files[..i + 1]) ==
               Filter(UploadTest(env, local, keys, db), files[..i]) +
               (if Judge(env, local, keys, db, p) == Upload then [p] else [])
  {
    assert files[..i + 1][..i] == files[..i];
    assert files[i] !in files[..i];
    ComparedRow(env, local, keys, db, files[..i], files[i]);
  }

  // The rows after the first so many files were compared.
  ghost predicate ComparedSome(env: Env, local: Local, keys: set<Path>, db: map<Path, Row>, files: seq<Path>,
                               db': map<Path, Row>)
  {
    && (forall i | 0 <= i < |files| :: IsFile(local, files[i]))
    && exists n: nat :: n <= |files| && db' == Compared(env, local, keys, db, files[..n])
  }

  lemma ComparedNone(env: Env, local: Local, keys: set<Path>, db: map<Path, Row>, files: seq<Path>)
    requires forall i | 0 <= i < |files| :: IsFile(local, files[i])
    ensures ComparedSome(env, local, keys, db, files, db)
  {
    assert db == Compared(env, local, keys, db, files[..0]);
  }

  // Compares every local file with its row and the cache; refreshed and adopted
  // files get a new row here and now, in a simulation too.
  method CompareFiles(ctx: EngineContext, local: Local, files: seq<Path>) returns (r: Part<seq<Path>>)
    requires ctx.Valid() && NoRepeats(files)
    requires forall k | 0 <= k < |files| :: IsFile(local, files[k]) && Canonical(files[k])
    modifies ctx.db`fileIndex, ctx.shutdown
    ensures r.Whole? ==>
              && ctx.db.fileIndex == Compared(ctx.env, local, ctx.cache.model.Keys, old(ctx.db.fileIndex), files)
              && r.value ==
                 Filter(NonEmptyTest(local),
                        Filter(UploadTest(ctx.env, local, ctx.cache.model.Keys, old(ctx.db.fileIndex)), files))
    ensures ComparedSome(ctx.env, local, ctx.cache.model.Keys, old(ctx.db.fileIndex), files, ctx.db.fileIndex)
    ensures r.Cut? ==> r.end == Interrupted && ctx.shutdown.cancelled
  {
    ghost var keys, rows := ctx.cache.model.Keys, ctx.db.fileIndex;
    var dbIndex := ctx.db.fileIndex.Keys;
    var toSync: seq<Path> := [];
    assert files[..0] == [];
    for i := 0 to |files|
      invariant ctx.db.fileIndex == Compared(ctx.env, local, keys, rows, files[..i])
      invariant toSync == Filter(UploadTest(ctx.env, local, keys, rows), files[..i])
    {
      var stop := ctx.shutdown.IsCancelled();
      if stop {
        return Cut(Interrupted);
      }
      var p := files[i];
      ComparedNext(ctx.env, local, keys, rows, files, i);
      var cached := ctx.cache.Lookup(p);
      if p in dbIndex && cached.Some? {
        var entry := ctx.db.Lookup(p);
        if local[p].mtime == entry.value.mtime {
          continue;
        }
        var hash := ctx.env.hash(local[p].content);
        if hash == entry.value.hash {
          ctx.db.Upsert(p, Row(hash, local[p].mtime));
          continue;
        }
      } else if cached.Some? {
        ctx.db.Upsert(p, Row(ctx.env.hash(local[p].content), local[p].mtime));
        continue;
      }
      toSync := toSync + [p];
    }
    assert files[..|files|] == files;
    return Whole(Filter(NonEmptyTest(local), toSync));
  }

  // ---- Phases 4 to 6: sending the tasks ------------------------------------

  // The channel after some first part of `tasks` was sent, in a real or a
  // simulated scan.
  ghost predicate Offered(capacity: nat, before: seq<Task>, tasks: seq<Task>, dryRun: bool, end: ScanEnd,
                          after: seq<Task>) {
    && |after| <= capacity
    && (dryRun ==> after == before && end != Stuck)
    && (!dryRun && end == Done ==> after == before + tasks)
    && (end == Stuck ==> |before| + |tasks| > capacity)
    && before <= after <= before + tasks
  }

  lemma OfferedThen(capacity: nat, q0: seq<Task>, first: seq<Task>, dryRun: bool, q1: seq<Task>,
                    second: seq<Task>, end: ScanEnd, q2: seq<Task>)
    requires Offered(capacity, q0, first, dryRun, Done, q1) && Offered(capacity, q1, second, dryRun, end, q2)
    ensures Offered(capacity, q0, first + second, dryRun, end, q2)
  {
    assert q0 + (first + second) == (q0 + first) + second;
  }

  // Sending ends before the rest has been offered.
  lemma OfferedOnly(capacity: nat, before: seq<Task>, first: seq<Task>, dryRun: bool, last: ScanEnd, after: seq<Task>,
                    rest: seq<Task>, end: ScanEnd)
    requires Offered(capacity, before, first, dryRun, last, after)
    requires end == Interrupted || (end == last && end != Done)
    ensures Offered(capacity, before, first + rest, dryRun, end, after)
  {
    assert before + (first + rest) == (before + first) + rest;
  }

  method Offer(ctx: EngineContext, channel: TaskChannel, task: Task) returns (end: ScanEnd)
    requires |channel.queue| <= channel.capacity
    modifies channel
    ensures Offered(channel.capacity, old(channel.queue), [task], ctx.dryRun, end, channel.queue)
    ensures end == Interrupted ==> channel.closed
    ensures end != Failed
  {
    if ctx.dryRun {
      return Done;
    }
    var sent := channel.Send(task);
    match sent {
      case Accepted => return Done;
      case Closed => return Interrupted;
      case Blocked => return Stuck;
    }
  }

  lemma SyncsAt(uploads: seq<Path>, i: nat)
    requires i < |uploads|
    ensures Syncs(uploads[..i + 1]) == Syncs(uploads[..i]) + [Task.SyncFile(uploads[i])]
    ensures Syncs(uploads) == Syncs(uploads[..i]) + Syncs(uploads[i..])
    ensures Syncs(uploads) == Syncs(uploads[..i + 1]) + Syncs(uploads[i + 1..])
  {
  }

  method SendUploads(ctx: EngineContext, channel: TaskChannel, uploads: seq<Path>) returns (end: ScanEnd)
    requires |channel.queue| <= channel.capacity
    modifies channel, ctx.shutdown
    ensures Offered(channel.capacity, old(channel.queue), Syncs(uploads), ctx.dryRun, end, channel.queue)
    ensures end == Interrupted ==> ctx.shutdown.cancelled || channel.closed
    ensures end != Failed
  {
    ghost var before := channel.queue;
    for i := 0 to |uploads|
      invariant Offered(channel.capacity, before, Syncs(uploads[..i]), ctx.dryRun, Done, channel.queue)
    {
      SyncsAt(uploads, i);
      var stop := ctx.shutdown.IsCancelled();
      if stop {
        OfferedOnly(channel.capacity, before, Syncs(uploads[..i]), ctx.dryRun, Done, channel.queue,
                    Syncs(uploads[i..]), Interrupted);
        return Interrupted;
      }
      ghost var middle := channel.queue;
      end := Offer(ctx, channel, Task.SyncFile(uploads[i]));
      OfferedThen(channel.capacity, before, Syncs(uploads[..i]), ctx.dryRun, middle, [Task.SyncFile(uploads[i])],
                  end, channel.queue);
      if end != Done {
        OfferedOnly(channel.capacity, before, Syncs(uploads[..i + 1]), ctx.dryRun, end, channel.queue,
                    Syncs(uploads[i + 1..]), end);
        return;
      }
    }
    assert uploads[..|uploads|] == uploads;
    return Done;
  }

  lemma DeletesAfter(sent: seq<Path>, p: Path, all: seq<Path>)
    requires sent <= all
    ensures Deletes(sent + [p]) == Deletes(sent) + [Task.Delete(p)]
    ensures Deletes(all) == Deletes(sent) + Deletes(all[|sent|..])
  {
  }

  // What is left to send when the i-th path is looked at.
  lemma OrphanAt(orphan: Path -> bool, paths: seq<Path>, i: nat)
    requires i < |paths|
    ensures Filter(orphan, paths[..i]) <= Filter(orphan, paths)
    ensures Filter(orphan, paths[..i + 1]) == Filter(orphan, paths[..i]) + (if orphan(paths[i]) then [paths[i]] else [])
    ensures Filter(orphan, paths[..i + 1]) <= Filter(orphan, paths)
  {
    assert paths[..i + 1][..i] == paths[..i];
    FilterPrefix(orphan, paths, i);
    FilterPrefix(orphan, paths, i + 1);
  }

  // Sends a deletion for every path that passes the test of its phase: recorded
  // paths that are no local files, then listed files that are nowhere else.
  method SendDeletes(ctx: EngineContext, channel: TaskChannel, paths: seq<Path>, orphan: Path -> bool)
    returns (end: ScanEnd, sent: seq<Path>)
    requires |channel.queue| <= channel.capacity
    modifies channel, ctx.shutdown
    ensures Offered(channel.capacity, old(channel.queue), Deletes(Filter(orphan, paths)), ctx.dryRun, end,
                    channel.queue)
    ensures end == Interrupted ==> ctx.shutdown.cancelled || channel.closed
    ensures end != Failed
    ensures end == Done ==> sent == Filter(orphan, paths)
  {
    sent := [];
    assert paths[..0] == [];
    ghost var before, all := channel.queue, Filter(orphan, paths);
    for i := 0 to |paths|
      invariant sent == Filter(orphan, paths[..i])
      invariant Offered(channel.capacity, before, Deletes(sent), ctx.dryRun, Done, channel.queue)
    {
      OrphanAt(orphan, paths, i);
      DeletesAfter(sent, paths[i], all);
      var stop := ctx.shutdown.IsCancelled();
      if stop {
        OfferedOnly(channel.capacity, before, Deletes(sent), ctx.dryRun, Done, channel.queue,
                    Deletes(all[|sent|..]), Interrupted);
        return Interrupted, sent;
      }
      if !orphan(paths[i]) {
        continue;
      }
      ghost var middle := channel.queue;
      end := Offer(ctx, channel, Task.Delete(paths[i]));
      OfferedThen(channel.capacity, before, Deletes(sent), ctx.dryRun, middle, [Task.Delete(paths[i])], end,
                  channel.queue);
      sent := sent + [paths[i]];
      if end != Done {
        DeletesAfter(sent, paths[i], all);
        OfferedOnly(channel.capacity, before, Deletes(sent), ctx.dryRun, end, channel.queue, Deletes(all[|sent|..]),
                    end);
        return;
      }
    }
    assert paths[..|paths|] == paths;
    return Done, sent;
  }

  // ---- The whole scan ------------------------------------------------------

  function FilledFrom(cache: Entries, index: RemoteIndex): Entries {
    Filled(Filled(cache, index.dirs), index.files)
  }

  // What the scan decides from the state it starts in and the listing it got.
  function Decision(env: Env, local: Local, walk: seq<Path>, rows: seq<Path>, w: World, index: RemoteIndex): Report {
    Decide(env, local, walk, FilledFrom(w.cache, index).Keys, w.db, rows, index.files)
  }

  // After the cache is filled: folders made, rows compared, nothing else changed.
  // In a simulation the remote is not changed either.
  ghost predicate ScannedFrom(env: Env, dryRun: bool, local: Local, walk: seq<Path>, created: seq<Path>, filled: World,
                              w': World) {
    var files := Filter(FileTest(local), walk);
    && Extended(filled.cache, created, w'.cache)
    && FoldersKept(env, dryRun, filled, w'.(db := filled.db))
    && (forall i | 0 <= i < |files| :: IsFile(local, files[i]))
    && w'.db == Compared(env, local, filled.cache.Keys + AsSet(created), filled.db, files)
  }

  // However the scan ends: folders were made and rows compared, in part perhaps.
  ghost predicate PartlyScanned(env: Env, dryRun: bool, local: Local, walk: seq<Path>, filled: World, w': World) {
    && FoldersKept(env, dryRun, filled, w'.(db := filled.db))
    && ComparedSome(env, local, w'.cache.Keys, filled.db, Filter(FileTest(local), walk), w'.db)
  }

  // What a finished scan has done.
  ghost predicate Scanned(env: Env, dryRun: bool, local: Local, walk: seq<Path>, rows: seq<Path>,
                          w: World, index: RemoteIndex, w': World)
  {
    ScannedFrom(env, dryRun, local, walk, Decision(env, local, walk, rows, w, index).created,
             w.(cache := FilledFrom(w.cache, index)), w')
  }

  ghost predicate InventoryOf(env: Env, local: Local, walk: seq<Path>) {
    LocalTree(local) && Enumerates(env, local, walk)
  }

  lemma InventoryFacts(env: Env, local: Local, walk: seq<Path>)
    requires InventoryOf(env, local, walk)
    ensures forall p | p in walk :: p in local
    ensures var dirs := Filter(DirTest(local), walk);
            forall i | 0 <= i < |dirs| :: dirs[i] != [] && Canonical(dirs[i]) && IsDir(local, dirs[i])
    ensures var files := Filter(FileTest(local), walk);
            NoRepeats(files) && forall i | 0 <= i < |files| :: IsFile(local, files[i]) && Canonical(files[i])
  {
    var dirs, files := Filter(DirTest(local), walk), Filter(FileTest(local), walk);
    forall i | 0 <= i < |dirs| ensures dirs[i] != [] && Canonical(dirs[i]) && IsDir(local, dirs[i]) {
      FilterIn(DirTest(local), walk, dirs[i]);
    }
    forall i | 0 <= i < |files| ensures IsFile(local, files[i]) && Canonical(files[i]) {
      FilterIn(FileTest(local), walk, files[i]);
    }
    FilterNoRepeats(FileTest(local), walk);
  }

  lemma ExtendedKeys(m: Entries, made: seq<Path>, m': Entries)
    requires Extended(m, made, m')
    ensures m'.Keys == m.Keys + AsSet(made)
  {
  }

  // Phases 2 and 3.
  method PrepareAndCompare(ctx: EngineContext, local: Local, walk: seq<Path>)
    returns (r: Part<(seq<Path>, seq<Path>)>)
    requires ctx.Valid() && InventoryOf(ctx.env, local, walk)
    modifies ctx.cache, ctx.provider, ctx.shutdown, ctx.db`fileIndex
    ensures ctx.Valid() && PartlyScanned(ctx.env, ctx.dryRun, local, walk, old(ctx.View()), ctx.View())
    ensures NewIds(old(ctx.provider.tree), old(ctx.provider.nextId), ctx.provider.tree)
    ensures r.Whole? ==>
              var keys := old(ctx.cache.model).Keys;
              var (created, uploads) := r.value;
              var files := Filter(FileTest(local), walk);
              && created == MadeDirs(Filter(DirTest(local), walk), keys)
              && ScannedFrom(ctx.env, ctx.dryRun, local, walk, created, old(ctx.View()), ctx.View())
              && uploads == Filter(NonEmptyTest(local),
                              Filter(UploadTest(ctx.env, local, keys + AsSet(created), old(ctx.db.fileIndex)), files))
              && MkdirsMade(ctx.dryRun, old(ctx.provider.Count()), |created|, ctx.provider.Count())
    ensures OnlyMkdirs(ctx.dryRun, old(ctx.provider.Count()), ctx.provider.Count())
    ensures r.Cut? ==>
              && (r.end == Interrupted || r.end == Failed)
              && ScanExcused(ctx.env, ctx.dryRun, r.end, ctx.shutdown.cancelled, false,
                             old(ctx.provider.Count()), ctx.provider.Count())
  {
    InventoryFacts(ctx.env, local, walk);
    var dirs, files := Inventory(local, walk);
    ghost var start := ctx.View();
    var created := CreateDirs(ctx, dirs);
    ghost var middle := ctx.View();
    ComparedNone(ctx.env, local, middle.cache.Keys, start.db, files);
    if created.Cut? {
      return Cut(created.end);
    }
    ExtendedKeys(start.cache, created.value, middle.cache);
    var uploads := CompareFiles(ctx, local, files);
    assert ctx.View().(db := start.db) == middle;
    if uploads.Cut? {
      return Cut(uploads.end);
    }
    return Whole((created.value, uploads.value));
  }

  // Phases 4, 5 and 6.
  method SendAll(ctx: EngineContext, channel: TaskChannel, local: Local, files: seq<Path>, uploads: seq<Path>,
                 rows: seq<Path>, recorded: set<Path>, index: RemoteIndex)
    returns (end: ScanEnd, dbOrphans: seq<Path>, remoteOrphans: seq<Path>)
    requires |channel.queue| <= channel.capacity
    modifies channel, ctx.shutdown
    ensures var tasks := Syncs(uploads) + Deletes(Filter(DbOrphanTest(files), rows))
                         + Deletes(Filter(RemoteOrphanTest(ctx.env, local, files, recorded), PathsOf(index.files)));
            Offered(channel.capacity, old(channel.queue), tasks, ctx.dryRun, end, channel.queue)
    ensures end == Interrupted ==> ctx.shutdown.cancelled || channel.closed
    ensures end != Failed
    ensures end == Done ==>
              && dbOrphans == Filter(DbOrphanTest(files), rows)
              && remoteOrphans == Filter(RemoteOrphanTest(ctx.env, local, files, recorded), PathsOf(index.files))
  {
    dbOrphans, remoteOrphans := [], [];
    ghost var cap, dry, before := channel.capacity, ctx.dryRun, channel.queue;
    ghost var first, second := Syncs(uploads), Deletes(Filter(DbOrphanTest(files), rows));
    ghost var third := Deletes(Filter(RemoteOrphanTest(ctx.env, local, files, recorded), PathsOf(index.files)));
    end := SendUploads(ctx, channel, uploads);
    ghost var q1 := channel.queue;
    if end != Done {
      OfferedOnly(cap, before, first, dry, end, q1, second, end);
      OfferedOnly(cap, before, first + second, dry, end, q1, third, end);
      return;
    }
    end, dbOrphans := SendDeletes(ctx, channel, rows, DbOrphanTest(files));
    ghost var q2 := channel.queue;
    OfferedThen(cap, before, first, dry, q1, second, end, q2);
    if end != Done {
      OfferedOnly(cap, before, first + second, dry, end, q2, third, end);
      return;
    }
    end, remoteOrphans := SendDeletes(ctx, channel, PathsOf(index.files),
                                      RemoteOrphanTest(ctx.env, local, files, recorded));
    OfferedThen(cap, before, first + second, dry, q2, third, end, channel.queue);
  }

  // Phases 1 to 6.
  method DecideAndSend(ctx: EngineContext, channel: TaskChannel, local: Local, walk: seq<Path>, rows: seq<Path>,
                       index: RemoteIndex)
    returns (end: ScanEnd, report: Report)
    requires ctx.Valid() && InventoryOf(ctx.env, local, walk) && |channel.queue| <= channel.capacity
    modifies ctx.cache, ctx.provider, ctx.db`fileIndex, ctx.shutdown, channel
    ensures ctx.Valid() && PartlyScanned(ctx.env, ctx.dryRun, local, walk, old(ctx.View()), ctx.View())
    ensures NewIds(old(ctx.provider.tree), old(ctx.provider.nextId), ctx.provider.tree)
    ensures var decided := Decide(ctx.env, local, walk, old(ctx.cache.model).Keys, old(ctx.db.fileIndex), rows,
                                  index.files);
            && Offered(channel.capacity, old(channel.queue), TasksOf(decided), ctx.dryRun, end, channel.queue)
            && (end == Done ==> report == decided)
            && (end == Done || end == Stuck ==>
                  && ScannedFrom(ctx.env, ctx.dryRun, local, walk, decided.created, old(ctx.View()), ctx.View())
                  && MkdirsMade(ctx.dryRun, old(ctx.provider.Count()), |decided.created|, ctx.provider.Count()))
    ensures OnlyMkdirs(ctx.dryRun, old(ctx.provider.Count()), ctx.provider.Count())
    ensures ScanExcused(ctx.env, ctx.dryRun, end, ctx.shutdown.cancelled, channel.closed,
                        old(ctx.provider.Count()), ctx.provider.Count())
  {
    report := Report([], [], [], []);
    var recorded := ctx.db.fileIndex.Keys;
    var prepared := PrepareAndCompare(ctx, local, walk);
    if prepared.Cut? {
      return prepared.end, report;
    }
    var (created, uploads) := prepared.value;
    var files := Filter(FileTest(local), walk);
    var dbOrphans, remoteOrphans;
    end, dbOrphans, remoteOrphans := SendAll(ctx, channel, local, files, uploads, rows, recorded, index);
    report := Report(created, uploads, dbOrphans, remoteOrphans);
  }

  // `walk` is the order in which the local tree is walked, `rows` the order in
  // which the set of recorded paths is iterated, `order` the order in which the
  // server lists children, `refuse` which of its answers are errors: all arbitrary.
  method Run(ctx: EngineContext, channel: TaskChannel, local: Local, walk: seq<Path>, rows: seq<Path>,
             order: ChildOrder, stalls: nat, refuse: nat -> bool)
    returns (end: ScanEnd, report: Report, index: RemoteIndex, listed: bool)
    requires ctx.Valid() && InventoryOf(ctx.env, local, walk) && |channel.queue| <= channel.capacity
    requires WellFormed(ctx.provider.tree, ctx.env.root) && Lists(ctx.provider.tree, ctx.env.root, order)
    requires NoRepeats(rows) && AsSet(rows) == ctx.db.fileIndex.Keys
    modifies ctx.cache, ctx.provider, ctx.db`fileIndex, ctx.shutdown, channel
    ensures ctx.Valid()
    ensures NewIds(old(ctx.provider.tree), old(ctx.provider.nextId), ctx.provider.tree)
    ensures listed ==> IsListing(old(ctx.provider.tree), ctx.env.root, index)
    ensures !listed ==> index == RemoteIndex([], []) && exists k :: refuse(k)
    ensures var decided := Decision(ctx.env, local, walk, rows, old(ctx.View()), index);
            && Offered(channel.capacity, old(channel.queue), TasksOf(decided), ctx.dryRun, end, channel.queue)
            && (end == Done ==> report == decided)
            && (end == Done || end == Stuck ==>
                  && Scanned(ctx.env, ctx.dryRun, local, walk, rows, old(ctx.View()), index, ctx.View())
                  && MkdirsMade(ctx.dryRun, old(ctx.provider.Count()), |decided.created|, ctx.provider.Count()))
    ensures var w := old(ctx.View());
            PartlyScanned(ctx.env, ctx.dryRun, local, walk, w.(cache := FilledFrom(w.cache, index)), ctx.View())
    ensures OnlyMkdirs(ctx.dryRun, old(ctx.provider.Count()), ctx.provider.Count())
    ensures ScanExcused(ctx.env, ctx.dryRun, end, ctx.shutdown.cancelled, channel.closed,
                        old(ctx.provider.Count()), ctx.provider.Count())
    ensures ctx.dryRun ==> ctx.provider.tree == old(ctx.provider.tree) && channel.queue == old(channel.queue)
  {
    index, listed := FillCache(ctx, order, stalls, refuse);
    end, report := DecideAndSend(ctx, channel, local, walk, rows, index);
  }

  // ---- What the contract of Run means --------------------------------------

  // With k tasks already queued, no other sender, no shutdown, no closed channel and
  // no mkdir that fails for good, a scan that decides on m tasks ends exactly if
  // k + m fit into the channel.
  lemma EndsExactlyIfTasksFit(env: Env, capacity: nat, before: seq<Task>, tasks: seq<Task>, end: ScanEnd,
                              after: seq<Task>,
                              c: Counters, c': Counters)
    requires Offered(capacity, before, tasks, false, end, after)
    requires ScanExcused(env, false, end, false, false, c, c') && end != Failed
    ensures end == Done <==> |before| + |tasks| <= capacity
    ensures end != Done ==> end == Stuck
  {
    if end == Done {
      assert |after| == |before| + |tasks|;
    }
  }

  // A simulated and a real scan that start in the same state and get the same
  // listing leave the same rows and cache the same paths; the simulation leaves
  // the remote alone.
  lemma DryRunFidelity(env: Env, local: Local, walk: seq<Path>, rows: seq<Path>, w: World, index: RemoteIndex,
                       simulated: World, actual: World)
    requires Scanned(env, true, local, walk, rows, w, index, simulated)
    requires Scanned(env, false, local, walk, rows, w, index, actual)
    ensures simulated.tree == w.tree && simulated.db == actual.db && simulated.cache.Keys == actual.cache.Keys
  {
    var filled := FilledFrom(w.cache, index);
    var created := Decision(env, local, walk, rows, w, index).created;
    assert simulated.cache.Keys == filled.Keys + AsSet(created) == actual.cache.Keys;
  }

  lemma ScannedRows(env: Env, dryRun: bool, local: Local, walk: seq<Path>, rows: seq<Path>, w: World,
                    index: RemoteIndex, w': World, keys: set<Path>, files: seq<Path>)
    requires Scanned(env, dryRun, local, walk, rows, w, index, w')
    requires keys == FilledFrom(w.cache, index).Keys + AsSet(Decision(env, local, walk, rows, w, index).created)
    requires files == Filter(FileTest(local), walk)
    ensures forall i | 0 <= i < |files| :: IsFile(local, files[i])
    ensures w'.db == Compared(env, local, keys, w.db, files)
  {
  }

  // A simulated scan is meant to write nothing, but it refreshes and adopts rows
  // like a real one: the database is untouched exactly if no file calls for that.
  lemma DryRunWritesRows(env: Env, local: Local, walk: seq<Path>, rows: seq<Path>, w: World, index: RemoteIndex,
                         w': World)
    requires Scanned(env, true, local, walk, rows, w, index, w')
    ensures var keys := FilledFrom(w.cache, index).Keys + AsSet(Decision(env, local, walk, rows, w, index).created);
            var files := Filter(FileTest(local), walk);
            && (forall i | 0 <= i < |files| :: IsFile(local, files[i]))
            && (w'.db == w.db <==> forall i | 0 <= i < |files| :: !Rewritten(env, local, keys, w.db, files[i]))
  {
    var keys := FilledFrom(w.cache, index).Keys + AsSet(Decision(env, local, walk, rows, w, index).created);
    var files := Filter(FileTest(local), walk);
    ScannedRows(env, true, local, walk, rows, w, index, w', keys, files);
    ComparedUnchanged(env, local, keys, w.db, files);
  }
}
