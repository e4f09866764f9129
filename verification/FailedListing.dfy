// A scan whose listing failed, from a cache that is right but does not hold
// everything; at worst the empty cache of a start, over a remote that is not empty.
module FailedListing {
  import opened Paths
  import opened RemoteTree
  import opened PathCaching
  import opened Reconcile
  import opened Confluence
  import opened Listing
  import opened Decisions
  import opened Scan
  import opened Convergence

  ghost predicate Unlisted(r: Round) {
    && Views(r) && r.index == RemoteIndex([], []) && CachedAt(r.start.cache, r.start.tree, r.env.root)
    && Scanned(r.env, false, r.local, r.walk, r.rows, r.start, r.index, r.scanned)
  }

  // Its tasks have been handled too, in any order.
  ghost predicate UnlistedHandled(r: Round) {
    && Unlisted(r)
    && Handles(r.env, r.local, r.scanned, TasksOf(Decided(r)), r.jobs)
    && (forall i | 0 <= i < |r.jobs| :: TaskPaths(r.jobs[i].task))
    && r.end == Drain(r.env, r.local, r.scanned, r.jobs)
  }

  lemma {:induction false} FolderUnique(t: Tree, root: Id, q: Path, f: Id, g: Id)
    requires FolderTree(t, root) && At(t, root, q, f) && At(t, root, q, g)
    requires IsFolder(t, root, f) && IsFolder(t, root, g)
    ensures f == g
    decreases |q|
  {
    if q != [] {
      FolderAbove(t, root, q, f);
      FolderAbove(t, root, q, g);
      FolderUnique(t, root, Init(q), t[f].parent, t[g].parent);
    }
  }

  lemma FolderAbove(t: Tree, root: Id, q: Path, id: Id)
    requires FolderTree(t, root) && q != [] && At(t, root, q, id)
    ensures IsFolder(t, root, t[id].parent)
  {
    assert Init(q) == [] ==> t[id].parent == root;
  }

  // The directory phase still makes no folder a second time: it finds the old ones.
  lemma FoldersFound(r: Round)
    requires Unlisted(r)
    ensures FolderTree(r.scanned.tree, r.env.root) && CachedAt(r.scanned.cache, r.scanned.tree, r.env.root)
    ensures GrownByFolders(r.start.tree, r.scanned.tree)
  {
  }

  lemma ParentFound(r: Round, p: Path, id: Id)
    requires Unlisted(r) && VisitedFile(r.env, r.local, p) && p != [] && At(r.start.tree, r.env.root, p, id)
    ensures ParentId(r.env, r.scanned.cache, p) == Some(r.start.tree[id].parent)
    ensures IsFolder(r.scanned.tree, r.env.root, r.start.tree[id].parent)
  {
    var g := r.start.tree[id].parent;
    FoldersFound(r);
    FolderAbove(r.start.tree, r.env.root, p, id);
    GrownAt(r.start.tree, r.env.root, r.scanned.tree, Init(p), g);
    if |p| == 1 {
      assert Init(p) == [];
    } else {
      assert p[..|p|] == p && IsPrefix(Init(p), p);
      VisitedAncestor(r.env, r.local, Init(p), p);
      LocalAncestor(r.local, Init(p), p);
      CreatedFacts(r, Init(p));
      assert r.scanned.cache.Keys == ListedCache(r).Keys + AsSet(Decided(r).created);
      assert Init(p) in r.scanned.cache.Keys;
      var f := r.scanned.cache[Init(p)].driveId;
      if Init(p) in r.start.cache {
        IdUnique(r.start.tree, r.env.root, Init(p), f, g);
      } else {
        FolderUnique(r.scanned.tree, r.env.root, Init(p), f, g);
      }
    }
  }

  lemma NotCached(r: Round, p: Path)
    requires Unlisted(r) && VisitedFile(r.env, r.local, p) && p !in r.start.cache
    ensures p !in ListedCache(r) && p !in r.scanned.cache
  {
    CreatedFacts(r, p);
    assert r.scanned.cache.Keys == ListedCache(r).Keys + AsSet(Decided(r).created);
    assert p !in r.scanned.cache.Keys;
  }

  // But an inventoried, non-empty file that the remote has and the cache lacks is
  // uploaded again.
  lemma UploadedAgain(r: Round, p: Path)
    requires Unlisted(r) && VisitedFile(r.env, r.local, p) && r.local[p].content != [] && p !in r.start.cache
    ensures p in Decided(r).uploads
  {
    UploadFacts(r, p);
    NotCached(r, p);
  }

  lemma HandledBatch(r: Round)
    requires UnlistedHandled(r)
    ensures Batch(r.env, r.scanned, r.jobs)
  {
    FoldersFound(r);
    EmittedOnce(r);
    JobsAreTheTasks(TasksOf(Decided(r)), r.jobs);
    forall p, q | p in r.scanned.cache && q in r.scanned.cache
                  && r.scanned.cache[p].driveId == r.scanned.cache[q].driveId
      ensures p == q
    {
      PathUnique(r.scanned.tree, r.env.root, p, q, r.scanned.cache[p].driveId);
    }
    forall i | 0 <= i < |r.jobs| ensures Ready(r.env, r.scanned, r.jobs[i]) {
      TaskMembership(Decided(r), r.jobs[i].task);
    }
    forall i, j | 0 <= i < |r.jobs| && 0 <= j < |r.jobs| && i != j ensures Independent(r.jobs[i], r.jobs[j]) {
      JobsApart(r, i, j);
    }
  }

  // A node of the remote that is cached under no target stays as it was.
  lemma OldNodeStays(r: Round, p: Path, id: Id)
    requires UnlistedHandled(r) && p !in r.scanned.cache
    requires id in r.scanned.tree && At(r.scanned.tree, r.env.root, p, id)
    ensures Get(r.end.tree, id) == Some(r.scanned.tree[id])
  {
    HandledBatch(r);
    FoldersFound(r);
    forall k | 0 <= k < |r.jobs| ensures !OnNode(Planned(r.env, r.local, r.scanned, r.jobs[k]), id) {
      var q := TargetPath(r.jobs[k].task);
      assert Ready(r.env, r.scanned, r.jobs[k]);
      PlanConfined(r.env, r.local, r.scanned, r.jobs[k]);
      if q in r.scanned.cache && r.scanned.cache[q].driveId == id {
        PathUnique(r.scanned.tree, r.env.root, p, q, id);
      }
    }
    UnplannedNodeStays(r.env, r.local, r.scanned, r.jobs, id);
  }

  ghost predicate FileIn(t: Tree, folder: Id, name: string, id: Id) {
    id in t && t[id].parent == folder && t[id].name == name && t[id].body.File?
  }

  // Two files of one name in one folder.
  ghost predicate Twice(t: Tree, folder: Id, name: string) {
    exists i, j :: i != j && FileIn(t, folder, name, i) && FileIn(t, folder, name, j)
  }

  lemma SecondFile(r: Round, p: Path, id: Id, k: nat)
    requires UnlistedHandled(r) && VisitedFile(r.env, r.local, p) && r.local[p].content != [] && p !in r.start.cache
    requires p != [] && At(r.start.tree, r.env.root, p, id) && r.start.tree[id].body.File?
    requires k < |r.jobs| && r.jobs[k].task == Task.SyncFile(p)
    ensures Twice(r.end.tree, r.start.tree[id].parent, Last(p))
  {
    var (g, job) := (r.start.tree[id].parent, r.jobs[k]);
    NotCached(r, p);
    ParentFound(r, p, id);
    FoldersFound(r);
    GrownAt(r.start.tree, r.env.root, r.scanned.tree, p, id);
    OldNodeStays(r, p, id);
    assert p[..|p|] == p;
    NewPlan(r.env, r.local, r.scanned, p, g, job);
    HandledBatch(r);
    PlannedNode(r.env, r.local, r.scanned, r.jobs, k, job.newId);
    assert FileIn(r.end.tree, g, Last(p), id) && FileIn(r.end.tree, g, Last(p), job.newId);
  }

  lemma NewPlan(env: Env, local: Local, w: World, p: Path, parent: Id, job: Job)
    requires IsFile(local, p) && !env.ignored(p, false) && local[p].content != []
    requires p !in w.cache && p != [] && Canonical(p)
    requires ParentId(env, w.cache, p) == Some(parent) && IsFolder(w.tree, env.root, parent)
    requires job.task == Task.SyncFile(p)
    ensures OnNode(Planned(env, local, w, job), job.newId)
    ensures Get(OnTree(w.tree, Planned(env, local, w, job)), job.newId) == Some(Node(Last(p), parent, File(job.stored)))
  {
  }

  // Where a file of the final tree comes from: it was there before, with the same
  // name in the same folder, or it was put there for an uncached path.
  lemma FileFrom(r: Round, folder: Id, name: string, i: Id) returns (q: Path)
    requires UnlistedHandled(r) && FileIn(r.end.tree, folder, name, i)
    ensures FileIn(r.start.tree, folder, name, i) ||
            (q != [] && q !in r.scanned.cache && Last(q) == name && ParentId(r.env, r.scanned.cache, q) == Some(folder))
  {
    q := [];
    HandledBatch(r);
    FoldersFound(r);
    if k :| 0 <= k < |r.jobs| && OnNode(Planned(r.env, r.local, r.scanned, r.jobs[k]), i) {
      assert Ready(r.env, r.scanned, r.jobs[k]);
      PlanConfined(r.env, r.local, r.scanned, r.jobs[k]);
      PlannedNode(r.env, r.local, r.scanned, r.jobs, k, i);
      q := TargetPath(r.jobs[k].task);
      PutNode(r.env, r.local, r.scanned, r.jobs[k], i);
    } else {
      UnplannedNodeStays(r.env, r.local, r.scanned, r.jobs, i);
    }
  }

  // What an upload puts: the cached file with its name and folder, or a new one.
  lemma PutNode(env: Env, local: Local, w: World, job: Job, i: Id)
    requires !job.task.Rename? && TaskPaths(job.task) && OnNode(Plan(env, local, w, job), i)
    requires CachedAt(w.cache, w.tree, env.root)
    ensures var (q, t) := (TargetPath(job.task), OnTree(w.tree, Plan(env, local, w, job)));
            i in t ==>
              if q in w.cache
              then i in w.tree && w.tree[i].body.File? && t[i].name == w.tree[i].name && t[i].parent == w.tree[i].parent
              else t[i].name == Last(q) && ParentId(env, w.cache, q) == Some(t[i].parent)
  {
  }

  lemma NameUnique(t: Tree, root: Id, i: Id, j: Id)
    requires WellFormed(t, root) && i in t && j in t && t[i].parent == t[j].parent && t[i].name == t[j].name
    ensures i == j
  {
  }

  lemma SamePath(t: Tree, root: Id, p: Path, q: Path, folder: Id)
    requires root !in t && p != [] && q != [] && Last(p) == Last(q)
    requires At(t, root, Init(p), folder) && At(t, root, Init(q), folder)
    ensures p == q
  {
    PathUnique(t, root, Init(p), Init(q), folder);
    assert p == Init(p) + [Last(p)] && q == Init(q) + [Last(q)];
  }

  lemma StaysSingle(r: Round, p: Path, id: Id, i: Id)
    requires UnlistedHandled(r) && p in r.start.cache && VisitedFile(r.env, r.local, p)
    requires p != [] && At(r.start.tree, r.env.root, p, id)
    requires FileIn(r.end.tree, r.start.tree[id].parent, Last(p), i)
    ensures i == id
  {
    var g := r.start.tree[id].parent;
    var q := FileFrom(r, g, Last(p), i);
    if FileIn(r.start.tree, g, Last(p), i) {
      NameUnique(r.start.tree, r.env.root, i, id);
    } else {
      ParentFound(r, p, id);
      FoldersFound(r);
      ParentAt(r.env, r.scanned, p);
      ParentAt(r.env, r.scanned, q);
      SamePath(r.scanned.tree, r.env.root, p, q, g);
    }
  }

  lemma ParentAt(env: Env, w: World, p: Path)
    requires CachedAt(w.cache, w.tree, env.root) && p != [] && ParentId(env, w.cache, p).Some?
    ensures At(w.tree, env.root, Init(p), ParentId(env, w.cache, p).value)
  {
    if |p| == 1 {
      assert Init(p) == [];
    }
  }

  // After the tasks, in any order, an inventoried, non-empty file that the remote had
  // is there twice, in the same folder under the same name, exactly if the cache
  // lacked it.
  lemma DuplicatedExactly(r: Round, p: Path, id: Id)
    requires UnlistedHandled(r) && VisitedFile(r.env, r.local, p) && r.local[p].content != []
    requires p != [] && At(r.start.tree, r.env.root, p, id) && r.start.tree[id].body.File?
    ensures Twice(r.end.tree, r.start.tree[id].parent, Last(p)) <==> p !in r.start.cache
  {
    if p in r.start.cache {
      forall i | FileIn(r.end.tree, r.start.tree[id].parent, Last(p), i) ensures i == id {
        StaysSingle(r, p, id, i);
      }
    } else {
      UploadedAgain(r, p);
      EmittedOnce(r);
      JobsAreTheTasks(TasksOf(Decided(r)), r.jobs);
      TaskMembership(Decided(r), Task.SyncFile(p));
      var k :| 0 <= k < |r.jobs| && r.jobs[k].task == Task.SyncFile(p);
      SecondFile(r, p, id, k);
    }
  }
}
