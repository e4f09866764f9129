// A scan adds the listing to the cache without clearing it first. Entries of paths
// that someone else has deleted from the remote therefore stay: the engine goes on
// taking these paths for stored.
module StaleCache {
  import opened Paths
  import opened RemoteTree
  import opened PathCaching
  import opened Reconcile
  import opened Agreement
  import opened Confluence
  import opened Draining
  import opened Listing
  import opened Decisions
  import opened Scan
  import opened Convergence

  // ---- One task ------------------------------------------------------------

  // The path, or one above it, is cached under an id the remote no longer has.
  ghost predicate Haunted(w: World, p: Path) {
    exists k :: 0 < k <= |p| && p[..k] in w.cache && w.cache[p[..k]].driveId !in w.tree
  }

  // The world with the stale entries left out.
  ghost function Clean(env: Env, w: World): World {
    w.(cache := Live(env, w))
  }

  // A job for an upload or a deletion, with an id that is new to tree and cache.
  ghost predicate Plain(env: Env, w: World, job: Job) {
    !job.task.Rename? && TaskPaths(job.task) && Fresh(w.tree, env.root, job.newId)
    && forall p | p in w.cache :: w.cache[p].driveId != job.newId
  }

  lemma HauntedAt(env: Env, w: World, p: Path, k: nat)
    requires RightOrDead(env, w) && 0 < k <= |p| && p[..k] in w.cache && w.cache[p[..k]].driveId !in w.tree
    ensures p !in Live(env, w)
    ensures p in w.cache ==> Dead(w.tree, env.root, w.cache[p].driveId)
    ensures k < |p| && Init(p) in w.cache ==> Dead(w.tree, env.root, w.cache[Init(p)].driveId)
  {
    var d := p[..k];
    assert IsPrefix(d, p);
    forall id | At(w.tree, env.root, p, id) ensures false {
      AboveIsLive(env, w, p, id, d);
    }
    if k < |p| {
      assert Init(p)[..k] == d && IsPrefix(d, Init(p));
      forall id | At(w.tree, env.root, Init(p), id) ensures false {
        AboveIsLive(env, w, Init(p), id, d);
      }
    }
  }

  // Below a stale entry a task changes nothing but its row, ...
  lemma HauntedSync(env: Env, local: Local, w: World, p: Path, newId: Id, stored: Content)
    requires RightOrDead(env, w) && Haunted(w, p) && p != []
    ensures var w' := ExecSync(env, local, w, p, newId, stored).world;
            w'.tree == w.tree && w'.cache == w.cache && forall q | q != p :: Get(w'.db, q) == Get(w.db, q)
  {
    var k :| 0 < k <= |p| && p[..k] in w.cache && w.cache[p[..k]].driveId !in w.tree;
    HauntedAt(env, w, p, k);
    assert p[..|p|] == p;
  }

  lemma HauntedDelete(env: Env, local: Local, w: World, p: Path)
    requires RightOrDead(env, w) && Haunted(w, p) && p != []
    ensures var w' := ExecDelete(env, local, w, p).world;
            w'.tree == w.tree && w'.cache == w.cache && forall q | q != p :: Get(w'.db, q) == Get(w.db, q)
  {
    var k :| 0 < k <= |p| && p[..k] in w.cache && w.cache[p[..k]].driveId !in w.tree;
    HauntedAt(env, w, p, k);
  }

  lemma HauntedStep(env: Env, local: Local, w: World, job: Job)
    requires RightOrDead(env, w) && Plain(env, w, job) && Haunted(w, TargetPath(job.task))
    ensures var w' := Step(env, local, w, job);
            && RightOrDead(env, w') && w'.tree == w.tree && w'.cache == w.cache
            && forall q | q != TargetPath(job.task) :: Get(w'.db, q) == Get(w.db, q)
  {
    match job.task
    case SyncFile(p) => HauntedSync(env, local, w, p, job.newId, job.stored);
    case Delete(p) => HauntedDelete(env, local, w, p);
  }

  // ... elsewhere it does what it would do without the stale entries.
  lemma NotHauntedFacts(env: Env, w: World, p: Path)
    requires RightOrDead(env, w) && !Haunted(w, p) && p != []
    ensures Get(w.cache, p) == Get(Live(env, w), p)
    ensures ParentId(env, w.cache, p) == ParentId(env, Live(env, w), p)
  {
    assert p[..|p|] == p;
    if |p| > 1 {
      assert p[..|p| - 1] == Init(p);
    }
  }

  lemma UploadElsewhere(env: Env, local: Local, w: World, p: Path, newId: Id, stored: Content)
    requires RightOrDead(env, w) && !Haunted(w, p) && p != [] && Canonical(p)
    requires Fresh(w.tree, env.root, newId) && forall q | q in w.cache :: w.cache[q].driveId != newId
    ensures var w' := ExecSync(env, local, w, p, newId, stored).world;
            RightOrDead(env, w') && ExecSync(env, local, Clean(env, w), p, newId, stored).world == Clean(env, w')
  {
    var w' := ExecSync(env, local, w, p, newId, stored).world;
    var c' := ExecSync(env, local, Clean(env, w), p, newId, stored).world;
    NotHauntedFacts(env, w, p);
    SyncConsistent(env, local, Clean(env, w), p, newId, stored);
    SyncTogether(env, local, w, Live(env, w), p, newId, stored);
    forall q | q in w'.cache && q !in c'.cache ensures q != [] && Dead(w'.tree, env.root, w'.cache[q].driveId) {
      assert q in w.cache && q !in Live(env, w);
      UploadKeepsDead(env, local, w, p, newId, stored, w.cache[q].driveId);
    }
    LiveAfter(env, w, w', c'.cache);
  }

  // What is told of a path decides what happens to it: the same trees and rows, and
  // entries that differ only where they differed before.
  lemma SyncTogether(env: Env, local: Local, w: World, live: Entries, p: Path, newId: Id, stored: Content)
    requires p != [] && Get(w.cache, p) == Get(live, p) && ParentId(env, w.cache, p) == ParentId(env, live, p)
    ensures var w' := ExecSync(env, local, w, p, newId, stored).world;
            var c' := ExecSync(env, local, w.(cache := live), p, newId, stored).world;
            && c'.tree == w'.tree && c'.db == w'.db
            && ((w'.cache == w.cache && c'.cache == live) ||
                (p in w'.cache && w'.cache == w.cache[p := w'.cache[p]] && c'.cache == live[p := w'.cache[p]]))
  {
  }

  lemma UploadKeepsDead(env: Env, local: Local, w: World, p: Path, newId: Id, stored: Content, id: Id)
    requires p != [] && Dead(w.tree, env.root, id) && id != newId
    ensures Dead(ExecSync(env, local, w, p, newId, stored).world.tree, env.root, id)
  {
  }

  lemma DeleteElsewhere(env: Env, local: Local, w: World, p: Path)
    requires RightOrDead(env, w) && !Haunted(w, p) && p != []
    ensures var w' := ExecDelete(env, local, w, p).world;
            RightOrDead(env, w') && ExecDelete(env, local, Clean(env, w), p).world == Clean(env, w')
  {
    var w' := ExecDelete(env, local, w, p).world;
    var c' := ExecDelete(env, local, Clean(env, w), p).world;
    NotHauntedFacts(env, w, p);
    if p in Live(env, w) {
      DeleteAgrees(env, Clean(env, w), p);
    }
    forall q | q in w'.cache && q !in c'.cache ensures q != [] && Dead(w'.tree, env.root, w'.cache[q].driveId) {
      assert q in w.cache && q !in Live(env, w);
    }
    LiveAfter(env, w, w', c'.cache);
  }

  lemma StepElsewhere(env: Env, local: Local, w: World, job: Job)
    requires RightOrDead(env, w) && Plain(env, w, job) && !Haunted(w, TargetPath(job.task))
    ensures var w' := Step(env, local, w, job);
            RightOrDead(env, w') && Step(env, local, Clean(env, w), job) == Clean(env, w')
  {
    match job.task
    case SyncFile(p) => UploadElsewhere(env, local, w, p, job.newId, job.stored);
    case Delete(p) => DeleteElsewhere(env, local, w, p);
  }

  // ---- Whole batches -------------------------------------------------------

  // Every job is below a stale entry or can do its work; all are on unrelated paths.
  ghost predicate MixedBatch(env: Env, local: Local, w: World, jobs: seq<Job>) {
    && LocalTree(local) && RightOrDead(env, w)
    && (forall i | 0 <= i < |jobs| ::
          Plain(env, w, jobs[i])
          && (Haunted(w, TargetPath(jobs[i].task)) || Due(env, local, Clean(env, w), jobs[i])))
    && (forall i, j | 0 <= i < |jobs| && 0 <= j < |jobs| && i != j :: Independent(jobs[i], jobs[j]))
  }

  // A path is haunted after a job exactly if it was before.
  lemma HauntedStays(env: Env, local: Local, w: World, job: Job, p: Path)
    requires RightOrDead(env, w) && Plain(env, w, job) && Apart(TargetPath(job.task), p)
    ensures Haunted(Step(env, local, w, job), p) <==> Haunted(w, p)
  {
    var w' := Step(env, local, w, job);
    StepIsPlan(env, local, w, job);
    PlanConfined(env, local, w, job);
    forall k | 0 < k <= |p|
      ensures p[..k] in w'.cache && w'.cache[p[..k]].driveId !in w'.tree <==>
              p[..k] in w.cache && w.cache[p[..k]].driveId !in w.tree
    {
      PrefixStale(env, w, job, Plan(env, local, w, job), p, k);
    }
  }

  lemma PrefixStale(env: Env, w: World, job: Job, e: Effect, p: Path, k: nat)
    requires RightOrDead(env, w) && Plain(env, w, job) && Confined(env, w, job, e)
    requires Apart(TargetPath(job.task), p) && 0 < k <= |p|
    ensures p[..k] in OnCache(w.cache, e) && OnCache(w.cache, e)[p[..k]].driveId !in OnTree(w.tree, e) <==>
            p[..k] in w.cache && w.cache[p[..k]].driveId !in w.tree
  {
    var d, q := p[..k], TargetPath(job.task);
    assert IsPrefix(d, p);
    if IsPrefix(q, d) {
      PrefixTransitive(q, d, p);
    }
    assert d != q && !IsPrefix(q, d);
    if d in w.cache && w.cache[d].driveId in w.tree && q in w.cache && w.cache[q].driveId == w.cache[d].driveId {
      PathUnique(w.tree, env.root, d, q, w.cache[d].driveId);
    }
  }

  lemma MixedTail(env: Env, local: Local, w: World, jobs: seq<Job>)
    requires MixedBatch(env, local, w, jobs) && jobs != []
    ensures Plain(env, w, jobs[0]) && MixedBatch(env, local, Step(env, local, w, jobs[0]), jobs[1..])
  {
    var job := jobs[0];
    assert Plain(env, w, job);
    var w' := Step(env, local, w, job);
    if Haunted(w, TargetPath(job.task)) {
      HauntedStep(env, local, w, job);
    } else {
      StepElsewhere(env, local, w, job);
    }
    forall i | 0 <= i < |jobs| - 1
      ensures Plain(env, w', jobs[1..][i])
              && (Haunted(w', TargetPath(jobs[1..][i].task)) || Due(env, local, Clean(env, w'), jobs[1..][i]))
    {
      assert Independent(jobs[0], jobs[i + 1]) && Independent(jobs[i + 1], jobs[0]) && Plain(env, w, jobs[i + 1]);
      HauntedStays(env, local, w, job, TargetPath(jobs[i + 1].task));
      StaysPlain(env, local, w, job, jobs[i + 1]);
      if !Haunted(w, TargetPath(jobs[i + 1].task)) {
        StaysAble(env, local, w, job, jobs[i + 1]);
      }
    }
    forall i, j | 0 <= i < |jobs| - 1 && 0 <= j < |jobs| - 1 && i != j ensures Independent(jobs[1..][i], jobs[1..][j]) {
      assert Independent(jobs[i + 1], jobs[j + 1]);
    }
  }

  lemma StaysPlain(env: Env, local: Local, w: World, job: Job, other: Job)
    requires RightOrDead(env, w) && Plain(env, w, job) && Plain(env, w, other) && job.newId != other.newId
    ensures Plain(env, Step(env, local, w, job), other)
  {
    StepIsPlan(env, local, w, job);
    PlanConfined(env, local, w, job);
    ParentsKnown(env, local, w, job, other.newId);
  }

  // No task puts anything below an id that is not there.
  lemma ParentsKnown(env: Env, local: Local, w: World, job: Job, id: Id)
    requires RightOrDead(env, w) && Plain(env, w, job) && Fresh(w.tree, env.root, id)
    ensures forall j | j in Step(env, local, w, job).tree :: Step(env, local, w, job).tree[j].parent != id
  {
  }

  lemma StaysAble(env: Env, local: Local, w: World, job: Job, other: Job)
    requires LocalTree(local) && RightOrDead(env, w) && Plain(env, w, job) && Plain(env, w, other)
    requires Haunted(w, TargetPath(job.task)) || Due(env, local, Clean(env, w), job)
    requires Due(env, local, Clean(env, w), other) && Independent(other, job)
    ensures Due(env, local, Clean(env, Step(env, local, w, job)), other)
  {
    var w' := Step(env, local, w, job);
    if Haunted(w, TargetPath(job.task)) {
      HauntedStep(env, local, w, job);
      ApartFacts(TargetPath(other.task), TargetPath(job.task));
      assert Live(env, w') == Live(env, w);
      assert Get(w'.db, TargetPath(other.task)) == Get(w.db, TargetPath(other.task));
    } else {
      StepElsewhere(env, local, w, job);
      StaysDue(env, local, Clean(env, w), other, job);
    }
  }

  // The same object, with the same bytes, is live under the path.
  ghost predicate SameLive(env: Env, w: World, w': World, q: Path) {
    && Get(Live(env, w), q) == Get(Live(env, w'), q)
    && (q in Live(env, w) ==> Get(w.tree, w.cache[q].driveId) == Get(w'.tree, w.cache[q].driveId))
  }

  lemma StepKeeps(env: Env, local: Local, w: World, job: Job, q: Path)
    requires RightOrDead(env, w) && Plain(env, w, job)
    requires Haunted(w, TargetPath(job.task)) || (Due(env, local, Clean(env, w), job) && TargetPath(job.task) != q)
    ensures SameLive(env, w, Step(env, local, w, job), q)
  {
    if Haunted(w, TargetPath(job.task)) {
      HauntedStep(env, local, w, job);
    } else {
      StepElsewhere(env, local, w, job);
      Achieves(env, local, Clean(env, w), job, q);
    }
  }

  lemma MixedPaths(env: Env, local: Local, w: World, jobs: seq<Job>)
    requires MixedBatch(env, local, w, jobs)
    ensures forall i | 0 <= i < |jobs| :: TaskPaths(jobs[i].task)
  {
    forall i | 0 <= i < |jobs| ensures TaskPaths(jobs[i].task) {
      assert Plain(env, w, jobs[i]);
    }
  }

  // Whatever is no target, or a target below a stale entry, stays as it was.
  lemma {:induction false} MixedKeeps(env: Env, local: Local, w: World, jobs: seq<Job>, q: Path)
    requires MixedBatch(env, local, w, jobs)
    requires forall i | 0 <= i < |jobs| && TargetPath(jobs[i].task) == q :: Haunted(w, q)
    ensures forall i | 0 <= i < |jobs| :: TaskPaths(jobs[i].task)
    ensures RightOrDead(env, Drain(env, local, w, jobs)) && SameLive(env, w, Drain(env, local, w, jobs), q)
    decreases |jobs|
  {
    MixedPaths(env, local, w, jobs);
    if jobs != [] {
      var w' := Step(env, local, w, jobs[0]);
      MixedTail(env, local, w, jobs);
      StepKeeps(env, local, w, jobs[0], q);
      forall i | 0 <= i < |jobs| - 1 && TargetPath(jobs[1..][i].task) == q ensures Haunted(w', q) {
        assert Independent(jobs[0], jobs[i + 1]) && TargetPath(jobs[i + 1].task) == q;
        HauntedStays(env, local, w, jobs[0], q);
      }
      MixedKeeps(env, local, w', jobs[1..], q);
    }
  }

  // An upload that is not below a stale entry is done.
  lemma {:induction false} MixedUploads(env: Env, local: Local, w: World, jobs: seq<Job>, k: nat)
    requires MixedBatch(env, local, w, jobs) && k < |jobs|
    requires jobs[k].task.SyncFile? && !Haunted(w, jobs[k].task.path)
    ensures forall i | 0 <= i < |jobs| :: TaskPaths(jobs[i].task)
    ensures IsFile(local, jobs[k].task.path)
    ensures HoldsHash(env, Drain(env, local, w, jobs).tree, jobs[k].task.path, FileHash(env, local, jobs[k].task.path))
    decreases |jobs|
  {
    MixedPaths(env, local, w, jobs);
    var p := jobs[k].task.path;
    var w' := Step(env, local, w, jobs[0]);
    MixedTail(env, local, w, jobs);
    if k == 0 {
      StepElsewhere(env, local, w, jobs[0]);
      Achieves(env, local, Clean(env, w), jobs[0], p);
      OtherTargets(jobs, 0);
      forall i | 0 <= i < |jobs| - 1 ensures TargetPath(jobs[1..][i].task) != p {
        assert jobs[1..][i] == jobs[i + 1];
      }
      MixedKeeps(env, local, w', jobs[1..], p);
      LiveHash(env, w', Drain(env, local, w', jobs[1..]), p, FileHash(env, local, p));
    } else {
      assert jobs[1..][k - 1] == jobs[k] && Independent(jobs[0], jobs[k]);
      HauntedStays(env, local, w, jobs[0], p);
      MixedUploads(env, local, w', jobs[1..], k - 1);
    }
  }

  // So is a deletion, unless the path is ignored.
  lemma {:induction false} MixedDeletes(env: Env, local: Local, w: World, jobs: seq<Job>, k: nat)
    requires MixedBatch(env, local, w, jobs) && k < |jobs|
    requires jobs[k].task.Delete? && !Haunted(w, jobs[k].task.path)
    requires !env.ignored(jobs[k].task.path, IsDir(local, jobs[k].task.path))
    ensures forall i | 0 <= i < |jobs| :: TaskPaths(jobs[i].task)
    ensures RightOrDead(env, Drain(env, local, w, jobs)) && jobs[k].task.path !in Live(env, Drain(env, local, w, jobs))
    decreases |jobs|
  {
    MixedPaths(env, local, w, jobs);
    var p := jobs[k].task.path;
    var w' := Step(env, local, w, jobs[0]);
    MixedTail(env, local, w, jobs);
    if k == 0 {
      StepElsewhere(env, local, w, jobs[0]);
      Achieves(env, local, Clean(env, w), jobs[0], p);
      assert p !in Live(env, w');
      OtherTargets(jobs, 0);
      forall i | 0 <= i < |jobs| - 1 ensures TargetPath(jobs[1..][i].task) != p {
        assert jobs[1..][i] == jobs[i + 1];
      }
      MixedKeeps(env, local, w', jobs[1..], p);
    } else {
      assert jobs[1..][k - 1] == jobs[k] && Independent(jobs[0], jobs[k]);
      HauntedStays(env, local, w, jobs[0], p);
      MixedDeletes(env, local, w', jobs[1..], k - 1);
    }
  }

  lemma LiveHash(env: Env, w: World, w': World, p: Path, h: Hash)
    requires RightOrDead(env, w) && RightOrDead(env, w') && SameLive(env, w, w', p)
    ensures HoldsHash(env, w'.tree, p, h) <==> HoldsHash(env, w.tree, p, h)
  {
    HoldsLive(env, w, p, h);
    HoldsLive(env, w', p, h);
  }

  lemma HoldsLive(env: Env, w: World, p: Path, h: Hash)
    requires RightOrDead(env, w)
    ensures HoldsHash(env, w.tree, p, h) <==>
            (p in Live(env, w) && w.tree[w.cache[p].driveId].body.File?
             && env.hash(w.tree[w.cache[p].driveId].body.content) == h)
  {
    if p in Live(env, w) {
      forall id | At(w.tree, env.root, p, id) ensures id == w.cache[p].driveId {
        IdUnique(w.tree, env.root, p, id, w.cache[p].driveId);
      }
      assert At(w.tree, env.root, p, w.cache[p].driveId);
    }
    if HoldsHash(env, w.tree, p, h) {
      var id :| At(w.tree, env.root, p, id) && id in w.tree && w.tree[id].body.File?
                && env.hash(w.tree[id].body.content) == h;
      assert p != [] && p in Live(env, w);
    }
  }

  // ---- A round -------------------------------------------------------------

  // A cached path the remote does not have.
  ghost predicate StaleAt(r: Round, d: Path) {
    d in r.start.cache && forall id :: !At(r.start.tree, r.env.root, d, id)
  }

  // The path or one above it is stale.
  ghost predicate StaleAbove(r: Round, p: Path) {
    exists k :: 0 < k <= |p| && StaleAt(r, p[..k])
  }

  // A complete listing comes upon a cache whose stale entries have dead ids, which
  // are not given out again.
  ghost predicate StaleSetting(r: Round) {
    && Views(r) && Complete(r)
    && (forall p | p in r.start.cache :: p != [])
    && (forall p | StaleAt(r, p) ::
          && Dead(r.start.tree, r.env.root, r.start.cache[p].driveId)
          && r.start.cache[p].driveId !in r.scanned.tree
          && forall k | 0 <= k < |r.jobs| :: r.jobs[k].newId != r.start.cache[p].driveId)
  }

  // The scan was finished and its tasks handled, in any order, whether they finish or
  // fail.
  ghost predicate StaleRound(r: Round) {
    && StaleSetting(r)
    && Scanned(r.env, false, r.local, r.walk, r.rows, r.start, r.index, r.scanned)
    && Handles(r.env, r.local, r.scanned, TasksOf(Decided(r)), r.jobs)
    && (forall i | 0 <= i < |r.jobs| :: TaskPaths(r.jobs[i].task))
    && r.end == Drain(r.env, r.local, r.scanned, r.jobs)
  }

  // Where the listing had nothing to say the cache is as it was.
  lemma UnlistedEntry(r: Round, p: Path)
    requires StaleSetting(r) && p in ListedCache(r) && forall id :: !At(r.start.tree, r.env.root, p, id)
    ensures StaleAt(r, p) && ListedCache(r)[p] == r.start.cache[p]
  {
    FilledKeys(Filled(r.start.cache, r.index.dirs), r.index.files, p);
    FilledKeys(r.start.cache, r.index.dirs, p);
    ListedAt(r.start.tree, r.env.root, r.index, p);
  }

  lemma ListedEntry(r: Round, p: Path, id: Id)
    requires StaleSetting(r) && p != [] && At(r.start.tree, r.env.root, p, id)
    ensures p in ListedCache(r) && ListedCache(r)[p] == CacheEntry(id, r.start.tree[id].parent)
  {
    FilledListed(r.start.cache, r.start.tree, r.env.root, r.index, p, id);
  }

  lemma StartRightOrDead(r: Round)
    requires StaleSetting(r)
    ensures RightOrDead(r.env, r.start.(cache := ListedCache(r)))
  {
    var w := r.start.(cache := ListedCache(r));
    forall p | p in w.cache
      ensures p != [] && (At(w.tree, r.env.root, p, w.cache[p].driveId) || Dead(w.tree, r.env.root, w.cache[p].driveId))
    {
      if id :| At(w.tree, r.env.root, p, id) {
        if p == [] {
          RootNotListed(r);
        } else {
          ListedEntry(r, p, id);
        }
      } else {
        UnlistedEntry(r, p);
      }
    }
    forall p, id | p != [] && At(w.tree, r.env.root, p, id)
      ensures p in Live(r.env, w) && w.cache[p] == CacheEntry(id, w.tree[id].parent)
    {
      ListedEntry(r, p, id);
    }
    forall p | p in Live(r.env, w) ensures w.cache[p].parentId == w.tree[w.cache[p].driveId].parent {
      ListedEntry(r, p, w.cache[p].driveId);
    }
  }

  lemma RootNotListed(r: Round)
    requires StaleSetting(r)
    ensures [] !in ListedCache(r)
  {
    FilledKeys(Filled(r.start.cache, r.index.dirs), r.index.files, []);
    FilledKeys(r.start.cache, r.index.dirs, []);
    ListedAt(r.start.tree, r.env.root, r.index, []);
  }

  lemma ScannedRightOrDead(r: Round)
    requires StaleSetting(r) && Scanned(r.env, false, r.local, r.walk, r.rows, r.start, r.index, r.scanned)
    ensures RightOrDead(r.env, r.scanned) && GrownByFolders(r.start.tree, r.scanned.tree)
    ensures r.scanned.cache.Keys == ListedCache(r).Keys + AsSet(Decided(r).created)
    ensures forall p | p in ListedCache(r) :: p in r.scanned.cache && r.scanned.cache[p] == ListedCache(r)[p]
  {
    var w := r.start.(cache := ListedCache(r));
    StartRightOrDead(r);
    forall p | p in w.cache && w.cache[p].driveId !in w.tree ensures w.cache[p].driveId !in r.scanned.tree {
      if id :| At(w.tree, r.env.root, p, id) {
        if p != [] { ListedEntry(r, p, id); }
      } else {
        UnlistedEntry(r, p);
      }
    }
    assert IdsNotReused(w, r.scanned.(db := w.db));
    assert RightOrDead(r.env, r.scanned.(db := w.db));
    assert Live(r.env, r.scanned.(db := w.db)) == Live(r.env, r.scanned);
  }

  ghost predicate StaleScanned(r: Round) {
    StaleSetting(r) && Scanned(r.env, false, r.local, r.walk, r.rows, r.start, r.index, r.scanned)
  }

  lemma PrefixHaunted(r: Round, d: Path)
    requires StaleScanned(r) && d != []
    ensures StaleAt(r, d) <==> d in r.scanned.cache && r.scanned.cache[d].driveId !in r.scanned.tree
  {
    ScannedRightOrDead(r);
    FilledKeys(Filled(r.start.cache, r.index.dirs), r.index.files, d);
    FilledKeys(r.start.cache, r.index.dirs, d);
    if StaleAt(r, d) {
      UnlistedEntry(r, d);
    } else if d in ListedCache(r) {
      if id :| At(r.start.tree, r.env.root, d, id) {
        ListedEntry(r, d, id);
      } else {
        UnlistedEntry(r, d);
      }
    }
  }

  lemma StaleIsHaunted(r: Round, p: Path)
    requires StaleScanned(r)
    ensures StaleAbove(r, p) <==> Haunted(r.scanned, p)
  {
    forall k | 0 < k <= |p|
      ensures StaleAt(r, p[..k]) <==>
              p[..k] in r.scanned.cache && r.scanned.cache[p[..k]].driveId !in r.scanned.tree
    {
      PrefixHaunted(r, p[..k]);
    }
  }

  // What is live after the scan: the listing, and the folders made.
  lemma LiveFile(r: Round, p: Path)
    requires StaleScanned(r) && FilePath(r.local, r.start.tree, r.env.root, r.start.db, p)
    requires p in Live(r.env, r.scanned)
    ensures var id := r.scanned.cache[p].driveId;
            && id in r.start.tree && id in r.scanned.tree && r.scanned.tree[id] == r.start.tree[id]
            && r.start.tree[id].body.File? && At(r.start.tree, r.env.root, p, id) && p in ListedCache(r)
  {
    ScannedRightOrDead(r);
    CreatedFacts(r, p);
    assert !DirPath(r.local, r.start.tree, r.env.root, r.start.db, p);
    assert p in ListedCache(r);
    if id :| At(r.start.tree, r.env.root, p, id) {
      ListedEntry(r, p, id);
    } else {
      UnlistedEntry(r, p);
    }
  }

  lemma DirOnRemote(r: Round, p: Path, id: Id)
    requires Views(r) && IsDir(r.local, p) && p != [] && At(r.start.tree, r.env.root, p, id)
    ensures r.start.tree[id].body.Folder?
  {
    if r.start.tree[id].body.File? {
      assert RemoteFile(r.start.tree, r.env.root, p);
      assert FilePath(r.local, r.start.tree, r.env.root, r.start.db, p);
      assert DirPath(r.local, r.start.tree, r.env.root, r.start.db, p);
    }
  }

  lemma IsLive(env: Env, w: World, p: Path)
    requires RightOrDead(env, w) && p in w.cache && !Haunted(w, p)
    ensures p in Live(env, w) && w.cache[p].driveId in w.tree
  {
    assert p[..|p|] == p;
  }

  lemma LiveFolder(r: Round, p: Path)
    requires StaleScanned(r) && p != [] && Visited(r.env, r.local, p) && IsDir(r.local, p) && !Haunted(r.scanned, p)
    ensures p in Live(r.env, r.scanned) && IsFolder(r.scanned.tree, r.env.root, r.scanned.cache[p].driveId)
  {
    ScannedRightOrDead(r);
    CreatedFacts(r, p);
    assert p in r.scanned.cache.Keys;
    IsLive(r.env, r.scanned, p);
    if p in ListedCache(r) {
      ListedFolder(r, p);
    }
  }

  lemma ListedFolder(r: Round, p: Path)
    requires StaleScanned(r) && p != [] && IsDir(r.local, p) && p in ListedCache(r)
    requires GrownByFolders(r.start.tree, r.scanned.tree) && ListedCache(r)[p].driveId in r.scanned.tree
    ensures r.scanned.tree[ListedCache(r)[p].driveId].body.Folder?
  {
    if id :| At(r.start.tree, r.env.root, p, id) {
      ListedEntry(r, p, id);
      DirOnRemote(r, p, id);
    } else {
      UnlistedEntry(r, p);
    }
  }

  // No folder is made below a stale entry: a scan that needs one does not finish.
  lemma NoFolderBelowStale(r: Round, p: Path)
    requires StaleScanned(r) && p in Decided(r).created
    ensures !StaleAbove(r, p)
  {
    ScannedRightOrDead(r);
    CreatedFacts(r, p);
    assert p in r.scanned.cache.Keys;
    assert r.scanned.cache[p].driveId in r.scanned.tree;
    if k :| 0 < k <= |p| && StaleAt(r, p[..k]) {
      PrefixHaunted(r, p[..k]);
      HauntedAt(r.env, r.scanned, p, k);
    }
  }

  lemma RowBefore(r: Round, p: Path)
    requires StaleScanned(r) && p in Decided(r).uploads
    ensures Get(r.scanned.db, p) == Get(r.start.db, p)
  {
    var keys := ListedCache(r).Keys + AsSet(Decided(r).created);
    UploadFacts(r, p);
    SameVerdict(r, p);
    ComparedRow(r.env, r.local, keys, r.start.db, Filter(FileTest(r.local), r.walk), p);
  }

  lemma LiveParent(r: Round, p: Path)
    requires StaleScanned(r) && VisitedFile(r.env, r.local, p) && p != [] && !Haunted(r.scanned, p)
    ensures var parent := ParentId(r.env, Live(r.env, r.scanned), p);
            parent.Some? && IsFolder(r.scanned.tree, r.env.root, parent.value)
  {
    if |p| > 1 {
      assert IsPrefix(Init(p), p);
      VisitedAncestor(r.env, r.local, Init(p), p);
      LocalAncestor(r.local, Init(p), p);
      NotHauntedAbove(r.scanned, p);
      LiveFolder(r, Init(p));
    }
  }

  lemma DueWith(env: Env, local: Local, w: World, live: Entries, job: Job)
    requires job.task.SyncFile? && TaskPaths(job.task)
    requires Fresh(w.tree, env.root, job.newId) && Verified(env, local, job)
    requires var p := job.task.path; IsFile(local, p) && !env.ignored(p, false) && local[p].content != []
    requires var parent := ParentId(env, live, job.task.path); parent.Some? && IsFolder(w.tree, env.root, parent.value)
    requires var p := job.task.path;
             p in live ==>
               && live[p].driveId in w.tree && w.tree[live[p].driveId].body.File?
               && (p in w.db ==> w.db[p].mtime != local[p].mtime && w.db[p].hash != FileHash(env, local, p))
    ensures Due(env, local, w.(cache := live), job)
  {
  }

  lemma UploadAble(r: Round, job: Job)
    requires StaleScanned(r) && Fresh(r.scanned.tree, r.env.root, job.newId) && Verified(r.env, r.local, job)
    requires job.task.SyncFile? && job.task.path in Decided(r).uploads && !Haunted(r.scanned, job.task.path)
    ensures Due(r.env, r.local, Clean(r.env, r.scanned), job)
  {
    var p := job.task.path;
    UploadedFile(r, p);
    LiveParent(r, p);
    LiveUpload(r, p);
    DueWith(r.env, r.local, r.scanned, Live(r.env, r.scanned), job);
  }

  lemma UploadedFile(r: Round, p: Path)
    requires Views(r) && p in Decided(r).uploads
    ensures VisitedFile(r.env, r.local, p) && r.local[p].content != [] && !r.env.ignored(p, false)
    ensures p != [] && Canonical(p)
  {
    UploadFacts(r, p);
    EmittedPaths(r, p);
    assert p[..|p|] == p;
  }

  // A live file is uploaded only if its row has another time and another hash.
  lemma LiveUpload(r: Round, p: Path)
    requires StaleScanned(r) && p in Decided(r).uploads
    ensures IsFile(r.local, p)
    ensures p in Live(r.env, r.scanned) ==>
              && r.scanned.cache[p].driveId in r.scanned.tree && r.scanned.tree[r.scanned.cache[p].driveId].body.File?
              && (p in r.scanned.db ==>
                    r.scanned.db[p].mtime != r.local[p].mtime && r.scanned.db[p].hash != FileHash(r.env, r.local, p))
  {
    UploadFacts(r, p);
    EmittedPaths(r, p);
    if p in Live(r.env, r.scanned) {
      LiveFile(r, p);
      RowBefore(r, p);
      assert Get(r.scanned.db, p) == Get(r.start.db, p);
    }
  }

  lemma NotHauntedAbove(w: World, p: Path)
    requires !Haunted(w, p) && p != []
    ensures !Haunted(w, Init(p))
  {
    forall k | 0 < k <= |p| - 1 ensures Init(p)[..k] == p[..k] {
    }
  }

  lemma DeleteAble(r: Round, job: Job)
    requires StaleScanned(r) && Fresh(r.scanned.tree, r.env.root, job.newId)
    requires job.task.Delete?
    requires job.task.path in Decided(r).dbOrphans || job.task.path in Decided(r).remoteOrphans
    ensures Due(r.env, r.local, Clean(r.env, r.scanned), job)
  {
    EmittedPaths(r, job.task.path);
    if job.task.path in Live(r.env, r.scanned) {
      LiveFile(r, job.task.path);
    }
  }

  lemma RoundIsMixed(r: Round)
    requires StaleRound(r)
    ensures MixedBatch(r.env, r.local, r.scanned, r.jobs)
    ensures forall task :: task in TasksOf(Decided(r)) <==> exists i :: 0 <= i < |r.jobs| && r.jobs[i].task == task
  {
    ScannedRightOrDead(r);
    EmittedOnce(r);
    JobsAreTheTasks(TasksOf(Decided(r)), r.jobs);
    forall i | 0 <= i < |r.jobs|
      ensures Plain(r.env, r.scanned, r.jobs[i])
              && (Haunted(r.scanned, TargetPath(r.jobs[i].task))
                  || Due(r.env, r.local, Clean(r.env, r.scanned), r.jobs[i]))
    {
      JobMixed(r, i);
    }
    forall i, j | 0 <= i < |r.jobs| && 0 <= j < |r.jobs| && i != j ensures Independent(r.jobs[i], r.jobs[j]) {
      JobsApart(r, i, j);
    }
  }

  lemma JobMixed(r: Round, i: nat)
    requires StaleRound(r) && i < |r.jobs| && r.jobs[i].task in TasksOf(Decided(r))
    ensures Plain(r.env, r.scanned, r.jobs[i])
    ensures Haunted(r.scanned, TargetPath(r.jobs[i].task)) || Due(r.env, r.local, Clean(r.env, r.scanned), r.jobs[i])
  {
    TaskMembership(Decided(r), r.jobs[i].task);
    JobPlain(r, i);
    if !Haunted(r.scanned, TargetPath(r.jobs[i].task)) {
      if r.jobs[i].task.SyncFile? { UploadAble(r, r.jobs[i]); } else { DeleteAble(r, r.jobs[i]); }
    }
  }

  lemma JobPlain(r: Round, i: nat)
    requires StaleRound(r) && i < |r.jobs| && !r.jobs[i].task.Rename?
    ensures Plain(r.env, r.scanned, r.jobs[i])
  {
    ScannedRightOrDead(r);
    forall p | p in r.scanned.cache ensures r.scanned.cache[p].driveId != r.jobs[i].newId {
      if r.scanned.cache[p].driveId !in r.scanned.tree {
        PrefixHaunted(r, p);
        UnlistedEntry(r, p);
      }
    }
  }

  // After a finished scan and all its tasks, finished or failed, in any order, an
  // inventoried, non-empty file is on the remote with the local hash exactly if the
  // scan judged it out of date or the remote already had it with that hash, and
  // neither its path nor one above it was stale in the cache.
  lemma FileConvergesUnlessStale(r: Round, p: Path)
    requires StaleRound(r) && VisitedFile(r.env, r.local, p) && r.local[p].content != []
    ensures HoldsHash(r.env, r.end.tree, p, FileHash(r.env, r.local, p)) <==>
            && (|| Judge(r.env, r.local, ListedCache(r).Keys, r.start.db, p) == Upload
                || HoldsHash(r.env, r.start.tree, p, FileHash(r.env, r.local, p)))
            && !StaleAbove(r, p)
  {
    StaleIsHaunted(r, p);
    UploadFacts(r, p);
    if p in Decided(r).uploads && !Haunted(r.scanned, p) {
      RoundIsMixed(r);
      TaskMembership(Decided(r), Task.SyncFile(p));
      var k :| 0 <= k < |r.jobs| && r.jobs[k].task == Task.SyncFile(p);
      MixedUploads(r.env, r.local, r.scanned, r.jobs, k);
    } else {
      KeptUnlessStale(r, p);
    }
  }

  // The same for all files.
  ghost predicate ConvergedUnlessStale(r: Round) {
    forall p | VisitedFile(r.env, r.local, p) && r.local[p].content != [] ::
      HoldsHash(r.env, r.end.tree, p, FileHash(r.env, r.local, p)) <==>
      && (|| Judge(r.env, r.local, ListedCache(r).Keys, r.start.db, p) == Upload
          || HoldsHash(r.env, r.start.tree, p, FileHash(r.env, r.local, p)))
      && !StaleAbove(r, p)
  }

  lemma RoundConvergesUnlessStale(r: Round)
    requires StaleRound(r)
    ensures ConvergedUnlessStale(r)
  {
    forall p | VisitedFile(r.env, r.local, p) && r.local[p].content != []
      ensures HoldsHash(r.env, r.end.tree, p, FileHash(r.env, r.local, p)) <==>
              && (|| Judge(r.env, r.local, ListedCache(r).Keys, r.start.db, p) == Upload
                  || HoldsHash(r.env, r.start.tree, p, FileHash(r.env, r.local, p)))
              && !StaleAbove(r, p)
    {
      FileConvergesUnlessStale(r, p);
    }
  }

  lemma KeptUnlessStale(r: Round, p: Path)
    requires StaleRound(r) && VisitedFile(r.env, r.local, p)
    requires p in Decided(r).uploads ==> Haunted(r.scanned, p)
    ensures HoldsHash(r.env, r.end.tree, p, FileHash(r.env, r.local, p)) <==>
            HoldsHash(r.env, r.start.tree, p, FileHash(r.env, r.local, p))
    ensures StaleAbove(r, p) ==> !HoldsHash(r.env, r.start.tree, p, FileHash(r.env, r.local, p))
  {
    var h := FileHash(r.env, r.local, p);
    RoundIsMixed(r);
    ScannedRightOrDead(r);
    EmittedPaths(r, p);
    forall i | 0 <= i < |r.jobs| && TargetPath(r.jobs[i].task) == p ensures Haunted(r.scanned, p) {
      TaskMembership(Decided(r), r.jobs[i].task);
    }
    MixedKeeps(r.env, r.local, r.scanned, r.jobs, p);
    LiveHash(r.env, r.scanned, r.end, p, h);
    ScanKeepsHash(r, p, h);
    StaleIsHaunted(r, p);
    if StaleAbove(r, p) {
      var k :| 0 < k <= |p| && p[..k] in r.scanned.cache && r.scanned.cache[p[..k]].driveId !in r.scanned.tree;
      HauntedAt(r.env, r.scanned, p, k);
      HoldsLive(r.env, r.scanned, p, h);
    }
  }

  lemma ScanKeepsHash(r: Round, p: Path, h: Hash)
    requires StaleScanned(r) && VisitedFile(r.env, r.local, p)
    ensures HoldsHash(r.env, r.scanned.tree, p, h) <==> HoldsHash(r.env, r.start.tree, p, h)
  {
    ScannedRightOrDead(r);
    HoldsLive(r.env, r.scanned, p, h);
    if p in Live(r.env, r.scanned) {
      LiveFile(r, p);
      HashUnderId(r.env, r.start, p, r.scanned.cache[p].driveId);
    }
    if HoldsHash(r.env, r.start.tree, p, h) {
      var id :| At(r.start.tree, r.env.root, p, id) && id in r.start.tree && r.start.tree[id].body.File?
                && r.env.hash(r.start.tree[id].body.content) == h;
      GrownAt(r.start.tree, r.env.root, r.scanned.tree, p, id);
    }
  }

  lemma AtNotHaunted(env: Env, w: World, p: Path, id: Id)
    requires RightOrDead(env, w) && p != [] && At(w.tree, env.root, p, id)
    ensures p in Live(env, w) && !Haunted(w, p)
  {
    AboveIsLive(env, w, p, id, p);
    if k :| 0 < k <= |p| && p[..k] in w.cache && w.cache[p[..k]].driveId !in w.tree {
      HauntedAt(env, w, p, k);
    }
  }

  // What the remote has is not below a stale entry.
  lemma RemoteNotHaunted(r: Round, p: Path, id: Id)
    requires StaleScanned(r) && p != [] && At(r.start.tree, r.env.root, p, id)
    ensures p in Live(r.env, r.scanned) && !Haunted(r.scanned, p)
  {
    ScannedRightOrDead(r);
    GrownAt(r.start.tree, r.env.root, r.scanned.tree, p, id);
    AtNotHaunted(r.env, r.scanned, p, id);
  }

  lemma LiveIsRemote(env: Env, w: World, p: Path)
    requires RightOrDead(env, w)
    ensures RemoteFile(w.tree, env.root, p) <==> p in Live(env, w) && w.tree[w.cache[p].driveId].body.File?
  {
    if p in Live(env, w) {
      assert At(w.tree, env.root, p, w.cache[p].driveId) && p != [];
      forall id | At(w.tree, env.root, p, id) ensures id == w.cache[p].driveId {
        IdUnique(w.tree, env.root, p, id, w.cache[p].driveId);
      }
    }
    if RemoteFile(w.tree, env.root, p) {
      var id :| At(w.tree, env.root, p, id) && id in w.tree && w.tree[id].body.File?;
      assert p != [];
      AboveIsLive(env, w, p, id, p);
    }
  }

  lemma OrphanDeleted(r: Round, p: Path, id: Id)
    requires StaleRound(r) && !r.env.ignored(p, IsDir(r.local, p)) && p != [] && At(r.start.tree, r.env.root, p, id)
    requires p in Decided(r).dbOrphans || p in Decided(r).remoteOrphans
    ensures !RemoteFile(r.end.tree, r.env.root, p)
  {
    RoundIsMixed(r);
    RemoteNotHaunted(r, p, id);
    TaskMembership(Decided(r), Task.Delete(p));
    var k :| 0 <= k < |r.jobs| && r.jobs[k].task == Task.Delete(p);
    MixedDeletes(r.env, r.local, r.scanned, r.jobs, k);
    LiveIsRemote(r.env, r.end, p);
  }

  // No remote file remains at a path that is neither ignored nor an inventoried file.
  lemma NothingElseRemains(r: Round, p: Path)
    requires StaleRound(r) && !r.env.ignored(p, IsDir(r.local, p)) && !VisitedFile(r.env, r.local, p)
    ensures !RemoteFile(r.end.tree, r.env.root, p)
  {
    UploadFacts(r, p);
    if RemoteFile(r.start.tree, r.env.root, p) {
      var id :| At(r.start.tree, r.env.root, p, id) && id in r.start.tree && r.start.tree[id].body.File?;
      DbOrphanFacts(r, p);
      RemoteOrphanFacts(r, p);
      RemoteFileIsNoDir(r.local, r.env, r.start, p, id);
      NotTheRoot(r, p, id);
      OrphanDeleted(r, p, id);
    } else {
      NewlyAbsent(r, p);
    }
  }

  lemma NotTheRoot(r: Round, p: Path, id: Id)
    requires WellFormed(r.start.tree, r.env.root) && At(r.start.tree, r.env.root, p, id) && id in r.start.tree
    ensures p != []
  {
  }

  // The scan puts no file on the remote.
  lemma ScannedFileWasThere(r: Round, p: Path)
    requires StaleScanned(r) && RemoteFile(r.scanned.tree, r.env.root, p)
    ensures RemoteFile(r.start.tree, r.env.root, p)
  {
    ScannedRightOrDead(r);
    LiveIsRemote(r.env, r.scanned, p);
    if j :| At(r.start.tree, r.env.root, p, j) && p != [] {
      ListedEntry(r, p, j);
    } else if p in ListedCache(r) {
      UnlistedEntry(r, p);
    }
  }

  lemma NewlyAbsent(r: Round, p: Path)
    requires StaleRound(r) && !RemoteFile(r.start.tree, r.env.root, p)
    requires p !in Decided(r).uploads && !r.env.ignored(p, IsDir(r.local, p))
    ensures !RemoteFile(r.end.tree, r.env.root, p)
  {
    RoundIsMixed(r);
    ScannedRightOrDead(r);
    LiveIsRemote(r.env, r.scanned, p);
    if RemoteFile(r.scanned.tree, r.env.root, p) {
      ScannedFileWasThere(r, p);
    }
    if i :| 0 <= i < |r.jobs| && TargetPath(r.jobs[i].task) == p && !Haunted(r.scanned, p) {
      TaskMembership(Decided(r), r.jobs[i].task);
      MixedDeletes(r.env, r.local, r.scanned, r.jobs, i);
    } else {
      MixedKeeps(r.env, r.local, r.scanned, r.jobs, p);
    }
    LiveIsRemote(r.env, r.end, p);
  }

  // A recorded file the comparison skips, below no stale entry, is on the remote with
  // the local hash.
  lemma SkippedUnlessStale(r: Round, p: Path)
    requires StaleRound(r) && IsFile(r.local, p) && !StaleAbove(r, p)
    requires DbSound(r.env, r.start.(cache := ListedCache(r))) && HonestTimes(r.env, r.local, r.start.db)
    requires p in r.start.db || !RemoteFile(r.start.tree, r.env.root, p)
    ensures Judge(r.env, r.local, ListedCache(r).Keys, r.start.db, p) != Upload ==>
              HoldsHash(r.env, r.start.tree, p, FileHash(r.env, r.local, p))
  {
    if p in ListedCache(r) {
      ScannedRightOrDead(r);
      StaleIsHaunted(r, p);
      IsLive(r.env, r.scanned, p);
      LiveFile(r, p);
      var id := r.scanned.cache[p].driveId;
      assert RowTrue(r.env, r.start.(cache := ListedCache(r)), p);
      assert At(r.start.tree, r.env.root, p, id) && r.start.tree[id].body.File?;
    }
  }

  // Convergence with stale entries: every local file that is neither ignored nor empty
  // nor adopted is on the remote with its hash exactly if no entry at its path or
  // above it was stale, and no file is there that is neither local nor ignored.
  lemma ConvergesUnlessStale(r: Round)
    requires StaleRound(r) && IgnoreClosed(r.env)
    requires DbSound(r.env, r.start.(cache := ListedCache(r))) && HonestTimes(r.env, r.local, r.start.db)
    ensures forall p | IsFile(r.local, p) && r.local[p].content != [] && !r.env.ignored(p, false)
                       && (p in r.start.db || !RemoteFile(r.start.tree, r.env.root, p)) ::
              HoldsHash(r.env, r.end.tree, p, FileHash(r.env, r.local, p)) <==> !StaleAbove(r, p)
    ensures forall p | !IsFile(r.local, p) && !r.env.ignored(p, IsDir(r.local, p)) ::
              !RemoteFile(r.end.tree, r.env.root, p)
  {
    forall p | IsFile(r.local, p) && r.local[p].content != [] && !r.env.ignored(p, false)
               && (p in r.start.db || !RemoteFile(r.start.tree, r.env.root, p))
      ensures HoldsHash(r.env, r.end.tree, p, FileHash(r.env, r.local, p)) <==> !StaleAbove(r, p)
    {
      VisitedUnlessIgnored(r.env, r.local, p);
      FileConvergesUnlessStale(r, p);
      if !StaleAbove(r, p) {
        SkippedUnlessStale(r, p);
      }
    }
    forall p | !IsFile(r.local, p) && !r.env.ignored(p, IsDir(r.local, p))
      ensures !RemoteFile(r.end.tree, r.env.root, p)
    {
      NothingElseRemains(r, p);
    }
  }
}
