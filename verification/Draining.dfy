// What handling a batch of uploads and deletions does to every path.
module Draining {
  import opened Paths
  import opened RemoteTree
  import opened PathCaching
  import opened Reconcile
  import opened Agreement
  import opened Confluence

  // The job will do its work: nothing in the way of the upload, no folder deleted.
  ghost predicate Due(env: Env, local: Local, w: World, job: Job) {
    && TaskPaths(job.task) && Fresh(w.tree, env.root, job.newId)
    && match job.task
       case SyncFile(p) =>
         && IsFile(local, p) && !env.ignored(p, false) && local[p].content != []
         && env.hash(job.stored) == FileHash(env, local, p)
         && ParentId(env, w.cache, p).Some? && IsFolder(w.tree, env.root, ParentId(env, w.cache, p).value)
         && (p in w.cache ==>
               && w.cache[p].driveId in w.tree && w.tree[w.cache[p].driveId].body.File?
               && (p in w.db ==> w.db[p].mtime != local[p].mtime && w.db[p].hash != FileHash(env, local, p)))
       case Delete(p) => p in w.cache ==> w.cache[p].driveId in w.tree && w.tree[w.cache[p].driveId].body.File?
       case Rename(_, _) => false
  }

  // The path has the same entry, row and remote bytes in both states.
  ghost predicate Same(w: World, w': World, q: Path) {
    && Get(w.cache, q) == Get(w'.cache, q) && Get(w.db, q) == Get(w'.db, q)
    && (q in w.cache ==> Get(w.tree, w.cache[q].driveId) == Get(w'.tree, w.cache[q].driveId))
  }

  // What the job was for has been achieved.
  ghost predicate Achieved(env: Env, local: Local, w: World, job: Job, w': World) {
    match job.task
    case SyncFile(p) =>
      && IsFile(local, p) && p in w'.cache && w'.cache[p].driveId in w'.tree
      && w'.tree[w'.cache[p].driveId].body == File(job.stored)
      && env.hash(job.stored) == FileHash(env, local, p)
      && p in w'.db && w'.db[p] == Row(FileHash(env, local, p), local[p].mtime)
    case Delete(p) =>
      if env.ignored(p, IsDir(local, p)) then Same(w, w', p) else p !in w'.cache && p !in w'.db
    case Rename(_, _) => false
  }

  lemma SyncAchieves(env: Env, local: Local, w: World, job: Job, q: Path)
    requires Consistent(env, w) && Due(env, local, w, job) && job.task.SyncFile?
    ensures Execute(env, local, w, job).ok
    ensures Achieved(env, local, w, job, Step(env, local, w, job))
    ensures q != job.task.path ==> Same(w, Step(env, local, w, job), q)
  {
    var p := job.task.path;
    if q in w.cache && p in w.cache && w.cache[p].driveId == w.cache[q].driveId {
      DistinctIds(env, w, p, q);
    }
  }

  lemma DeleteAchieves(env: Env, local: Local, w: World, job: Job, q: Path)
    requires Consistent(env, w) && Due(env, local, w, job) && job.task.Delete?
    ensures Execute(env, local, w, job).ok
    ensures Achieved(env, local, w, job, Step(env, local, w, job))
    ensures q != job.task.path ==> Same(w, Step(env, local, w, job), q)
  {
    var p := job.task.path;
    assert IsPrefix(p, p);
    if p in w.cache && q in w.cache {
      if w.cache[p].driveId == w.cache[q].driveId { DistinctIds(env, w, p, q); }
      if IsPrefix(p, q) { NothingBelowFile(env, w, p, q); }
    }
  }

  lemma Achieves(env: Env, local: Local, w: World, job: Job, q: Path)
    requires Consistent(env, w) && Due(env, local, w, job)
    ensures Execute(env, local, w, job).ok
    ensures Achieved(env, local, w, job, Step(env, local, w, job))
    ensures q != TargetPath(job.task) ==> Same(w, Step(env, local, w, job), q)
  {
    if job.task.SyncFile? { SyncAchieves(env, local, w, job, q); } else { DeleteAchieves(env, local, w, job, q); }
  }

  lemma StaysFresh(env: Env, local: Local, w: World, job: Job, id: Id)
    requires Consistent(env, w) && Due(env, local, w, job) && Fresh(w.tree, env.root, id) && id != job.newId
    ensures Fresh(Step(env, local, w, job).tree, env.root, id)
  {
    if job.task.SyncFile? {
      CachedParent(env, w, job.task.path);
    }
  }

  // A due job stays due while jobs for other, unrelated paths are handled.
  lemma StaysDue(env: Env, local: Local, w: World, job: Job, other: Job)
    requires LocalTree(local) && Consistent(env, w) && Due(env, local, w, job) && Due(env, local, w, other)
    requires Independent(job, other)
    ensures Due(env, local, Step(env, local, w, other), job)
  {
    var p := TargetPath(job.task);
    var w' := Step(env, local, w, other);
    ApartFacts(p, TargetPath(other.task));
    Achieves(env, local, w, other, p);
    StaysFresh(env, local, w, other, job.newId);
    if job.task.SyncFile? && |p| > 1 {
      Achieves(env, local, w, other, Init(p));
      assert Get(w.cache, Init(p)) == Get(w'.cache, Init(p));
      var id := w.cache[Init(p)].driveId;
      assert Get(w.tree, id) == Get(w'.tree, id);
    }
  }

  // All jobs due, on unrelated paths, each with its own id.
  ghost predicate DueBatch(env: Env, local: Local, w: World, jobs: seq<Job>) {
    && LocalTree(local) && Consistent(env, w)
    && (forall i | 0 <= i < |jobs| :: Due(env, local, w, jobs[i]))
    && (forall i, j | 0 <= i < |jobs| && 0 <= j < |jobs| && i != j :: Independent(jobs[i], jobs[j]))
  }

  lemma DueTail(env: Env, local: Local, w: World, jobs: seq<Job>)
    requires DueBatch(env, local, w, jobs) && jobs != []
    ensures TaskPaths(jobs[0].task) && DueBatch(env, local, Step(env, local, w, jobs[0]), jobs[1..])
  {
    assert Due(env, local, w, jobs[0]);
    ExecuteConsistent(env, local, w, jobs[0]);
    forall i | 0 <= i < |jobs| - 1 ensures Due(env, local, Step(env, local, w, jobs[0]), jobs[1..][i]) {
      assert Due(env, local, w, jobs[i + 1]) && Independent(jobs[i + 1], jobs[0]);
      StaysDue(env, local, w, jobs[i + 1], jobs[0]);
    }
    forall i, j | 0 <= i < |jobs| - 1 && 0 <= j < |jobs| - 1 && i != j ensures Independent(jobs[1..][i], jobs[1..][j]) {
      assert Independent(jobs[i + 1], jobs[j + 1]);
    }
  }

  // A due batch is a batch in the sense of confluence.
  lemma DueIsBatch(env: Env, local: Local, w: World, jobs: seq<Job>)
    requires DueBatch(env, local, w, jobs)
    ensures Batch(env, w, jobs)
  {
    forall p, q | p in w.cache && q in w.cache && w.cache[p].driveId == w.cache[q].driveId ensures p == q {
      DistinctIds(env, w, p, q);
    }
    forall i | 0 <= i < |jobs| ensures Ready(env, w, jobs[i]) {
      assert Due(env, local, w, jobs[i]);
    }
  }

  // Every job of the run succeeds.
  ghost predicate AllSucceed(env: Env, local: Local, w: World, jobs: seq<Job>)
    requires forall i | 0 <= i < |jobs| :: TaskPaths(jobs[i].task)
    decreases |jobs|
  {
    jobs == [] ||
    (Execute(env, local, w, jobs[0]).ok && AllSucceed(env, local, Step(env, local, w, jobs[0]), jobs[1..]))
  }

  lemma DuePaths(env: Env, local: Local, w: World, jobs: seq<Job>)
    requires DueBatch(env, local, w, jobs)
    ensures forall i | 0 <= i < |jobs| :: TaskPaths(jobs[i].task)
  {
    forall i | 0 <= i < |jobs| ensures TaskPaths(jobs[i].task) {
      assert Due(env, local, w, jobs[i]);
    }
  }

  // Handling the whole batch leaves every path that is no target as it was ...
  lemma {:induction false} DrainKeeps(env: Env, local: Local, w: World, jobs: seq<Job>, q: Path)
    requires DueBatch(env, local, w, jobs)
    requires forall i | 0 <= i < |jobs| :: TargetPath(jobs[i].task) != q
    ensures forall i | 0 <= i < |jobs| :: TaskPaths(jobs[i].task)
    ensures AllSucceed(env, local, w, jobs)
    ensures Consistent(env, Drain(env, local, w, jobs)) && Same(w, Drain(env, local, w, jobs), q)
    decreases |jobs|
  {
    DuePaths(env, local, w, jobs);
    if jobs != [] {
      DueTail(env, local, w, jobs);
      assert Due(env, local, w, jobs[0]);
      Achieves(env, local, w, jobs[0], q);
      var w1 := Step(env, local, w, jobs[0]);
      forall i | 0 <= i < |jobs| - 1 ensures TargetPath(jobs[1..][i].task) != q {
        assert jobs[1..][i] == jobs[i + 1];
      }
      DrainKeeps(env, local, w1, jobs[1..], q);
    }
  }

  lemma OtherTargets(jobs: seq<Job>, k: nat)
    requires k < |jobs|
    requires forall i, j | 0 <= i < |jobs| && 0 <= j < |jobs| && i != j :: Independent(jobs[i], jobs[j])
    ensures forall i | 0 <= i < |jobs| && i != k :: TargetPath(jobs[i].task) != TargetPath(jobs[k].task)
  {
    var p := TargetPath(jobs[k].task);
    forall i | 0 <= i < |jobs| && i != k ensures TargetPath(jobs[i].task) != p {
      assert Independent(jobs[i], jobs[k]) && IsPrefix(p, p);
    }
  }

  lemma AchievedBeforeOthers(env: Env, local: Local, w: World, job: Job, w1: World, w2: World)
    requires Achieved(env, local, w, job, w1) && Same(w1, w2, TargetPath(job.task))
    ensures Achieved(env, local, w, job, w2)
  {
  }

  lemma AchievedAfterOthers(env: Env, local: Local, w: World, job: Job, w1: World, w2: World)
    requires Same(w, w1, TargetPath(job.task)) && Achieved(env, local, w1, job, w2)
    ensures Achieved(env, local, w, job, w2)
  {
  }

  // ... and achieves every job.
  lemma {:induction false} DrainAchieves(env: Env, local: Local, w: World, jobs: seq<Job>, k: nat)
    requires DueBatch(env, local, w, jobs) && k < |jobs|
    ensures forall i | 0 <= i < |jobs| :: TaskPaths(jobs[i].task)
    ensures Achieved(env, local, w, jobs[k], Drain(env, local, w, jobs))
    decreases |jobs|
  {
    DuePaths(env, local, w, jobs);
    var p := TargetPath(jobs[k].task);
    DueTail(env, local, w, jobs);
    assert Due(env, local, w, jobs[0]);
    Achieves(env, local, w, jobs[0], p);
    var w1 := Step(env, local, w, jobs[0]);
    if k == 0 {
      OtherTargets(jobs, 0);
      DrainKeeps(env, local, w1, jobs[1..], p);
      AchievedBeforeOthers(env, local, w, jobs[0], w1, Drain(env, local, w, jobs));
    } else {
      OtherTargets(jobs, k);
      assert jobs[1..][k - 1] == jobs[k];
      DrainAchieves(env, local, w1, jobs[1..], k - 1);
      AchievedAfterOthers(env, local, w, jobs[k], w1, Drain(env, local, w, jobs));
    }
  }
}
