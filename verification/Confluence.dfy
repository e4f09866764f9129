// The tasks of one scan may be handled in any order.
module Confluence {
  import opened Paths
  import opened RemoteTree
  import opened PathCaching
  import opened Reconcile

  function TargetPath(task: Task): Path {
    match task
    case SyncFile(p) => p
    case Delete(p) => p
    case Rename(_, to) => to
  }

  function Step(env: Env, local: Local, w: World, job: Job): World
    requires TaskPaths(job.task)
  {
    Execute(env, local, w, job).world
  }

  ghost predicate DistinctCachedIds(cache: Entries) {
    forall p, q | p in cache && q in cache && cache[p].driveId == cache[q].driveId :: p == q
  }

  // Ids the provider has not given out yet, in the tree or in the cache.
  ghost predicate Unused(env: Env, w: World, id: Id) {
    id !in w.tree && id != env.root && forall p | p in w.cache :: w.cache[p].driveId != id
  }

  ghost predicate Ready(env: Env, w: World, job: Job) {
    !job.task.Rename? && TaskPaths(job.task) && Unused(env, w, job.newId)
  }

  // None of the two paths is the other one or above it.
  ghost predicate Independent(a: Job, b: Job) {
    Apart(TargetPath(a.task), TargetPath(b.task)) && a.newId != b.newId
  }

  // ---- What one upload or deletion changes ---------------------------------

  datatype Effect =
    | Nothing
    | SetRow(path: Path, row: Row)
    | Put(path: Path, id: Id, node: Node, entry: CacheEntry, row: Row)
    | DropRow(path: Path)
    | Drop(path: Path, id: Id)

  function OnTree(t: Tree, e: Effect): Tree {
    match e
    case Put(_, id, node, _, _) => t[id := node]
    case Drop(_, id) => t - {id}
    case _ => t
  }

  function OnCache(cache: Entries, e: Effect): Entries {
    match e
    case Put(p, _, _, entry, _) => cache[p := entry]
    case Drop(p, _) => Cascade(cache, p)
    case _ => cache
  }

  function OnDb(db: map<Path, Row>, e: Effect): map<Path, Row> {
    match e
    case Nothing => db
    case SetRow(p, row) => db[p := row]
    case Put(p, _, _, _, row) => db[p := row]
    case DropRow(p) => db - {p}
    case Drop(p, _) => db - {p}
  }

  function Apply(w: World, e: Effect): World {
    World(OnTree(w.tree, e), OnCache(w.cache, e), OnDb(w.db, e))
  }

  function Plan(env: Env, local: Local, w: World, job: Job): Effect
    requires !job.task.Rename? && TaskPaths(job.task)
  {
    match job.task
    case SyncFile(p) =>
      if p !in local || SkippedAtOnce(env, local, w, p) then Nothing
      else
        var row := Row(FileHash(env, local, p), local[p].mtime);
        if SameHash(env, local, w, p) then SetRow(p, row)
        else
          var parent := ParentId(env, w.cache, p);
          if parent.None? then Nothing
          else if p in w.cache then
            var id := w.cache[p].driveId;
            if id in w.tree && w.tree[id].body.File?
            then Put(p, id, w.tree[id].(name := Last(p), body := File(job.stored)), CacheEntry(id, parent.value), row)
            else Nothing
          else if IsFolder(w.tree, env.root, parent.value)
          then
            Put(p, job.newId, Node(Last(p), parent.value, File(job.stored)), CacheEntry(job.newId, parent.value), row)
          else Nothing
    case Delete(p) =>
      if env.ignored(p, IsDir(local, p)) then Nothing
      else if p in w.cache then
        if w.cache[p].driveId in w.tree then Drop(p, w.cache[p].driveId) else Nothing
      else DropRow(p)
  }

  lemma SyncIsPlan(env: Env, local: Local, w: World, job: Job)
    requires job.task.SyncFile? && TaskPaths(job.task)
    ensures Step(env, local, w, job) == Apply(w, Plan(env, local, w, job))
  {
  }

  lemma DeleteIsPlan(env: Env, local: Local, w: World, job: Job)
    requires job.task.Delete? && TaskPaths(job.task)
    ensures Step(env, local, w, job) == Apply(w, Plan(env, local, w, job))
  {
  }

  lemma StepIsPlan(env: Env, local: Local, w: World, job: Job)
    requires !job.task.Rename? && TaskPaths(job.task)
    ensures Step(env, local, w, job) == Apply(w, Plan(env, local, w, job))
  {
    if job.task.SyncFile? { SyncIsPlan(env, local, w, job); } else { DeleteIsPlan(env, local, w, job); }
  }

  // The effect stays inside the job's path, its cached id and its own new id.
  ghost predicate Confined(env: Env, w: World, job: Job, e: Effect) {
    match e
    case Nothing => true
    case SetRow(p, _) => p == TargetPath(job.task)
    case DropRow(p) => p == TargetPath(job.task)
    case Put(p, id, node, entry, _) =>
      && p == TargetPath(job.task) && entry.driveId == id && node.body.File?
      && (if p in w.cache then id == w.cache[p].driveId && id in w.tree && w.tree[id].body.File? else id == job.newId)
    case Drop(p, id) => p == TargetPath(job.task) && p in w.cache && id == w.cache[p].driveId
  }

  lemma PlanConfined(env: Env, local: Local, w: World, job: Job)
    requires !job.task.Rename? && TaskPaths(job.task)
    ensures Confined(env, w, job, Plan(env, local, w, job))
  {
  }

  lemma ApartFacts(p: Path, q: Path)
    requires Apart(p, q) && p != [] && q != []
    ensures p != q && p != Init(q) && q != Init(p) && !IsPrefix(p, Init(q)) && !IsPrefix(q, Init(p))
  {
    assert IsPrefix(p, p) && IsPrefix(q, q);
    assert |p| < |q| ==> q[..|p|] == Init(q)[..|p|];
    assert |q| < |p| ==> p[..|q|] == Init(p)[..|q|];
  }

  // All that a job for p looks at.
  ghost predicate SameAround(env: Env, w: World, w': World, p: Path) {
    && p != []
    && Get(w'.db, p) == Get(w.db, p) && Get(w'.cache, p) == Get(w.cache, p)
    && (p in w.cache ==> Get(w'.tree, w.cache[p].driveId) == Get(w.tree, w.cache[p].driveId))
    && ParentId(env, w'.cache, p) == ParentId(env, w.cache, p)
    && (var parent := ParentId(env, w.cache, p);
        parent.Some? ==> IsFolder(w'.tree, env.root, parent.value) == IsFolder(w.tree, env.root, parent.value))
  }

  lemma SamePlan(env: Env, local: Local, w: World, w': World, job: Job)
    requires !job.task.Rename? && TaskPaths(job.task) && SameAround(env, w, w', TargetPath(job.task))
    ensures Plan(env, local, w', job) == Plan(env, local, w, job)
  {
  }

  // An effect elsewhere does not change what a job will do.
  lemma PlanStable(env: Env, local: Local, w: World, job: Job, other: Job, e: Effect)
    requires DistinctCachedIds(w.cache) && Ready(env, w, job) && Ready(env, w, other) && Independent(job, other)
    requires Confined(env, w, other, e)
    ensures Plan(env, local, Apply(w, e), job) == Plan(env, local, w, job)
  {
    var p := TargetPath(job.task);
    ApartFacts(p, TargetPath(other.task));
    ParentStable(env, w, p, other, e);
    SamePlan(env, local, w, Apply(w, e), job);
  }

  lemma ParentStable(env: Env, w: World, p: Path, other: Job, e: Effect)
    requires DistinctCachedIds(w.cache) && Ready(env, w, other) && Confined(env, w, other, e)
    requires p != [] && Apart(p, TargetPath(other.task))
    ensures var parent := ParentId(env, w.cache, p);
            && ParentId(env, OnCache(w.cache, e), p) == parent
            && (parent.Some? ==>
                  IsFolder(OnTree(w.tree, e), env.root, parent.value) == IsFolder(w.tree, env.root, parent.value))
  {
    ApartFacts(p, TargetPath(other.task));
  }

  lemma EffectsCommute(env: Env, w: World, a: Job, b: Job, ea: Effect, eb: Effect)
    requires DistinctCachedIds(w.cache) && Ready(env, w, a) && Ready(env, w, b) && Independent(a, b)
    requires Confined(env, w, a, ea) && Confined(env, w, b, eb)
    ensures Apply(Apply(w, ea), eb) == Apply(Apply(w, eb), ea)
  {
    var p, q := TargetPath(a.task), TargetPath(b.task);
    ApartFacts(p, q);
    DbCommute(w.db, ea, eb);
    CacheCommute(w.cache, ea, eb);
    TreeCommute(w.tree, ea, eb);
  }

  lemma DbCommute(db: map<Path, Row>, ea: Effect, eb: Effect)
    requires !ea.Nothing? && !eb.Nothing? ==> ea.path != eb.path
    ensures OnDb(OnDb(db, ea), eb) == OnDb(OnDb(db, eb), ea)
  {
    var ab, ba := OnDb(OnDb(db, ea), eb), OnDb(OnDb(db, eb), ea);
    assert forall p :: p in ab <==> p in ba;
  }

  lemma CacheCommute(cache: Entries, ea: Effect, eb: Effect)
    requires !ea.Nothing? && !eb.Nothing? ==> Apart(ea.path, eb.path)
    ensures OnCache(OnCache(cache, ea), eb) == OnCache(OnCache(cache, eb), ea)
  {
    var ab, ba := OnCache(OnCache(cache, ea), eb), OnCache(OnCache(cache, eb), ea);
    if !ea.Nothing? && !eb.Nothing? {
      assert IsPrefix(ea.path, ea.path) && ea.path != eb.path;
      assert forall p :: p in ab <==> p in ba;
    }
  }

  lemma TreeCommute(t: Tree, ea: Effect, eb: Effect)
    requires (ea.Put? || ea.Drop?) && (eb.Put? || eb.Drop?) ==> ea.id != eb.id
    ensures OnTree(OnTree(t, ea), eb) == OnTree(OnTree(t, eb), ea)
  {
    var ab, ba := OnTree(OnTree(t, ea), eb), OnTree(OnTree(t, eb), ea);
    assert forall i :: i in ab <==> i in ba;
  }

  // Two tasks of one scan commute, whether they succeed or fail.
  lemma Commute(env: Env, local: Local, w: World, a: Job, b: Job)
    requires DistinctCachedIds(w.cache) && Ready(env, w, a) && Ready(env, w, b) && Independent(a, b)
    ensures Step(env, local, Step(env, local, w, a), b) == Step(env, local, Step(env, local, w, b), a)
  {
    var ea, eb := Plan(env, local, w, a), Plan(env, local, w, b);
    PlanConfined(env, local, w, a);
    PlanConfined(env, local, w, b);
    StepIsPlan(env, local, w, a);
    StepIsPlan(env, local, w, b);
    StepIsPlan(env, local, Apply(w, ea), b);
    StepIsPlan(env, local, Apply(w, eb), a);
    PlanStable(env, local, w, b, a, ea);
    PlanStable(env, local, w, a, b, eb);
    EffectsCommute(env, w, a, b, ea, eb);
  }

  lemma StepKeepsReady(env: Env, local: Local, w: World, a: Job, b: Job)
    requires DistinctCachedIds(w.cache) && Ready(env, w, a) && Ready(env, w, b) && a.newId != b.newId
    ensures DistinctCachedIds(Step(env, local, w, a).cache) && Ready(env, Step(env, local, w, a), b)
  {
    StepIsPlan(env, local, w, a);
    PlanConfined(env, local, w, a);
  }

  // ---- Whole batches -------------------------------------------------------

  ghost predicate Batch(env: Env, w: World, jobs: seq<Job>) {
    && DistinctCachedIds(w.cache)
    && (forall i | 0 <= i < |jobs| :: Ready(env, w, jobs[i]))
    && (forall i, j | 0 <= i < |jobs| && 0 <= j < |jobs| && i != j :: Independent(jobs[i], jobs[j]))
  }

  function Drain(env: Env, local: Local, w: World, jobs: seq<Job>): World
    requires forall i | 0 <= i < |jobs| :: TaskPaths(jobs[i].task)
    decreases |jobs|
  {
    if jobs == [] then w else Drain(env, local, Step(env, local, w, jobs[0]), jobs[1..])
  }

  lemma BatchTail(env: Env, local: Local, w: World, jobs: seq<Job>)
    requires Batch(env, w, jobs) && jobs != []
    ensures TaskPaths(jobs[0].task)
    ensures Batch(env, Step(env, local, w, jobs[0]), jobs[1..])
  {
    assert Ready(env, w, jobs[0]);
    forall i | 0 <= i < |jobs| - 1 ensures Ready(env, Step(env, local, w, jobs[0]), jobs[1..][i]) {
      assert Ready(env, w, jobs[i + 1]) && Independent(jobs[0], jobs[i + 1]);
      StepKeepsReady(env, local, w, jobs[0], jobs[i + 1]);
    }
    forall i, j | 0 <= i < |jobs| - 1 && 0 <= j < |jobs| - 1 && i != j ensures Independent(jobs[1..][i], jobs[1..][j]) {
      assert Independent(jobs[i + 1], jobs[j + 1]);
    }
    assert DistinctCachedIds(Step(env, local, w, jobs[0]).cache) by {
      StepIsPlan(env, local, w, jobs[0]);
      PlanConfined(env, local, w, jobs[0]);
    }
  }

  function Without(jobs: seq<Job>, k: nat): seq<Job>
    requires k < |jobs|
  {
    jobs[..k] + jobs[k + 1..]
  }

  lemma BatchWithout(env: Env, w: World, jobs: seq<Job>, k: nat)
    requires Batch(env, w, jobs) && k < |jobs|
    ensures Batch(env, w, [jobs[k]] + Without(jobs, k))
  {
    var js := [jobs[k]] + Without(jobs, k);
    var at := (i: nat) => if i == 0 then k else if i <= k then i - 1 else i;
    assert forall i: nat | i < |js| :: js[i] == jobs[at(i)];
    forall i: nat, j: nat | i < |js| && j < |js| && i != j ensures Independent(js[i], js[j]) {
      assert at(i) != at(j);
      assert js[i] == jobs[at(i)] && js[j] == jobs[at(j)];
    }
  }

  // Any job of the batch may be handled first.
  lemma {:induction false} BringToFront(env: Env, local: Local, w: World, jobs: seq<Job>, k: nat)
    requires Batch(env, w, jobs) && k < |jobs|
    ensures Drain(env, local, w, jobs) == Drain(env, local, Step(env, local, w, jobs[k]), Without(jobs, k))
    decreases |jobs|
  {
    if k == 0 {
      assert Without(jobs, 0) == jobs[1..];
    } else {
      var a, b := jobs[0], jobs[k];
      BatchTail(env, local, w, jobs);
      BringToFront(env, local, Step(env, local, w, a), jobs[1..], k - 1);
      assert Independent(a, b) && Ready(env, w, a) && Ready(env, w, b);
      Commute(env, local, w, a, b);
      assert Without(jobs, k)[1..] == Without(jobs[1..], k - 1);
    }
  }

  lemma WithoutBag(jobs: seq<Job>, k: nat)
    requires k < |jobs|
    ensures multiset(jobs) == multiset(Without(jobs, k)) + multiset{jobs[k]}
  {
    assert jobs == jobs[..k] + [jobs[k]] + jobs[k + 1..];
  }

  lemma TailBag(jobs: seq<Job>)
    requires jobs != []
    ensures multiset(jobs) == multiset(jobs[1..]) + multiset{jobs[0]}
  {
    assert jobs == [jobs[0]] + jobs[1..];
  }

  lemma SameRest(a: multiset<Job>, b: multiset<Job>, j: Job)
    requires a + multiset{j} == b + multiset{j}
    ensures a == b
  {
    assert (a + multiset{j}) - multiset{j} == a && (b + multiset{j}) - multiset{j} == b;
  }

  lemma FindFirst(jobs: seq<Job>, other: seq<Job>) returns (k: nat)
    requires multiset(jobs) == multiset(other) && other != []
    ensures k < |jobs| && jobs[k] == other[0]
    ensures multiset(Without(jobs, k)) == multiset(other[1..])
  {
    TailBag(other);
    assert other[0] in multiset(jobs);
    k :| 0 <= k < |jobs| && jobs[k] == other[0];
    WithoutBag(jobs, k);
    SameRest(multiset(Without(jobs, k)), multiset(other[1..]), other[0]);
  }

  lemma DrainFirst(env: Env, local: Local, w: World, jobs: seq<Job>, k: nat)
    requires Batch(env, w, jobs) && k < |jobs|
    ensures TaskPaths(jobs[k].task) && Batch(env, Step(env, local, w, jobs[k]), Without(jobs, k))
    ensures Drain(env, local, w, jobs) == Drain(env, local, Step(env, local, w, jobs[k]), Without(jobs, k))
  {
    BringToFront(env, local, w, jobs, k);
    BatchWithout(env, w, jobs, k);
    var js := [jobs[k]] + Without(jobs, k);
    BatchTail(env, local, w, js);
    assert js[0] == jobs[k] && js[1..] == Without(jobs, k);
  }

  // However the same jobs are ordered, the remote tree, the cache and the
  // database end up the same.
  lemma {:induction false} AnyOrder(env: Env, local: Local, w: World, jobs: seq<Job>, other: seq<Job>)
    requires Batch(env, w, jobs) && multiset(jobs) == multiset(other)
    requires forall i | 0 <= i < |other| :: TaskPaths(other[i].task)
    ensures Drain(env, local, w, jobs) == Drain(env, local, w, other)
    decreases |other|
  {
    if other == [] {
      assert |multiset(jobs)| == 0;
    } else {
      var k := FindFirst(jobs, other);
      DrainFirst(env, local, w, jobs, k);
      AnyOrder(env, local, Step(env, local, w, jobs[k]), Without(jobs, k), other[1..]);
    }
  }

  // ---- What a batch does to a node ------------------------------------------

  function Planned(env: Env, local: Local, w: World, job: Job): Effect
    requires TaskPaths(job.task)
  {
    if job.task.Rename? then Nothing else Plan(env, local, w, job)
  }

  predicate OnNode(e: Effect, id: Id) {
    (e.Put? || e.Drop?) && e.id == id
  }

  lemma PlansApart(env: Env, local: Local, w: World, a: Job, b: Job, id: Id)
    requires DistinctCachedIds(w.cache) && Ready(env, w, a) && Ready(env, w, b) && Independent(a, b)
    requires OnNode(Plan(env, local, w, a), id)
    ensures !OnNode(Plan(env, local, w, b), id)
  {
    PlanConfined(env, local, w, a);
    PlanConfined(env, local, w, b);
    ApartFacts(TargetPath(a.task), TargetPath(b.task));
  }

  lemma TailPlans(env: Env, local: Local, w: World, jobs: seq<Job>, k: nat)
    requires Batch(env, w, jobs) && 0 < k < |jobs|
    ensures TaskPaths(jobs[0].task) && TaskPaths(jobs[k].task)
    ensures Planned(env, local, Step(env, local, w, jobs[0]), jobs[k]) == Planned(env, local, w, jobs[k])
  {
    assert Ready(env, w, jobs[0]) && Ready(env, w, jobs[k]) && Independent(jobs[k], jobs[0]);
    StepIsPlan(env, local, w, jobs[0]);
    PlanConfined(env, local, w, jobs[0]);
    PlanStable(env, local, w, jobs[k], jobs[0], Plan(env, local, w, jobs[0]));
  }

  // A batch does to every node what its jobs plan at the start: a node no job plans
  // for stays as it was, ...
  lemma {:induction false} UnplannedNodeStays(env: Env, local: Local, w: World, jobs: seq<Job>, id: Id)
    requires Batch(env, w, jobs)
    requires forall k | 0 <= k < |jobs| :: TaskPaths(jobs[k].task) && !OnNode(Planned(env, local, w, jobs[k]), id)
    ensures Get(Drain(env, local, w, jobs).tree, id) == Get(w.tree, id)
    decreases |jobs|
  {
    if jobs != [] {
      var w1 := Step(env, local, w, jobs[0]);
      assert Ready(env, w, jobs[0]) && !OnNode(Planned(env, local, w, jobs[0]), id);
      StepIsPlan(env, local, w, jobs[0]);
      BatchTail(env, local, w, jobs);
      forall k | 0 <= k < |jobs| - 1
        ensures TaskPaths(jobs[1..][k].task) && !OnNode(Planned(env, local, w1, jobs[1..][k]), id)
      {
        TailPlans(env, local, w, jobs, k + 1);
        assert !OnNode(Planned(env, local, w, jobs[k + 1]), id);
      }
      UnplannedNodeStays(env, local, w1, jobs[1..], id);
    }
  }

  // ... and one that a job plans for is at the end what this job planned.
  lemma {:induction false} PlannedNode(env: Env, local: Local, w: World, jobs: seq<Job>, k: nat, id: Id)
    requires Batch(env, w, jobs) && k < |jobs| && TaskPaths(jobs[k].task)
    requires OnNode(Planned(env, local, w, jobs[k]), id)
    ensures forall i | 0 <= i < |jobs| :: TaskPaths(jobs[i].task)
    ensures Get(Drain(env, local, w, jobs).tree, id) == Get(OnTree(w.tree, Planned(env, local, w, jobs[k])), id)
    decreases |jobs|
  {
    forall i | 0 <= i < |jobs| ensures TaskPaths(jobs[i].task) {
      assert Ready(env, w, jobs[i]);
    }
    var w1 := Step(env, local, w, jobs[0]);
    assert Ready(env, w, jobs[0]) && Ready(env, w, jobs[k]);
    StepIsPlan(env, local, w, jobs[0]);
    BatchTail(env, local, w, jobs);
    if k == 0 {
      forall i | 0 <= i < |jobs| - 1
        ensures TaskPaths(jobs[1..][i].task) && !OnNode(Planned(env, local, w1, jobs[1..][i]), id)
      {
        TailPlans(env, local, w, jobs, i + 1);
        assert Ready(env, w, jobs[i + 1]) && Independent(jobs[0], jobs[i + 1]);
        PlansApart(env, local, w, jobs[0], jobs[i + 1], id);
      }
      UnplannedNodeStays(env, local, w1, jobs[1..], id);
    } else {
      TailPlans(env, local, w, jobs, k);
      assert Independent(jobs[k], jobs[0]);
      PlansApart(env, local, w, jobs[k], jobs[0], id);
      assert jobs[1..][k - 1] == jobs[k];
      PlannedNode(env, local, w1, jobs[1..], k - 1, id);
      assert Get(w1.tree, id) == Get(w.tree, id);
    }
  }
}
