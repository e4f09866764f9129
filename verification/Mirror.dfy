// A whole round: one scan, then its tasks, handled one by one in any order.
module Mirror {
  import opened Paths
  import opened RemoteTree
  import opened PathCaching
  import opened Reconcile
  import opened Agreement
  import opened Confluence
  import opened Persistence
  import opened Providers
  import opened EngineContexts
  import opened Worker
  import opened Listing
  import opened Decisions
  import opened Scan
  import opened Convergence
  import opened StaleCache

  lemma TasksCanonical(r: Round, task: Task)
    requires InventoryOf(r.env, r.local, r.walk) && WellFormed(r.start.tree, r.env.root)
    requires Complete(r) || r.index == RemoteIndex([], [])
    requires AsSet(r.rows) == r.start.db.Keys && forall p | p in r.start.db :: p != [] && Canonical(p)
    requires task in TasksOf(Decided(r))
    ensures TaskPaths(task)
  {
    var p := TargetPath(task);
    TaskMembership(Decided(r), task);
    UploadFacts(r, p);
    DbOrphanFacts(r, p);
    RemoteOrphanFacts(r, p);
    if RemoteFile(r.start.tree, r.env.root, p) {
      var id :| At(r.start.tree, r.env.root, p, id) && id in r.start.tree && r.start.tree[id].body.File?;
      AtCanonical(r.start.tree, r.env.root, p, id);
    }
  }

  lemma {:induction false} DrainNext(env: Env, local: Local, w: World, jobs: seq<Job>, job: Job)
    requires forall i | 0 <= i < |jobs| :: TaskPaths(jobs[i].task)
    requires TaskPaths(job.task)
    ensures forall i | 0 <= i < |jobs + [job]| :: TaskPaths((jobs + [job])[i].task)
    ensures Drain(env, local, w, jobs + [job]) == Step(env, local, Drain(env, local, w, jobs), job)
    decreases |jobs|
  {
    var all := jobs + [job];
    if jobs == [] {
      assert all == [job] && all[1..] == [];
    } else {
      DrainNext(env, local, Step(env, local, w, jobs[0]), jobs[1..], job);
      assert all[1..] == jobs[1..] + [job];
    }
  }

  // The jobs handled so far: they lead from w1 to w, the ids they used are new and
  // all different, and with the tasks still queued they are the tasks of the scan.
  ghost predicate HandledSoFar(env: Env, local: Local, w1: World, low: nat, tasks: seq<Task>,
                               jobs: seq<Job>, high: nat, queue: seq<Task>, w: World)
  {
    && (forall i | 0 <= i < |jobs| :: TaskPaths(jobs[i].task) && Verified(env, local, jobs[i]))
    && (forall i | 0 <= i < |jobs| :: IdBetween(low, jobs[i].newId, high - 1))
    && (forall i, j | 0 <= i < j < |jobs| :: jobs[i].newId != jobs[j].newId)
    && multiset(Tasks(jobs)) + multiset(queue) == multiset(tasks)
    && w == Drain(env, local, w1, jobs)
  }

  lemma HandledNext(env: Env, local: Local, w1: World, low: nat, tasks: seq<Task>, jobs: seq<Job>, mid: nat,
                    queue: seq<Task>, k: nat, w: World, job: Job, high: nat, w': World)
    requires HandledSoFar(env, local, w1, low, tasks, jobs, mid, queue, w)
    requires k < |queue| && job.task == queue[k] && TaskPaths(job.task) && Verified(env, local, job)
    requires low <= mid && IdBetween(mid, job.newId, high - 1) && Execute(env, local, w, job).world == w'
    ensures HandledSoFar(env, local, w1, low, tasks, jobs + [job], high, queue[..k] + queue[k + 1..], w')
  {
    DrainNext(env, local, w1, jobs, job);
    BagNext(jobs, job, queue, k);
  }

  lemma BagNext(jobs: seq<Job>, job: Job, queue: seq<Task>, k: nat)
    requires k < |queue| && job.task == queue[k]
    ensures multiset(Tasks(jobs + [job])) + multiset(queue[..k] + queue[k + 1..])
         == multiset(Tasks(jobs)) + multiset(queue)
  {
    assert Tasks(jobs + [job]) == Tasks(jobs) + [job.task];
    assert queue == queue[..k] + [queue[k]] + queue[k + 1..];
  }

  lemma HandledAll(env: Env, local: Local, w1: World, low: nat, tasks: seq<Task>, jobs: seq<Job>, high: nat, w: World)
    requires HandledSoFar(env, local, w1, low, tasks, jobs, high, [], w)
    requires forall n: nat | low <= n :: Fresh(w1.tree, env.root, Drive(n))
    ensures Handles(env, local, w1, tasks, jobs)
  {
    assert multiset(Tasks(jobs)) + multiset{} == multiset(Tasks(jobs));
    forall i | 0 <= i < |jobs| ensures Fresh(w1.tree, env.root, jobs[i].newId) {
      assert IdBetween(low, jobs[i].newId, high - 1) && jobs[i].newId == Drive(jobs[i].newId.n);
    }
  }

  // The job as it is specified: with the bytes an accepted upload stores.
  function AsAsked(local: Local, job: Job): Job {
    var p := SyncedPath(job.task);
    if p.Some? && IsFile(local, p.value) then job.(stored := local[p.value].content) else job
  }

  // Handles everything in the channel, in any order; a task that fails is given up
  // and the next one taken. `specified`: each task finished, or failed where that is
  // what it is specified to do, such as an upload to an id that is gone.
  method HandleQueue(ctx: EngineContext, channel: TaskChannel, local: Local)
    returns (done: bool, ghost specified: bool, ghost jobs: seq<Job>)
    requires ctx.Valid() && !ctx.dryRun && LocalTree(local)
    requires forall task | task in channel.queue :: TaskPaths(task)
    modifies ctx.provider, ctx.cache, ctx.db`fileIndex, ctx.shutdown, channel`queue
    ensures ctx.Valid() && channel.queue == [] && (done ==> specified)
    ensures specified ==>
              && Handles(ctx.env, local, old(ctx.View()), old(channel.queue), jobs)
              && (forall i | 0 <= i < |jobs| :: TaskPaths(jobs[i].task))
              && (forall i | 0 <= i < |jobs| :: jobs[i].newId.Drive? && jobs[i].newId.n >= old(ctx.provider.nextId))
              && ctx.View() == Drain(ctx.env, local, old(ctx.View()), jobs)
  {
    ghost var w1, low, tasks := ctx.View(), ctx.provider.nextId, channel.queue;
    done, specified, jobs := true, true, [];
    while channel.queue != []
      invariant ctx.Valid() && low <= ctx.provider.nextId && (done ==> specified)
      invariant forall task | task in channel.queue :: TaskPaths(task)
      invariant specified ==>
                  HandledSoFar(ctx.env, local, w1, low, tasks, jobs, ctx.provider.nextId, channel.queue, ctx.View())
      decreases |channel.queue|
    {
      var k :| 0 <= k < |channel.queue|;
      ghost var queue, mid, w := channel.queue, ctx.provider.nextId, ctx.View();
      var task := channel.queue[k];
      channel.queue := channel.queue[..k] + channel.queue[k + 1..];
      ghost var job;
      var r;
      r, job := HandleTask(ctx, local, task);
      if r != Finished {
        done := false;
        job := AsAsked(local, job);
        specified := specified && Verified(ctx.env, local, job) && Execute(ctx.env, local, w, job).world == ctx.View();
      }
      if specified {
        HandledNext(ctx.env, local, w1, low, tasks, jobs, mid, queue, k, w, job, ctx.provider.nextId, ctx.View());
      }
      jobs := jobs + [job];
    }
    if specified {
      HandledAll(ctx.env, local, w1, low, tasks, jobs, ctx.provider.nextId, ctx.View());
    }
  }

  // What a round may start from: a tree the walk enumerates, rows and views that
  // agree on what is a file, and a cache whose stale entries have dead ids. Every
  // cached id was once given out by the provider.
  ghost predicate Startable(env: Env, local: Local, walk: seq<Path>, rows: seq<Path>, w: World, nextId: nat) {
    && InventoryOf(env, local, walk) && WellFormed(w.tree, env.root)
    && NoRepeats(rows) && AsSet(rows) == w.db.Keys && (forall p | p in w.db :: p != [] && Canonical(p))
    && KindsAgree(local, w.tree, env.root, w.db)
    && (forall p | p in w.cache ::
          && p != [] && w.cache[p].driveId.Drive? && w.cache[p].driveId.n < nextId
          && ((exists id :: At(w.tree, env.root, p, id)) || Dead(w.tree, env.root, w.cache[p].driveId)))
  }

  lemma ScanLeavesTasks(r: Round, before: seq<Task>, capacity: nat, after: seq<Task>, nextId: nat)
    requires Startable(r.env, r.local, r.walk, r.rows, r.start, nextId)
    requires Complete(r) || r.index == RemoteIndex([], [])
    requires before == [] && Offered(capacity, before, TasksOf(Decided(r)), false, Done, after)
    ensures Views(r) && after == TasksOf(Decided(r))
    ensures forall task | task in after :: TaskPaths(task)
  {
    forall task | task in TasksOf(Decided(r)) ensures TaskPaths(task) {
      TasksCanonical(r, task);
    }
  }

  // The scan of a round, whose tasks are then all in the channel.
  method ScanOnce(ctx: EngineContext, channel: TaskChannel, local: Local, walk: seq<Path>, rows: seq<Path>,
                  order: ChildOrder, stalls: nat, refuse: nat -> bool)
    returns (end: ScanEnd, ghost r: Round)
    requires ctx.Valid() && !ctx.dryRun && channel.queue == []
    requires Startable(ctx.env, local, walk, rows, ctx.View(), ctx.provider.nextId)
    requires Lists(ctx.provider.tree, ctx.env.root, order)
    modifies ctx.cache, ctx.provider, ctx.db`fileIndex, ctx.shutdown, channel
    ensures ctx.Valid() && ctx.provider.nextId >= old(ctx.provider.nextId)
    ensures NewIds(old(ctx.provider.tree), old(ctx.provider.nextId), ctx.provider.tree)
    ensures r.env == ctx.env && r.local == local && r.start == old(ctx.View()) && r.scanned == ctx.View()
    ensures (forall k :: !refuse(k)) ==> Complete(r)
    ensures Startable(r.env, r.local, r.walk, r.rows, r.start, old(ctx.provider.nextId))
    ensures end == Done ==>
              && Views(r) && Scanned(r.env, false, r.local, r.walk, r.rows, r.start, r.index, r.scanned)
              && channel.queue == TasksOf(Decided(r)) && forall task | task in channel.queue :: TaskPaths(task)
  {
    ghost var w, low := ctx.View(), ctx.provider.nextId;
    var report, index, listed;
    end, report, index, listed := Run(ctx, channel, local, walk, rows, order, stalls, refuse);
    r := Round(ctx.env, local, walk, rows, w, index, ctx.View(), [], ctx.View());
    if end == Done {
      ScanLeavesTasks(r, [], channel.capacity, channel.queue, low);
    }
  }

  // What convergence assumes beyond a round carried out.
  ghost predicate Trustworthy(r: Round) {
    && IgnoreClosed(r.env) && DbSound(r.env, r.start.(cache := ListedCache(r)))
    && HonestTimes(r.env, r.local, r.start.db)
  }

  // The cache was good to start from: nothing stale, or in agreement where the
  // listing failed.
  ghost predicate GoodCache(r: Round) {
    if Complete(r) then NothingStale(r.start.cache, r.start.tree, r.env.root)
    else Agrees(r.start.cache, r.start.tree, r.env.root)
  }

  // One scan and its tasks, all of them tried. With a good cache, true rows and honest
  // times this converges if all is done. With stale entries, after a complete listing,
  // exactly the files below them are missing as well.
  method Mirror(ctx: EngineContext, channel: TaskChannel, local: Local, walk: seq<Path>, rows: seq<Path>,
                order: ChildOrder, stalls: nat, refuse: nat -> bool)
    returns (done: bool, ghost specified: bool, ghost r: Round)
    requires ctx.Valid() && !ctx.dryRun && channel.queue == []
    requires Startable(ctx.env, local, walk, rows, ctx.View(), ctx.provider.nextId)
    requires Lists(ctx.provider.tree, ctx.env.root, order)
    modifies ctx.cache, ctx.provider, ctx.db`fileIndex, ctx.shutdown, channel
    ensures ctx.Valid() && (done ==> specified)
    ensures r.env == ctx.env && r.local == local && r.start == old(ctx.View()) && r.end == ctx.View()
    ensures (forall k :: !refuse(k)) ==> Complete(r)
    ensures specified && GoodCache(r) ==> Reconciled(r) && (Trustworthy(r) ==> Converged(r))
    ensures specified && Complete(r) ==> StaleRound(r) && ConvergedUnlessStale(r)
  {
    ghost var low := ctx.provider.nextId;
    var end;
    end, r := ScanOnce(ctx, channel, local, walk, rows, order, stalls, refuse);
    if end == Done {
      done, specified, r := HandleRound(ctx, channel, local, r, low);
      if specified {
        RoundEnd(r, low);
      }
    } else {
      done, specified, r := false, false, r.(end := ctx.View());
    }
  }

  // The tasks of a scan that is finished.
  method HandleRound(ctx: EngineContext, channel: TaskChannel, local: Local, ghost scan: Round, ghost low: nat)
    returns (done: bool, ghost specified: bool, ghost r: Round)
    requires ctx.Valid() && !ctx.dryRun && low <= ctx.provider.nextId
    requires scan.env == ctx.env && scan.local == local && scan.scanned == ctx.View()
    requires Views(scan)
    requires Scanned(scan.env, false, local, scan.walk, scan.rows, scan.start, scan.index, scan.scanned)
    requires channel.queue == TasksOf(Decided(scan)) && forall task | task in channel.queue :: TaskPaths(task)
    modifies ctx.provider, ctx.cache, ctx.db`fileIndex, ctx.shutdown, channel`queue
    ensures ctx.Valid() && (done ==> specified)
    ensures r == scan.(jobs := r.jobs, end := ctx.View()) && Complete(r) == Complete(scan)
    ensures specified ==>
              && Handled(r)
              && forall i | 0 <= i < |r.jobs| :: r.jobs[i].newId.Drive? && r.jobs[i].newId.n >= low
  {
    ghost var jobs;
    done, specified, jobs := HandleQueue(ctx, channel, local);
    HandledIfSpecified(scan, specified, jobs, ctx.View());
    r := scan.(jobs := jobs, end := ctx.View());
  }

  // What is known of a round once its tasks are handled.
  lemma RoundEnd(r: Round, low: nat)
    requires Startable(r.env, r.local, r.walk, r.rows, r.start, low) && Handled(r)
    requires NewIds(r.start.tree, low, r.scanned.tree)
    requires forall i | 0 <= i < |r.jobs| :: r.jobs[i].newId.Drive? && r.jobs[i].newId.n >= low
    ensures GoodCache(r) ==> Reconciled(r) && (Trustworthy(r) ==> Converged(r))
    ensures Complete(r) ==> StaleRound(r) && ConvergedUnlessStale(r)
  {
    if GoodCache(r) {
      RoundReconciled(r, low);
      if Trustworthy(r) {
        Converges(r);
      }
    }
    if Complete(r) {
      RoundStale(r, low);
      RoundConvergesUnlessStale(r);
    }
  }

  lemma HandledIfSpecified(r: Round, specified: bool, jobs: seq<Job>, end: World)
    requires Views(r) && Scanned(r.env, false, r.local, r.walk, r.rows, r.start, r.index, r.scanned)
    requires specified ==>
               && Handles(r.env, r.local, r.scanned, TasksOf(Decided(r)), jobs)
               && (forall i | 0 <= i < |jobs| :: TaskPaths(jobs[i].task))
               && end == Drain(r.env, r.local, r.scanned, jobs)
    ensures specified ==> Handled(r.(jobs := jobs, end := end))
    ensures Complete(r.(jobs := jobs, end := end)) == Complete(r)
  {
    SameScan(r, jobs, end);
  }

  lemma SameScan(r: Round, jobs: seq<Job>, end: World)
    requires Views(r)
    ensures var r' := r.(jobs := jobs, end := end);
            Views(r') && Decided(r') == Decided(r) && Complete(r') == Complete(r)
  {
    assert Complete(r.(jobs := jobs, end := end)) == Complete(r);
  }

  ghost predicate Handled(r: Round) {
    && Views(r) && Scanned(r.env, false, r.local, r.walk, r.rows, r.start, r.index, r.scanned)
    && Handles(r.env, r.local, r.scanned, TasksOf(Decided(r)), r.jobs)
    && (forall i | 0 <= i < |r.jobs| :: TaskPaths(r.jobs[i].task))
    && r.end == Drain(r.env, r.local, r.scanned, r.jobs)
  }

  lemma RoundReconciled(r: Round, low: nat)
    requires Handled(r) && GoodCache(r) && Startable(r.env, r.local, r.walk, r.rows, r.start, low)
    ensures Reconciled(r)
  {
  }

  lemma RoundStale(r: Round, low: nat)
    requires Handled(r) && Complete(r) && Startable(r.env, r.local, r.walk, r.rows, r.start, low)
    requires NewIds(r.start.tree, low, r.scanned.tree)
    requires forall i | 0 <= i < |r.jobs| :: r.jobs[i].newId.Drive? && r.jobs[i].newId.n >= low
    ensures StaleRound(r)
  {
  }
}
