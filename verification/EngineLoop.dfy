// The engine loop: pause, resume, rescans, offline periods, and the hand-over of
// tasks to the workers. One label is one arm of a `select!` being taken.
module EngineLoop {
  import opened PathCaching
  import opened Reconcile

  const CHANNEL_CAPACITY := 1024

  // `Scanning` reads commands while it runs; the scan of the rescan timer
  // (`TimedScan`) and a flush, with so many tasks still to send, do not. `Spawning`
  // waits for a worker permit.
  datatype Phase =
    | InitialScan | Waiting | Scanning | TimedScan | Flushing(todo: nat) | Spawning(task: Task) | Ended

  datatype Engine = Engine(
    phase: Phase, paused: bool, rescanOnResume: bool, offline: bool,
    queue: seq<Task>, permits: nat, active: nat,
    accepted: seq<Task>, taken: seq<Task>)

  datatype Command =
    | ForceScan | Shutdown | Pause | Resume | OpenSettings | OpenHelp
    | ApplyConfig(valid: bool, rootChanged: bool)

  datatype ScanResult = ScanOk | ScanShutdown | ScanError

  // `Enqueue` is a send of a scan or of the dispatcher, `FlushSend` one of a flush,
  // which ends with an error if the row of the task cannot be removed. The health
  // check tells how many tasks the offline queue holds, if it can be read.
  datatype Label =
    | Cmd(command: Command) | ScanEnds(result: ScanResult) | RescanTick
    | Health(reachable: bool, offlineTasks: Option<nat>) | FlushSend(sent: Task, removed: bool) | FlushEnds
    | Enqueue(task: Task) | Take | Spawn | TaskEnds | Cancelled

  function Start(maxWorkers: nat): Engine {
    Engine(InitialScan, false, false, false, [], if maxWorkers == 0 then 1 else maxWorkers, 0, [], [])
  }

  function PausedForRescan(s: Engine): Engine {
    s.(phase := Waiting, paused := true, rescanOnResume := true)
  }

  function CommandDuringInitialScan(s: Engine, c: Command): Engine {
    match c
    case Pause => PausedForRescan(s)
    case OpenSettings => PausedForRescan(s)
    case OpenHelp => PausedForRescan(s)
    case Shutdown => s.(phase := Ended)
    case _ => s
  }

  // Opening the help is one of the commands a running scan ignores.
  function CommandDuringScan(s: Engine, c: Command): Engine {
    match c
    case Pause => PausedForRescan(s)
    case OpenSettings => PausedForRescan(s)
    case Shutdown => s.(phase := Ended)
    case _ => s
  }

  function CommandWhilePaused(s: Engine, c: Command): Engine {
    match c
    case Resume =>
      if s.rescanOnResume && !s.offline
      then s.(paused := false, rescanOnResume := false, phase := Scanning)
      else s.(paused := false)
    case Shutdown => s.(phase := Ended)
    case ApplyConfig(valid, _) => if valid then s.(rescanOnResume := true) else s.(phase := Ended)
    case _ => s
  }

  function CommandWhileRunning(s: Engine, c: Command): Engine {
    match c
    case Shutdown => s.(phase := Ended)
    case Pause => s.(paused := true)
    case OpenSettings => s.(paused := true)
    case OpenHelp => s.(paused := true)
    case Resume => s
    case ForceScan => if s.offline then s else s.(phase := Scanning)
    case ApplyConfig(valid, rootChanged) =>
      if !valid then s.(phase := Ended)
      else if rootChanged && !s.offline then s.(phase := Scanning)
      else s
  }

  function OnCommand(s: Engine, c: Command): Option<Engine> {
    match s.phase
    case InitialScan => Some(CommandDuringInitialScan(s, c))
    case Scanning => Some(CommandDuringScan(s, c))
    case Waiting => Some(if s.paused then CommandWhilePaused(s, c) else CommandWhileRunning(s, c))
    case _ => None
  }

  // The state after a label, or nothing if its arm cannot be taken now.
  function Next(s: Engine, l: Label): Option<Engine> {
    if s.phase.Ended? then None
    else
      match l
      case Cmd(c) => OnCommand(s, c)
      case ScanEnds(r) =>
        if s.phase.InitialScan? then
          match r
          case ScanOk => Some(s.(phase := Waiting))
          case ScanShutdown => Some(s.(phase := Ended))
          case ScanError => Some(s.(phase := Waiting, offline := true))
        else if s.phase.Scanning? || s.phase.TimedScan? then
          Some(s.(phase := if r == ScanShutdown then Ended else Waiting))
        else None
      case Health(reachable, offlineTasks) =>
        if !s.phase.Waiting? || s.paused then None
        else if !reachable then Some(s.(offline := true))
        else if s.offline && offlineTasks.Some? then Some(s.(offline := false, phase := Flushing(offlineTasks.value)))
        else Some(s.(offline := false))
      case FlushSend(t, removed) =>
        if !s.phase.Flushing? || s.phase.todo == 0 || |s.queue| >= CHANNEL_CAPACITY then None
        else Some(s.(phase := if removed then Flushing(s.phase.todo - 1) else Waiting,
                     queue := s.queue + [t], accepted := s.accepted + [t]))
      case FlushEnds => if s.phase == Flushing(0) then Some(s.(phase := Waiting)) else None
      case RescanTick =>
        if !s.phase.Waiting? || s.paused then None
        else if s.offline then Some(s)
        else Some(s.(phase := TimedScan))
      case Enqueue(t) =>
        if |s.queue| >= CHANNEL_CAPACITY then None
        else Some(s.(queue := s.queue + [t], accepted := s.accepted + [t]))
      case Take =>
        if !s.phase.Waiting? || s.paused || s.queue == [] then None
        else Some(s.(phase := Spawning(s.queue[0]), queue := s.queue[1..], taken := s.taken + [s.queue[0]]))
      case Spawn =>
        if !s.phase.Spawning? || s.permits == 0 then None
        else Some(s.(phase := Waiting, permits := s.permits - 1, active := s.active + 1))
      case TaskEnds =>
        if s.active == 0 then None else Some(s.(permits := s.permits + 1, active := s.active - 1))
      case Cancelled => if s.phase.Flushing? then None else Some(s.(phase := Ended))
  }

  // ---- Runs ----------------------------------------------------------------

  // The labels of a run of the engine, and the states before and after each.
  ghost predicate IsRun(maxWorkers: nat, labels: seq<Label>, states: seq<Engine>) {
    && |states| == |labels| + 1
    && states[0] == Start(maxWorkers)
    && forall k | 0 <= k < |labels| :: Next(states[k], labels[k]) == Some(states[k + 1])
  }

  ghost predicate Inv(maxWorkers: nat, s: Engine) {
    && s.active + s.permits == (if maxWorkers == 0 then 1 else maxWorkers)
    && (s.paused ==> s.phase.Waiting? || s.phase.Ended?)
    && s.taken + s.queue == s.accepted
    && |s.queue| <= CHANNEL_CAPACITY
  }

  lemma NextInv(maxWorkers: nat, s: Engine, l: Label)
    requires Inv(maxWorkers, s) && Next(s, l).Some?
    ensures Inv(maxWorkers, Next(s, l).value)
  {
    if l.Take? {
      assert s.taken + s.queue == (s.taken + [s.queue[0]]) + s.queue[1..];
    }
    if l.Enqueue? {
      assert s.taken + (s.queue + [l.task]) == (s.taken + s.queue) + [l.task];
    }
    if l.FlushSend? {
      assert s.taken + (s.queue + [l.sent]) == (s.taken + s.queue) + [l.sent];
    }
  }

  // In every state of every run: tasks are taken in the order in which they were
  // accepted, none lost and none twice; at most max(1, max_workers) of them are
  // being executed; and a paused engine only waits for commands.
  lemma {:induction false} RunInv(maxWorkers: nat, labels: seq<Label>, states: seq<Engine>, i: nat)
    requires IsRun(maxWorkers, labels, states) && i < |states|
    ensures Inv(maxWorkers, states[i])
  {
    if i > 0 {
      RunInv(maxWorkers, labels, states, i - 1);
      assert Next(states[i - 1], labels[i - 1]) == Some(states[i]);
      NextInv(maxWorkers, states[i - 1], labels[i - 1]);
    }
  }

  // ---- Owed rescans --------------------------------------------------------

  // The flag is given up exactly when a paused engine is resumed online, and its
  // scan then runs.
  lemma FlagIsSpentOnAScan(s: Engine, l: Label)
    requires s.rescanOnResume && Next(s, l).Some?
    ensures var s' := Next(s, l).value;
            && (!s'.rescanOnResume <==> l == Cmd(Resume) && s.phase.Waiting? && s.paused && !s.offline)
            && (!s'.rescanOnResume ==> s'.phase.Scanning?)
  {
  }

  ghost predicate ScanOwed(s: Engine) {
    s.rescanOnResume || s.phase.Scanning? || s.phase.Ended?
  }

  lemma OwedNext(s: Engine, l: Label)
    requires ScanOwed(s) && !l.ScanEnds? && Next(s, l).Some?
    ensures ScanOwed(Next(s, l).value)
  {
  }

  // Once a rescan is owed it stays owed, or runs, until a scan ends or the engine
  // does, whatever pauses, settings, configurations and offline periods come.
  lemma {:induction false} RescanStaysOwed(maxWorkers: nat, labels: seq<Label>, states: seq<Engine>, i: nat, j: nat)
    requires IsRun(maxWorkers, labels, states) && i <= j < |states|
    requires ScanOwed(states[i])
    requires forall k | i <= k < j :: !labels[k].ScanEnds?
    ensures ScanOwed(states[j])
  {
    if i < j {
      RescanStaysOwed(maxWorkers, labels, states, i, j - 1);
      assert Next(states[j - 1], labels[j - 1]) == Some(states[j]);
      OwedNext(states[j - 1], labels[j - 1]);
    }
  }

  lemma PausedNext(maxWorkers: nat, s: Engine, l: Label)
    requires Inv(maxWorkers, s) && s.paused && l != Cmd(Resume) && Next(s, l).Some?
    ensures Next(s, l).value.paused && Next(s, l).value.taken == s.taken
  {
  }

  // While the engine is paused no task is taken, until a Resume arrives.
  lemma {:induction false} NothingTakenWhilePaused(
    maxWorkers: nat, labels: seq<Label>, states: seq<Engine>, i: nat, j: nat)
    requires IsRun(maxWorkers, labels, states) && i <= j < |states|
    requires states[i].paused
    requires forall k | i <= k < j :: labels[k] != Cmd(Resume)
    ensures states[j].paused && states[j].taken == states[i].taken
  {
    if i < j {
      NothingTakenWhilePaused(maxWorkers, labels, states, i, j - 1);
      RunInv(maxWorkers, labels, states, j - 1);
      assert Next(states[j - 1], labels[j - 1]) == Some(states[j]);
      PausedNext(maxWorkers, states[j - 1], labels[j - 1]);
    }
  }

  // The rescan is owed although the engine runs: it waits for another pause.
  predicate Waits(s: Engine) {
    s.rescanOnResume && !s.paused && !s.phase.Ended?
  }

  predicate ResumedOffline(s: Engine, l: Label) {
    l == Cmd(Resume) && s.phase.Waiting? && s.paused && s.offline && s.rescanOnResume
  }

  // Waiting begins exactly when an owing engine is resumed offline, and ends exactly
  // with a pause or with the engine; going online, a flush, the timer, a forced scan
  // or a changed configuration do not end it.
  lemma WaitsNext(s: Engine, l: Label)
    requires Next(s, l).Some? && (s.paused ==> s.phase.Waiting? || s.phase.Ended?)
    ensures var s' := Next(s, l).value;
            && (!Waits(s) ==> (Waits(s') <==> ResumedOffline(s, l)))
            && (Waits(s) ==> (!Waits(s') <==> s'.paused || s'.phase.Ended?))
            && (Waits(s) && s'.paused ==> l in {Cmd(Pause), Cmd(OpenSettings), Cmd(OpenHelp)})
  {
  }

  predicate RunningSince(states: seq<Engine>, k: int, i: int)
    requires 0 <= k <= i < |states|
  {
    forall m | k < m <= i :: !states[m].paused && !states[m].phase.Ended?
  }

  ghost predicate OfflineResumeSince(labels: seq<Label>, states: seq<Engine>, k: int, i: int)
    requires |states| == |labels| + 1 && 0 <= i < |states|
  {
    0 <= k < i && ResumedOffline(states[k], labels[k]) && RunningSince(states, k, i)
  }

  lemma SinceNext(labels: seq<Label>, states: seq<Engine>, k: int, i: nat)
    requires |states| == |labels| + 1 && 0 < i < |states|
    ensures OfflineResumeSince(labels, states, k, i) <==>
            && !states[i].paused && !states[i].phase.Ended?
            && (OfflineResumeSince(labels, states, k, i - 1) ||
                (k == i - 1 && ResumedOffline(states[k], labels[k])))
  {
  }

  // In every run: the engine waits exactly if it was once resumed offline while
  // owing the rescan and has not been paused since.
  lemma {:induction false} OwedRescanWaits(maxWorkers: nat, labels: seq<Label>, states: seq<Engine>, i: nat)
    requires IsRun(maxWorkers, labels, states) && i < |states|
    ensures Waits(states[i]) <==> exists k :: OfflineResumeSince(labels, states, k, i)
  {
    if i > 0 {
      OwedRescanWaits(maxWorkers, labels, states, i - 1);
      RunInv(maxWorkers, labels, states, i - 1);
      assert Next(states[i - 1], labels[i - 1]) == Some(states[i]);
      WaitsNext(states[i - 1], labels[i - 1]);
      if k :| OfflineResumeSince(labels, states, k, i) {
        SinceNext(labels, states, k, i);
      }
      if Waits(states[i]) {
        if Waits(states[i - 1]) {
          var k :| OfflineResumeSince(labels, states, k, i - 1);
          SinceNext(labels, states, k, i);
        } else {
          SinceNext(labels, states, i - 1, i);
        }
      }
    }
  }

  // Such runs exist, and the network may be back: the engine is online, running and
  // idle, and the rescan is still owed.
  lemma OwedRescanMayWait()
    ensures exists labels: seq<Label>, states: seq<Engine> ::
              && IsRun(1, labels, states)
              && var s := states[|labels|];
                 Waits(s) && !s.offline && s.phase.Waiting?
  {
    var labels := [ScanEnds(ScanError), Cmd(OpenSettings), Cmd(ApplyConfig(true, false)), Cmd(Resume),
                   Health(true, Some(0)), FlushEnds];
    var s1 := Start(1).(phase := Waiting, offline := true);
    var s4 := s1.(rescanOnResume := true);
    var states := [Start(1), s1, s1.(paused := true), s4.(paused := true), s4,
                   s4.(offline := false, phase := Flushing(0)), s4.(offline := false)];
    assert IsRun(1, labels, states);
  }

  // ---- Who empties the channel ---------------------------------------------

  predicate Busy(s: Engine) {
    s.phase.InitialScan? || s.phase.Scanning? || s.phase.TimedScan? || s.phase.Flushing?
  }

  lemma BusyNext(s: Engine, l: Label)
    requires Busy(s) && Next(s, l).Some?
    ensures !l.Take? && Next(s, l).value.taken == s.taken && s.queue <= Next(s, l).value.queue
  {
  }

  // From entering a scan or a flush to leaving it no task is taken: the receiver of
  // the channel is another arm of the loop that awaits them.
  lemma {:induction false} NothingTakenWhileBusy(
    maxWorkers: nat, labels: seq<Label>, states: seq<Engine>, i: nat, j: nat)
    requires IsRun(maxWorkers, labels, states) && i <= j < |states|
    requires forall k | i <= k < j :: Busy(states[k])
    ensures states[j].taken == states[i].taken && states[i].queue <= states[j].queue
    ensures forall k | i <= k < j :: !labels[k].Take?
  {
    if i < j {
      NothingTakenWhileBusy(maxWorkers, labels, states, i, j - 1);
      assert Next(states[j - 1], labels[j - 1]) == Some(states[j]);
      BusyNext(states[j - 1], labels[j - 1]);
    }
  }

  // A flush that waits for room.
  predicate FlushStuck(s: Engine) {
    s.phase.Flushing? && s.phase.todo > 0 && |s.queue| >= CHANNEL_CAPACITY
  }

  // Nothing but the end of a task can happen then, not even a shutdown, ...
  lemma StuckExactly(s: Engine, l: Label)
    requires FlushStuck(s)
    ensures Next(s, l).Some? <==> l.TaskEnds? && s.active > 0
    ensures Next(s, l).Some? ==> FlushStuck(Next(s, l).value) && Next(s, l).value.queue == s.queue
  {
  }

  // ... so it stays stuck for the rest of the run, which only the tasks already being
  // executed prolong.
  lemma {:induction false} StuckForEver(maxWorkers: nat, labels: seq<Label>, states: seq<Engine>, i: nat, j: nat)
    requires IsRun(maxWorkers, labels, states) && i <= j < |states| && FlushStuck(states[i])
    ensures FlushStuck(states[j]) && states[j].queue == states[i].queue
    ensures states[j].active + (j - i) == states[i].active
  {
    if i < j {
      StuckForEver(maxWorkers, labels, states, i, j - 1);
      assert Next(states[j - 1], labels[j - 1]) == Some(states[j]);
      StuckExactly(states[j - 1], labels[j - 1]);
    }
  }

  // ---- What begins and ends what -------------------------------------------

  // Commands are read by the initial scan, by scans started on a command, and by the
  // loop itself while it waits.
  lemma CommandsAreRead(s: Engine, c: Command)
    ensures Next(s, Cmd(c)).Some? <==> s.phase.InitialScan? || s.phase.Scanning? || s.phase.Waiting?
  {
  }

  // A scan begins with a Resume that finds a rescan owed, a forced scan, or a changed
  // root, each only online, or with the timer.
  lemma ScanBeginsExactly(s: Engine, l: Label)
    requires Next(s, l).Some? && !s.phase.InitialScan?
    ensures var s' := Next(s, l).value;
            && (!s.phase.Scanning? && s'.phase.Scanning? <==>
                  s.phase.Waiting? && !s.offline &&
                  if s.paused then l == Cmd(Resume) && s.rescanOnResume
                  else l == Cmd(ForceScan) || l == Cmd(ApplyConfig(true, true)))
            && (!s.phase.TimedScan? && s'.phase.TimedScan? <==>
                  s.phase.Waiting? && !s.paused && !s.offline && l == RescanTick)
            && !s'.phase.InitialScan?
  {
  }

  // A scan ends by itself, by a command that cuts it short, or with the engine.
  lemma ScanEndsExactly(s: Engine, l: Label)
    requires Next(s, l).Some? && (s.phase.InitialScan? || s.phase.Scanning? || s.phase.TimedScan?)
    ensures var s' := Next(s, l).value;
            && (s'.phase != s.phase <==>
                  || l.ScanEnds? || l == Cancelled
                  || (!s.phase.TimedScan? && l in {Cmd(Pause), Cmd(OpenSettings), Cmd(Shutdown)})
                  || (s.phase.InitialScan? && l == Cmd(OpenHelp)))
            && (s'.phase != s.phase ==> s'.phase.Waiting? || s'.phase.Ended?)
  {
  }

  // The engine is paused by a Pause or by opening the settings or the help, except that
  // a scan started on a command does not react to the help.
  lemma PauseBeginsExactly(s: Engine, l: Label)
    requires Next(s, l).Some? && !s.paused
    ensures Next(s, l).value.paused <==>
            || (l in {Cmd(Pause), Cmd(OpenSettings)}
                && (s.phase.InitialScan? || s.phase.Scanning? || s.phase.Waiting?))
            || (l == Cmd(OpenHelp) && (s.phase.InitialScan? || s.phase.Waiting?))
  {
  }

  // Only a Resume ends the pause.
  lemma PauseEndsExactly(s: Engine, l: Label)
    requires Next(s, l).Some? && s.paused && s.phase.Waiting?
    ensures !Next(s, l).value.paused <==> l == Cmd(Resume)
  {
  }

  // A rescan comes to be owed when a command cuts a scan short, or when a paused
  // engine gets a configuration.
  lemma RescanOwedExactly(s: Engine, l: Label)
    requires Next(s, l).Some? && !s.rescanOnResume && (s.paused ==> s.phase.Waiting? || s.phase.Ended?)
    ensures Next(s, l).value.rescanOnResume <==>
            || ((s.phase.InitialScan? || s.phase.Scanning?) && l in {Cmd(Pause), Cmd(OpenSettings)})
            || (s.phase.InitialScan? && l == Cmd(OpenHelp))
            || (s.phase.Waiting? && s.paused && l.Cmd? && l.command.ApplyConfig? && l.command.valid)
  {
  }

  // The engine ends with a shutdown, a scan that reports one, or a configuration
  // without a folder; a flush notices none of them.
  lemma EngineEndsExactly(s: Engine, l: Label)
    requires Next(s, l).Some?
    ensures Next(s, l).value.phase.Ended? <==>
            || l == Cancelled || l == ScanEnds(ScanShutdown) || l == Cmd(Shutdown)
            || (s.phase.Waiting? && l.Cmd? && l.command.ApplyConfig? && !l.command.valid)
    ensures s.phase.Flushing? ==> !Next(s, l).value.phase.Ended?
  {
  }

  // The engine goes offline when the initial scan or the health check fails, and comes
  // back only with a health check that succeeds, made while it waits and is not paused.
  lemma OfflineExactly(s: Engine, l: Label)
    requires Next(s, l).Some?
    ensures Next(s, l).value.offline <==>
            || (l.Health? && !l.reachable)
            || (s.phase.InitialScan? && l == ScanEnds(ScanError))
            || (s.offline && !(l.Health? && l.reachable))
    ensures l.Health? ==> s.phase.Waiting? && !s.paused
  {
  }

  // Coming back online starts a flush of all the tasks the queue holds, if it can be
  // read; nothing else does.
  lemma FlushBeginsExactly(s: Engine, l: Label)
    requires Next(s, l).Some? && !s.phase.Flushing?
    ensures var s' := Next(s, l).value;
            && (s'.phase.Flushing? <==> s.offline && l.Health? && l.reachable && l.offlineTasks.Some?)
            && (s'.phase.Flushing? ==> s'.phase.todo == l.offlineTasks.value && !s'.offline)
  {
  }

  function FlushSends(labels: seq<Label>, i: nat, j: nat): nat
    requires i <= j <= |labels|
  {
    if i == j then 0 else FlushSends(labels, i, j - 1) + (if labels[j - 1].FlushSend? then 1 else 0)
  }

  // A flush in progress sends one task after the other; it ends when all are sent, or
  // with the first one whose row cannot be removed.
  lemma FlushNext(s: Engine, l: Label)
    requires Next(s, l).Some? && s.phase.Flushing?
    ensures var s' := Next(s, l).value;
            && (l.FlushSend? ==> s.phase.todo > 0 && s'.queue == s.queue + [l.sent])
            && (s'.phase.Flushing? ==> s'.phase.todo == s.phase.todo - if l.FlushSend? then 1 else 0)
            && (!s'.phase.Flushing? <==> (l == FlushEnds && s.phase.todo == 0) || (l.FlushSend? && !l.removed))
  {
  }

  // In every run: a flush entered with n tasks that is not cut short by a row that
  // cannot be removed has sent exactly n when it ends.
  lemma {:induction false} FlushSendsAll(maxWorkers: nat, labels: seq<Label>, states: seq<Engine>, i: nat, j: nat)
    requires IsRun(maxWorkers, labels, states) && i <= j < |states|
    requires forall k | i <= k <= j :: states[k].phase.Flushing?
    ensures FlushSends(labels, i, j) + states[j].phase.todo == states[i].phase.todo
    ensures j < |labels| && labels[j] == FlushEnds ==> FlushSends(labels, i, j) == states[i].phase.todo
  {
    if i < j {
      FlushSendsAll(maxWorkers, labels, states, i, j - 1);
      assert Next(states[j - 1], labels[j - 1]) == Some(states[j]);
      FlushNext(states[j - 1], labels[j - 1]);
    }
    if j < |labels| {
      assert Next(states[j], labels[j]) == Some(states[j + 1]);
    }
  }

  // The channel takes 1024 tasks; the loop takes them only while it waits and is not
  // paused; it hands one over once a worker is free.
  lemma ChannelExactly(s: Engine, t: Task)
    ensures Next(s, Enqueue(t)).Some? <==> !s.phase.Ended? && |s.queue| < 1024
    ensures Next(s, Take).Some? <==> s.phase.Waiting? && !s.paused && s.queue != []
    ensures Next(s, Take).Some? ==> Next(s, Take).value.phase == Spawning(s.queue[0])
    ensures Next(s, Spawn).Some? <==> s.phase.Spawning? && s.permits > 0
    ensures Next(s, TaskEnds).Some? <==> !s.phase.Ended? && s.active > 0
  {
  }

  // ---- The loop with its variables -----------------------------------------

  class Loop {
    var phase: Phase
    var paused: bool
    var rescanOnResume: bool
    var isOffline: bool
    var taskQueue: seq<Task>
    var permits: nat
    var active: nat
    ghost var accepted: seq<Task>
    ghost var taken: seq<Task>

    ghost function State(): Engine
      reads this
    {
      Engine(phase, paused, rescanOnResume, isOffline, taskQueue, permits, active, accepted, taken)
    }

    constructor (maxWorkers: nat)
      ensures State() == Start(maxWorkers)
    {
      phase, paused, rescanOnResume, isOffline := InitialScan, false, false, false;
      taskQueue, permits, active := [], if maxWorkers == 0 then 1 else maxWorkers, 0;
      accepted, taken := [], [];
    }

    // A command read by a running scan, which it may cut short.
    method InterruptScan(c: Command)
      requires phase.InitialScan? || phase.Scanning?
      modifies this
      ensures OnCommand(old(State()), c) == Some(State())
    {
      match c {
        case Pause =>
          paused, rescanOnResume, phase := true, true, Waiting;
        case OpenSettings =>
          paused, rescanOnResume, phase := true, true, Waiting;
        case OpenHelp =>
          if phase.InitialScan? {
            paused, rescanOnResume, phase := true, true, Waiting;
          }
        case Shutdown =>
          phase := Ended;
        case _ =>
      }
    }

    // A command read by the loop itself.
    method HandleCommand(c: Command)
      requires phase.Waiting?
      modifies this
      ensures OnCommand(old(State()), c) == Some(State())
    {
      match c {
        case Shutdown =>
          phase := Ended;
        case Resume =>
          if paused {
            paused := false;
            if rescanOnResume && !isOffline {
              rescanOnResume := false;
              phase := Scanning;
            }
          }
        case ApplyConfig(valid, rootChanged) =>
          if !valid {
            phase := Ended;
          } else if paused {
            rescanOnResume := true;
          } else if rootChanged && !isOffline {
            phase := Scanning;
          }
        case ForceScan =>
          if !paused && !isOffline {
            phase := Scanning;
          }
        case _ =>
          paused := true;
      }
    }

    // The health check of a running engine; coming back online starts a flush.
    method CheckHealth(reachable: bool, offlineTasks: Option<nat>)
      requires phase.Waiting? && !paused
      modifies this
      ensures Next(old(State()), Health(reachable, offlineTasks)) == Some(State())
    {
      if reachable {
        var wasOffline := isOffline;
        isOffline := false;
        if wasOffline && offlineTasks.Some? {
          phase := Flushing(offlineTasks.value);
        }
      } else {
        isOffline := true;
      }
    }

    // The flush sends a task and removes its row, or fails to.
    method SendFlushed(t: Task, removed: bool)
      requires phase.Flushing? && phase.todo > 0 && |taskQueue| < CHANNEL_CAPACITY
      modifies this
      ensures Next(old(State()), FlushSend(t, removed)) == Some(State())
    {
      taskQueue := taskQueue + [t];
      accepted := accepted + [t];
      phase := if removed then Flushing(phase.todo - 1) else Waiting;
    }

    // Takes the next task off the channel.
    method TakeTask() returns (task: Task)
      requires phase.Waiting? && !paused && taskQueue != []
      modifies this
      ensures phase == Spawning(task)
      ensures Next(old(State()), Take) == Some(State())
    {
      task := taskQueue[0];
      taskQueue := taskQueue[1..];
      taken := taken + [task];
      phase := Spawning(task);
    }

    // Hands it to a worker, once a permit is free.
    method SpawnWorker()
      requires phase.Spawning? && permits > 0
      modifies this
      ensures Next(old(State()), Spawn) == Some(State())
    {
      permits, active := permits - 1, active + 1;
      phase := Waiting;
    }

    // A worker is done and gives its permit back.
    method FinishWorker()
      requires active > 0 && !phase.Ended?
      modifies this
      ensures Next(old(State()), TaskEnds) == Some(State())
    {
      permits, active := permits + 1, active - 1;
    }
  }
}
