// The debounced dispatcher: file events in, tasks out.
module Dispatch {
  import opened Paths
  import opened PathCaching
  import opened Reconcile
  import opened Listing

  datatype WatchEvent = Modified(path: Path) | Deleted(path: Path) | Renamed(from: Path, to: Path)

  // What the dispatcher's loop wakes up for, at the (millisecond) time it does so,
  // and whether the engine counts as offline then; in a tick, each time it asks.
  datatype Event =
    | Tick(at: nat, offlineFor: Path -> bool)
    | Watch(at: nat, offline: bool, event: WatchEvent)

  type Pending = map<Path, nat>

  ghost predicate TimeOrdered(events: seq<Event>) {
    forall i, j | 0 <= i < j < |events| :: events[i].at <= events[j].at
  }

  predicate Touches(e: Event, p: Path) {
    e.Watch? &&
    match e.event
    case Modified(q) => q == p
    case Deleted(q) => q == p
    case Renamed(from, to) => from == p || to == p
  }

  // ---- The pending map -----------------------------------------------------

  function Ready(pending: Pending, now: nat, debounce: nat): set<Path> {
    set p | p in pending && now >= pending[p] && now - pending[p] >= debounce
  }

  function Next(pending: Pending, e: Event, debounce: nat): Pending {
    match e
    case Tick(now, _) => pending - Ready(pending, now, debounce)
    case Watch(now, _, event) =>
      match event
      case Modified(p) => pending[p := now]
      case Deleted(p) => pending - {p}
      case Renamed(from, to) => pending - {from, to}
  }

  function PendingAfter(events: seq<Event>, debounce: nat): Pending {
    if events == [] then map[]
    else Next(PendingAfter(events[..|events| - 1], debounce), events[|events| - 1], debounce)
  }

  // The k-th event is a tick at which a SyncFile for p goes out.
  predicate Fires(events: seq<Event>, debounce: nat, k: nat, p: Path)
    requires k < |events|
  {
    events[k].Tick? && p in Ready(PendingAfter(events[..k], debounce), events[k].at, debounce)
  }

  // The j-th event modified p, and since then nothing has touched p and no tick
  // has come late enough to send it.
  ghost predicate LiveSince(events: seq<Event>, debounce: nat, p: Path, j: nat) {
    && j < |events| && events[j].Watch? && events[j].event == Modified(p)
    && forall i | j < i < |events| ::
         !Touches(events[i], p) && (events[i].Tick? ==> events[i].at < events[j].at + debounce)
  }

  // Reading the trace backwards: the modification of p that is still waiting.
  ghost function Origin(events: seq<Event>, debounce: nat, p: Path): Option<nat> {
    if events == [] then None
    else
      var front, e := events[..|events| - 1], events[|events| - 1];
      if e.Watch? && e.event == Modified(p) then Some(|front|)
      else if Touches(e, p) then None
      else
        var o := Origin(front, debounce, p);
        if o.Some? && o.value < |front| && e.Tick? && e.at >= front[o.value].at + debounce then None else o
  }

  lemma {:induction false} OriginExact(events: seq<Event>, debounce: nat, p: Path, j: nat)
    ensures Origin(events, debounce, p) == Some(j) <==> LiveSince(events, debounce, p, j)
    decreases |events|
  {
    if events != [] {
      var front, e := events[..|events| - 1], events[|events| - 1];
      OriginExact(front, debounce, p, j);
      var o := Origin(front, debounce, p);
      if o.Some? { OriginExact(front, debounce, p, o.value); }
      assert forall i | 0 <= i < |front| :: front[i] == events[i];
      assert forall i | 0 <= i < |events| :: i < |front| || events[i] == e;
    }
  }

  // A path is pending exactly while a modification of it is still waiting, with
  // the time of that modification.
  lemma {:induction false} PendingExact(events: seq<Event>, debounce: nat, p: Path)
    requires TimeOrdered(events)
    ensures var o := Origin(events, debounce, p);
            && (p in PendingAfter(events, debounce) <==> o.Some?)
            && (o.Some? ==> o.value < |events| && PendingAfter(events, debounce)[p] == events[o.value].at)
    decreases |events|
  {
    if events != [] {
      PendingExact(events[..|events| - 1], debounce, p);
    }
  }

  // A tick sends p exactly if some modification of p lies at least the debounce
  // time back, with nothing touching p and no late enough tick since.
  lemma FiresExactly(events: seq<Event>, debounce: nat, k: nat, p: Path)
    requires TimeOrdered(events) && k < |events|
    ensures Fires(events, debounce, k, p) <==>
            events[k].Tick? &&
            exists j: nat :: LiveSince(events[..k], debounce, p, j) && events[j].at + debounce <= events[k].at
  {
    PendingExact(events[..k], debounce, p);
    var o := Origin(events[..k], debounce, p);
    if o.Some? {
      OriginExact(events[..k], debounce, p, o.value);
    }
    forall j: nat | LiveSince(events[..k], debounce, p, j) ensures o == Some(j) {
      OriginExact(events[..k], debounce, p, j);
    }
  }

  // The modification behind a SyncFile task.
  lemma CauseOf(events: seq<Event>, debounce: nat, k: nat, p: Path) returns (j: nat)
    requires TimeOrdered(events) && k < |events| && Fires(events, debounce, k, p)
    ensures j < k && events[j].Watch? && events[j].event == Modified(p) && events[j].at + debounce <= events[k].at
    ensures forall i | j < i < k ::
              !Touches(events[i], p) && (events[i].Tick? ==> events[i].at < events[j].at + debounce)
  {
    FiresExactly(events, debounce, k, p);
    j :| LiveSince(events[..k], debounce, p, j) && events[j].at + debounce <= events[k].at;
    forall i | j < i < k
      ensures !Touches(events[i], p) && (events[i].Tick? ==> events[i].at < events[j].at + debounce)
    {
      assert events[..k][i] == events[i];
    }
  }

  // Two SyncFile tasks for one path are at least the debounce time apart, with a
  // modification in between.
  lemma SendsAreApart(events: seq<Event>, debounce: nat, k1: nat, k2: nat, p: Path)
    requires TimeOrdered(events) && k1 < k2 < |events|
    requires Fires(events, debounce, k1, p) && Fires(events, debounce, k2, p)
    ensures events[k1].at + debounce <= events[k2].at
    ensures exists j: nat :: k1 < j < k2 && events[j].Watch? && events[j].event == Modified(p)
                        && events[j].at + debounce <= events[k2].at
  {
    var j1 := CauseOf(events, debounce, k1, p);
    var j2 := CauseOf(events, debounce, k2, p);
    // Were j2 before k1, it would be j1, and the tick k1 would have come too late.
    assert Touches(events[j1], p) && Touches(events[j2], p) && j2 != k1;
    assert k1 < j2;
  }

  // After a deletion or a rename of p no SyncFile for p goes out unless p has been
  // modified again.
  lemma NoSendAfterRemoval(events: seq<Event>, debounce: nat, i: nat, k: nat, p: Path)
    requires TimeOrdered(events) && i < k < |events| && Fires(events, debounce, k, p)
    requires events[i].Watch?
    requires events[i].event == Deleted(p)
             || (events[i].event.Renamed? && (events[i].event.from == p || events[i].event.to == p))
    ensures exists j: nat :: i < j < k && events[j].Watch? && events[j].event == Modified(p)
  {
    var j := CauseOf(events, debounce, k, p);
    assert i < j;
  }

  // The event leaves the wait for p alone: a tick too early to end a wait since
  // `since`, or an event of other paths.
  predicate LeavesAlone(e: Event, p: Path, since: nat, debounce: nat) {
    match e
    case Tick(at, _) => at < since + debounce
    case Watch(_, _, Modified(q)) => q != p
    case Watch(_, _, Deleted(q)) => q != p
    case Watch(_, _, Renamed(from, to)) => from != p && to != p
  }

  // What is sent, spelled out: p goes out at the k-th event exactly if that is a tick
  // and some earlier event modified p, at least the debounce time ago, and every event
  // in between left the wait for p alone.
  lemma SentExactly(events: seq<Event>, debounce: nat, k: nat, p: Path)
    requires TimeOrdered(events) && k < |events|
    ensures Fires(events, debounce, k, p) <==>
            && events[k].Tick?
            && exists j: nat ::
                 && j < k && events[j].Watch? && events[j].event == Modified(p)
                 && events[j].at + debounce <= events[k].at
                 && forall i | j < i < k :: LeavesAlone(events[i], p, events[j].at, debounce)
  {
    if Fires(events, debounce, k, p) {
      var j := CauseOf(events, debounce, k, p);
      assert forall i | j < i < k :: LeavesAlone(events[i], p, events[j].at, debounce);
    }
    if j: nat :| && j < k && events[j].Watch? && events[j].event == Modified(p)
                 && events[j].at + debounce <= events[k].at
                 && forall i | j < i < k :: LeavesAlone(events[i], p, events[j].at, debounce)
    {
      if events[k].Tick? {
        assert forall i | j < i < k ::
            !Touches(events[i], p) && (events[i].Tick? ==> events[i].at < events[j].at + debounce);
        ModificationIsSent(events, debounce, j, k, p);
      }
    }
  }

  // A modification that nothing disturbs goes out at the first late enough tick.
  lemma ModificationIsSent(events: seq<Event>, debounce: nat, j: nat, k: nat, p: Path)
    requires TimeOrdered(events) && j < k < |events| && events[j].Watch? && events[j].event == Modified(p)
    requires events[k].Tick? && events[j].at + debounce <= events[k].at
    requires forall i | j < i < k ::
               !Touches(events[i], p) && (events[i].Tick? ==> events[i].at < events[j].at + debounce)
    ensures Fires(events, debounce, k, p)
  {
    assert LiveSince(events[..k], debounce, p, j);
    FiresExactly(events, debounce, k, p);
  }

  // ---- The dispatcher itself -----------------------------------------------

  // A task, the event that caused it, and where it went: to the offline queue or
  // to the workers.
  datatype Emission = Emission(cause: nat, task: Task, queued: bool)

  predicate IsWatch(e: Event, event: WatchEvent, offline: bool) {
    e.Watch? && e.event == event && e.offline == offline
  }

  ghost predicate Expected(events: seq<Event>, debounce: nat, e: Emission) {
    && e.cause < |events|
    && match e.task
       case SyncFile(p) => Fires(events, debounce, e.cause, p) && e.queued == events[e.cause].offlineFor(p)
       case Delete(p) => IsWatch(events[e.cause], Deleted(p), e.queued)
       case Rename(from, to) => IsWatch(events[e.cause], Renamed(from, to), e.queued)
  }

  // The same of a whole log: a deletion and a rename go out with their event, to the
  // queue exactly if the engine was offline then; a SyncFile as above.
  lemma LoggedExactly(events: seq<Event>, debounce: nat, e: Emission)
    requires e.cause < |events|
    ensures Expected(events, debounce, e) <==>
            var event := events[e.cause];
            || (event.Watch? && event.event.Deleted? && e.task == Task.Delete(event.event.path)
                && e.queued == event.offline)
            || (event.Watch? && event.event.Renamed? && e.task == Task.Rename(event.event.from, event.event.to)
                && e.queued == event.offline)
            || (event.Tick? && e.task.SyncFile? && Fires(events, debounce, e.cause, e.task.path)
                && e.queued == event.offlineFor(e.task.path))
    ensures e.task.SyncFile? && Fires(events, debounce, e.cause, e.task.path) ==> events[e.cause].Tick?
  {
  }

  // The ready paths, in the order the hash map yields them.
  method CollectReady(pending: Pending, now: nat, debounce: nat) returns (ready: seq<Path>, rest: Pending)
    ensures NoRepeats(ready) && (forall p :: p in ready <==> p in Ready(pending, now, debounce))
    ensures rest == pending - Ready(pending, now, debounce)
  {
    ready, rest := [], pending;
    var todo := Ready(pending, now, debounce);
    while todo != {}
      invariant todo <= Ready(pending, now, debounce)
      invariant NoRepeats(ready) && (forall p :: p in ready <==> p in Ready(pending, now, debounce) - todo)
      invariant rest == pending - (Ready(pending, now, debounce) - todo)
      decreases |todo|
    {
      var p :| p in todo;
      todo := todo - {p};
      rest := rest - {p};
      ready := ready + [p];
    }
  }

  function SyncsOf(cause: nat, ready: seq<Path>, offlineFor: Path -> bool): seq<Emission> {
    seq(|ready|, i requires 0 <= i < |ready| => Emission(cause, Task.SyncFile(ready[i]), offlineFor(ready[i])))
  }

  // What one event makes the dispatcher do.
  method OnEvent(pending: Pending, e: Event, debounce: nat, k: nat) returns (rest: Pending, out: seq<Emission>)
    ensures rest == Next(pending, e, debounce) && NoRepeats(out)
    ensures forall x :: x in out <==>
                        && x.cause == k
                        && match x.task
                           case SyncFile(p) =>
                             e.Tick? && p in Ready(pending, e.at, debounce) && x.queued == e.offlineFor(p)
                           case Delete(p) => IsWatch(e, Deleted(p), x.queued)
                           case Rename(from, to) => IsWatch(e, Renamed(from, to), x.queued)
  {
    match e {
      case Tick(now, offlineFor) =>
        var ready;
        ready, rest := CollectReady(pending, now, debounce);
        out := SyncsOf(k, ready, offlineFor);
        forall p | p in ready ensures Emission(k, Task.SyncFile(p), offlineFor(p)) in out {
          var i :| 0 <= i < |ready| && ready[i] == p;
          assert out[i] == Emission(k, Task.SyncFile(p), offlineFor(p));
        }
      case Watch(now, offline, event) =>
        match event {
          case Modified(p) =>
            rest, out := pending[p := now], [];
          case Deleted(p) =>
            rest, out := pending - {p}, [Emission(k, Task.Delete(p), offline)];
          case Renamed(from, to) =>
            rest, out := pending - {from} - {to}, [Emission(k, Task.Rename(from, to), offline)];
        }
    }
  }

  // The loop over a whole trace sends exactly the expected tasks, each once, in
  // the order of the events that cause them.
  method DispatchAll(events: seq<Event>, debounce: nat) returns (log: seq<Emission>)
    ensures forall x :: x in log <==> Expected(events, debounce, x)
    ensures NoRepeats(log) && forall i, j | 0 <= i < j < |log| :: log[i].cause <= log[j].cause
  {
    log := [];
    var pending: Pending := map[];
    assert events[..0] == [];
    for k := 0 to |events|
      invariant pending == PendingAfter(events[..k], debounce)
      invariant forall x :: x in log <==> Expected(events, debounce, x) && x.cause < k
      invariant NoRepeats(log) && forall i, j | 0 <= i < j < |log| :: log[i].cause <= log[j].cause
    {
      assert events[..k + 1][..k] == events[..k];
      var out;
      pending, out := OnEvent(pending, events[k], debounce, k);
      AppendLog(events, debounce, k, log, out);
      log := log + out;
    }
    assert events[..|events|] == events;
  }

  lemma AppendLog(events: seq<Event>, debounce: nat, k: nat, log: seq<Emission>, out: seq<Emission>)
    requires k < |events| && NoRepeats(log) && NoRepeats(out)
    requires forall x :: x in log <==> Expected(events, debounce, x) && x.cause < k
    requires forall x :: x in out <==> Expected(events, debounce, x) && x.cause == k
    requires forall i, j | 0 <= i < j < |log| :: log[i].cause <= log[j].cause
    ensures forall x :: x in log + out <==> Expected(events, debounce, x) && x.cause < k + 1
    ensures NoRepeats(log + out)
    ensures forall i, j | 0 <= i < j < |log + out| :: (log + out)[i].cause <= (log + out)[j].cause
  {
    var all := log + out;
    forall i | 0 <= i < |all|
      ensures if i < |log| then all[i] in log && all[i].cause < k else all[i] in out && all[i].cause == k
    {
    }
  }
}
