// The offline queue: tasks written down while the network is away, and sent again
// in their order when it is back. Task paths are absolute here; rows hold them
// relative to the local root.
module Offline {
  import opened Paths
  import opened PathCaching
  import opened Reconcile
  import opened Persistence
  import opened EngineContexts

  function StripPrefix(root: Path, p: Path): Option<Path> {
    if IsPrefix(root, p) then Some(p[|root|..]) else None
  }

  datatype Encoded = Encoded(action: string, relativePath: string, extra: Option<string>)

  // What the dispatcher writes down; nothing when a path is not under the root.
  function Encode(root: Path, task: Task): Option<Encoded> {
    match task
    case SyncFile(p) =>
      if StripPrefix(root, p).None? then None else Some(Encoded("sync", Join(StripPrefix(root, p).value), None))
    case Delete(p) =>
      if StripPrefix(root, p).None? then None else Some(Encoded("delete", Join(StripPrefix(root, p).value), None))
    case Rename(from, to) =>
      if StripPrefix(root, from).None? || StripPrefix(root, to).None? then None
      else Some(Encoded("rename", Join(StripPrefix(root, to).value), Some(Join(StripPrefix(root, from).value))))
  }

  // What the flush reads; nothing for an unknown action.
  function Decode(root: Path, row: OfflineRow): Option<Task> {
    var path := root + Components(row.relativePath);
    if row.action == "sync" then Some(Task.SyncFile(path))
    else if row.action == "delete" then Some(Task.Delete(path))
    else if row.action == "rename" then
      var extra := if row.extra.Some? then row.extra.value else "";
      Some(Task.Rename(root + Components(extra), path))
    else None
  }

  lemma StripAndJoin(root: Path, p: Path)
    requires Canonical(p) && IsPrefix(root, p)
    ensures root + Components(Join(StripPrefix(root, p).value)) == p
  {
    var rel := p[|root|..];
    assert forall n | n in rel :: n in p;
    ComponentsOfJoin(rel);
  }

  predicate Under(root: Path, task: Task) {
    match task
    case SyncFile(p) => Canonical(p) && IsPrefix(root, p)
    case Delete(p) => Canonical(p) && IsPrefix(root, p)
    case Rename(from, to) => Canonical(from) && Canonical(to) && IsPrefix(root, from) && IsPrefix(root, to)
  }

  // What a row says: the action by its name, the path relative to the root, and for a
  // rename the old path besides. A task is written down exactly if all its paths are
  // under the root.
  lemma EncodedExactly(root: Path, p: Path, q: Path)
    ensures (|root| <= |p| && p[..|root|] == root) ==>
              && Encode(root, Task.SyncFile(p)) == Some(Encoded("sync", Join(p[|root|..]), None))
              && Encode(root, Task.Delete(p)) == Some(Encoded("delete", Join(p[|root|..]), None))
    ensures !(|root| <= |p| && p[..|root|] == root) ==>
              Encode(root, Task.SyncFile(p)) == None && Encode(root, Task.Delete(p)) == None
    ensures Encode(root, Task.Rename(p, q)) ==
            if |root| <= |p| && p[..|root|] == root && |root| <= |q| && q[..|root|] == root
            then Some(Encoded("rename", Join(q[|root|..]), Some(Join(p[|root|..])))) else None
  {
  }

  lemma DecodedExactly(root: Path, row: OfflineRow)
    ensures row.action == "sync" ==> Decode(root, row) == Some(Task.SyncFile(root + Components(row.relativePath)))
    ensures row.action == "delete" ==> Decode(root, row) == Some(Task.Delete(root + Components(row.relativePath)))
    ensures row.action == "rename" ==>
              Decode(root, row) ==
              Some(Task.Rename(root + (if row.extra.Some? then Components(row.extra.value) else []),
                               root + Components(row.relativePath)))
    ensures row.action != "sync" && row.action != "delete" && row.action != "rename" ==> Decode(root, row) == None
  {
    assert "sync"[0] == 's' && "delete"[0] == 'd' && "rename"[0] == 'r';
  }

  // A task under the root is read back as it was written down.
  lemma RoundTrip(root: Path, task: Task, id: nat)
    requires Under(root, task)
    ensures Encode(root, task).Some?
    ensures var e := Encode(root, task).value;
            Decode(root, OfflineRow(id, e.action, e.relativePath, e.extra)) == Some(task)
  {
    match task
    case SyncFile(p) => StripAndJoin(root, p);
    case Delete(p) => StripAndJoin(root, p);
    case Rename(from, to) =>
      StripAndJoin(root, from);
      StripAndJoin(root, to);
  }

  // Writes a task of an offline period down.
  method PushTask(db: Database, root: Path, task: Task) returns (pushed: bool)
    requires db.Valid()
    modifies db
    ensures db.Valid() && db.fileIndex == old(db.fileIndex)
    ensures pushed == Encode(root, task).Some?
    ensures !pushed ==> db.offlineQueue == old(db.offlineQueue)
    ensures pushed ==>
              && |db.offlineQueue| == |old(db.offlineQueue)| + 1
              && db.offlineQueue[..|old(db.offlineQueue)|] == old(db.offlineQueue)
              && (Under(root, task) ==> Decode(root, db.offlineQueue[|old(db.offlineQueue)|]) == Some(task))
  {
    var e := Encode(root, task);
    if e.None? {
      return false;
    }
    var id := db.PushOfflineTask(e.value.action, e.value.relativePath, e.value.extra);
    if Under(root, task) {
      RoundTrip(root, task, id);
    }
    return true;
  }

  // ---- Flushing ------------------------------------------------------------

  function Decoded(root: Path, rows: seq<OfflineRow>): seq<Task> {
    if rows == [] then []
    else
      var t := Decode(root, rows[|rows| - 1]);
      Decoded(root, rows[..|rows| - 1]) + (if t.Some? then [t.value] else [])
  }

  // The rows with an action the program does not know; they are skipped and stay.
  function Unknown(root: Path, rows: seq<OfflineRow>): seq<OfflineRow> {
    if rows == [] then []
    else
      var r := rows[|rows| - 1];
      Unknown(root, rows[..|rows| - 1]) + (if Decode(root, r).None? then [r] else [])
  }

  lemma NextRow(root: Path, rows: seq<OfflineRow>, i: nat)
    requires i < |rows|
    ensures var t := Decode(root, rows[i]);
            && Decoded(root, rows[..i + 1]) == Decoded(root, rows[..i]) + (if t.Some? then [t.value] else [])
            && Unknown(root, rows[..i + 1]) == Unknown(root, rows[..i]) + (if t.None? then [rows[i]] else [])
  {
    assert rows[..i + 1][..i] == rows[..i];
  }

  lemma {:induction false} DecodedShorter(root: Path, rows: seq<OfflineRow>, i: nat)
    requires i <= |rows|
    ensures |Decoded(root, rows[..i])| <= |Decoded(root, rows)|
    decreases |rows| - i
  {
    if i < |rows| {
      NextRow(root, rows, i);
      DecodedShorter(root, rows, i + 1);
    } else {
      assert rows[..i] == rows;
    }
  }

  // `Failed`: a row could not be deleted. `Hung`: waiting for room in the channel.
  datatype FlushEnd = Flushed | Abandoned | Failed | Hung

  // The state after the first n rows were dealt with, the row of the last one
  // possibly still there.
  ghost predicate FlushedUpTo(root: Path, rows: seq<OfflineRow>, n: nat, lastStays: bool,
                              sentBefore: seq<Task>, sent: seq<Task>, left: seq<OfflineRow>)
  {
    && n <= |rows|
    && sent == sentBefore + Decoded(root, rows[..n])
    && (if lastStays
        then n > 0 && Decode(root, rows[n - 1]).Some? && left == Unknown(root, rows[..n - 1]) + rows[n - 1..]
        else left == Unknown(root, rows[..n]) + rows[n..])
  }

  lemma FlushStart(root: Path, rows: seq<OfflineRow>, sent: seq<Task>)
    ensures FlushedUpTo(root, rows, 0, false, sent, sent, rows)
  {
  }

  lemma SkipUnknown(root: Path, rows: seq<OfflineRow>, n: nat, sentBefore: seq<Task>, sent: seq<Task>,
                    left: seq<OfflineRow>)
    requires n < |rows| && Decode(root, rows[n]).None?
    requires FlushedUpTo(root, rows, n, false, sentBefore, sent, left)
    ensures FlushedUpTo(root, rows, n + 1, false, sentBefore, sent, left)
  {
    NextRow(root, rows, n);
    assert rows[n..] == [rows[n]] + rows[n + 1..];
  }

  lemma SendKnown(root: Path, rows: seq<OfflineRow>, n: nat, sentBefore: seq<Task>, sent: seq<Task>,
                  left: seq<OfflineRow>)
    requires n < |rows| && Decode(root, rows[n]).Some? && Increasing(left)
    requires FlushedUpTo(root, rows, n, false, sentBefore, sent, left)
    ensures var sent' := sent + [Decode(root, rows[n]).value];
            && FlushedUpTo(root, rows, n + 1, true, sentBefore, sent', left)
            && FlushedUpTo(root, rows, n + 1, false, sentBefore, sent', WithoutRow(left, rows[n].id))
  {
    NextRow(root, rows, n);
    var before := Unknown(root, rows[..n]);
    assert left == before + [rows[n]] + rows[n + 1..];
    WithoutMiddle(before, rows[n], rows[n + 1..]);
  }

  lemma NoRoom(root: Path, rows: seq<OfflineRow>, n: nat, before: seq<Task>, sent: seq<Task>, left: seq<OfflineRow>)
    requires n < |rows| && Decode(root, rows[n]).Some? && FlushedUpTo(root, rows, n, false, before, sent, left)
    ensures |sent| < |before| + |Decoded(root, rows)|
  {
    NextRow(root, rows, n);
    DecodedShorter(root, rows, n + 1);
  }

  // Deals with the n-th row; a result means that the flush ends here. m rows have
  // been dealt with then.
  method FlushRow(db: Database, channel: TaskChannel, root: Path, rows: seq<OfflineRow>, n: nat,
                  ghost before: seq<Task>)
    returns (end: Option<FlushEnd>, m: nat)
    requires db.Valid() && |channel.queue| <= channel.capacity && n < |rows|
    requires FlushedUpTo(root, rows, n, false, before, channel.queue, db.offlineQueue)
    modifies db, channel
    ensures db.Valid() && db.fileIndex == old(db.fileIndex) && |channel.queue| <= channel.capacity
    ensures FlushedUpTo(root, rows, m, end == Some(Failed), before, channel.queue, db.offlineQueue)
    ensures end == None ==> m == n + 1
    ensures end != Some(Flushed)
    ensures end == Some(Abandoned) ==> channel.closed
    ensures end == Some(Hung) ==> |before| + |Decoded(root, rows)| > channel.capacity
  {
    var task := Decode(root, rows[n]);
    if task.None? {
      SkipUnknown(root, rows, n, before, channel.queue, db.offlineQueue);
      return None, n + 1;
    }
    SendKnown(root, rows, n, before, channel.queue, db.offlineQueue);
    NoRoom(root, rows, n, before, channel.queue, db.offlineQueue);
    var sent := channel.Send(task.value);
    match sent {
      case Closed => return Some(Abandoned), n;
      case Blocked => return Some(Hung), n;
      case Accepted =>
    }
    var removed := db.RemoveOfflineTask(rows[n].id);
    return if removed then None else Some(Failed), n + 1;
  }

  // Sends the decoded rows in their order and deletes each row once it is sent.
  method FlushQueue(db: Database, channel: TaskChannel, root: Path) returns (end: FlushEnd, n: nat)
    requires db.Valid() && |channel.queue| <= channel.capacity
    modifies db, channel
    ensures db.Valid() && db.fileIndex == old(db.fileIndex) && |channel.queue| <= channel.capacity
    ensures FlushedUpTo(root, old(db.offlineQueue), n, end == Failed, old(channel.queue), channel.queue,
                        db.offlineQueue)
    ensures end == Flushed ==> n == |old(db.offlineQueue)|
    ensures end == Abandoned ==> channel.closed
    ensures end == Hung ==> |old(channel.queue)| + |Decoded(root, old(db.offlineQueue))| > channel.capacity
  {
    var rows := db.GetOfflineTasks();
    ghost var before := channel.queue;
    n := 0;
    FlushStart(root, rows, before);
    while n < |rows|
      invariant n <= |rows| && db.Valid() && db.fileIndex == old(db.fileIndex) && |channel.queue| <= channel.capacity
      invariant FlushedUpTo(root, rows, n, false, before, channel.queue, db.offlineQueue)
    {
      var over;
      over, n := FlushRow(db, channel, root, rows, n, before);
      if over.Some? {
        return over.value, n;
      }
    }
    return Flushed, n;
  }

  // With nobody taking tasks out and nobody else sending, an undisturbed flush
  // ends exactly if its tasks fit into the channel; it then has sent them all in
  // order and left only the rows it does not understand.
  lemma FlushEndsExactlyIfTasksFit(root: Path, rows: seq<OfflineRow>, n: nat, capacity: nat,
                                   before: seq<Task>, after: seq<Task>, left: seq<OfflineRow>, end: FlushEnd)
    requires end == Flushed || end == Hung
    requires FlushedUpTo(root, rows, n, false, before, after, left) && |after| <= capacity
    requires end == Flushed ==> n == |rows|
    requires end == Hung ==> |before| + |Decoded(root, rows)| > capacity
    ensures end == Flushed <==> |before| + |Decoded(root, rows)| <= capacity
    ensures end == Flushed ==> after == before + Decoded(root, rows) && left == Unknown(root, rows)
  {
    if end == Flushed {
      assert rows[..n] == rows && rows[n..] == [];
    }
  }
}
