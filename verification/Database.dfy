// The two tables the engine uses: `file_index` (one row per path) and
// `offline_queue` (rows read back in the order of their ids).
module Persistence {
  import opened Paths
  import opened PathCaching
  import opened Reconcile

  datatype OfflineRow = OfflineRow(id: nat, action: string, relativePath: string, extra: Option<string>)

  // Rows without the one carrying the given id.
  function WithoutRow(rows: seq<OfflineRow>, id: nat): seq<OfflineRow> {
    if rows == [] then []
    else if rows[0].id == id then WithoutRow(rows[1..], id)
    else [rows[0]] + WithoutRow(rows[1..], id)
  }

  ghost predicate Increasing(rows: seq<OfflineRow>) {
    forall i, j | 0 <= i < j < |rows| :: rows[i].id < rows[j].id
  }

  lemma {:induction false} WithoutAbsent(rows: seq<OfflineRow>, id: nat)
    requires forall r | r in rows :: r.id != id
    ensures WithoutRow(rows, id) == rows
  {
    if rows != [] {
      assert rows[0] in rows;
      WithoutAbsent(rows[1..], id);
    }
  }

  lemma {:induction false} WithoutIn(rows: seq<OfflineRow>, id: nat, r: OfflineRow)
    ensures r in WithoutRow(rows, id) <==> r in rows && r.id != id
  {
    if rows != [] {
      WithoutIn(rows[1..], id, r);
      assert rows == [rows[0]] + rows[1..];
    }
  }

  lemma {:induction false} WithoutIncreasing(rows: seq<OfflineRow>, id: nat)
    requires Increasing(rows)
    ensures Increasing(WithoutRow(rows, id))
  {
    if rows != [] {
      WithoutIncreasing(rows[1..], id);
      forall r | r in WithoutRow(rows[1..], id) ensures rows[0].id < r.id {
        WithoutIn(rows[1..], id, r);
      }
    }
  }

  // In the middle of an increasing table, exactly that row goes.
  lemma {:induction false} WithoutMiddle(before: seq<OfflineRow>, row: OfflineRow, after: seq<OfflineRow>)
    requires Increasing(before + [row] + after)
    ensures WithoutRow(before + [row] + after, row.id) == before + after
  {
    var rows := before + [row] + after;
    if before == [] {
      assert rows[1..] == after;
      assert forall i | 0 <= i < |after| :: rows[i + 1] == after[i];
      WithoutAbsent(after, row.id);
    } else {
      assert rows[1..] == before[1..] + [row] + after;
      assert rows[|before|] == row && rows[0].id < row.id;
      WithoutMiddle(before[1..], row, after);
      assert before + after == [before[0]] + (before[1..] + after);
    }
  }

  class Database {
    var fileIndex: map<Path, Row>
    var offlineQueue: seq<OfflineRow>
    var nextRow: nat

    ghost predicate Valid()
      reads this
    {
      && Increasing(offlineQueue)
      && forall i | 0 <= i < |offlineQueue| :: offlineQueue[i].id < nextRow
    }

    constructor ()
      ensures Valid() && fileIndex == map[] && offlineQueue == []
    {
      fileIndex := map[];
      offlineQueue := [];
      nextRow := 1;
    }

    method Lookup(p: Path) returns (r: Option<Row>)
      ensures r == Get(fileIndex, p)
    {
      r := if p in fileIndex then Some(fileIndex[p]) else None;
    }

    method Upsert(p: Path, row: Row)
      modifies this`fileIndex
      ensures fileIndex == old(fileIndex)[p := row]
    {
      fileIndex := fileIndex[p := row];
    }

    method Delete(p: Path)
      modifies this`fileIndex
      ensures fileIndex == old(fileIndex) - {p}
    {
      fileIndex := fileIndex - {p};
    }

    // Moves the row to the new key; an occupied key violates the primary key.
    method Rename(from: Path, to: Path) returns (ok: bool)
      modifies this`fileIndex
      ensures ok <==> !KeyConflict(old(fileIndex), from, to)
      ensures fileIndex == MovedRow(old(fileIndex), from, to)
      ensures ok <==> !(from in old(fileIndex) && to in old(fileIndex) && to != from)
      ensures ok && from in old(fileIndex) ==> to in fileIndex && fileIndex[to] == old(fileIndex)[from]
      ensures ok && from != to ==> from !in fileIndex
      ensures !ok ==> fileIndex == old(fileIndex)
      ensures forall q | q != from && q != to :: Get(fileIndex, q) == Get(old(fileIndex), q)
    {
      if from !in fileIndex {
        return true;
      }
      if to in fileIndex && from != to {
        return false;
      }
      var row := fileIndex[from];
      fileIndex := (fileIndex - {from})[to := row];
      return true;
    }

    method PushOfflineTask(action: string, path: string, extra: Option<string>) returns (id: nat)
      requires Valid()
      modifies this
      ensures Valid() && fileIndex == old(fileIndex)
      ensures offlineQueue == old(offlineQueue) + [OfflineRow(id, action, path, extra)]
      ensures forall r | r in old(offlineQueue) :: r.id < id
    {
      id := nextRow;
      offlineQueue := offlineQueue + [OfflineRow(id, action, path, extra)];
      nextRow := nextRow + 1;
    }

    method GetOfflineTasks() returns (rows: seq<OfflineRow>)
      requires Valid()
      ensures rows == offlineQueue && Increasing(rows)
    {
      rows := offlineQueue;
    }

    // Deleting a row can fail, and then deletes nothing.
    method RemoveOfflineTask(id: nat) returns (ok: bool)
      requires Valid()
      modifies this
      ensures Valid() && fileIndex == old(fileIndex)
      ensures offlineQueue == if ok then WithoutRow(old(offlineQueue), id) else old(offlineQueue)
    {
      if * {
        return false;
      }
      forall i | 0 <= i < |WithoutRow(offlineQueue, id)| ensures WithoutRow(offlineQueue, id)[i].id < nextRow {
        WithoutIn(offlineQueue, id, WithoutRow(offlineQueue, id)[i]);
      }
      WithoutIncreasing(offlineQueue, id);
      offlineQueue := WithoutRow(offlineQueue, id);
      return true;
    }
  }
}
