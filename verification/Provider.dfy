// The remote provider, reduced to its effect on the remote tree. Any call may
// fail; a call that fails changes nothing.
module Providers {
  import opened Paths
  import opened RemoteTree
  import opened PathCaching
  import opened Reconcile

  class CancellationToken {
    var cancelled: bool

    constructor ()
      ensures !cancelled
    {
      cancelled := false;
    }

    // The token may be cancelled at any time, and never comes back.
    method IsCancelled() returns (b: bool)
      modifies this
      ensures b == cancelled && (old(cancelled) ==> cancelled)
    {
      if * {
        cancelled := true;
      }
      b := cancelled;
    }
  }

  datatype Call = Mkdir(parent: Id, name: string) | DeleteId(id: Id) | RenameId(id: Id, name: string, parent: Id)

  datatype UploadResult = UploadResult(driveId: Id, md5: Hash)

  function Max(a: nat, b: nat): nat {
    if a < b then b else a
  }

  // The tree after a successful call, and the id it returned.
  ghost predicate CallEffect(env: Env, t: Tree, call: Call, t': Tree, id: Id) {
    match call
    case Mkdir(parent, name) =>
      if exists j :: j in t && t[j] == Node(name, parent, Folder) then
        id in t && t[id] == Node(name, parent, Folder) && t' == t
      else
        IsFolder(t, env.root, parent) && Fresh(t, env.root, id) && t' == t[id := Node(name, parent, Folder)]
    case DeleteId(j) => j in t && t' == t - {j} && id == j
    case RenameId(j, name, parent) =>
      && j in t && IsFolder(t, env.root, parent) && parent != j && id == j
      && t' == t[j := t[j].(name := name, parent := parent)]
  }

  // What has been asked of the provider so far: all calls but uploads, the mkdirs
  // among them that succeeded, how many calls have failed since one last succeeded,
  // and the uploads; and the next id to give out.
  datatype Counters = Counters(calls: nat, mkdirs: nat, failedInARow: nat, uploads: nat, nextId: nat)

  // The last calls between the two, as many as there are attempts, all failed.
  predicate AttemptsUsedUp(env: Env, c: Counters, c': Counters) {
    c'.failedInARow >= Max(1, env.maxAttempts) && c'.calls - c.calls >= Max(1, env.maxAttempts)
  }

  // What is new in the tree has an id that was given out since.
  ghost predicate NewIds(t: Tree, low: nat, t': Tree) {
    forall id | id in t' && id !in t :: id.Drive? && id.n >= low
  }

  class Provider {
    const env: Env
    var tree: Tree
    var nextId: nat
    var calls: nat
    var mkdirs: nat
    var failedInARow: nat
    var uploads: nat

    ghost predicate Valid()
      reads this
    {
      forall n: nat | nextId <= n :: Fresh(tree, env.root, Drive(n))
    }

    function Count(): Counters
      reads this
    {
      Counters(calls, mkdirs, failedInARow, uploads, nextId)
    }

    // All the changes asked for so far, successful or not.
    function Requests(): nat
      reads this
    {
      uploads + calls
    }

    // Ids are never given out twice; some may never be given out at all.
    method SkipId()
      requires Valid()
      modifies this`nextId
      ensures Valid() && nextId == old(nextId) + 1
    {
      nextId := nextId + 1;
    }

    // One remote operation other than an upload.
    method Invoke(call: Call) returns (r: Option<Id>)
      requires Valid()
      modifies this
      ensures Valid() && calls == old(calls) + 1 && uploads == old(uploads) && nextId >= old(nextId)
      ensures NewIds(old(tree), old(nextId), tree)
      ensures mkdirs == old(mkdirs) + if call.Mkdir? && r.Some? then 1 else 0
      ensures failedInARow == if r.Some? then 0 else old(failedInARow) + 1
      ensures r.None? ==> tree == old(tree)
      ensures r.Some? ==> CallEffect(env, old(tree), call, tree, r.value)
    {
      calls := calls + 1;
      failedInARow := failedInARow + 1;
      if * {
        return None;
      }
      match call {
        case Mkdir(parent, name) =>
          var found := set j | j in tree && tree[j] == Node(name, parent, Folder);
          assert forall j | j in tree && tree[j] == Node(name, parent, Folder) :: j in found;
          if found != {} {
            mkdirs := mkdirs + 1;
            var j :| j in found;
            failedInARow := 0;
            return Some(j);
          }
          if !IsFolder(tree, env.root, parent) {
            return None;
          }
          var id := Drive(nextId);
          tree := tree[id := Node(name, parent, Folder)];
          nextId := nextId + 1;
          mkdirs := mkdirs + 1;
          failedInARow := 0;
          assert Valid() by { NextStaysFresh(old(tree), old(nextId), parent, Node(name, parent, Folder)); }
          return Some(id);
        case DeleteId(j) =>
          if j !in tree {
            return None;
          }
          tree := tree - {j};
          failedInARow := 0;
          return Some(j);
        case RenameId(j, name, parent) =>
          if j !in tree || !IsFolder(tree, env.root, parent) || parent == j {
            return None;
          }
          tree := tree[j := tree[j].(name := name, parent := parent)];
          failedInARow := 0;
          assert Valid() by { NextStaysFresh(old(tree), nextId, parent, tree[j]); }
          return Some(j);
      }
    }

    lemma NextStaysFresh(t: Tree, n: nat, parent: Id, node: Node)
      requires forall k: nat | n <= k :: Fresh(t, env.root, Drive(k))
      requires IsFolder(t, env.root, parent) && node.parent == parent
      ensures forall k: nat | n <= k :: Drive(k) != parent
    {
      forall k: nat | n <= k ensures Drive(k) != parent {
        assert Fresh(t, env.root, Drive(k));
      }
    }

    // Stores some bytes, not necessarily the ones sent, and reports their hash.
    method Upload(bytes: Content, p: Path, parent: Id, existing: Option<Id>)
      returns (r: Option<UploadResult>, ghost stored: Content)
      requires Valid() && p != []
      modifies this
      ensures Valid() && uploads == old(uploads) + 1
      ensures calls == old(calls) && mkdirs == old(mkdirs) && failedInARow == old(failedInARow)
      ensures r.None? ==> tree == old(tree) && nextId == old(nextId)
      ensures nextId >= old(nextId)
      ensures r.Some? ==>
                && Fresh(old(tree), env.root, Drive(old(nextId))) && r.value.md5 == env.hash(stored)
                && Uploaded(env, old(tree), p, parent, existing, Drive(old(nextId)), stored)
                   == Some((tree, r.value.driveId))
    {
      uploads := uploads + 1;
      stored := bytes;
      if * {
        return None, stored;
      }
      var sent: Content := *;
      stored := sent;
      assert Fresh(tree, env.root, Drive(nextId));
      match Uploaded(env, tree, p, parent, existing, Drive(nextId), sent) {
        case None =>
          return None, stored;
        case Some((t, id)) =>
          if existing.None? {
            NextStaysFresh(tree, nextId, parent, t[id]);
            nextId := nextId + 1;
          }
          tree := t;
          return Some(UploadResult(id, env.hash(sent))), stored;
      }
    }

    // Tries a call again until it succeeds, the attempts are used up, or the
    // engine shuts down. The pause between attempts is always the initial one.
    method Retry(call: Call, shutdown: CancellationToken) returns (r: Option<Id>, waited: nat)
      requires Valid()
      modifies this, shutdown
      ensures Valid() && uploads == old(uploads) && nextId >= old(nextId)
      ensures NewIds(old(tree), old(nextId), tree)
      ensures mkdirs == old(mkdirs) + if call.Mkdir? && r.Some? then 1 else 0
      ensures r.None? ==> tree == old(tree)
      ensures r.Some? ==> CallEffect(env, old(tree), call, tree, r.value)
      ensures old(calls) <= calls <= old(calls) + Max(1, env.maxAttempts)
      ensures r.Some? ==> calls > old(calls) && waited == (calls - old(calls) - 1) * env.backoffMs
      ensures r.None? && !shutdown.cancelled ==>
                calls - old(calls) == Max(1, env.maxAttempts) && AttemptsUsedUp(env, old(Count()), Count())
    {
      var attempt := 1;
      r, waited := None, 0;
      while true
        invariant Valid() && tree == old(tree) && uploads == old(uploads)
        invariant mkdirs == old(mkdirs) && nextId >= old(nextId)
        invariant attempt >= 1 && calls == old(calls) + attempt - 1
        invariant failedInARow == old(failedInARow) + attempt - 1
        invariant attempt <= Max(1, env.maxAttempts)
        invariant waited == (attempt - 1) * env.backoffMs
        decreases Max(1, env.maxAttempts) - attempt
      {
        var stop := shutdown.IsCancelled();
        if stop {
          return None, waited;
        }
        r := Invoke(call);
        if r.Some? {
          return;
        }
        if attempt >= env.maxAttempts {
          return;
        }
        stop := shutdown.IsCancelled();
        if stop {
          return None, waited;
        }
        waited := waited + env.backoffMs;
        attempt := attempt + 1;
      }
    }
  }
}
