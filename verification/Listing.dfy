// `list_remote`: a breadth-first, paginated listing of everything below the root,
// compared with a plain recursive walk of the tree.
module Listing {
  import opened Paths
  import opened RemoteTree
  import opened PathCaching

  // For every folder, its children in the order the server lists them.
  type ChildOrder = map<Id, seq<Id>>

  ghost predicate NoRepeats<T(!new)>(s: seq<T>) {
    forall i, j | 0 <= i < j < |s| :: s[i] != s[j]
  }

  ghost predicate Lists(t: Tree, root: Id, order: ChildOrder) {
    && root !in t
    && forall f | IsFolder(t, root, f) ::
         && f in order && NoRepeats(order[f])
         && forall c {:trigger c in order[f]} :: c in order[f] <==> c in t && t[c].parent == f
  }

  ghost predicate FilesHaveNoChildren(t: Tree) {
    forall j | j in t && t[j].parent in t :: t[t[j].parent].body.Folder?
  }

  function ChildEntry(t: Tree, f: Id, path: Path, c: Id): IndexEntry
    requires c in t
  {
    IndexEntry(path + [t[c].name], c, f)
  }

  // ---- The recursive walk --------------------------------------------------

  // Everything below the folder f at `path`, from its k-th child on: each child,
  // then (if it is a folder) everything below it. A path is never as long as the
  // tree has nodes while there is a child left, so the depth test only serves to
  // make the recursion evidently finite.
  ghost function Walk(t: Tree, order: ChildOrder, f: Id, path: Path, k: nat): seq<IndexEntry>
    decreases if |path| < |t| then |t| - |path| else 0, if f in order && k < |order[f]| then |order[f]| - k else 0
  {
    if f !in order || k >= |order[f]| || |path| >= |t| || order[f][k] !in t then []
    else
      var c := order[f][k];
      var entry := ChildEntry(t, f, path, c);
      [entry]
      + (if t[c].body.Folder? then Walk(t, order, c, entry.relativePath, 0) else [])
      + Walk(t, order, f, path, k + 1)
  }

  datatype Pending = Pending(id: Id, path: Path)

  ghost predicate PendingOk(t: Tree, root: Id, p: Pending) {
    At(t, root, p.path, p.id) && IsFolder(t, root, p.id)
  }

  // The same as a bag, for a pending folder.
  ghost function Below(t: Tree, order: ChildOrder, p: Pending, k: nat): multiset<IndexEntry>
    decreases
      if |p.path| < |t| then |t| - |p.path| else 0,
      if p.id in order && k < |order[p.id]| then |order[p.id]| - k else 0
  {
    if p.id !in order || k >= |order[p.id]| || |p.path| >= |t| || order[p.id][k] !in t then multiset{}
    else
      var c := order[p.id][k];
      var entry := ChildEntry(t, p.id, p.path, c);
      multiset{entry}
      + (if t[c].body.Folder? then Below(t, order, Pending(c, entry.relativePath), 0) else multiset{})
      + Below(t, order, p, k + 1)
  }

  lemma {:induction false} BelowIsWalk(t: Tree, order: ChildOrder, p: Pending, k: nat)
    ensures Below(t, order, p, k) == multiset(Walk(t, order, p.id, p.path, k))
    decreases
      if |p.path| < |t| then |t| - |p.path| else 0,
      if p.id in order && k < |order[p.id]| then |order[p.id]| - k else 0
  {
    if !(p.id !in order || k >= |order[p.id]| || |p.path| >= |t| || order[p.id][k] !in t) {
      var c := order[p.id][k];
      BelowIsWalk(t, order, p, k + 1);
      if t[c].body.Folder? {
        BelowIsWalk(t, order, Pending(c, p.path + [t[c].name]), 0);
      }
    }
  }

  lemma ChildAt(t: Tree, root: Id, f: Id, path: Path, c: Id)
    requires At(t, root, path, f) && c in t && t[c].parent == f
    ensures At(t, root, path + [t[c].name], c)
  {
    assert Init(path + [t[c].name]) == path;
  }

  // The n-th ancestor of a node.
  function Up(t: Tree, id: Id, n: nat): Id
    decreases n
  {
    if n == 0 then id else if id in t then Up(t, t[id].parent, n - 1) else id
  }

  // A node listed under its own path and parent, somewhere below `path`.
  ghost predicate ListedBelow(t: Tree, root: Id, path: Path, e: IndexEntry) {
    && |path| < |e.relativePath| && At(t, root, e.relativePath, e.driveId)
    && e.parentId == t[e.driveId].parent
  }

  // ... below or at one of the children from the k-th on.
  ghost predicate UnderChild(t: Tree, order: ChildOrder, f: Id, path: Path, k: nat, e: IndexEntry)
    requires f in order && |path| < |e.relativePath|
  {
    exists i :: k <= i < |order[f]| && order[f][i] == Up(t, e.driveId, |e.relativePath| - |path| - 1)
  }

  lemma {:induction false} UpAt(t: Tree, root: Id, q: Path, id: Id, n: nat)
    requires At(t, root, q, id) && n <= |q|
    ensures At(t, root, q[..|q| - n], Up(t, id, n))
    decreases n
  {
    if n > 0 {
      UpAt(t, root, Init(q), t[id].parent, n - 1);
      assert Init(q)[..|q| - n] == q[..|q| - n];
    } else {
      assert q[..|q|] == q;
    }
  }

  lemma {:induction false} UpParent(t: Tree, root: Id, q: Path, id: Id, n: nat)
    requires At(t, root, q, id) && n < |q|
    ensures Up(t, id, n) in t && t[Up(t, id, n)].parent == Up(t, id, n + 1)
    decreases n
  {
    if n > 0 {
      UpParent(t, root, Init(q), t[id].parent, n - 1);
    }
  }

  // c is one of the children of the folder f, which is found at `path`.
  ghost predicate ChildOfListed(t: Tree, root: Id, order: ChildOrder, f: Id, path: Path, c: Id) {
    && Lists(t, root, order) && FilesHaveNoChildren(t)
    && At(t, root, path, f) && IsFolder(t, root, f) && f in order && c in order[f]
  }

  // The entry is c's own, or c is a folder and the entry lies below one of its children.
  ghost predicate ThroughChild(t: Tree, root: Id, order: ChildOrder, f: Id, path: Path, c: Id, e: IndexEntry)
    requires c in t
  {
    || e == ChildEntry(t, f, path, c)
    || (t[c].body.Folder? && c in order && ListedBelow(t, root, path + [t[c].name], e)
        && UnderChild(t, order, c, path + [t[c].name], 0, e))
  }

  // What lies at or below the child c is c itself, or c is a folder and it lies
  // below one of c's children.
  lemma ChildFound(t: Tree, root: Id, order: ChildOrder, f: Id, path: Path, c: Id, e: IndexEntry)
    requires ChildOfListed(t, root, order, f, path, c)
    requires ListedBelow(t, root, path, e) && c == Up(t, e.driveId, |e.relativePath| - |path| - 1)
    ensures c in t && ThroughChild(t, root, order, f, path, c, e)
  {
    var q := path + [t[c].name];
    var n := |e.relativePath| - |path| - 1;
    ChildAt(t, root, f, path, c);
    UpAt(t, root, e.relativePath, e.driveId, n);
    PathUnique(t, root, e.relativePath[..|q|], q, c);
    if n == 0 {
      assert e.relativePath[..|q|] == e.relativePath;
    } else {
      UpParent(t, root, e.relativePath, e.driveId, n - 1);
      var d := Up(t, e.driveId, n - 1);
      assert t[d].parent == c && IsFolder(t, root, c) && d in order[c];
    }
  }

  lemma FoundThroughChild(t: Tree, root: Id, order: ChildOrder, f: Id, path: Path, c: Id, e: IndexEntry)
    requires ChildOfListed(t, root, order, f, path, c) && c in t && t[c].body.Folder?
    requires ListedBelow(t, root, path + [t[c].name], e) && c in order
    requires UnderChild(t, order, c, path + [t[c].name], 0, e)
    ensures c == Up(t, e.driveId, |e.relativePath| - |path| - 1)
  {
    var n := |e.relativePath| - |path| - 1;
    var i :| 0 <= i < |order[c]| && order[c][i] == Up(t, e.driveId, n - 1);
    UpParent(t, root, e.relativePath, e.driveId, n - 1);
    assert order[c][i] in order[c] && IsFolder(t, root, c);
  }

  lemma BelowOneChild(t: Tree, root: Id, order: ChildOrder, f: Id, path: Path, c: Id, e: IndexEntry)
    requires ChildOfListed(t, root, order, f, path, c)
    ensures c in t && t[c].parent == f
    ensures ListedBelow(t, root, path, e) && c == Up(t, e.driveId, |e.relativePath| - |path| - 1)
            <==> ThroughChild(t, root, order, f, path, c, e)
  {
    ChildAt(t, root, f, path, c);
    if ListedBelow(t, root, path, e) && c == Up(t, e.driveId, |e.relativePath| - |path| - 1) {
      ChildFound(t, root, order, f, path, c, e);
    }
    if ThroughChild(t, root, order, f, path, c, e) && e != ChildEntry(t, f, path, c) {
      FoundThroughChild(t, root, order, f, path, c, e);
    }
  }

  ghost predicate DistinctEntryIds(es: seq<IndexEntry>) {
    forall i, j | 0 <= i < j < |es| :: es[i].driveId != es[j].driveId
  }

  // The node e is at or below one of the children of p from the k-th on.
  ghost predicate Covers(t: Tree, root: Id, order: ChildOrder, p: Pending, k: nat, e: IndexEntry)
    requires p.id in order
  {
    ListedBelow(t, root, p.path, e) && UnderChild(t, order, p.id, p.path, k, e)
  }

  lemma BelowStep(t: Tree, order: ChildOrder, p: Pending, k: nat, e: IndexEntry)
    requires p.id in order && k < |order[p.id]| && |p.path| < |t| && order[p.id][k] in t
    ensures var c := order[p.id][k];
            var entry := ChildEntry(t, p.id, p.path, c);
            Below(t, order, p, k)[e] ==
              (if e == entry then 1 else 0)
              + (if t[c].body.Folder? then Below(t, order, Pending(c, entry.relativePath), 0)[e] else 0)
              + Below(t, order, p, k + 1)[e]
  {
  }

  // The three parts of a walk have no node in common.
  lemma CoverStep(t: Tree, root: Id, order: ChildOrder, p: Pending, k: nat, e: IndexEntry)
    requires Lists(t, root, order) && FilesHaveNoChildren(t) && PendingOk(t, root, p) && k < |order[p.id]|
    ensures order[p.id][k] in t
    ensures var c := order[p.id][k];
            var entry := ChildEntry(t, p.id, p.path, c);
            var inside := t[c].body.Folder? && Covers(t, root, order, Pending(c, entry.relativePath), 0, e);
            && (Covers(t, root, order, p, k, e) <==> e == entry || inside || Covers(t, root, order, p, k + 1, e))
            && !(e == entry && inside)
            && !((e == entry || inside) && Covers(t, root, order, p, k + 1, e))
  {
    var c := order[p.id][k];
    assert c in order[p.id];
    BelowOneChild(t, root, order, p.id, p.path, c, e);
    if ListedBelow(t, root, p.path, e) {
      SplitChildren(order[p.id], k, Up(t, e.driveId, |e.relativePath| - |p.path| - 1));
    }
  }

  // The walk from the k-th child on lists exactly the nodes at or below the
  // children from the k-th on, each of them once.
  lemma {:induction false} BelowCount(t: Tree, root: Id, order: ChildOrder, p: Pending, k: nat, e: IndexEntry)
    requires Lists(t, root, order) && FilesHaveNoChildren(t) && PendingOk(t, root, p) && k <= |order[p.id]|
    ensures Below(t, order, p, k)[e] == if Covers(t, root, order, p, k, e) then 1 else 0
    decreases |t| - |p.path|, |order[p.id]| - k
  {
    if k < |order[p.id]| {
      CoverStep(t, root, order, p, k, e);
      var c := order[p.id][k];
      assert c in order[p.id];
      var inside := Pending(c, p.path + [t[c].name]);
      ChildAt(t, root, p.id, p.path, c);
      DepthBound(t, root, inside.path, c);
      BelowStep(t, order, p, k, e);
      BelowCount(t, root, order, p, k + 1, e);
      if t[c].body.Folder? {
        BelowCount(t, root, order, inside, 0, e);
      }
    }
  }

  lemma SplitChildren(children: seq<Id>, k: nat, c: Id)
    requires NoRepeats(children) && k < |children|
    ensures (exists i :: k <= i < |children| && children[i] == c) <==>
            children[k] == c || exists i :: k + 1 <= i < |children| && children[i] == c
    ensures children[k] == c ==> !exists i :: k + 1 <= i < |children| && children[i] == c
  {
  }

  // ---- The breadth-first listing -------------------------------------------

  // Answer to one page request: too many requests, an error, or the children
  // from the requested position up to `to`, and whether there is another page.
  datatype Response = TooManyRequests | Refused | Page(items: seq<Id>, to: nat, more: bool)

  // `refuse` says which requests the server answers with an error. Only that may
  // fail a listing: the requests from `from` to `to` were answered, the last one
  // perhaps with an error.
  ghost predicate Answered(refuse: nat -> bool, from: nat, to: nat, ok: bool) {
    && from <= to && (!ok ==> from < to)
    && forall k | from <= k < to :: refuse(k) <==> !ok && k == to - 1
  }

  // The answer to request number `asked`. The server cuts the pages where it likes.
  // A 429 or an empty page that is not the last one uses up one of the finitely
  // many `stalls` it may still cause.
  method ListPage(children: seq<Id>, from: nat, stalls: nat, refuse: nat -> bool, asked: nat)
    returns (r: Response, left: nat)
    requires from <= |children|
    ensures left <= stalls
    ensures r.Refused? <==> refuse(asked)
    ensures r.TooManyRequests? ==> left < stalls
    ensures r.Page? ==>
              && from <= r.to <= |children| && r.items == children[from..r.to]
              && (!r.more ==> r.to == |children|)
              && (r.more && r.to == from ==> left < stalls)
  {
    left := stalls;
    if refuse(asked) {
      return Refused, left;
    }
    if * {
      if stalls > 0 {
        return TooManyRequests, stalls - 1;
      }
    }
    var to: nat := *;
    if from < to <= |children| {
      return Page(children[from..to], to, true), left;
    }
    if to == from && stalls > 0 {
      return Page([], from, true), stalls - 1;
    }
    return Page(children[from..], |children|, false), left;
  }

  // Everything still to be listed by the queued folders.
  ghost function Owed(t: Tree, order: ChildOrder, queue: seq<Pending>): multiset<IndexEntry> {
    if queue == [] then multiset{}
    else Below(t, order, queue[0], 0) + Owed(t, order, queue[1..])
  }

  lemma {:induction false} OwedPush(t: Tree, order: ChildOrder, queue: seq<Pending>, p: Pending)
    ensures Owed(t, order, queue + [p]) == Owed(t, order, queue) + Below(t, order, p, 0)
  {
    if queue == [] {
      assert queue + [p] == [p] && [p][1..] == [];
    } else {
      assert (queue + [p])[0] == queue[0] && (queue + [p])[1..] == queue[1..] + [p];
      OwedPush(t, order, queue[1..], p);
    }
  }

  // The parent of an entry is the root or a folder listed earlier.
  ghost predicate ParentListed(root: Id, dirs: seq<IndexEntry>, parent: Id) {
    parent == root || exists d :: d in dirs && d.driveId == parent
  }

  ghost predicate FoldersFirst(root: Id, dirs: seq<IndexEntry>) {
    forall i | 0 <= i < |dirs| :: ParentListed(root, dirs[..i], dirs[i].parentId)
  }

  lemma FoldersFirstPush(root: Id, dirs: seq<IndexEntry>, e: IndexEntry)
    requires FoldersFirst(root, dirs) && ParentListed(root, dirs, e.parentId)
    ensures FoldersFirst(root, dirs + [e])
  {
    forall i | 0 <= i <= |dirs| ensures ParentListed(root, (dirs + [e])[..i], (dirs + [e])[i].parentId) {
      assert (dirs + [e])[..i] == dirs[..i];
      if i == |dirs| {
        assert dirs[..i] == dirs;
      }
    }
  }

  lemma ParentStaysListed(root: Id, dirs: seq<IndexEntry>, e: IndexEntry)
    ensures ParentListed(root, dirs + [e], e.driveId)
    ensures forall parent :: ParentListed(root, dirs, parent) ==> ParentListed(root, dirs + [e], parent)
  {
    assert e in dirs + [e];
    assert forall d | d in dirs :: d in dirs + [e];
  }

  // What has been listed so far and what is still queued.
  datatype Progress = Progress(files: seq<IndexEntry>, dirs: seq<IndexEntry>, queue: seq<Pending>) {
    function Listed(): nat {
      |files| + |dirs|
    }
  }

  ghost predicate ProgressOk(t: Tree, root: Id, p: Progress) {
    && (forall i | 0 <= i < |p.queue| :: PendingOk(t, root, p.queue[i]) && ParentListed(root, p.dirs, p.queue[i].id))
    && (forall e | e in p.files :: e.driveId in t && t[e.driveId].body.File? && ParentListed(root, p.dirs, e.parentId))
    && (forall e | e in p.dirs :: e.driveId in t && t[e.driveId].body.Folder?)
    && FoldersFirst(root, p.dirs)
  }

  // Listed entries and entries still owed. No step changes this bag.
  ghost function Total(t: Tree, order: ChildOrder, p: Progress): multiset<IndexEntry> {
    multiset(p.files) + multiset(p.dirs) + Owed(t, order, p.queue)
  }

  // ---- Listing one folder --------------------------------------------------

  function AddOne(t: Tree, current: Pending, p: Progress, c: Id): Progress
    requires c in t
  {
    var entry := ChildEntry(t, current.id, current.path, c);
    if t[c].body.Folder?
    then p.(dirs := p.dirs + [entry], queue := p.queue + [Pending(c, entry.relativePath)])
    else p.(files := p.files + [entry])
  }

  function AddAll(t: Tree, current: Pending, p: Progress, items: seq<Id>): Progress
    requires forall i | 0 <= i < |items| :: items[i] in t
    decreases |items|
  {
    if items == [] then p else AddAll(t, current, AddOne(t, current, p, items[0]), items[1..])
  }

  lemma {:induction false} AddAllConcat(t: Tree, current: Pending, p: Progress, a: seq<Id>, b: seq<Id>)
    requires forall i | 0 <= i < |a| :: a[i] in t
    requires forall i | 0 <= i < |b| :: b[i] in t
    ensures AddAll(t, current, AddAll(t, current, p, a), b) == AddAll(t, current, p, a + b)
    decreases |a|
  {
    if a == [] {
      assert a + b == b;
    } else {
      assert (a + b)[1..] == a[1..] + b;
      AddAllConcat(t, current, AddOne(t, current, p, a[0]), a[1..], b);
    }
  }

  // One child moves its entry to the listed ones and, if it is a folder, what is
  // below it to the owed ones.
  lemma AddOneTotal(t: Tree, order: ChildOrder, current: Pending, p: Progress, c: Id)
    requires c in t
    ensures var entry := ChildEntry(t, current.id, current.path, c);
            Total(t, order, AddOne(t, current, p, c)) == Total(t, order, p) + multiset{entry}
              + (if t[c].body.Folder? then Below(t, order, Pending(c, entry.relativePath), 0) else multiset{})
  {
    if t[c].body.Folder? {
      OwedPush(t, order, p.queue, Pending(c, current.path + [t[c].name]));
    }
  }

  lemma {:induction false} AddAllTotal(t: Tree, order: ChildOrder, current: Pending, p: Progress, k: nat)
    requires current.id in order && k <= |order[current.id]|
    requires forall i | 0 <= i < |order[current.id]| :: order[current.id][i] in t
    requires k < |order[current.id]| ==> |current.path| < |t|
    ensures Total(t, order, AddAll(t, current, p, order[current.id][k..]))
         == Total(t, order, p) + Below(t, order, current, k)
    decreases |order[current.id]| - k
  {
    var children := order[current.id];
    if k < |children| {
      assert children[k..][0] == children[k] && children[k..][1..] == children[k + 1..];
      AddOneTotal(t, order, current, p, children[k]);
      AddAllTotal(t, order, current, AddOne(t, current, p, children[k]), k + 1);
    }
  }

  ghost predicate Listable(t: Tree, root: Id, current: Pending, p: Progress) {
    ProgressOk(t, root, p) && PendingOk(t, root, current) && ParentListed(root, p.dirs, current.id)
  }

  lemma AddOneOk(t: Tree, root: Id, current: Pending, p: Progress, c: Id)
    requires Listable(t, root, current, p) && c in t && t[c].parent == current.id
    ensures Listable(t, root, current, AddOne(t, current, p, c))
  {
    var entry := ChildEntry(t, current.id, current.path, c);
    ChildAt(t, root, current.id, current.path, c);
    if t[c].body.Folder? {
      ParentStaysListed(root, p.dirs, entry);
      FoldersFirstPush(root, p.dirs, entry);
    }
  }

  lemma {:induction false} AddAllOk(t: Tree, root: Id, current: Pending, p: Progress, items: seq<Id>)
    requires Listable(t, root, current, p)
    requires forall i | 0 <= i < |items| :: items[i] in t && t[items[i]].parent == current.id
    ensures Listable(t, root, current, AddAll(t, current, p, items))
    ensures AddAll(t, current, p, items).Listed() == p.Listed() + |items|
    ensures |AddAll(t, current, p, items).queue| <= |p.queue| + |items|
    decreases |items|
  {
    if items != [] {
      AddOneOk(t, root, current, p, items[0]);
      AddAllOk(t, root, current, AddOne(t, current, p, items[0]), items[1..]);
    }
  }

  // Handles the items of one page.
  method ListItems(t: Tree, current: Pending, items: seq<Id>, p: Progress) returns (now: Progress)
    requires forall i | 0 <= i < |items| :: items[i] in t
    ensures now == AddAll(t, current, p, items)
  {
    now := p;
    for i := 0 to |items|
      invariant AddAll(t, current, now, items[i..]) == AddAll(t, current, p, items)
    {
      var c := items[i];
      assert items[i..][0] == c && items[i..][1..] == items[i + 1..];
      var entry := IndexEntry(current.path + [t[c].name], c, current.id);
      if t[c].body.Folder? {
        now := now.(dirs := now.dirs + [entry], queue := now.queue + [Pending(c, entry.relativePath)]);
      } else {
        now := now.(files := now.files + [entry]);
      }
    }
  }

  // Lists all pages of one folder; None on an error answer.
  method ListFolder(t: Tree, children: seq<Id>, current: Pending, p: Progress, stalls: nat,
                    refuse: nat -> bool, asked: nat)
    returns (r: Option<Progress>, left: nat, next: nat)
    requires forall i | 0 <= i < |children| :: children[i] in t
    ensures r.Some? ==> r.value == AddAll(t, current, p, children)
    ensures Answered(refuse, asked, next, r.Some?)
  {
    left, next := stalls, asked;
    var from, more, now := 0, true, p;
    while more
      invariant from <= |children| && (!more ==> from == |children|)
      invariant now == AddAll(t, current, p, children[..from])
      invariant Answered(refuse, asked, next, true)
      decreases |children| - from, left, if more then 1 else 0
    {
      var page;
      page, left := ListPage(children, from, left, refuse, next);
      next := next + 1;
      match page {
        case TooManyRequests =>
        case Refused =>
          return None, left, next;
        case Page(items, to, again) =>
          assert children[..from] + items == children[..to];
          AddAllConcat(t, current, p, children[..from], items);
          now := ListItems(t, current, items, now);
          from, more := to, again;
      }
    }
    assert children[..from] == children;
    return Some(now), left, next;
  }

  lemma BagSize(a: seq<IndexEntry>, b: seq<IndexEntry>, c: multiset<IndexEntry>)
    ensures |a| + |b| <= |multiset(a) + multiset(b) + c|
  {
  }

  lemma ChildrenOf(t: Tree, root: Id, order: ChildOrder, p: Pending)
    requires Lists(t, root, order) && PendingOk(t, root, p)
    ensures p.id in order
    ensures forall i | 0 <= i < |order[p.id]| :: order[p.id][i] in t && t[order[p.id][i]].parent == p.id
    ensures order[p.id] != [] ==> |p.path| < |t|
  {
    var children := order[p.id];
    assert forall i | 0 <= i < |children| :: children[i] in children;
    if children != [] {
      ChildAt(t, root, p.id, p.path, children[0]);
      DepthBound(t, root, p.path + [t[children[0]].name], children[0]);
    }
  }

  // The state after the first queued folder has been taken off and listed.
  ghost function ListNext(t: Tree, order: ChildOrder, p: Progress): Progress
    requires p.queue != [] && p.queue[0].id in order
    requires forall i | 0 <= i < |order[p.queue[0].id]| :: order[p.queue[0].id][i] in t
  {
    AddAll(t, p.queue[0], p.(queue := p.queue[1..]), order[p.queue[0].id])
  }

  lemma ListNextTotal(t: Tree, root: Id, order: ChildOrder, p: Progress)
    requires Lists(t, root, order) && p.queue != [] && PendingOk(t, root, p.queue[0])
    ensures p.queue[0].id in order && forall i | 0 <= i < |order[p.queue[0].id]| :: order[p.queue[0].id][i] in t
    ensures Total(t, order, ListNext(t, order, p)) == Total(t, order, p)
  {
    var current := p.queue[0];
    ChildrenOf(t, root, order, current);
    AddAllTotal(t, order, current, p.(queue := p.queue[1..]), 0);
    assert order[current.id][0..] == order[current.id];
  }

  lemma ListNextOk(t: Tree, root: Id, order: ChildOrder, p: Progress)
    requires Lists(t, root, order) && p.queue != [] && ProgressOk(t, root, p)
    ensures PendingOk(t, root, p.queue[0])
    ensures p.queue[0].id in order && forall i | 0 <= i < |order[p.queue[0].id]| :: order[p.queue[0].id][i] in t
    ensures var next := ListNext(t, order, p);
            && ProgressOk(t, root, next)
            && 2 * p.Listed() - |p.queue| < 2 * next.Listed() - |next.queue|
  {
    var current := p.queue[0];
    assert PendingOk(t, root, current);
    ChildrenOf(t, root, order, current);
    var rest := p.(queue := p.queue[1..]);
    forall i | 0 <= i < |rest.queue|
      ensures PendingOk(t, root, rest.queue[i]) && ParentListed(root, rest.dirs, rest.queue[i].id)
    {
      assert rest.queue[i] == p.queue[i + 1];
    }
    AddAllOk(t, root, current, rest, order[current.id]);
  }

  // Between two folders: what is listed and what is owed make up everything.
  ghost predicate Underway(t: Tree, root: Id, order: ChildOrder, p: Progress) {
    ProgressOk(t, root, p) && Total(t, order, p) == Below(t, order, Pending(root, []), 0)
  }

  // How much there is left to do.
  ghost function Remaining(t: Tree, root: Id, order: ChildOrder, p: Progress): int {
    2 * (|Below(t, order, Pending(root, []), 0)| - p.Listed()) + |p.queue|
  }

  lemma UnderwayStart(t: Tree, root: Id, order: ChildOrder)
    requires Lists(t, root, order)
    ensures Underway(t, root, order, Progress([], [], [Pending(root, [])]))
  {
    var p := Progress([], [], [Pending(root, [])]);
    assert p.queue[1..] == [];
    assert Owed(t, order, p.queue) == Below(t, order, Pending(root, []), 0);
  }

  lemma UnderwayNext(t: Tree, root: Id, order: ChildOrder, p: Progress)
    requires Lists(t, root, order) && p.queue != [] && Underway(t, root, order, p)
    ensures p.queue[0].id in order && forall i | 0 <= i < |order[p.queue[0].id]| :: order[p.queue[0].id][i] in t
    ensures var next := ListNext(t, order, p);
            && Underway(t, root, order, next)
            && 0 <= Remaining(t, root, order, next) < Remaining(t, root, order, p)
  {
    ListNextOk(t, root, order, p);
    ListNextTotal(t, root, order, p);
    var next := ListNext(t, order, p);
    BagSize(next.files, next.dirs, Owed(t, order, next.queue));
  }

  lemma UnderwayEnd(t: Tree, root: Id, order: ChildOrder, p: Progress)
    requires Underway(t, root, order, p) && p.queue == []
    ensures multiset(p.files) + multiset(p.dirs) == multiset(Walk(t, order, root, [], 0))
    ensures forall e | e in p.files :: e.driveId in t && t[e.driveId].body.File?
    ensures forall e | e in p.dirs :: e.driveId in t && t[e.driveId].body.Folder?
    ensures FoldersFirst(root, p.dirs) && forall e | e in p.files :: ParentListed(root, p.dirs, e.parentId)
  {
    BelowIsWalk(t, order, Pending(root, []), 0);
  }

  // The whole listing. It always ends, and fails exactly if its last request was
  // answered with an error; when it succeeds it holds exactly what the recursive
  // walk lists, each folder before what is in it.
  method ListRemote(t: Tree, root: Id, order: ChildOrder, stalls: nat, refuse: nat -> bool)
    returns (r: Option<RemoteIndex>, asked: nat)
    requires Lists(t, root, order)
    ensures Answered(refuse, 0, asked, r.Some?)
    ensures r.Some? ==>
              && multiset(r.value.files) + multiset(r.value.dirs) == multiset(Walk(t, order, root, [], 0))
              && (forall e | e in r.value.files :: e.driveId in t && t[e.driveId].body.File?)
              && (forall e | e in r.value.dirs :: e.driveId in t && t[e.driveId].body.Folder?)
              && FoldersFirst(root, r.value.dirs)
              && (forall e | e in r.value.files :: ParentListed(root, r.value.dirs, e.parentId))
  {
    var p := Progress([], [], [Pending(root, [])]);
    var left := stalls;
    asked := 0;
    UnderwayStart(t, root, order);
    while p.queue != []
      invariant Underway(t, root, order, p) && Answered(refuse, 0, asked, true)
      decreases Remaining(t, root, order, p)
    {
      UnderwayNext(t, root, order, p);
      var current := p.queue[0];
      var next;
      next, left, asked := ListFolder(t, order[current.id], current, p.(queue := p.queue[1..]), left, refuse, asked);
      if next.None? {
        return None, asked;
      }
      p := next.value;
    }
    UnderwayEnd(t, root, order, p);
    return Some(RemoteIndex(p.files, p.dirs)), asked;
  }

  // ---- What a successful listing is ----------------------------------------

  // Every node below the root, once, under its path and parent; folders and
  // files apart.
  ghost predicate IsListing(t: Tree, root: Id, index: RemoteIndex) {
    && (forall e | e in index.files + index.dirs :: ListedBelow(t, root, [], e))
    && (forall e | e in index.files :: e.driveId in t && t[e.driveId].body.File?)
    && (forall e | e in index.dirs :: e.driveId in t && t[e.driveId].body.Folder?)
    && (forall p, id | p != [] && At(t, root, p, id) ::
          IndexEntry(p, id, t[id].parent) in (if t[id].body.File? then index.files else index.dirs))
    && DistinctEntryIds(index.files + index.dirs)
  }

  lemma ListedExactly(t: Tree, root: Id, order: ChildOrder, index: RemoteIndex)
    requires WellFormed(t, root) && Lists(t, root, order)
    requires multiset(index.files) + multiset(index.dirs) == multiset(Walk(t, order, root, [], 0))
    requires forall e | e in index.files :: e.driveId in t && t[e.driveId].body.File?
    requires forall e | e in index.dirs :: e.driveId in t && t[e.driveId].body.Folder?
    ensures IsListing(t, root, index)
  {
    var es := index.files + index.dirs;
    BelowIsWalk(t, order, Pending(root, []), 0);
    assert multiset(es) == Below(t, order, Pending(root, []), 0);
    forall e ensures e in es <==> ListedBelow(t, root, [], e) {
      ListedOnce(t, root, order, es, e);
    }
    forall p, id | p != [] && At(t, root, p, id)
      ensures IndexEntry(p, id, t[id].parent) in (if t[id].body.File? then index.files else index.dirs)
    {
      assert ListedBelow(t, root, [], IndexEntry(p, id, t[id].parent));
    }
    EachIdOnce(t, root, order, es);
  }

  lemma ListedOnce(t: Tree, root: Id, order: ChildOrder, es: seq<IndexEntry>, e: IndexEntry)
    requires WellFormed(t, root) && Lists(t, root, order) && multiset(es) == Below(t, order, Pending(root, []), 0)
    ensures e in es <==> ListedBelow(t, root, [], e)
    ensures multiset(es)[e] <= 1
  {
    var top := Pending(root, []);
    BelowCount(t, root, order, top, 0, e);
    assert e in es <==> multiset(es)[e] > 0;
    if ListedBelow(t, root, [], e) {
      UpAt(t, root, e.relativePath, e.driveId, |e.relativePath|);
      UpParent(t, root, e.relativePath, e.driveId, |e.relativePath| - 1);
      assert e.relativePath[..0] == [];
      assert Up(t, e.driveId, |e.relativePath| - 1) in order[root];
      assert Covers(t, root, order, top, 0, e);
    }
  }

  lemma EachIdOnce(t: Tree, root: Id, order: ChildOrder, es: seq<IndexEntry>)
    requires WellFormed(t, root) && Lists(t, root, order) && multiset(es) == Below(t, order, Pending(root, []), 0)
    ensures DistinctEntryIds(es)
  {
    forall i, j | 0 <= i < j < |es| ensures es[i].driveId != es[j].driveId {
      ListedOnce(t, root, order, es, es[i]);
      ListedOnce(t, root, order, es, es[j]);
      if es[i].driveId == es[j].driveId {
        PathUnique(t, root, es[i].relativePath, es[j].relativePath, es[i].driveId);
        TwiceInBag(es, i, j);
      }
    }
  }

  lemma TwiceInBag(b: seq<IndexEntry>, i: nat, j: nat)
    requires i < j < |b| && b[i] == b[j]
    ensures multiset(b)[b[i]] >= 2
  {
    assert b == b[..i] + [b[i]] + b[i + 1..j] + [b[j]] + b[j + 1..];
  }

  // ---- The walk, spelled out -----------------------------------------------

  // The walk from the k-th child of a folder on: that child under the joined path and
  // with the folder as its parent, then all below it if it is a folder, then the rest.
  lemma WalkExactly(t: Tree, root: Id, order: ChildOrder, f: Id, path: Path, k: nat)
    requires Lists(t, root, order) && At(t, root, path, f) && IsFolder(t, root, f)
    ensures k >= |order[f]| ==> Walk(t, order, f, path, k) == []
    ensures k < |order[f]| ==>
              var c := order[f][k];
              && c in t
              && Walk(t, order, f, path, k) ==
                 [IndexEntry(path + [t[c].name], c, f)]
                 + (if t[c].body.Folder? then Walk(t, order, c, path + [t[c].name], 0) else [])
                 + Walk(t, order, f, path, k + 1)
  {
    if k < |order[f]| {
      var c := order[f][k];
      assert c in order[f];
      ChildAt(t, root, f, path, c);
      DepthBound(t, root, path + [t[c].name], c);
    }
  }

  // What a listing is, spelled out for one node.
  lemma ListingExactly(t: Tree, root: Id, index: RemoteIndex, e: IndexEntry)
    requires IsListing(t, root, index)
    ensures e in index.files <==>
            && e.relativePath != [] && At(t, root, e.relativePath, e.driveId)
            && t[e.driveId].body.File? && e.parentId == t[e.driveId].parent
    ensures e in index.dirs <==>
            && e.relativePath != [] && At(t, root, e.relativePath, e.driveId)
            && t[e.driveId].body.Folder? && e.parentId == t[e.driveId].parent
  {
    if e in index.files || e in index.dirs {
      assert e in index.files + index.dirs;
    }
    if e.relativePath != [] && At(t, root, e.relativePath, e.driveId) && e.parentId == t[e.driveId].parent {
      assert e == IndexEntry(e.relativePath, e.driveId, t[e.driveId].parent);
    }
  }

  // Each folder comes after the folder it is in.
  lemma FoldersFirstExactly(root: Id, dirs: seq<IndexEntry>)
    ensures FoldersFirst(root, dirs) <==>
            forall i | 0 <= i < |dirs| ::
              dirs[i].parentId == root || exists j :: 0 <= j < i && dirs[j].driveId == dirs[i].parentId
  {
    forall i | 0 <= i < |dirs|
      ensures ParentListed(root, dirs[..i], dirs[i].parentId) <==>
              dirs[i].parentId == root || exists j :: 0 <= j < i && dirs[j].driveId == dirs[i].parentId
    {
      if d :| d in dirs[..i] && d.driveId == dirs[i].parentId {
        var j :| 0 <= j < i && dirs[j] == d;
      }
      if j :| 0 <= j < i && dirs[j].driveId == dirs[i].parentId {
        assert dirs[j] in dirs[..i];
      }
    }
  }
}
