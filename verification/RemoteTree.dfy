// The remote folder tree: nodes addressed by id, each with a name and a parent
// id, and the effect of the four provider operations on it.
module RemoteTree {
  import opened Paths

  // `DryRun` ids are the placeholders a simulated scan puts in its cache.
  datatype Id = Drive(n: nat) | DryRun(tag: string)

  type Content = seq<bv8>

  datatype Body = Folder | File(content: Content)

  datatype Node = Node(name: string, parent: Id, body: Body)

  type Tree = map<Id, Node>

  // The names from the root down to `id` spell p. The root itself is not a node.
  predicate At(t: Tree, root: Id, p: Path, id: Id)
    decreases |p|
  {
    if p == [] then id == root
    else id in t && t[id].name == Last(p) && At(t, root, Init(p), t[id].parent)
  }

  predicate IsFolder(t: Tree, root: Id, id: Id) {
    id == root || (id in t && t[id].body.Folder?)
  }

  // Names are unique inside a folder and files have no children. A node whose
  // parent was deleted stays in the map but is no longer below the root.
  ghost predicate WellFormed(t: Tree, root: Id) {
    && root !in t
    && (forall id | id in t :: IsName(t[id].name))
    && (forall i, j | i in t && j in t && i != j && t[i].parent == t[j].parent :: t[i].name != t[j].name)
    && (forall id | id in t && t[id].parent in t :: t[t[id].parent].body.Folder?)
  }

  // An id the provider may give to a new object: ids are never reused.
  ghost predicate Fresh(t: Tree, root: Id, id: Id) {
    id !in t && id != root && forall j | j in t :: t[j].parent != id
  }

  lemma {:induction false} PathUnique(t: Tree, root: Id, p: Path, q: Path, id: Id)
    requires root !in t && At(t, root, p, id) && At(t, root, q, id)
    ensures p == q
    decreases |p|
  {
    if p != [] && q != [] {
      PathUnique(t, root, Init(p), Init(q), t[id].parent);
      assert p == Init(p) + [Last(p)] && q == Init(q) + [Last(q)];
    }
  }

  lemma {:induction false} IdUnique(t: Tree, root: Id, p: Path, i: Id, j: Id)
    requires WellFormed(t, root) && At(t, root, p, i) && At(t, root, p, j)
    ensures i == j
    decreases |p|
  {
    if p != [] {
      IdUnique(t, root, Init(p), t[i].parent, t[j].parent);
    }
  }

  lemma {:induction false} AtCanonical(t: Tree, root: Id, p: Path, id: Id)
    requires WellFormed(t, root) && At(t, root, p, id)
    ensures Canonical(p)
    decreases |p|
  {
    if p != [] {
      AtCanonical(t, root, Init(p), t[id].parent);
      assert p == Init(p) + [Last(p)];
    }
  }

  // Every proper ancestor of a listed path is a listed folder.
  lemma {:induction false} AncestorAt(t: Tree, root: Id, p: Path, q: Path, id: Id) returns (a: Id)
    requires WellFormed(t, root) && At(t, root, q, id) && IsPrefix(p, q)
    ensures At(t, root, p, a)
    ensures p != q ==> IsFolder(t, root, a)
    decreases |q|
  {
    if p == q {
      a := id;
    } else if |p| == |q| - 1 {
      assert p == Init(q);
      a := t[id].parent;
      if p != [] {
        assert a in t;
      }
    } else {
      assert Init(q)[..|p|] == q[..|p|];
      a := AncestorAt(t, root, p, Init(q), t[id].parent);
    }
  }

  // The ids met on the way up from a node are distinct, so no path is longer
  // than the tree has nodes.
  ghost function Chain(t: Tree, root: Id, p: Path, id: Id): set<Id>
    requires At(t, root, p, id)
    decreases |p|
  {
    if p == [] then {} else {id} + Chain(t, root, Init(p), t[id].parent)
  }

  lemma {:induction false} ChainMember(t: Tree, root: Id, p: Path, id: Id, j: Id) returns (q: Path)
    requires At(t, root, p, id) && j in Chain(t, root, p, id)
    ensures At(t, root, q, j) && q != [] && |q| <= |p|
    decreases |p|
  {
    if j == id {
      q := p;
    } else {
      q := ChainMember(t, root, Init(p), t[id].parent, j);
    }
  }

  lemma {:induction false} ChainSize(t: Tree, root: Id, p: Path, id: Id)
    requires root !in t && At(t, root, p, id)
    ensures Chain(t, root, p, id) <= t.Keys && |Chain(t, root, p, id)| == |p|
    decreases |p|
  {
    if p != [] {
      var up := t[id].parent;
      ChainSize(t, root, Init(p), up);
      if id in Chain(t, root, Init(p), up) {
        var q := ChainMember(t, root, Init(p), up, id);
        PathUnique(t, root, p, q, id);
      }
    }
  }

  lemma {:induction false} Subset(a: set<Id>, b: set<Id>)
    requires a <= b
    ensures |a| <= |b|
  {
    assert a + (b - a) == b;
  }

  lemma DepthBound(t: Tree, root: Id, p: Path, id: Id)
    requires root !in t && At(t, root, p, id)
    ensures |p| <= |t|
  {
    ChainSize(t, root, p, id);
    Subset(Chain(t, root, p, id), t.Keys);
    assert |t.Keys| == |t|;
  }

  // ---- Effect of each operation on what a listing shows -------------------

  // Creating an object adds exactly one path, the child path of its parent.
  lemma {:induction false} InsertAt(t: Tree, root: Id, id: Id, node: Node, q: Path, j: Id)
    requires root !in t && Fresh(t, root, id) && node.parent != id
    ensures At(t[id := node], root, q, j) <==>
            At(t, root, q, j) || (j == id && q != [] && Last(q) == node.name && At(t, root, Init(q), node.parent))
    decreases |q|
  {
    if q != [] {
      if j == id {
        InsertAt(t, root, id, node, Init(q), node.parent);
      } else if j in t {
        InsertAt(t, root, id, node, Init(q), t[j].parent);
      }
    }
  }

  // Rewriting the content of a file moves nothing.
  lemma {:induction false} ContentAt(t: Tree, root: Id, id: Id, b: Body, q: Path, j: Id)
    requires id in t
    ensures At(t[id := t[id].(body := b)], root, q, j) <==> At(t, root, q, j)
    decreases |q|
  {
    if q != [] && j in t {
      ContentAt(t, root, id, b, Init(q), t[j].parent);
    }
  }

  // Deleting an object hides its path and every path below it, and nothing else.
  lemma {:induction false} DeleteAt(t: Tree, root: Id, p: Path, id: Id, q: Path, j: Id)
    requires WellFormed(t, root) && id in t && At(t, root, p, id)
    ensures At(t - {id}, root, q, j) <==> At(t, root, q, j) && !IsPrefix(p, q)
    decreases |q|
  {
    if q != [] && j in t {
      DeleteAt(t, root, p, id, Init(q), t[j].parent);
      if At(t, root, q, j) && j == id {
        PathUnique(t, root, p, q, id);
      }
      if At(t, root, q, j) && p == q {
        IdUnique(t, root, p, id, j);
      }
      assert |p| < |q| ==> Init(q)[..|p|] == q[..|p|];
    }
  }

  // Moving a file takes its path to the new place and moves nothing else.
  lemma {:induction false} MoveAt(t: Tree, root: Id, id: Id, name: string, parent: Id, q: Path, j: Id)
    requires WellFormed(t, root) && id in t && t[id].body.File? && parent != id
    ensures var t' := t[id := t[id].(name := name, parent := parent)];
            At(t', root, q, j) <==>
            if j == id then q != [] && Last(q) == name && At(t, root, Init(q), parent)
            else At(t, root, q, j)
    decreases |q|
  {
    if q != [] && j in t {
      if j == id {
        MoveAt(t, root, id, name, parent, Init(q), parent);
      } else if t[j].parent != id {
        MoveAt(t, root, id, name, parent, Init(q), t[j].parent);
      }
    }
  }

  // ---- The four operations keep the tree well-formed -----------------------

  ghost predicate NameFree(t: Tree, parent: Id, name: string) {
    forall i | i in t && t[i].parent == parent :: t[i].name != name
  }

  lemma InsertWellFormed(t: Tree, root: Id, id: Id, node: Node)
    requires WellFormed(t, root) && Fresh(t, root, id)
    requires IsName(node.name) && IsFolder(t, root, node.parent) && NameFree(t, node.parent, node.name)
    ensures WellFormed(t[id := node], root)
  {
  }

  // A path that is not listed leaves its name free in its (listed) parent.
  lemma UnlistedNameFree(t: Tree, root: Id, p: Path, parent: Id)
    requires p != [] && At(t, root, Init(p), parent)
    requires forall j :: !At(t, root, p, j)
    ensures NameFree(t, parent, Last(p))
  {
    forall i | i in t && t[i].parent == parent ensures t[i].name != Last(p) {
      assert !At(t, root, p, i);
    }
  }

  ghost predicate PathFree(t: Tree, root: Id, p: Path) {
    forall j :: !At(t, root, p, j)
  }

  lemma TakenName(t: Tree, root: Id, p: Path, parent: Id, j: Id)
    requires WellFormed(t, root) && p != [] && At(t, root, Init(p), parent) && At(t, root, p, j)
    ensures j in t && t[j].parent == parent && t[j].name == Last(p)
  {
    IdUnique(t, root, Init(p), parent, t[j].parent);
  }

  lemma SameNameTwice(t: Tree, root: Id, i: Id, j: Id)
    requires i in t && j in t && i != j && t[i].parent == t[j].parent && t[i].name == t[j].name
    ensures !WellFormed(t, root)
  {
  }

  // A new object keeps the tree well-formed exactly if there was none at its path.
  lemma InsertCollides(t: Tree, root: Id, p: Path, parent: Id, id: Id, body: Body)
    requires WellFormed(t, root) && p != [] && Canonical(p) && Fresh(t, root, id)
    requires At(t, root, Init(p), parent) && IsFolder(t, root, parent)
    ensures WellFormed(t[id := Node(Last(p), parent, body)], root) <==> PathFree(t, root, p)
  {
    InitCanonical(p);
    var t' := t[id := Node(Last(p), parent, body)];
    if !PathFree(t, root, p) {
      var j :| At(t, root, p, j);
      TakenName(t, root, p, parent, j);
      SameNameTwice(t', root, id, j);
    } else {
      UnlistedNameFree(t, root, p, parent);
      InsertWellFormed(t, root, id, Node(Last(p), parent, body));
    }
  }

  // So does moving a file away from its path.
  lemma MoveCollides(t: Tree, root: Id, id: Id, p: Path, parent: Id)
    requires WellFormed(t, root) && p != [] && Canonical(p) && id in t && t[id].body.File? && !At(t, root, p, id)
    requires At(t, root, Init(p), parent) && IsFolder(t, root, parent)
    ensures WellFormed(t[id := t[id].(name := Last(p), parent := parent)], root) <==> PathFree(t, root, p)
  {
    InitCanonical(p);
    var t' := t[id := t[id].(name := Last(p), parent := parent)];
    if !PathFree(t, root, p) {
      var j :| At(t, root, p, j);
      TakenName(t, root, p, parent, j);
      SameNameTwice(t', root, id, j);
    } else {
      UnlistedNameFree(t, root, p, parent);
    }
  }
}
