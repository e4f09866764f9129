// The path cache: relative path -> (drive id, parent id). The program keys it by
// the joined string; clients reason about it by path components (`model`).
module PathCaching {
  import opened Paths
  import opened RemoteTree

  datatype CacheEntry = CacheEntry(driveId: Id, parentId: Id)

  type Entries = map<Path, CacheEntry>

  datatype IndexEntry = IndexEntry(relativePath: Path, driveId: Id, parentId: Id)

  datatype RemoteIndex = RemoteIndex(files: seq<IndexEntry>, dirs: seq<IndexEntry>)

  datatype Option<+T> = None | Some(value: T)

  function Get<K, V>(m: map<K, V>, k: K): Option<V> {
    if k in m then Some(m[k]) else None
  }

  // What is left of the entries when p and everything below it is dropped.
  function Cascade(m: Entries, p: Path): Entries {
    map q | q in m && !IsPrefix(p, q) :: m[q]
  }

  // Entries inserted one after the other; the last one wins.
  function Filled(m: Entries, es: seq<IndexEntry>): Entries {
    if es == [] then m
    else
      var e := es[|es| - 1];
      Filled(m, es[..|es| - 1])[e.relativePath := CacheEntry(e.driveId, e.parentId)]
  }

  // Every entry's parent is cached too, under the id the entry names.
  ghost predicate ParentClosed(m: Entries, root: Id) {
    forall p | p in m ::
      && p != []
      && (|p| == 1 ==> m[p].parentId == root)
      && (|p| > 1 ==> Init(p) in m && m[Init(p)].driveId == m[p].parentId)
  }

  lemma {:induction false} FilledKeys(m: Entries, es: seq<IndexEntry>, p: Path)
    ensures p in Filled(m, es) <==> p in m || exists e :: e in es && e.relativePath == p
    ensures p in Filled(m, es) && !(exists e :: e in es && e.relativePath == p) ==> Filled(m, es)[p] == m[p]
    ensures p in Filled(m, es) && (exists e :: e in es && e.relativePath == p) ==>
              exists e :: e in es && e.relativePath == p && Filled(m, es)[p] == CacheEntry(e.driveId, e.parentId)
  {
    if es != [] {
      var last, before := es[|es| - 1], es[..|es| - 1];
      FilledKeys(m, before, p);
      assert es == before + [last];
      assert forall e :: e in es <==> e in before || e == last;
    }
  }

  lemma {:induction false} AncestorsCached(m: Entries, root: Id, p: Path, q: Path)
    requires ParentClosed(m, root) && q in m && p != [] && IsPrefix(p, q)
    ensures p in m
    decreases |q|
  {
    if p != q {
      assert Init(q)[..|p|] == q[..|p|];
      AncestorsCached(m, root, p, Init(q));
    }
  }

  // Dropping a path with everything below it leaves no entry without its parent.
  lemma CascadeParentClosed(m: Entries, root: Id, p: Path)
    requires ParentClosed(m, root) && p != []
    ensures ParentClosed(Cascade(m, p), root)
  {
    forall q | q in Cascade(m, p) && |q| > 1 ensures !IsPrefix(p, Init(q)) {
      assert |p| < |q| ==> q[..|p|] == Init(q)[..|p|];
    }
  }

  // Dropping only the path itself would not do: the entry below loses its parent.
  lemma RemovingOnlyThePathIsNotEnough(root: Id, a: Id, b: Id)
    ensures var m := map[["a"] := CacheEntry(a, root), ["a", "b"] := CacheEntry(b, a)];
            ParentClosed(m, root) && !ParentClosed(m - {["a"]}, root)
  {
    var m := map[["a"] := CacheEntry(a, root), ["a", "b"] := CacheEntry(b, a)];
    assert Init(["a", "b"]) == ["a"];
    assert ["a", "b"] in m - {["a"]};
  }

  lemma PrefixesOfOnePath(p: Path, a: Path, b: Path)
    requires IsPrefix(a, p) && IsPrefix(b, p)
    ensures |a| == |b| ==> a == b
  {
  }

  class PathCache {
    var entries: map<string, CacheEntry>
    ghost var model: Entries

    ghost predicate Valid()
      reads this
    {
      && (forall p | p in model :: Canonical(p) && p != [] && Join(p) in entries && entries[Join(p)] == model[p])
      && (forall k | k in entries :: Components(k) in model && Join(Components(k)) == k)
    }

    constructor ()
      ensures Valid() && model == map[]
    {
      entries := map[];
      model := map[];
    }

    lemma Represents(p: Path)
      requires Valid() && Canonical(p)
      ensures Join(p) in entries <==> p in model
    {
      if Join(p) in entries {
        ComponentsOfJoin(p);
      }
    }

    method Lookup(p: Path) returns (r: Option<CacheEntry>)
      requires Valid() && Canonical(p)
      ensures r == Get(model, p)
    {
      Represents(p);
      var key := Join(p);
      r := if key in entries then Some(entries[key]) else None;
    }

    method Insert(p: Path, driveId: Id, parentId: Id)
      requires Valid() && Canonical(p) && p != []
      modifies this
      ensures Valid() && model == old(model)[p := CacheEntry(driveId, parentId)]
    {
      ComponentsOfJoin(p);
      forall q | Canonical(q) && Join(q) == Join(p) ensures q == p {
        JoinInjective(q, p);
      }
      entries := entries[Join(p) := CacheEntry(driveId, parentId)];
      model := model[p := CacheEntry(driveId, parentId)];
    }

    method InsertAll(es: seq<IndexEntry>)
      requires Valid() && forall e | e in es :: Canonical(e.relativePath) && e.relativePath != []
      modifies this
      ensures Valid() && model == Filled(old(model), es)
    {
      assert es[..0] == [];
      for i := 0 to |es|
        invariant Valid() && model == Filled(old(model), es[..i])
      {
        assert es[..i + 1][..i] == es[..i];
        Insert(es[i].relativePath, es[i].driveId, es[i].parentId);
      }
      assert es[..|es|] == es;
    }

    // Clears the cache, then inserts the folders, then the files.
    method RebuildFromIndex(index: RemoteIndex)
      requires forall e | e in index.dirs + index.files :: Canonical(e.relativePath) && e.relativePath != []
      modifies this
      ensures Valid() && model == Filled(Filled(map[], index.dirs), index.files)
    {
      entries := map[];
      model := map[];
      assert forall e | e in index.dirs || e in index.files :: e in index.dirs + index.files;
      InsertAll(index.dirs);
      InsertAll(index.files);
    }

    // Removes the key, then every key that starts with "p/".
    method RemoveCascades(p: Path)
      requires Valid() && Canonical(p) && p != []
      modifies this
      ensures Valid() && model == Cascade(old(model), p)
    {
      var key := Join(p);
      var prefix := key + "/";
      ghost var before, keys := model, entries;
      forall q | q in before
        ensures (Join(q) == key || StartsWith(Join(q), prefix)) <==> IsPrefix(p, q)
      {
        JoinBelow(p, q);
        if Join(q) == key { JoinInjective(p, q); }
        assert |q| == |p| ==> q[..|p|] == q;
      }
      entries := map k | k in entries && k != key && !StartsWith(k, prefix) :: entries[k];
      model := Cascade(model, p);
    }

    // Walks up from the parent of p to the first path that is cached.
    method ResolveDeepestKnownParent(p: Path) returns (r: Option<(Path, CacheEntry)>)
      requires Valid() && Canonical(p)
      ensures r.Some? ==>
                && IsBelow(p, r.value.0) && r.value.0 in model && model[r.value.0] == r.value.1
                && forall q | q in model && IsBelow(p, q) :: |q| <= |r.value.0|
      ensures r.None? <==> forall q | q in model :: !IsBelow(p, q)
    {
      var current := p;
      r := None;
      while current != []
        invariant IsPrefix(current, p)
        invariant forall q | q in model && IsBelow(p, q) :: |q| < |current|
        decreases |current|
      {
        PrefixTransitive(Init(current), current, p);
        current := Init(current);
        var found := Lookup(current);
        if found.Some? {
          r := Some((current, found.value));
          return;
        }
        assert current !in model;
        forall q | q in model && IsBelow(p, q) ensures |q| < |current| {
          PrefixesOfOnePath(p, q, current);
        }
      }
    }
  }
}
