// What a scan decides, as functions of the three views it compares.
module Decisions {
  import opened Paths
  import opened RemoteTree
  import opened PathCaching
  import opened Reconcile
  import opened Listing

  function Filter<T>(f: T -> bool, s: seq<T>): seq<T> {
    if s == [] then []
    else
      var last := s[|s| - 1];
      Filter(f, s[..|s| - 1]) + (if f(last) then [last] else [])
  }

  lemma {:induction false} FilterIn<T>(f: T -> bool, s: seq<T>, x: T)
    ensures x in Filter(f, s) <==> x in s && f(x)
  {
    if s != [] {
      FilterIn(f, s[..|s| - 1], x);
      assert s == s[..|s| - 1] + [s[|s| - 1]];
    }
  }

  lemma {:induction false} FilterNoRepeats<T(!new)>(f: T -> bool, s: seq<T>)
    requires NoRepeats(s)
    ensures NoRepeats(Filter(f, s))
  {
    if s != [] {
      var front, last := s[..|s| - 1], s[|s| - 1];
      FilterNoRepeats(f, front);
      FilterIn(f, front, last);
    }
  }

  lemma ConcatNoRepeats<T(!new)>(a: seq<T>, b: seq<T>)
    requires NoRepeats(a) && NoRepeats(b) && forall x | x in b :: x !in a
    ensures NoRepeats(a + b)
  {
    var s := a + b;
    forall i, j | 0 <= i < j < |s| ensures s[i] != s[j] {
      if i < |a| <= j {
        assert s[j] == b[j - |a|] && b[j - |a|] in b;
      }
    }
  }

  lemma {:induction false} FilterPrefix<T>(f: T -> bool, s: seq<T>, i: nat)
    requires i <= |s|
    ensures Filter(f, s[..i]) <= Filter(f, s)
    decreases |s| - i
  {
    if i < |s| {
      assert s[..i + 1][..i] == s[..i];
      FilterPrefix(f, s, i + 1);
    } else {
      assert s[..i] == s;
    }
  }

  // ---- Local inventory -----------------------------------------------------

  // The walk of the local tree does not descend into ignored directories.
  ghost predicate Visited(env: Env, local: Local, p: Path) {
    p in local && forall k | 0 <= k <= |p| :: !env.ignored(p[..k], IsDir(local, p[..k]))
  }

  // The entries the directory walker yields, in whatever order it yields them.
  ghost predicate Enumerates(env: Env, local: Local, walk: seq<Path>) {
    NoRepeats(walk) && forall p :: p in walk <==> Visited(env, local, p)
  }

  function DirTest(local: Local): Path -> bool {
    p => p != [] && IsDir(local, p)
  }

  function FileTest(local: Local): Path -> bool {
    p => IsFile(local, p)
  }

  // ---- Directory phase -----------------------------------------------------

  // The prefixes of d up to length k that are not among the keys, shortest first.
  function MissingPrefixes(d: Path, keys: set<Path>, k: nat): seq<Path>
    requires k <= |d|
  {
    if k == 0 then []
    else MissingPrefixes(d, keys, k - 1) + (if d[..k] in keys then [] else [d[..k]])
  }

  function AsSet<T>(s: seq<T>): set<T> {
    set x | x in s
  }

  // The directories the phase creates: for every local directory that is not
  // cached when its turn comes, the prefixes that are not cached yet.
  function MadeDirs(dirs: seq<Path>, keys: set<Path>): seq<Path> {
    if dirs == [] then []
    else
      var before := MadeDirs(dirs[..|dirs| - 1], keys);
      var d := dirs[|dirs| - 1];
      var known := keys + AsSet(before);
      before + (if d in known then [] else MissingPrefixes(d, known, |d|))
  }

  lemma {:induction false} MissingPrefixesIn(d: Path, keys: set<Path>, k: nat, p: Path)
    requires k <= |d|
    ensures p in MissingPrefixes(d, keys, k) <==> p != [] && |p| <= k && IsPrefix(p, d) && p !in keys
  {
    if k > 0 {
      MissingPrefixesIn(d, keys, k - 1, p);
      assert |p| == k && IsPrefix(p, d) <==> p == d[..k];
    }
  }

  lemma {:induction false} MissingPrefixesDistinct(d: Path, keys: set<Path>, k: nat)
    requires k <= |d|
    ensures NoRepeats(MissingPrefixes(d, keys, k))
  {
    if k > 0 {
      MissingPrefixesDistinct(d, keys, k - 1);
      MissingPrefixesIn(d, keys, k - 1, d[..k]);
    }
  }

  // A directory to make: a prefix of an uncached local directory, not cached itself.
  ghost predicate Missing(dirs: seq<Path>, keys: set<Path>, p: Path) {
    p != [] && p !in keys && exists d :: d in dirs && d !in keys && IsPrefix(p, d)
  }

  // Exactly the missing prefixes are made, ...
  lemma {:induction false} MadeDirsIn(dirs: seq<Path>, keys: set<Path>, p: Path)
    ensures p in MadeDirs(dirs, keys) <==> Missing(dirs, keys, p)
    decreases |dirs|
  {
    if dirs != [] {
      var front, d := dirs[..|dirs| - 1], dirs[|dirs| - 1];
      assert dirs == front + [d];
      var known := keys + AsSet(MadeDirs(front, keys));
      MadeDirsIn(front, keys, p);
      MadeDirsIn(front, keys, d);
      MissingPrefixesIn(d, known, |d|, p);
      if Missing(front, keys, d) && IsPrefix(p, d) {
        var d' :| d' in front && d' !in keys && IsPrefix(d, d');
        PrefixTransitive(p, d, d');
      }
      assert Missing(dirs, keys, p) <==>
          Missing(front, keys, p) || (p != [] && p !in keys && d !in keys && IsPrefix(p, d));
    }
  }

  // ... each of them once.
  lemma {:induction false} MadeDirsDistinct(dirs: seq<Path>, keys: set<Path>)
    ensures NoRepeats(MadeDirs(dirs, keys))
  {
    if dirs != [] {
      var d := dirs[|dirs| - 1];
      var before := MadeDirs(dirs[..|dirs| - 1], keys);
      var known := keys + AsSet(before);
      MadeDirsDistinct(dirs[..|dirs| - 1], keys);
      MissingPrefixesDistinct(d, known, |d|);
      forall p | p in MissingPrefixes(d, known, |d|) ensures p !in before {
        MissingPrefixesIn(d, known, |d|, p);
      }
      ConcatNoRepeats(before, MissingPrefixes(d, known, |d|));
    }
  }

  // In a parent-closed cache the ancestors of a cached directory are cached, so
  // then exactly the uncached prefixes of all local directories are made.
  lemma MissingWhenParentClosed(m: Entries, root: Id, dirs: seq<Path>, p: Path)
    requires ParentClosed(m, root) && [] !in dirs
    ensures Missing(dirs, m.Keys, p) <==> p != [] && p !in m && exists d :: d in dirs && IsPrefix(p, d)
  {
    forall d | d in dirs && IsPrefix(p, d) && p != [] && d in m ensures p in m {
      AncestorsCached(m, root, p, d);
    }
  }

  // ---- Comparison ----------------------------------------------------------

  datatype Verdict = Unchanged | Refresh | Adopt | Upload

  function Judge(env: Env, local: Local, keys: set<Path>, db: map<Path, Row>, p: Path): Verdict
    requires IsFile(local, p)
  {
    if p in db && p in keys then
      if local[p].mtime == db[p].mtime then Unchanged
      else if FileHash(env, local, p) == db[p].hash then Refresh
      else Upload
    else if p in keys then Adopt
    else Upload
  }

  function UploadTest(env: Env, local: Local, keys: set<Path>, db: map<Path, Row>): Path -> bool {
    p => IsFile(local, p) && Judge(env, local, keys, db, p) == Upload
  }

  // Empty files are never sent.
  function NonEmptyTest(local: Local): Path -> bool {
    p => IsFile(local, p) && local[p].content != []
  }

  predicate Rewritten(env: Env, local: Local, keys: set<Path>, db: map<Path, Row>, p: Path)
    requires IsFile(local, p)
  {
    Judge(env, local, keys, db, p) in {Refresh, Adopt}
  }

  // The rows after the comparison: refreshed and adopted files get a new row.
  function Compared(env: Env, local: Local, keys: set<Path>, db: map<Path, Row>, files: seq<Path>): map<Path, Row>
    requires forall i | 0 <= i < |files| :: IsFile(local, files[i])
  {
    if files == [] then db
    else
      var p := files[|files| - 1];
      var rows := Compared(env, local, keys, db, files[..|files| - 1]);
      if Rewritten(env, local, keys, db, p) then rows[p := Row(FileHash(env, local, p), local[p].mtime)] else rows
  }

  lemma {:induction false} ComparedRow(env: Env, local: Local, keys: set<Path>, db: map<Path, Row>, files: seq<Path>,
                                       p: Path)
    requires forall i | 0 <= i < |files| :: IsFile(local, files[i])
    ensures Get(Compared(env, local, keys, db, files), p) ==
            if p in files && Rewritten(env, local, keys, db, p)
            then Some(Row(FileHash(env, local, p), local[p].mtime))
            else Get(db, p)
  {
    if files != [] {
      var front, last := files[..|files| - 1], files[|files| - 1];
      ComparedRow(env, local, keys, db, front, p);
      assert files == front + [last];
    }
  }

  lemma SameMap<K(!new), V(!new)>(a: map<K, V>, b: map<K, V>)
    requires forall k :: Get(a, k) == Get(b, k)
    ensures a == b
  {
    forall k ensures k in a <==> k in b {
      assert Get(a, k) == Get(b, k);
    }
    forall k | k in a ensures a[k] == b[k] {
      assert Get(a, k) == Get(b, k);
    }
  }

  // The rows stay as they were exactly if no file is refreshed or adopted.
  lemma ComparedUnchanged(env: Env, local: Local, keys: set<Path>, db: map<Path, Row>, files: seq<Path>)
    requires forall i | 0 <= i < |files| :: IsFile(local, files[i])
    ensures Compared(env, local, keys, db, files) == db <==>
            forall i | 0 <= i < |files| :: !Rewritten(env, local, keys, db, files[i])
  {
    var rows := Compared(env, local, keys, db, files);
    if i :| 0 <= i < |files| && Rewritten(env, local, keys, db, files[i]) {
      ComparedRow(env, local, keys, db, files, files[i]);
      assert Get(rows, files[i]) != Get(db, files[i]);
    } else {
      forall p ensures Get(rows, p) == Get(db, p) {
        ComparedRow(env, local, keys, db, files, p);
      }
      SameMap(rows, db);
    }
  }

  // ---- Orphans -------------------------------------------------------------

  function DbOrphanTest(files: seq<Path>): Path -> bool {
    p => p !in files
  }

  function RemoteOrphanTest(env: Env, local: Local, files: seq<Path>, recorded: set<Path>): Path -> bool {
    p => p !in files && !IsDir(local, p) && p !in recorded && !env.ignored(p, IsDir(local, p))
  }

  function PathsOf(es: seq<IndexEntry>): seq<Path> {
    seq(|es|, i requires 0 <= i < |es| => es[i].relativePath)
  }

  // ---- The whole decision --------------------------------------------------

  datatype Report = Report(created: seq<Path>, uploads: seq<Path>, dbOrphans: seq<Path>, remoteOrphans: seq<Path>)

  // `keys` are the cached paths after the listing was added, `rows` the recorded
  // paths in the order the set of them is iterated.
  function Decide(env: Env, local: Local, walk: seq<Path>, keys: set<Path>, db: map<Path, Row>,
                  rows: seq<Path>, listed: seq<IndexEntry>): Report {
    var files := Filter(FileTest(local), walk);
    var created := MadeDirs(Filter(DirTest(local), walk), keys);
    Report(
      created,
      Filter(NonEmptyTest(local), Filter(UploadTest(env, local, keys + AsSet(created), db), files)),
      Filter(DbOrphanTest(files), rows),
      Filter(RemoteOrphanTest(env, local, files, db.Keys), PathsOf(listed)))
  }

  function Syncs(ps: seq<Path>): seq<Task> {
    seq(|ps|, i requires 0 <= i < |ps| => Task.SyncFile(ps[i]))
  }

  function Deletes(ps: seq<Path>): seq<Task> {
    seq(|ps|, i requires 0 <= i < |ps| => Task.Delete(ps[i]))
  }

  function TasksOf(r: Report): seq<Task> {
    Syncs(r.uploads) + Deletes(r.dbOrphans) + Deletes(r.remoteOrphans)
  }

  // The tasks in their order: the uploads, then the deletions of recorded paths, then
  // those of remote files.
  lemma TasksInOrder(r: Report, i: nat)
    requires i < |TasksOf(r)|
    ensures |TasksOf(r)| == |r.uploads| + |r.dbOrphans| + |r.remoteOrphans|
    ensures TasksOf(r)[i] ==
            if i < |r.uploads| then Task.SyncFile(r.uploads[i])
            else if i < |r.uploads| + |r.dbOrphans| then Task.Delete(r.dbOrphans[i - |r.uploads|])
            else Task.Delete(r.remoteOrphans[i - |r.uploads| - |r.dbOrphans|])
  {
  }
}
