// Relative paths. The program keeps them as strings ("a/b/c"); the rest of the
// model reasons about their components. This module relates the two forms.
module Paths {

  type Path = seq<string>

  predicate IsName(n: string) {
    n != "" && '/' !in n
  }

  predicate Canonical(p: Path) {
    forall n | n in p :: IsName(n)
  }

  function Init(p: Path): Path
    requires p != []
  {
    p[..|p| - 1]
  }

  function Last(p: Path): string
    requires p != []
  {
    p[|p| - 1]
  }

  // p is q or an ancestor of q, component by component.
  predicate IsPrefix(p: Path, q: Path) {
    |p| <= |q| && q[..|p|] == p
  }

  predicate IsBelow(q: Path, p: Path) {
    |p| < |q| && IsPrefix(p, q)
  }

  // Neither path is the other one or an ancestor of it.
  predicate Apart(p: Path, q: Path) {
    !IsPrefix(p, q) && !IsPrefix(q, p)
  }

  // The string under which a path is stored.
  function Join(p: Path): string {
    if p == [] then "" else if |p| == 1 then p[0] else Join(Init(p)) + "/" + Last(p)
  }

  predicate StartsWith(s: string, prefix: string) {
    |prefix| <= |s| && s[..|prefix|] == prefix
  }

  // The components of a stored string, as `Path::components` reads them back.
  function Components(s: string): Path {
    if s == "" then [] else Split(s, "")
  }

  function Split(s: string, current: string): Path {
    if s == "" then [current]
    else if s[0] == '/' then [current] + Split(s[1..], "")
    else Split(s[1..], current + [s[0]])
  }

  lemma InitCanonical(p: Path)
    requires p != [] && Canonical(p)
    ensures Canonical(Init(p)) && IsName(Last(p)) && p == Init(p) + [Last(p)]
  {
  }

  lemma {:induction false} JoinNonEmpty(p: Path)
    requires p != [] && Canonical(p)
    ensures Join(p) != ""
  {
    if |p| == 1 {
      assert p[0] in p;
    }
  }

  // `s + "/" + n` has its last slash right after s.
  lemma SlashPosition(s: string, n: string)
    requires '/' !in n
    ensures var u := s + "/" + n;
            u[|s|] == '/' && forall k | |s| < k < |u| :: u[k] != '/'
  {
    var u := s + "/" + n;
    forall k | |s| < k < |u| ensures u[k] != '/' {
      assert u[k] == n[k - |s| - 1];
    }
  }

  // Two strings cut at their last slash agree on both sides.
  lemma LastSlash(s: string, n: string, t: string, m: string)
    requires '/' !in n && '/' !in m
    requires s + "/" + n == t + "/" + m
    ensures s == t && n == m
  {
    var u := s + "/" + n;
    SlashPosition(s, n);
    SlashPosition(t, m);
    assert |s| == |t|;
    assert s == u[..|s|] && n == u[|s| + 1..] && m == u[|t| + 1..];
  }

  lemma JoinHasSlash(p: Path)
    requires |p| > 1
    ensures '/' in Join(p)
  {
    assert Join(p)[|Join(Init(p))|] == '/';
  }

  // Different canonical paths are stored under different strings.
  lemma {:induction false} JoinInjective(p: Path, q: Path)
    requires Canonical(p) && Canonical(q)
    requires Join(p) == Join(q)
    ensures p == q
  {
    if p != [] { JoinNonEmpty(p); InitCanonical(p); }
    if q != [] { JoinNonEmpty(q); InitCanonical(q); }
    if |p| > 1 { JoinHasSlash(p); }
    if |q| > 1 { JoinHasSlash(q); }
    if |p| > 1 && |q| > 1 {
      LastSlash(Join(Init(p)), Last(p), Join(Init(q)), Last(q));
      JoinInjective(Init(p), Init(q));
    }
  }

  // The string test `key.starts_with("p/")` finds exactly the paths below p,
  // component by component: "a/bc" does not start with "a/b/".
  lemma {:induction false} JoinBelow(p: Path, q: Path)
    requires Canonical(p) && Canonical(q) && p != []
    ensures StartsWith(Join(q), Join(p) + "/") <==> IsBelow(q, p)
  {
    var a, b := Join(p) + "/", Join(q);
    assert StartsWith(b, a) ==> b[|Join(p)|] == '/';
    if q != [] { InitCanonical(q); }
    if |q| > 1 {
      var i := Join(Init(q));
      JoinBelow(p, Init(q));
      SlashPosition(i, Last(q));
      assert StartsWith(b, a) ==> |a| <= |i| + 1;
      assert i == b[..|i|] && Init(q) + [Last(q)] == q;
      if StartsWith(b, a) && |a| == |i| + 1 {
        assert Join(p) == b[..|i|];
        JoinInjective(p, Init(q));
      }
      if |a| <= |i| {
        assert i[..|a|] == b[..|a|];
      }
      if |p| < |q| - 1 {
        assert Init(q)[..|p|] == q[..|p|];
      }
      if IsBelow(q, p) && |p| == |q| - 1 {
        assert Init(q) == p && b[..|a|] == a;
      }
    }
  }

  lemma {:induction false} SplitName(s: string, n: string, current: string)
    requires '/' !in n
    ensures Split(n + s, current) == Split(s, current + n)
  {
    if n == "" {
      assert n + s == s && current + n == current;
    } else {
      assert (n + s)[0] == n[0] && (n + s)[1..] == n[1..] + s;
      assert n[0] in n;
      SplitName(s, n[1..], current + [n[0]]);
      assert current + [n[0]] + n[1..] == current + n;
    }
  }

  lemma {:induction false} SplitJoin(p: Path, rest: string)
    requires Canonical(p) && p != []
    ensures Split(Join(p) + rest, "") == Init(p) + Split(rest, Last(p))
  {
    InitCanonical(p);
    if |p| == 1 {
      SplitName(rest, p[0], "");
      assert "" + p[0] == p[0];
    } else {
      var tail := "/" + Last(p) + rest;
      assert Join(p) + rest == Join(Init(p)) + tail;
      SplitJoin(Init(p), tail);
      assert tail[0] == '/' && tail[1..] == Last(p) + rest;
      SplitName(rest, Last(p), "");
      assert "" + Last(p) == Last(p);
      InitCanonical(Init(p));
      assert Init(Init(p)) + [Last(Init(p))] == Init(p);
    }
  }

  // Reading a stored path back gives the path that was stored.
  lemma ComponentsOfJoin(p: Path)
    requires Canonical(p)
    ensures Components(Join(p)) == p
  {
    if p != [] {
      JoinNonEmpty(p);
      SplitJoin(p, "");
      assert Join(p) + "" == Join(p);
      assert Split("", Last(p)) == [Last(p)];
    }
  }

  lemma PrefixTransitive(p: Path, q: Path, r: Path)
    requires IsPrefix(p, q) && IsPrefix(q, r)
    ensures IsPrefix(p, r)
  {
    assert r[..|p|] == r[..|q|][..|p|];
  }
}
