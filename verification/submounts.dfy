/** Which mounts below a directory have to be cloned to carry everything below it:
    selectSubmounts of internal/overlay/mounts.go. */
module Submounts {
  import opened Versions

  /** A clean absolute path as its components. */
  type Path = seq<string>

  /** A mountinfo entry. */
  datatype MountInfo = MountInfo(id: int, point: Path)

  /** path equals dir or lies inside it. */
  predicate IsBelow(path: Path, dir: Path) {
    dir <= path
  }

  /** The mount is one that takeSubmounts has to carry. */
  predicate Carried(m: MountInfo, dir: Path, skip: Path -> bool, visible: MountInfo -> bool) {
    m.point != dir && IsBelow(m.point, dir) && !skip(m.point) && visible(m)
  }

  ghost predicate CarriedPath(p: Path, mounts: seq<MountInfo>, dir: Path, skip: Path -> bool, visible: MountInfo -> bool) {
    exists i :: 0 <= i < |mounts| && mounts[i].point == p && Carried(mounts[i], dir, skip, visible)
  }

  /** p is carried and lies inside no other carried mount. */
  ghost predicate TopLevel(p: Path, mounts: seq<MountInfo>, dir: Path, skip: Path -> bool, visible: MountInfo -> bool) {
    && CarriedPath(p, mounts, dir, skip, visible)
    && forall q :: CarriedPath(q, mounts, dir, skip, visible) && q != p ==> !IsBelow(p, q)
  }

  ghost predicate NoDuplicates(s: seq<Path>) {
    forall i, j :: 0 <= i < j < |s| ==> s[i] != s[j]
  }

  // ----- comparePaths and the sort

  /** Component-wise, so that a directory sorts before what is inside it. */
  function ComparePaths(a: Path, b: Path): int {
    if a == [] || b == [] then CmpBool(a != [], b != [])
    else
      var c := CmpString(a[0], b[0]);
      if c != 0 then c else ComparePaths(a[1..], b[1..])
  }

  lemma {:induction false} PathOrder(a: Path, b: Path)
    ensures ComparePaths(b, a) == -ComparePaths(a, b)
    ensures ComparePaths(a, b) == 0 <==> a == b
  {
    if a != [] && b != [] {
      CmpStringLaws(a[0], b[0]);
      if a[0] == b[0] {
        PathOrder(a[1..], b[1..]);
        assert a == [a[0]] + a[1..] && b == [b[0]] + b[1..];
      }
    }
  }

  lemma {:induction false} PathTransitive(a: Path, b: Path, c: Path)
    requires ComparePaths(a, b) <= 0 && ComparePaths(b, c) <= 0
    ensures ComparePaths(a, c) <= 0
  {
    if a != [] && b != [] && c != [] {
      CmpStringLaws(a[0], b[0]);
      CmpStringLaws(b[0], c[0]);
      CmpStringLaws(a[0], c[0]);
      CmpStringTransitive(a[0], b[0], c[0]);
      if a[0] == c[0] {
        CmpStringLaws(b[0], a[0]);
        CmpStringTransitive(b[0], c[0], a[0]);
        PathTransitive(a[1..], b[1..], c[1..]);
      }
    }
  }

  ghost predicate Sorted(s: seq<Path>) {
    forall i, j :: 0 <= i < j < |s| ==> ComparePaths(s[i], s[j]) <= 0
  }

  /** Sorts by insertion; the order of equal elements does not show. */
  method SortPaths(s: seq<Path>) returns (r: seq<Path>)
    ensures Sorted(r) && multiset(r) == multiset(s)
  {
    r := [];
    for i := 0 to |s|
      invariant Sorted(r) && multiset(r) == multiset(s[..i])
    {
      var k := 0;
      while k < |r| && ComparePaths(r[k], s[i]) <= 0
        invariant k <= |r| && forall m :: 0 <= m < k ==> ComparePaths(r[m], s[i]) <= 0
      {
        k := k + 1;
      }
      InsertSorted(r, k, s[i]);
      assert s[..i + 1] == s[..i] + [s[i]];
      assert r == r[..k] + r[k..];
      r := r[..k] + [s[i]] + r[k..];
    }
    assert s[..|s|] == s;
  }

  lemma InsertSorted(r: seq<Path>, k: nat, p: Path)
    requires Sorted(r) && k <= |r|
    requires forall m :: 0 <= m < k ==> ComparePaths(r[m], p) <= 0
    requires k < |r| ==> ComparePaths(r[k], p) > 0
    ensures Sorted(r[..k] + [p] + r[k..])
  {
    forall m | k <= m < |r|
      ensures ComparePaths(p, r[m]) <= 0
    {
      PathOrder(p, r[k]);
      if k < m {
        PathTransitive(p, r[k], r[m]);
      }
    }
  }

  // ----- the selection

  method CollectPaths(mounts: seq<MountInfo>, dir: Path, skip: Path -> bool, visible: MountInfo -> bool) returns (paths: seq<Path>)
    ensures NoDuplicates(paths)
    ensures forall p :: p in paths <==> CarriedPath(p, mounts, dir, skip, visible)
  {
    paths := [];
    for i := 0 to |mounts|
      invariant NoDuplicates(paths)
      invariant forall p :: p in paths ==> CarriedPath(p, mounts, dir, skip, visible)
      invariant forall m :: 0 <= m < i && Carried(mounts[m], dir, skip, visible) ==> mounts[m].point in paths
    {
      var m := mounts[i];
      if m.point == dir || !IsBelow(m.point, dir) || skip(m.point) {
        continue;
      }
      if m.point in paths || !visible(m) {
        continue;
      }
      paths := paths + [m.point];
    }
  }

  method KeepTop(paths: seq<Path>) returns (top: seq<Path>)
    requires NoDuplicates(paths)
    ensures NoDuplicates(top)
    ensures forall p :: p in top <==> p in paths && forall q :: q in paths && q != p ==> !IsBelow(p, q)
  {
    top := [];
    for i := 0 to |paths|
      invariant NoDuplicates(top)
      invariant forall p :: p in top ==> p in paths[..i]
      invariant forall p :: p in top <==> p in paths[..i] && forall q :: q in paths && q != p ==> !IsBelow(p, q)
    {
      var nested := false;
      for j := 0 to |paths|
        invariant !nested ==> forall m :: 0 <= m < j && paths[m] != paths[i] ==> !IsBelow(paths[i], paths[m])
        invariant nested ==> exists q :: q in paths && q != paths[i] && IsBelow(paths[i], q)
      {
        if paths[j] != paths[i] && IsBelow(paths[i], paths[j]) {
          nested := true;
          break;
        }
      }
      assert paths[..i + 1] == paths[..i] + [paths[i]];
      assert paths[i] !in paths[..i];
      if !nested {
        top := top + [paths[i]];
      }
    }
    assert paths[..|paths|] == paths;
  }

  /** selectSubmounts returns exactly the top-level carried mounts, each once, in the
      order of their paths. */
  method SelectSubmounts(mounts: seq<MountInfo>, dir: Path, skip: Path -> bool, visible: MountInfo -> bool) returns (top: seq<Path>)
    ensures forall p :: p in top <==> TopLevel(p, mounts, dir, skip, visible)
    ensures NoDuplicates(top) && Sorted(top)
  {
    var paths := CollectPaths(mounts, dir, skip, visible);
    var found := KeepTop(paths);
    top := SortPaths(found);
    SameMembers(top, found);
  }

  lemma SameMembers(a: seq<Path>, b: seq<Path>)
    requires multiset(a) == multiset(b) && NoDuplicates(b)
    ensures NoDuplicates(a) && forall p :: p in a <==> p in b
  {
    forall p
      ensures p in a <==> p in b
    {
      assert p in a <==> multiset(a)[p] > 0;
      assert p in b <==> multiset(b)[p] > 0;
    }
    if i, j :| 0 <= i < j < |a| && a[i] == a[j] {
      TwiceCounted(a, i, j);
      OnceCounted(b, a[i]);
    }
  }

  lemma TwiceCounted(a: seq<Path>, i: nat, j: nat)
    requires i < j < |a| && a[i] == a[j]
    ensures multiset(a)[a[i]] >= 2
  {
    assert a == a[..j] + [a[j]] + a[j + 1..];
    assert a[i] in a[..j];
  }

  lemma {:induction false} OnceCounted(b: seq<Path>, p: Path)
    requires NoDuplicates(b)
    ensures multiset(b)[p] <= 1
  {
    if b != [] {
      OnceCounted(b[1..], p);
      assert b == [b[0]] + b[1..];
      if b[0] == p {
        assert p !in b[1..];
      }
    }
  }

  /** Among the carried paths that are prefixes of c, a shortest one exists. */
  lemma {:induction false} TopAbove(c: Path, mounts: seq<MountInfo>, dir: Path, skip: Path -> bool, visible: MountInfo -> bool) returns (p: Path)
    requires CarriedPath(c, mounts, dir, skip, visible)
    ensures TopLevel(p, mounts, dir, skip, visible) && IsBelow(c, p)
    decreases |c|
  {
    if q :| CarriedPath(q, mounts, dir, skip, visible) && q != c && IsBelow(c, q) {
      p := TopAbove(q, mounts, dir, skip, visible);
    } else {
      p := c;
    }
  }

  /** Every carried mount lies inside exactly one selected mount, so it travels with
      exactly one recursive clone. */
  lemma TravelsOnce(c: Path, mounts: seq<MountInfo>, dir: Path, skip: Path -> bool, visible: MountInfo -> bool)
    requires CarriedPath(c, mounts, dir, skip, visible)
    ensures exists p :: TopLevel(p, mounts, dir, skip, visible) && IsBelow(c, p)
    ensures forall p, q ::
              (TopLevel(p, mounts, dir, skip, visible) && TopLevel(q, mounts, dir, skip, visible) && IsBelow(c, p) && IsBelow(c, q)) ==> p == q
  {
    var p := TopAbove(c, mounts, dir, skip, visible);
    forall p, q | TopLevel(p, mounts, dir, skip, visible) && TopLevel(q, mounts, dir, skip, visible) && IsBelow(c, p) && IsBelow(c, q)
      ensures p == q
    {
      assert p == c[..|p|] && q == c[..|q|];
      assert |p| <= |q| ==> IsBelow(q, p);
      assert |q| <= |p| ==> IsBelow(p, q);
    }
  }
}
