/** Which layers a hierarchy's overlay is made of, and what wins a lookup in them:
    usedLayers and the layer order of mergeHierarchy (internal/overlay/engine.go), and
    the mutable modes of internal/overlay/mutable.go. */
module Layering {
  import opened Maybe
  import Versions
  import Discovery
  import opened Transaction

  /** The hierarchy's directory inside an extension's tree. */
  datatype Tree = Missing | Unresolved | Unreadable | Empty | Dir

  predicate Failing(t: Tree) {
    t.Unresolved? || t.Unreadable?
  }

  datatype Layer = Upper(dir: string) | Metadata | Imported(dir: string) | Extension(i: nat) | Host(dir: string)

  /** Layers top first, and the writable directory above them. */
  datatype Stack = Stack(lower: seq<Layer>, upper: Option<string>) {

    /** All of them. */
    function All(): seq<Layer> {
      (if upper.Some? then [Upper(upper.value)] else []) + lower
    }
  }

  // ----- extensions

  /** The contributing ones of the first n extensions, last first. */
  function Used(trees: seq<Tree>, n: nat): seq<nat>
    requires n <= |trees|
  {
    if n == 0 then [] else (if trees[n - 1].Dir? then [n - 1] else []) + Used(trees, n - 1)
  }

  /** usedLayers. */
  method UsedLayers(trees: seq<Tree>) returns (r: Option<seq<nat>>)
    ensures r.None? <==> exists k :: 0 <= k < |trees| && Failing(trees[k])
    ensures r.Some? ==> r.value == Used(trees, |trees|)
  {
    hide Used;
    var used: seq<nat>, n: nat := [], |trees|;
    assert used + Used(trees, n) == Used(trees, n);
    while n > 0
      invariant n <= |trees|
      invariant used + Used(trees, n) == Used(trees, |trees|)
      invariant forall k :: n <= k < |trees| ==> !Failing(trees[k])
    {
      UsedNext(trees, n, used);
      n := n - 1;
      if Failing(trees[n]) {
        return None;
      }
      if trees[n].Dir? {
        used := used + [n];
      }
    }
    UsedEnd(trees, used);
    r := Some(used);
  }

  lemma UsedNext(trees: seq<Tree>, n: nat, used: seq<nat>)
    requires 0 < n <= |trees|
    ensures used + Used(trees, n) == (if trees[n - 1].Dir? then used + [n - 1] else used) + Used(trees, n - 1)
  {
    assert trees[n - 1].Dir? ==> used + ([n - 1] + Used(trees, n - 1)) == used + [n - 1] + Used(trees, n - 1);
    assert !trees[n - 1].Dir? ==> [] + Used(trees, n - 1) == Used(trees, n - 1);
  }

  lemma UsedEnd(trees: seq<Tree>, used: seq<nat>)
    ensures used + Used(trees, 0) == used
  {
  }

  lemma {:induction false} UsedDescends(trees: seq<Tree>, n: nat)
    requires n <= |trees|
    ensures forall i: nat :: i in Used(trees, n) <==> i < n && trees[i].Dir?
    ensures forall a, b :: 0 <= a < b < |Used(trees, n)| ==> Used(trees, n)[b] < Used(trees, n)[a]
  {
    if n > 0 {
      UsedDescends(trees, n - 1);
      var rest := Used(trees, n - 1);
      assert forall k :: 0 <= k < |rest| ==> rest[k] in rest;
    }
  }

  // ----- the other layers

  /** One hierarchy: the host directory, whether that is empty, the directory that
      resolveMutableDir gave, the persistent mutable directory, and whether the former
      is read-only. Directories stand for the inodes they name; reading that fails is
      None. */
  datatype Place = Place(mode: Mode, host: Option<string>, hostEmpty: Option<bool>, mutable: Option<string>, persistent: Option<Option<string>>, readOnly: Option<bool>)

  /** What resolveMutableDir promises: no directory without a mode for it, and in the
      ephemeral modes one inside the workspace, so not the host's. */
  predicate Resolved(p: Place) {
    && (p.mode == No ==> p.mutable.None?)
    && (IsEphemeral(p.mode) ==> p.mutable.Some? && p.mutable != p.host)
  }

  /** importedMutableDir: None is an error, such as importing the host into itself. */
  function ImportedDir(p: Place): Option<Option<string>> {
    var dir := if p.mode == Import then Some(p.mutable) else if p.mode == EphemeralImport then p.persistent else Some(None);
    if dir.None? || dir.value.None? then dir
    else if dir.value == p.host then None
    else dir
  }

  /** hostAsLowerDir. */
  function HostAsLower(p: Place): Option<bool> {
    if p.host.None? then Some(false)
    else if p.hostEmpty.None? then None
    else if p.hostEmpty.value then Some(false)
    else if p.mode == Import || p.mode == EphemeralImport || p.mutable.None? then Some(true)
    else Some(p.mutable != p.host)
  }

  /** upperDir. */
  function UpperDir(p: Place): Option<Option<string>> {
    if p.mode == Import || p.mutable.None? then Some(None)
    else if p.readOnly.None? || p.readOnly.value then None
    else Some(p.mutable)
  }

  function Extensions(used: seq<nat>): (r: seq<Layer>)
    ensures |r| == |used| && forall k :: 0 <= k < |used| ==> r[k] == Extension(used[k])
  {
    if used == [] then [] else [Extension(used[0])] + Extensions(used[1..])
  }

  /** The layers mergeHierarchy mounts; None when it fails. */
  method Assemble(p: Place, used: seq<nat>) returns (r: Option<Stack>)
    ensures r.None? <==> ImportedDir(p).None? || HostAsLower(p).None? || UpperDir(p).None?
    ensures r.Some? ==> r.value == StackOf(p, used)
  {
    var lower: seq<Layer> := [Metadata];
    var imported := ImportedDir(p);
    if imported.None? {
      return None;
    }
    if imported.value.Some? {
      lower := lower + [Imported(imported.value.value)];
    }
    lower := lower + Extensions(used);
    var host := HostAsLower(p);
    if host.None? {
      return None;
    }
    if host.value {
      lower := lower + [Host(p.host.value)];
    }
    var upper := UpperDir(p);
    if upper.None? {
      return None;
    }
    r := Some(Stack(lower, upper.value));
  }

  function Top(p: Place): seq<Layer>
    requires ImportedDir(p).Some?
  {
    [Metadata] + if ImportedDir(p).value.Some? then [Imported(ImportedDir(p).value.value)] else []
  }

  function Bottom(p: Place): seq<Layer>
    requires HostAsLower(p).Some?
  {
    if HostAsLower(p).value then [Host(p.host.value)] else []
  }

  function StackOf(p: Place, used: seq<nat>): Stack
    requires ImportedDir(p).Some? && HostAsLower(p).Some? && UpperDir(p).Some?
  {
    Stack(Top(p) + Extensions(used) + Bottom(p), UpperDir(p).value)
  }

  // ----- lookup

  /** A path below the hierarchy, as its components. */
  type Path = seq<string>

  /** What a layer has at a path. A whiteout hides what lower layers have, an opaque
      directory what they have below it. */
  datatype Entry = Absent | File | Directory(hiding: bool) | Whiteout

  type Content = (Layer, Path) -> Entry

  /** The layers whose directories merge at p below a directory there. */
  function Merging(ls: seq<Layer>, at: Content, p: Path): seq<Layer> {
    if ls == [] then []
    else
      match at(ls[0], p)
      case Absent => Merging(ls[1..], at, p)
      case File => []
      case Whiteout => []
      case Directory(hiding) => [ls[0]] + if hiding then [] else Merging(ls[1..], at, p)
  }

  /** The layers that make up p, of those that make up the directory it is in. */
  function Scan(ls: seq<Layer>, at: Content, p: Path): seq<Layer> {
    if ls == [] then []
    else
      match at(ls[0], p)
      case Absent => Scan(ls[1..], at, p)
      case File => [ls[0]]
      case Whiteout => []
      case Directory(_) => Merging(ls, at, p)
  }

  /** The layers that make up the directory p; none when it is no directory. */
  function Dirs(lower: seq<Layer>, at: Content, p: Path): seq<Layer> {
    if p == [] then lower
    else
      var s := Scan(Dirs(lower, at, p[..|p| - 1]), at, p);
      if s != [] && at(s[0], p).File? then [] else s
  }

  /** The layer in which p is found. */
  function Lookup(lower: seq<Layer>, at: Content, p: Path): Option<Layer>
    requires p != []
  {
    var s := Scan(Dirs(lower, at, p[..|p| - 1]), at, p);
    if s == [] then None else Some(s[0])
  }

  /** The layer has p, and its parents as directories. */
  ghost predicate Ships(l: Layer, at: Content, p: Path) {
    && (forall k :: 0 < k < |p| ==> at(l, p[..k]).Directory?)
    && (at(l, p).File? || at(l, p).Directory?)
  }

  /** The layer hides what lower ones have at p. */
  ghost predicate Hides(l: Layer, at: Content, p: Path) {
    at(l, p).Whiteout? || exists k :: 0 < k < |p| && (at(l, p[..k]) in {Whiteout, File, Directory(true)})
  }

  /** Where each layer of a stack stands: the writable directory first, the metadata,
      what is imported, the extensions, the host last. */
  function Rank(l: Layer): int {
    match l
    case Upper(_) => -1
    case Metadata => 0
    case Imported(_) => 1
    case Extension(_) => 2
    case Host(_) => 3
  }

  /** a stands above b: by rank, and among extensions the later image first. */
  predicate Above(a: Layer, b: Layer) {
    Rank(a) < Rank(b) || (a.Extension? && b.Extension? && a.i > b.i)
  }

  predicate Descends(s: seq<Layer>) {
    forall a, b :: 0 <= a < b < |s| ==> Above(s[a], s[b])
  }

  predicate Ranks(s: seq<Layer>, low: int, high: int) {
    forall l :: l in s ==> low <= Rank(l) <= high
  }

  lemma DescendJoin(s: seq<Layer>, t: seq<Layer>, low: int, mid: int, high: int)
    requires Descends(s) && Descends(t) && Ranks(s, low, mid) && Ranks(t, mid + 1, high) && low <= mid < high
    ensures Descends(s + t) && Ranks(s + t, low, high)
  {
    forall a, b | 0 <= a < b < |s + t|
      ensures Above((s + t)[a], (s + t)[b])
    {
      if a < |s| <= b {
        assert s[a] in s && t[b - |s|] in t;
      }
    }
  }

  lemma ExtensionsDescend(trees: seq<Tree>, n: nat)
    requires n <= |trees|
    ensures Descends(Extensions(Used(trees, n))) && Ranks(Extensions(Used(trees, n)), 2, 2)
    ensures forall l :: l in Extensions(Used(trees, n)) <==> l.Extension? && l.i < n && trees[l.i].Dir?
  {
    UsedDescends(trees, n);
    hide Used;
    var used := Used(trees, n);
    var exts := Extensions(used);
    forall l: Layer | l.Extension? && l.i < n && trees[l.i].Dir?
      ensures l in exts
    {
      assert l.i in used;
      var k :| 0 <= k < |used| && used[k] == l.i;
      assert exts[k] == l;
    }
    forall l | l in exts
      ensures l.Extension? && l.i < n && trees[l.i].Dir?
    {
      var k :| 0 <= k < |exts| && exts[k] == l;
      assert used[k] in used;
    }
  }

  /** A stack goes down strictly, and its extensions are the contributing ones. */
  lemma StackDescends(p: Place, trees: seq<Tree>, n: nat)
    requires n <= |trees| && ImportedDir(p).Some? && HostAsLower(p).Some? && UpperDir(p).Some?
    ensures var lower := StackOf(p, Used(trees, n)).lower;
            && Descends(lower) && Ranks(lower, 0, 3) && Metadata in lower
            && (forall l: Layer :: l.Extension? ==> (l in lower <==> l.i < n && trees[l.i].Dir?))
  {
    ExtensionsDescend(trees, n);
    var exts := Extensions(Used(trees, n));
    EndsDescend(p);
    hide ImportedDir, HostAsLower, UpperDir, Used, Extensions, Top, Bottom, Descends, Ranks, Above;
    DescendJoin(Top(p), exts, 0, 1, 2);
    DescendJoin(Top(p) + exts, Bottom(p), 0, 2, 3);
  }

  lemma EndsDescend(p: Place)
    requires ImportedDir(p).Some? && HostAsLower(p).Some?
    ensures Descends(Top(p)) && Ranks(Top(p), 0, 1) && Metadata in Top(p) && forall l :: l in Top(p) ==> !l.Extension?
    ensures Descends(Bottom(p)) && Ranks(Bottom(p), 3, 3) && forall l :: l in Bottom(p) ==> !l.Extension?
  {
    assert Top(p)[0] == Metadata;
  }

  lemma {:induction false} MergingPart(ls: seq<Layer>, at: Content, p: Path)
    requires Descends(ls)
    ensures Descends(Merging(ls, at, p)) && forall l :: l in Merging(ls, at, p) ==> l in ls && at(l, p).Directory?
  {
    if ls != [] {
      assert Descends(ls[1..]);
      MergingPart(ls[1..], at, p);
      var rest := Merging(ls[1..], at, p);
      forall l | l in rest
        ensures Above(ls[0], l)
      {
        var k :| 0 <= k < |ls[1..]| && ls[1..][k] == l;
        assert ls[k + 1] == l;
      }
    }
  }

  lemma {:induction false} ScanPart(ls: seq<Layer>, at: Content, p: Path)
    requires Descends(ls)
    ensures Descends(Scan(ls, at, p))
    ensures forall l :: l in Scan(ls, at, p) ==> l in ls && (at(l, p).File? || at(l, p).Directory?)
    ensures forall l :: l in Scan(ls, at, p) && at(l, p).File? ==> Scan(ls, at, p) == [l]
  {
    if ls != [] {
      assert Descends(ls[1..]);
      ScanPart(ls[1..], at, p);
      MergingPart(ls, at, p);
    }
  }

  lemma {:induction false} DirsPart(lower: seq<Layer>, at: Content, p: Path)
    requires Descends(lower)
    ensures Descends(Dirs(lower, at, p)) && forall l :: l in Dirs(lower, at, p) ==> l in lower
    decreases |p|
  {
    if p != [] {
      DirsPart(lower, at, p[..|p| - 1]);
      ScanPart(Dirs(lower, at, p[..|p| - 1]), at, p);
    }
  }

  /** In a descending sequence the layers above one of its members come before it. */
  lemma AboveFirst(ls: seq<Layer>, l: Layer, m: Layer)
    requires Descends(ls) && ls != [] && l in ls && m in ls && Above(l, m)
    ensures ls[0] != m && (ls[0] != l ==> l in ls[1..]) && m in ls[1..]
  {
    assert ls == [ls[0]] + ls[1..];
    var k :| 0 <= k < |ls| && ls[k] == l;
    assert k > 0 ==> Above(ls[0], ls[k]);
  }

  /** A directory is merged when one below it is. */
  lemma {:induction false} MergingKeeps(ls: seq<Layer>, at: Content, p: Path, l: Layer, m: Layer)
    requires Descends(ls) && l in ls && m in ls && Above(l, m) && m in Merging(ls, at, p) && at(l, p).Directory?
    ensures l in Merging(ls, at, p)
  {
    AboveFirst(ls, l, m);
    if ls[0] != l {
      assert Descends(ls[1..]);
      MergingKeeps(ls[1..], at, p, l, m);
    }
  }

  lemma {:induction false} ScanKeeps(ls: seq<Layer>, at: Content, p: Path, l: Layer, m: Layer)
    requires Descends(ls) && l in ls && m in ls && Above(l, m) && m in Scan(ls, at, p) && at(l, p).Directory?
    ensures l in Scan(ls, at, p)
  {
    AboveFirst(ls, l, m);
    if at(ls[0], p).Absent? {
      assert Descends(ls[1..]);
      ScanKeeps(ls[1..], at, p, l, m);
    } else if at(ls[0], p).Directory? {
      MergingKeeps(ls, at, p, l, m);
    }
  }

  lemma {:induction false} DirsKeep(lower: seq<Layer>, at: Content, p: Path, l: Layer, m: Layer)
    requires Descends(lower) && l in lower && Above(l, m) && m in Dirs(lower, at, p)
    requires forall k :: 0 < k <= |p| ==> at(l, p[..k]).Directory?
    ensures l in Dirs(lower, at, p)
    decreases |p|
  {
    if p != [] {
      var q := p[..|p| - 1];
      var ls := Dirs(lower, at, q);
      DirsPart(lower, at, q);
      ScanPart(ls, at, p);
      assert m in Scan(ls, at, p);
      assert forall k :: 0 < k <= |q| ==> q[..k] == p[..k];
      assert p[..|p|] == p;
      DirsKeep(lower, at, q, l, m);
      ScanKeeps(ls, at, p, l, m);
    }
  }

  /** The first layer of a scan is above every other one that has something there. */
  lemma {:induction false} ScanFirst(ls: seq<Layer>, at: Content, p: Path, m: Layer)
    requires Descends(ls) && m in ls && !at(m, p).Absent? && Scan(ls, at, p) != [] && Scan(ls, at, p)[0] != m
    ensures Above(Scan(ls, at, p)[0], m)
  {
    var k :| 0 <= k < |ls| && ls[k] == m;
    if at(ls[0], p).Absent? {
      assert ls[1..][k - 1] == m && Descends(ls[1..]);
      ScanFirst(ls[1..], at, p, m);
    } else if k > 0 && !at(ls[0], p).Whiteout? {
      assert Above(ls[0], ls[k]);
    }
  }

  /** Nothing stops a scan before it comes to m. */
  lemma {:induction false} MergingReaches(ls: seq<Layer>, at: Content, p: Path, m: Layer)
    requires Descends(ls) && m in ls && at(m, p).Directory?
    requires forall l :: l in ls && Above(l, m) ==> at(l, p) in {Absent, Directory(false)}
    ensures m in Merging(ls, at, p)
  {
    var k :| 0 <= k < |ls| && ls[k] == m;
    if k > 0 {
      assert Above(ls[0], ls[k]) && ls[1..][k - 1] == m && Descends(ls[1..]);
      MergingReaches(ls[1..], at, p, m);
    }
  }

  lemma {:induction false} ScanReaches(ls: seq<Layer>, at: Content, p: Path, m: Layer)
    requires Descends(ls) && m in ls && (at(m, p).File? || at(m, p).Directory?)
    ensures (forall l :: l in ls && Above(l, m) ==> !at(l, p).Whiteout?) ==> Scan(ls, at, p) != []
    ensures at(m, p).Directory? && (forall l :: l in ls && Above(l, m) ==> at(l, p) in {Absent, Directory(false)}) ==>
              m in Scan(ls, at, p) && !at(Scan(ls, at, p)[0], p).File?
  {
    var k :| 0 <= k < |ls| && ls[k] == m;
    if k > 0 {
      assert Above(ls[0], ls[k]) && ls[1..][k - 1] == m && Descends(ls[1..]);
      ScanReaches(ls[1..], at, p, m);
    }
    if at(m, p).Directory? && forall l :: l in ls && Above(l, m) ==> at(l, p) in {Absent, Directory(false)} {
      MergingReaches(ls, at, p, m);
    }
  }

  lemma {:induction false} DirsReach(lower: seq<Layer>, at: Content, p: Path, m: Layer)
    requires Descends(lower) && m in lower && forall k :: 0 < k <= |p| ==> at(m, p[..k]).Directory?
    requires forall l, k :: l in lower && Above(l, m) && 0 < k <= |p| ==> at(l, p[..k]) in {Absent, Directory(false)}
    ensures m in Dirs(lower, at, p)
    decreases |p|
  {
    if p != [] {
      var q := p[..|p| - 1];
      assert forall k :: 0 < k <= |q| ==> q[..k] == p[..k];
      DirsReach(lower, at, q, m);
      DirsPart(lower, at, q);
      assert p[..|p|] == p;
      ScanReaches(Dirs(lower, at, q), at, p, m);
    }
  }

  /** What a lookup finds in a descending stack stands above every other layer that has
      the path. */
  lemma FoundAbove(lower: seq<Layer>, at: Content, p: Path, m: Layer)
    requires Descends(lower) && p != [] && m in lower && Ships(m, at, p)
    ensures Lookup(lower, at, p).Some? && Lookup(lower, at, p).value != m ==> Above(Lookup(lower, at, p).value, m)
  {
    var q := p[..|p| - 1];
    var ls := Dirs(lower, at, q);
    DirsPart(lower, at, q);
    ScanPart(ls, at, p);
    assert forall k :: 0 < k <= |q| ==> q[..k] == p[..k];
    var found := Lookup(lower, at, p);
    if found.Some? && found.value != m {
      var l := found.value;
      assert l in ls;
      if !Above(l, m) {
        AboveOr(lower, l, m);
        DirsKeep(lower, at, q, m, l);
        ScanFirst(ls, at, p, m);
      }
    }
  }

  /** And something is found when a layer has the path and none above hides it. */
  lemma FoundUnhidden(lower: seq<Layer>, at: Content, p: Path, m: Layer)
    requires Descends(lower) && p != [] && m in lower && Ships(m, at, p)
    requires forall l :: l in lower && Above(l, m) ==> !Hides(l, at, p)
    ensures Lookup(lower, at, p).Some?
  {
    hide Above, Descends;
    var q := p[..|p| - 1];
    var ls := Dirs(lower, at, q);
    DirsPart(lower, at, q);
    assert forall k :: 0 < k <= |q| ==> q[..k] == p[..k];
    forall l, k | l in lower && Above(l, m) && 0 < k <= |q|
      ensures at(l, q[..k]) in {Absent, Directory(false)}
    {
      var e := at(l, p[..k]);
      assert !Hides(l, at, p) && q[..k] == p[..k];
      assert e !in {Whiteout, File, Directory(true)};
      assert e.Directory? ==> e == Directory(e.hiding) == Directory(false);
    }
    DirsReach(lower, at, q, m);
    ScanReaches(ls, at, p, m);
  }

  lemma TopmostFound(lower: seq<Layer>, at: Content, p: Path, m: Layer)
    requires Descends(lower) && p != [] && m in lower && Ships(m, at, p)
    ensures Lookup(lower, at, p).Some? && Lookup(lower, at, p).value != m ==> Above(Lookup(lower, at, p).value, m)
    ensures (forall l :: l in lower && Above(l, m) ==> !Hides(l, at, p)) ==> Lookup(lower, at, p).Some?
  {
    hide Above, Descends, Ships, Hides, Lookup;
    FoundAbove(lower, at, p, m);
    if forall l :: l in lower && Above(l, m) ==> !Hides(l, at, p) {
      FoundUnhidden(lower, at, p, m);
    }
  }

  lemma AboveOr(ls: seq<Layer>, l: Layer, m: Layer)
    requires Descends(ls) && l in ls && m in ls && l != m
    ensures Above(l, m) || Above(m, l)
  {
    var i :| 0 <= i < |ls| && ls[i] == l;
    var j :| 0 <= j < |ls| && ls[j] == m;
  }

  /** So does the stack with its writable directory, which is the top. */
  lemma AllDescends(p: Place, trees: seq<Tree>, n: nat)
    requires n <= |trees| && ImportedDir(p).Some? && HostAsLower(p).Some? && UpperDir(p).Some?
    ensures var s := StackOf(p, Used(trees, n));
            && Descends(s.All()) && Metadata in s.All()
            && (forall l: Layer :: l.Extension? ==> (l in s.All() <==> l.i < n && trees[l.i].Dir?))
            && (forall l: Layer :: l in s.All() && Above(l, Metadata) ==> s.upper.Some? && l == Upper(s.upper.value))
            && (s.upper.Some? ==> s.All()[0] == Upper(s.upper.value))
  {
    StackDescends(p, trees, n);
    var s := StackOf(p, Used(trees, n));
    hide StackOf, Used, ImportedDir, HostAsLower, UpperDir;
    if s.upper.Some? {
      DescendJoin([Upper(s.upper.value)], s.lower, -1, -1, 3);
    } else {
      assert s.All() == s.lower;
    }
  }

  /** The upper directory has nothing to say about a path. */
  ghost predicate Silent(upper: Option<string>, at: Content, path: Path) {
    upper.Some? ==> var u := Upper(upper.value); !Hides(u, at, path) && !at(u, path).File? && !at(u, path).Directory?
  }

  lemma MetadataFound(ls: seq<Layer>, upper: Option<string>, at: Content, path: Path)
    requires Descends(ls) && path != [] && Metadata in ls && Ships(Metadata, at, path) && Silent(upper, at, path)
    requires forall l :: l in ls && Above(l, Metadata) ==> upper.Some? && l == Upper(upper.value)
    ensures Lookup(ls, at, path) == Some(Metadata)
  {
    hide Ships, Hides, Lookup, Descends;
    TopmostFound(ls, at, path, Metadata);
    LookupMember(ls, at, path);
  }

  lemma UpperFound(ls: seq<Layer>, dir: string, at: Content, path: Path)
    requires Descends(ls) && path != [] && Upper(dir) in ls && Ships(Upper(dir), at, path)
    ensures Lookup(ls, at, path) == Some(Upper(dir))
  {
    hide Ships, Hides, Lookup, Descends;
    TopmostFound(ls, at, path, Upper(dir));
    assert forall l :: !Above(l, Upper(dir));
  }

  /** In the stack of a hierarchy: what is found is the topmost of those that have the
      path. So the writable directory wins over all others, the metadata is never hidden
      by another lower layer, the host is found only when nothing else has the path, and
      no extension hides a later one. */
  lemma TopmostWins(p: Place, trees: seq<Tree>, at: Content, path: Path, m: Layer)
    requires ImportedDir(p).Some? && HostAsLower(p).Some? && UpperDir(p).Some?
    requires path != [] && m in StackOf(p, Used(trees, |trees|)).All() && Ships(m, at, path)
    ensures var s := StackOf(p, Used(trees, |trees|));
            var found := Lookup(s.All(), at, path);
            && (found.Some? && found.value != m ==> Above(found.value, m))
            && ((forall l :: l in s.All() && Above(l, m) ==> !Hides(l, at, path)) ==> found.Some?)
            && (m.Upper? || (m == Metadata && Silent(s.upper, at, path)) ==> found == Some(m))
  {
    hide StackOf, Used, ImportedDir, HostAsLower, UpperDir, Lookup, Hides, Ships, Descends, Silent, Above, Stack.All;
    AllDescends(p, trees, |trees|);
    var s := StackOf(p, Used(trees, |trees|));
    TopmostFound(s.All(), at, path, m);
    if m.Upper? {
      UpperFound(s.All(), m.dir, at, path);
    } else if m == Metadata && Silent(s.upper, at, path) {
      MetadataFound(s.All(), s.upper, at, path);
    }
  }

  /** With the images sorted, no path is ever found in an extension when a strictly newer
      contributing one has it too. */
  lemma NewestWins(p: Place, images: seq<Discovery.Image>, trees: seq<Tree>, at: Content, path: Path, i: nat, j: nat)
    requires ImportedDir(p).Some? && HostAsLower(p).Some? && UpperDir(p).Some? && path != []
    requires |images| == |trees| && Discovery.Ordered(images)
    requires Lookup(StackOf(p, Used(trees, |trees|)).All(), at, path) == Some(Extension(i))
    requires j < |trees| && trees[j].Dir? && Ships(Extension(j), at, path)
    ensures i < |images| && Versions.Compare(images[j].name, images[i].name) <= 0
    ensures !Ships(Metadata, at, path)
  {
    hide StackOf, Used, Lookup, ImportedDir, HostAsLower, UpperDir, Versions.Compare, Ships, Descends;
    var stack := StackOf(p, Used(trees, |trees|)).All();
    AllDescends(p, trees, |trees|);
    LookupMember(stack, at, path);
    Versions.VersionOrder(images[j].name, images[j].name);
    TopmostFound(stack, at, path, Extension(j));
    if Ships(Metadata, at, path) {
      TopmostFound(stack, at, path, Metadata);
    }
  }

  lemma LookupMember(lower: seq<Layer>, at: Content, p: Path)
    requires Descends(lower) && p != [] && Lookup(lower, at, p).Some?
    ensures Lookup(lower, at, p).value in lower
    ensures var l := Lookup(lower, at, p).value; at(l, p).File? || at(l, p).Directory?
  {
    DirsPart(lower, at, p[..|p| - 1]);
    ScanPart(Dirs(lower, at, p[..|p| - 1]), at, p);
  }

  // ----- the host hierarchy

  /** How often a directory is part of a stack. */
  function Occurrences(s: Stack, dir: string): nat {
    InLower(s.lower, dir) + if s.upper == Some(dir) then 1 else 0
  }

  function InLower(lower: seq<Layer>, dir: string): nat {
    if lower == [] then 0
    else (if lower[0] == Imported(dir) || lower[0] == Host(dir) then 1 else 0) + InLower(lower[1..], dir)
  }

  lemma {:induction false} InLowerJoin(a: seq<Layer>, b: seq<Layer>, dir: string)
    ensures InLower(a + b, dir) == InLower(a, dir) + InLower(b, dir)
  {
    if a == [] {
      assert a + b == b;
    } else {
      InLowerJoin(a[1..], b, dir);
      assert (a + b)[1..] == a[1..] + b;
    }
  }

  lemma {:induction false} NotAmongExtensions(used: seq<nat>, dir: string)
    ensures InLower(Extensions(used), dir) == 0
  {
    if used != [] {
      NotAmongExtensions(used[1..], dir);
    }
  }

  /** In every mutable mode the host's own directory, unless it is empty, is in a mounted
      stack exactly once: as the last layer, or as the writable one. An empty one is
      left out unless it is the writable one. */
  lemma HostOnce(p: Place, used: seq<nat>)
    requires Resolved(p) && p.host.Some?
    requires ImportedDir(p).Some? && HostAsLower(p).Some? && UpperDir(p).Some?
    ensures var s := StackOf(p, used);
            Occurrences(s, p.host.value) == if p.hostEmpty == Some(false) || s.upper == p.host then 1 else 0
  {
    var dir := p.host.value;
    var exts := Extensions(used);
    InLowerJoin(Top(p), exts, dir);
    InLowerJoin(Top(p) + exts, Bottom(p), dir);
    NotAmongExtensions(used, dir);
    assert InLower(Top(p), dir) == 0 by {
      var imported := ImportedDir(p).value;
      assert imported != Some(dir);
      assert Top(p)[1..] == if imported.Some? then [Imported(imported.value)] else [];
    }
  }
}
