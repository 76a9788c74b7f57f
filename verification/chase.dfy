/** Path resolution confined to a root: Chase of internal/fsutil/chase.go. A path
    inside the root is the list of its components; the root is the empty list. */
module Chasing {
  import opened Maybe
  import opened Text

  type Path = seq<string>

  /** What lstat finds at a path inside the root. */
  datatype Node = Missing | Unreadable | Directory | Other | Link(target: string) | BrokenLink

  datatype Error = NotFound | Failed | Loop | NotDirectory

  const MAX_HOPS: nat := 40

  /** The non-empty parts of a path between slashes. */
  function Components(s: string): (c: seq<string>)
    ensures forall i :: 0 <= i < |c| ==> c[i] != "" && '/' !in c[i]
  {
    PartsFree(s, '/');
    assert forall p :: p in Split(s, '/') ==> '/' !in p;
    NonEmpty(Split(s, '/'))
  }

  function NonEmpty(parts: seq<string>): (r: seq<string>)
    ensures forall i :: 0 <= i < |r| ==> r[i] in parts && r[i] != ""
  {
    if parts == [] then [] else (if parts[0] == "" then [] else [parts[0]]) + NonEmpty(parts[1..])
  }

  /** filepath.Clean of a rooted path: '..' never climbs above its start. */
  function CleanRooted(todo: seq<string>, done: Path): Path {
    if todo == [] then done
    else if todo[0] == "." then CleanRooted(todo[1..], done)
    else if todo[0] == ".." then CleanRooted(todo[1..], Parent(done))
    else CleanRooted(todo[1..], done + [todo[0]])
  }

  function Parent(p: Path): Path {
    if p == [] then [] else p[..|p| - 1]
  }

  predicate IsAbs(s: string) {
    s != "" && s[0] == '/'
  }

  /** Resolves the components in todo from the resolved directory done, after hops
      symlinks. With nonexistent set it stops at the first missing component. */
  function Walk(fs: Path -> Node, done: Path, todo: seq<string>, hops: nat, nonexistent: bool): Result<Path, Error>
    requires hops <= MAX_HOPS
    decreases MAX_HOPS - hops, |todo|
  {
    if todo == [] then Ok(done)
    else if todo[0] == "." then Walk(fs, done, todo[1..], hops, nonexistent)
    else if todo[0] == ".." then Walk(fs, Parent(done), todo[1..], hops, nonexistent)
    else
      var next, rest := done + [todo[0]], todo[1..];
      match fs(next)
      case Missing => if nonexistent then Ok(next + CleanRooted(rest, [])) else Err(NotFound)
      case Unreadable => Err(Failed)
      case BrokenLink => if hops == MAX_HOPS then Err(Loop) else Err(Failed)
      case Link(target) =>
        if hops == MAX_HOPS then Err(Loop)
        else Walk(fs, if IsAbs(target) then [] else done, Components(target) + rest, hops + 1, nonexistent)
      case Other => if rest != [] then Err(NotDirectory) else Ok(next)
      case Directory => Walk(fs, next, rest, hops, nonexistent)
  }

  /** The paths the walk asks the filesystem about, in order. */
  function Inspected(fs: Path -> Node, done: Path, todo: seq<string>, hops: nat): seq<Path>
    requires hops <= MAX_HOPS
    decreases MAX_HOPS - hops, |todo|
  {
    if todo == [] then []
    else if todo[0] == "." then Inspected(fs, done, todo[1..], hops)
    else if todo[0] == ".." then Inspected(fs, Parent(done), todo[1..], hops)
    else
      var next, rest := done + [todo[0]], todo[1..];
      [next] +
      match fs(next)
      case Link(target) =>
        if hops == MAX_HOPS then []
        else Inspected(fs, if IsAbs(target) then [] else done, Components(target) + rest, hops + 1)
      case Directory => Inspected(fs, next, rest, hops)
      case _ => []
  }

  // ----- the loop over strings

  lemma {:induction false} LeadingSlashes(s: string)
    requires s != "" && s[0] == '/'
    ensures Components(s) == Components(s[1..])
  {
    assert Split(s, '/') == [""] + Split(s[1..], '/');
    assert ([""] + Split(s[1..], '/'))[1..] == Split(s[1..], '/');
  }

  /** The first component of a path that does not begin with a slash. */
  lemma FirstComponent(comp: string, rest: string)
    requires comp != "" && '/' !in comp
    ensures Components(comp + "/" + rest) == [comp] + Components(rest)
    ensures Components(comp) == [comp]
  {
    SplitFirst(comp, '/', rest);
    SplitWord(comp, '/');
    assert ([comp] + Split(rest, '/'))[1..] == Split(rest, '/');
    assert [comp][1..] == [] && NonEmpty([]) == [];
  }

  lemma {:induction false} AppendComponents(a: string, b: string)
    ensures Components(a + "/" + b) == Components(a) + Components(b)
    decreases |a|
  {
    NoComponents();
    hide Components, CutSlash, SlashAt;
    var s := a + "/" + b;
    if a == "" {
      LeadingSlashes(s);
      assert s[1..] == b;
      assert [] + Components(b) == Components(b);
    } else if a[0] == '/' {
      LeadingSlashes(s);
      LeadingSlashes(a);
      assert s[1..] == a[1..] + "/" + b;
      AppendComponents(a[1..], b);
    } else {
      var comp, rest := CutSlash(a).0, CutSlash(a).1;
      if a == comp + "/" + rest {
        assert s == comp + "/" + (rest + "/" + b);
        FirstComponent(comp, rest + "/" + b);
        FirstComponent(comp, rest);
        AppendComponents(rest, b);
        assert [comp] + (Components(rest) + Components(b)) == ([comp] + Components(rest)) + Components(b);
      } else {
        FirstComponent(comp, b);
      }
    }
  }

  /** Where the first slash is, or the end. */
  function SlashAt(s: string): (i: nat)
    ensures i <= |s| && '/' !in s[..i] && (i < |s| ==> s[i] == '/')
    ensures s != "" && s[0] != '/' ==> i > 0
  {
    if s == "" || s[0] == '/' then 0
    else
      var i := SlashAt(s[1..]) + 1;
      assert s[..i] == [s[0]] + s[1..][..i - 1];
      i
  }

  /** The part before the first slash and the part after it. */
  function CutSlash(s: string): (r: (string, string))
    ensures '/' !in r.0 && (s != "" && s[0] != '/' ==> r.0 != "")
    ensures s == r.0 + "/" + r.1 || (s == r.0 && r.1 == "")
  {
    var i := SlashAt(s);
    (s[..i], if i < |s| then s[i + 1..] else "")
  }

  lemma CutComponents(s: string)
    requires s != "" && s[0] != '/'
    ensures Components(s) == [CutSlash(s).0] + Components(CutSlash(s).1)
  {
    FirstComponent(CutSlash(s).0, CutSlash(s).1);
    NoComponents();
  }

  lemma NoComponents()
    ensures Components("") == []
  {
    assert Split("", '/') == [""] && [""][1..] == [];
  }

  function TrimSlashes(s: string): (r: string)
    ensures r == "" || r[0] != '/'
  {
    if s != "" && s[0] == '/' then TrimSlashes(s[1..]) else s
  }

  lemma {:induction false} TrimmedComponents(s: string)
    ensures Components(TrimSlashes(s)) == Components(s)
    ensures TrimSlashes(s) == "" <==> Components(s) == []
  {
    if s != "" && s[0] == '/' {
      LeadingSlashes(s);
      TrimmedComponents(s[1..]);
    } else if s == "" {
      NoComponents();
    } else {
      CutComponents(s);
    }
  }

  /** Chase, on the path as a string, computes Walk on its components; seen are the
      paths it asks about. */
  method Chase(fs: Path -> Node, path: string, nonexistent: bool) returns (r: Result<Path, Error>, ghost seen: seq<Path>)
    ensures r == Walk(fs, [], Components(path), 0, nonexistent)
    ensures seen == Inspected(fs, [], Components(path), 0)
  {
    hide Components, TrimSlashes, CutSlash;
    seen := [];
    var done: Path := [];
    var todo := path;
    var hops := 0;
    while true
      invariant hops <= MAX_HOPS
      invariant Walk(fs, [], Components(path), 0, nonexistent) == Walk(fs, done, Components(todo), hops, nonexistent)
      invariant seen + Inspected(fs, done, Components(todo), hops) == Inspected(fs, [], Components(path), 0)
      decreases MAX_HOPS - hops, |Components(todo)|
    {
      TrimmedComponents(todo);
      todo := TrimSlashes(todo);
      if todo == "" {
        assert seen + [] == seen;
        break;
      }
      CutComponents(todo);
      var cut := CutSlash(todo);
      var comp, rest := cut.0, cut.1;
      assert ([comp] + Components(rest))[1..] == Components(rest);
      todo := rest;
      if comp == "." {
        continue;
      }
      if comp == ".." {
        done := Parent(done);
        continue;
      }
      var next := done + [comp];
      var node := fs(next);
      ghost var before := seen;
      seen := seen + [next];
      assert forall s: seq<Path> :: before + ([next] + s) == seen + s;
      assert seen + [] == seen;
      if node.Missing? && nonexistent {
        return Ok(next + CleanRooted(Components(rest), [])), seen;
      }
      if node.Missing? {
        return Err(NotFound), seen;
      }
      if node.Unreadable? {
        return Err(Failed), seen;
      }
      if node.Link? || node.BrokenLink? {
        if hops == MAX_HOPS {
          return Err(Loop), seen;
        }
        hops := hops + 1;
        if node.BrokenLink? {
          return Err(Failed), seen;
        }
        if IsAbs(node.target) {
          done := [];
        }
        AppendComponents(node.target, rest);
        todo := node.target + "/" + rest;
        continue;
      }
      TrimmedComponents(rest);
      if TrimSlashes(rest) != "" && !node.Directory? {
        return Err(NotDirectory), seen;
      }
      done := next;
    }
    r := Ok(done);
  }

  // ----- confinement

  /** Real names only: nothing in the path leads upwards. */
  ghost predicate Normal(p: Path) {
    forall i :: 0 <= i < |p| ==> p[i] != "" && p[i] != "." && p[i] != ".." && '/' !in p[i]
  }

  /** Every non-empty prefix of p, p included, is a directory and no symlink. */
  ghost predicate AllDirectories(fs: Path -> Node, p: Path) {
    forall i :: 0 < i <= |p| ==> fs(p[..i]) == Directory
  }

  ghost predicate Parts(todo: seq<string>) {
    forall i :: 0 <= i < |todo| ==> todo[i] != "" && '/' !in todo[i]
  }

  lemma DirectoryNext(fs: Path -> Node, done: Path, comp: string)
    requires AllDirectories(fs, done) && fs(done + [comp]) == Directory
    ensures AllDirectories(fs, done + [comp])
  {
    var next := done + [comp];
    forall i | 0 < i <= |next|
      ensures fs(next[..i]) == Directory
    {
      if i == |next| {
        assert next[..i] == next;
      } else {
        assert next[..i] == done[..i];
      }
    }
  }

  lemma DirectoryParent(fs: Path -> Node, done: Path)
    requires AllDirectories(fs, done)
    ensures AllDirectories(fs, Parent(done))
  {
    forall i | 0 < i <= |Parent(done)|
      ensures fs(Parent(done)[..i]) == Directory
    {
      assert Parent(done)[..i] == done[..i];
    }
  }

  /** Every path the walk looks at is a real name inside a chain of directories that
      starts at the root: no symlink is ever passed through. */
  lemma {:induction false} InspectsInside(fs: Path -> Node, done: Path, todo: seq<string>, hops: nat)
    requires hops <= MAX_HOPS && Normal(done) && AllDirectories(fs, done) && Parts(todo)
    ensures forall p :: p in Inspected(fs, done, todo, hops) ==> p != [] && Normal(p) && AllDirectories(fs, Parent(p))
    decreases MAX_HOPS - hops, |todo|
  {
    hide Components, AllDirectories;
    if todo == [] {
    } else if todo[0] == "." {
      InspectsInside(fs, done, todo[1..], hops);
    } else if todo[0] == ".." {
      DirectoryParent(fs, done);
      InspectsInside(fs, Parent(done), todo[1..], hops);
    } else {
      var next, rest := done + [todo[0]], todo[1..];
      assert Parent(next) == done && Normal(next);
      NoDirectories(fs);
      if fs(next).Link? && hops < MAX_HOPS {
        InspectsInside(fs, if IsAbs(fs(next).target) then [] else done, Components(fs(next).target) + rest, hops + 1);
      } else if fs(next).Directory? {
        DirectoryNext(fs, done, todo[0]);
        InspectsInside(fs, next, rest, hops);
      }
    }
  }

  lemma NoDirectories(fs: Path -> Node)
    ensures AllDirectories(fs, [])
  {
  }

  lemma {:induction false} CleanNormal(todo: seq<string>, done: Path)
    requires Parts(todo) && Normal(done)
    ensures Normal(CleanRooted(todo, done))
    decreases |todo|
  {
    if todo != [] {
      if todo[0] == "." {
        CleanNormal(todo[1..], done);
      } else if todo[0] == ".." {
        CleanNormal(todo[1..], Parent(done));
      } else {
        CleanNormal(todo[1..], done + [todo[0]]);
      }
    }
  }

  /** What a result is: an existing path without symlinks; with nonexistent set also a
      path whose first missing component lies in such a directory. */
  ghost predicate Resolved(fs: Path -> Node, r: Path, nonexistent: bool) {
    && Normal(r)
    && (|| AllDirectories(fs, r)
        || (r != [] && AllDirectories(fs, Parent(r)) && fs(r) == Other)
        || (nonexistent && exists k :: 0 < k <= |r| && AllDirectories(fs, r[..k - 1]) && fs(r[..k]) == Missing))
  }

  lemma {:induction false} ResultInside(fs: Path -> Node, done: Path, todo: seq<string>, hops: nat, nonexistent: bool)
    requires hops <= MAX_HOPS && Normal(done) && AllDirectories(fs, done) && Parts(todo)
    ensures var r := Walk(fs, done, todo, hops, nonexistent); r.Ok? ==> Resolved(fs, r.value, nonexistent)
    decreases MAX_HOPS - hops, |todo|
  {
    hide Components, CleanRooted;
    if todo == [] {
    } else if todo[0] == "." {
      ResultInside(fs, done, todo[1..], hops, nonexistent);
    } else if todo[0] == ".." {
      DirectoryParent(fs, done);
      ResultInside(fs, Parent(done), todo[1..], hops, nonexistent);
    } else {
      var next, rest := done + [todo[0]], todo[1..];
      assert Parent(next) == done && Normal(next);
      match fs(next)
      case Link(target) =>
        if hops < MAX_HOPS {
          ResultInside(fs, if IsAbs(target) then [] else done, Components(target) + rest, hops + 1, nonexistent);
        }
      case Directory =>
        DirectoryNext(fs, done, todo[0]);
        ResultInside(fs, next, rest, hops, nonexistent);
      case Missing =>
        CleanNormal(rest, []);
        var r := next + CleanRooted(rest, []);
        assert r[..|next|] == next && r[..|next| - 1] == done;
      case _ =>
    }
  }

  /** Walking a resolved existing path goes straight through. */
  lemma {:induction false} WalksStraight(fs: Path -> Node, r: Path, k: nat, hops: nat, nonexistent: bool)
    requires hops <= MAX_HOPS && k <= |r| && Resolved(fs, r, false)
    ensures Walk(fs, r[..k], r[k..], hops, nonexistent) == Ok(r)
    decreases |r| - k
  {
    if k == |r| {
      assert r[..k] == r;
    } else {
      assert r[..k] + [r[k]] == r[..k + 1] && r[k..][1..] == r[k + 1..];
      if k + 1 < |r| {
        assert fs(r[..k + 1]) == Directory by {
          assert Parent(r)[..k + 1] == r[..k + 1];
        }
        WalksStraight(fs, r, k + 1, hops, nonexistent);
      } else {
        assert r[..k + 1] == r;
        if fs(r) == Directory {
          WalksStraight(fs, r, k + 1, hops, nonexistent);
        }
      }
    }
  }

  /** A path of real names is clean. */
  lemma {:induction false} NormalIsClean(p: Path, done: Path)
    requires Normal(p)
    ensures CleanRooted(p, done) == done + p
    decreases |p|
  {
    if p == [] {
      assert done + p == done;
    } else {
      NormalIsClean(p[1..], done + [p[0]]);
      assert done + [p[0]] + p[1..] == done + p;
    }
  }

  /** Walking to a missing component: what follows is appended. */
  lemma {:induction false} WalksToMissing(fs: Path -> Node, r: Path, k: nat, m: nat, hops: nat)
    requires hops <= MAX_HOPS && k < m <= |r| && Normal(r) && AllDirectories(fs, r[..m - 1]) && fs(r[..m]) == Missing
    ensures Walk(fs, r[..k], r[k..], hops, true) == Ok(r)
    decreases m - k
  {
    hide Components, CleanRooted;
    assert r[..k] + [r[k]] == r[..k + 1] && r[k..][1..] == r[k + 1..];
    if k + 1 < m {
      assert fs(r[..k + 1]) == Directory by {
        assert r[..m - 1][..k + 1] == r[..k + 1];
      }
      WalksToMissing(fs, r, k + 1, m, hops);
    } else {
      NormalIsClean(r[m..], []);
      assert [] + r[m..] == r[m..] && r[..m] + r[m..] == r;
    }
  }

  // ----- what symlinks and '..' stand for

  /** Directories on the way are just walked. */
  lemma {:induction false} WalksDirectories(fs: Path -> Node, d: Path, k: nat, rest: seq<string>, hops: nat, nonexistent: bool)
    requires hops <= MAX_HOPS && k <= |d| && Normal(d) && AllDirectories(fs, d)
    ensures Walk(fs, d[..k], d[k..] + rest, hops, nonexistent) == Walk(fs, d, rest, hops, nonexistent)
    decreases |d| - k
  {
    hide Components, CleanRooted;
    if k == |d| {
      assert d[..k] == d && d[k..] + rest == rest;
    } else {
      var todo := d[k..] + rest;
      assert d[..k] + [d[k]] == d[..k + 1] && todo[0] == d[k] && todo[1..] == d[k + 1..] + rest;
      WalksDirectories(fs, d, k + 1, rest, hops, nonexistent);
    }
  }

  /** With one more symlink behind it a walk ends the same, or has met too many. */
  lemma {:induction false} OneMoreHop(fs: Path -> Node, done: Path, todo: seq<string>, hops: nat, nonexistent: bool)
    requires hops < MAX_HOPS
    ensures Walk(fs, done, todo, hops + 1, nonexistent) in {Err(Loop), Walk(fs, done, todo, hops, nonexistent)}
    decreases MAX_HOPS - hops, |todo|
  {
    hide Components, CleanRooted;
    if todo == [] {
    } else if todo[0] == "." {
      OneMoreHop(fs, done, todo[1..], hops, nonexistent);
    } else if todo[0] == ".." {
      OneMoreHop(fs, Parent(done), todo[1..], hops, nonexistent);
    } else {
      var next, rest := done + [todo[0]], todo[1..];
      match fs(next)
      case Link(target) =>
        if hops + 1 < MAX_HOPS {
          OneMoreHop(fs, if IsAbs(target) then [] else done, Components(target) + rest, hops + 1, nonexistent);
        }
      case Directory =>
        OneMoreHop(fs, next, rest, hops, nonexistent);
      case _ =>
    }
  }

  /** A symlink stands for its target: a relative one is read from the directory the
      symlink is in, an absolute one from the root, unless there are too many of them. */
  lemma LinkStandsFor(fs: Path -> Node, d: Path, link: string, target: string, rest: seq<string>, nonexistent: bool)
    requires Normal(d + [link]) && AllDirectories(fs, d) && fs(d + [link]) == Link(target)
    ensures var via := Walk(fs, [], d + ([link] + rest), 0, nonexistent);
            && (target == "" || target[0] != '/' ==> via in {Err(Loop), Walk(fs, [], d + (Components(target) + rest), 0, nonexistent)})
            && (target != "" && target[0] == '/' ==> via in {Err(Loop), Walk(fs, [], Components(target) + rest, 0, nonexistent)})
  {
    hide Components, CleanRooted;
    var p := d + [link];
    assert Normal(d) && link == p[|d|] by {
      assert forall i :: 0 <= i < |d| ==> p[i] == d[i];
    }
    assert d[0..] == d && d[..0] == [];
    WalksDirectories(fs, d, 0, [link] + rest, 0, nonexistent);
    WalksDirectories(fs, d, 0, Components(target) + rest, 0, nonexistent);
    assert ([link] + rest)[1..] == rest;
    OneMoreHop(fs, if IsAbs(target) then [] else d, Components(target) + rest, 0, nonexistent);
  }

  /** '..' leads to the parent, and from the root nowhere; '.' stays. */
  lemma DotsStandFor(fs: Path -> Node, d: Path, rest: seq<string>, nonexistent: bool)
    requires Normal(d) && AllDirectories(fs, d)
    ensures Walk(fs, [], d + ([".."] + rest), 0, nonexistent) == Walk(fs, [], (if d == [] then [] else d[..|d| - 1]) + rest, 0, nonexistent)
    ensures Walk(fs, [], d + (["."] + rest), 0, nonexistent) == Walk(fs, [], d + rest, 0, nonexistent)
  {
    hide Components, CleanRooted;
    var p := Parent(d);
    assert AllDirectories(fs, p) && Normal(p) by {
      forall i | 0 < i <= |p|
        ensures fs(p[..i]) == Directory
      {
        assert p[..i] == d[..i];
      }
    }
    assert d[0..] == d && d[..0] == [] && p[0..] == p && p[..0] == [];
    WalksDirectories(fs, d, 0, [".."] + rest, 0, nonexistent);
    WalksDirectories(fs, d, 0, ["."] + rest, 0, nonexistent);
    WalksDirectories(fs, d, 0, rest, 0, nonexistent);
    WalksDirectories(fs, p, 0, rest, 0, nonexistent);
    assert ([".."] + rest)[1..] == rest && (["."] + rest)[1..] == rest;
  }

  /** ChaseNonexistent changes nothing but the error for a missing component. */
  lemma {:induction false} OnlyMissingDiffers(fs: Path -> Node, done: Path, todo: seq<string>, hops: nat)
    requires hops <= MAX_HOPS
    ensures var strict, lenient := Walk(fs, done, todo, hops, false), Walk(fs, done, todo, hops, true);
            if strict == Err(NotFound) then lenient.Ok? else lenient == strict
    decreases MAX_HOPS - hops, |todo|
  {
    if todo == [] {
    } else if todo[0] == "." {
      OnlyMissingDiffers(fs, done, todo[1..], hops);
    } else if todo[0] == ".." {
      OnlyMissingDiffers(fs, Parent(done), todo[1..], hops);
    } else {
      var next, rest := done + [todo[0]], todo[1..];
      match fs(next)
      case Link(target) =>
        if hops < MAX_HOPS {
          OnlyMissingDiffers(fs, if IsAbs(target) then [] else done, Components(target) + rest, hops + 1);
        }
      case Directory =>
        OnlyMissingDiffers(fs, next, rest, hops);
      case _ =>
    }
  }

  /** On every filesystem, with and without ChaseNonexistent: the paths Chase looks at
      and the path it returns lie inside the root, behind no symlink; the path resolves
      to itself. */
  lemma ChaseConfined(fs: Path -> Node, path: string, nonexistent: bool)
    ensures forall p :: p in Inspected(fs, [], Components(path), 0) ==> p != [] && Normal(p) && AllDirectories(fs, Parent(p))
    ensures var r := Walk(fs, [], Components(path), 0, nonexistent);
            r.Ok? ==> Resolved(fs, r.value, nonexistent) && Walk(fs, [], r.value, 0, nonexistent) == r
  {
    InspectsInside(fs, [], Components(path), 0);
    ResultInside(fs, [], Components(path), 0, nonexistent);
    hide Walk, Components, Inspected;
    if Walk(fs, [], Components(path), 0, nonexistent).Ok? {
      var r := Walk(fs, [], Components(path), 0, nonexistent).value;
      assert r[..0] == [] && r[0..] == r;
      if Resolved(fs, r, false) {
        WalksStraight(fs, r, 0, 0, nonexistent);
      } else {
        var m :| 0 < m <= |r| && AllDirectories(fs, r[..m - 1]) && fs(r[..m]) == Missing;
        WalksToMissing(fs, r, 0, m, 0);
      }
    }
  }

  /** The path climbs above where it starts, depth components deep. */
  predicate Climbs(todo: seq<string>, depth: nat) {
    if todo == [] then false
    else if todo[0] == "." then Climbs(todo[1..], depth)
    else if todo[0] == ".." then depth == 0 || Climbs(todo[1..], depth - 1)
    else Climbs(todo[1..], depth + 1)
  }

  /** Cleaning a path from a place below another: it climbs above that place exactly when
      the result is shorter than that of the path cleaned on its own. */
  lemma {:induction false} CleanBelow(todo: seq<string>, place: Path, sub: Path)
    ensures |CleanRooted(todo, place + sub)| <= |place| + |CleanRooted(todo, sub)|
    ensures !Climbs(todo, |sub|) ==> CleanRooted(todo, place + sub) == place + CleanRooted(todo, sub)
    ensures place != [] && Climbs(todo, |sub|) ==> |CleanRooted(todo, place + sub)| < |place| + |CleanRooted(todo, sub)|
    decreases |todo|
  {
    if todo != [] {
      if todo[0] == "." {
        CleanBelow(todo[1..], place, sub);
      } else if todo[0] == ".." {
        if sub == [] {
          assert place + sub == place;
          assert Parent(place) + [] == Parent(place);
          CleanBelow(todo[1..], Parent(place), []);
        } else {
          assert Parent(place + sub) == place + Parent(sub);
          CleanBelow(todo[1..], place, Parent(sub));
        }
      } else {
        assert place + sub + [todo[0]] == place + (sub + [todo[0]]);
        CleanBelow(todo[1..], place, sub + [todo[0]]);
      }
    }
  }

  /** What follows a missing component never climbs out of it: the component stays in the
      result, which is the path cleaned as a whole exactly when that does not climb out
      either. */
  lemma MissingKept(fs: Path -> Node, done: Path, comp: string, rest: seq<string>, hops: nat)
    requires hops <= MAX_HOPS && comp != "." && comp != ".." && fs(done + [comp]) == Missing
    ensures var r := Walk(fs, done, [comp] + rest, hops, true);
            && r.Ok? && done + [comp] <= r.value
            && (r.value == CleanRooted([comp] + rest, done) <==> !Climbs(rest, 0))
  {
    var next := done + [comp];
    assert ([comp] + rest)[1..] == rest;
    assert next + [] == next;
    CleanBelow(rest, next, []);
    hide CleanRooted, Climbs;
    assert Walk(fs, done, [comp] + rest, hops, true) == Ok(next + CleanRooted(rest, []));
  }
}
