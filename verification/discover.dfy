/** Finding the installed images: Discover and Sort of internal/discover/discover.go. */
module Discovery {
  import opened Maybe
  import opened Versions
  import VersionPick

  type Kind = VersionPick.Kind

  datatype Image = Image(name: string, path: string, kind: Kind)

  /** A search directory as Chase and a listing show it. */
  datatype Directory = Missing | Unreadable | Listing(rel: string, names: seq<string>)

  /** A directory entry as Chase and stat show it. */
  datatype Look = Gone | Fails | Found(path: string, kind: Kind)

  /** The file system, the names in a versioned directory (None when it cannot be
      listed), the rule for image names, the class's suffix, and the architectures. */
  datatype Env = Env(
    look: string -> Look,
    list: string -> Option<seq<string>>,
    valid: string -> bool,
    classSuffix: string,
    architectures: set<string>,
    native: string,
    secondary: string)

  /** What pickVersion is asked for in the directory entry. */
  function SearchIn(env: Env, entry: string, name: string, suffix: string): VersionPick.Search {
    VersionPick.Search(
      name, suffix, if HasSuffix(suffix, ".raw") then {VersionPick.Regular, VersionPick.Block} else {VersionPick.Directory},
      env.architectures, env.native, env.secondary,
      (dname: string) =>
        match env.look(entry + "/" + dname)
        case Found(path, kind) => Some(VersionPick.Resolved(path, kind))
        case _ => None)
  }

  // ----- names

  predicate HasSuffix(s: string, suffix: string) {
    |suffix| <= |s| && s[|s| - |suffix|..] == suffix
  }

  function CutEnd(s: string, suffix: string): (r: string)
    requires HasSuffix(s, suffix)
    ensures s == r + suffix
  {
    s[..|s| - |suffix|]
  }

  function FirstSuffix(s: string, formats: seq<string>): Option<string> {
    if formats == [] then None
    else if HasSuffix(s, formats[0]) then Some(formats[0])
    else FirstSuffix(s, formats[1..])
  }

  /** extractImageBasename: the name and the tail cut off it. */
  function ExtractBasename(fname: string, classSuffix: string, formats: Option<seq<string>>, valid: string -> bool): (r: Option<(string, string)>)
    ensures r.Some? ==> fname == r.value.0 + r.value.1 && valid(r.value.0)
  {
    var format := if formats.Some? then FirstSuffix(fname, formats.value) else Some("");
    if format.None? || !HasSuffix(fname, format.value) then None
    else
      var base := CutEnd(fname, format.value);
      var cut := classSuffix != "" && HasSuffix(base, classSuffix);
      var name := if cut then CutEnd(base, classSuffix) else base;
      var suffix := if cut then classSuffix + format.value else format.value;
      if valid(name) then Some((name, suffix)) else None
  }

  // ----- entries

  datatype Reading = Nothing | Broken | Names(image: Image)

  /** makeImage refuses .mstack directories and other inodes. */
  function MakeImage(name: string, path: string, kind: Kind): Reading {
    if kind == VersionPick.Other || (kind == VersionPick.Directory && HasSuffix(path, ".mstack")) then Nothing
    else Names(Image(name, path, kind))
  }

  function ReadVersioned(env: Env, entry: string, fname: string): Reading
    requires HasSuffix(fname, ".v")
  {
    match ExtractBasename(CutEnd(fname, ".v"), env.classSuffix, Some([".raw", ".mstack", ""]), env.valid)
    case None => Nothing
    case Some((name, suffix)) =>
      match env.list(entry)
      case None => Nothing
      case Some(names) =>
        var q := SearchIn(env, entry, name, suffix);
        match VersionPick.PickOf(names, q)
        case Unresolved => Nothing
        case Best(None) => Nothing
        case Best(Some(p)) => MakeImage(name, p.path, p.kind)
  }

  /** A versioned directory stands for the image of its first best entry, and for nothing
      when no entry matches or one cannot be resolved. */
  lemma VersionedIsPicked(env: Env, entry: string, fname: string, name: string, suffix: string, names: seq<string>, r: VersionPick.Answer)
    requires HasSuffix(fname, ".v") && env.list(entry) == Some(names)
    requires ExtractBasename(CutEnd(fname, ".v"), env.classSuffix, Some([".raw", ".mstack", ""]), env.valid) == Some((name, suffix))
    requires VersionPick.Picked(names, SearchIn(env, entry, name, suffix), r)
    ensures ReadVersioned(env, entry, fname) == if r.Best? && r.best.Some? then MakeImage(name, r.best.value.path, r.best.value.kind) else Nothing
  {
    VersionPick.PickIsFirstBest(names, SearchIn(env, entry, name, suffix));
    VersionPick.PickUnique(names, SearchIn(env, entry, name, suffix), r, VersionPick.PickOf(names, SearchIn(env, entry, name, suffix)));
  }

  /** What an entry of a search directory stands for. */
  function Read(env: Env, rel: string, fname: string): Reading {
    var entry := rel + "/" + fname;
    if ".sysupdate." <= fname then Nothing
    else
      match env.look(entry)
      case Gone => Nothing
      case Fails => Broken
      case Found(path, kind) =>
        if kind == VersionPick.Directory && HasSuffix(fname, ".v") then ReadVersioned(env, entry, fname)
        else
          var name := match kind
            case Regular => ExtractBasename(fname, env.classSuffix, Some([".raw"]), env.valid)
            case Directory => ExtractBasename(fname, env.classSuffix, Some([".mstack", ""]), env.valid)
            case Block => ExtractBasename(fname, "", None, env.valid)
            case Other => None;
          if name.None? then Nothing else MakeImage(name.value.0, path, kind)
  }

  function ReadDirectory(env: Env, d: Directory): seq<Reading> {
    match d
    case Missing => []
    case Unreadable => [Broken]
    case Listing(rel, names) => seq(|names|, i requires 0 <= i < |names| => Read(env, rel, names[i]))
  }

  /** All entries, in search order. */
  function Readings(env: Env, dirs: seq<Directory>): seq<Reading> {
    if dirs == [] then [] else Readings(env, dirs[..|dirs| - 1]) + ReadDirectory(env, dirs[|dirs| - 1])
  }

  // ----- shadowing

  predicate HasName(images: seq<Image>, name: string) {
    exists k :: 0 <= k < |images| && images[k].name == name
  }

  function FirstOnes(rs: seq<Reading>): seq<Image> {
    if rs == [] then []
    else
      var before, r := FirstOnes(rs[..|rs| - 1]), rs[|rs| - 1];
      if r.Names? && !HasName(before, r.image.name) then before + [r.image] else before
  }

  /** Entry k names an image, and is the first to use that name. */
  predicate FirstToName(rs: seq<Reading>, k: nat) {
    && k < |rs| && rs[k].Names?
    && forall j :: 0 <= j < k && rs[j].Names? ==> rs[j].image.name != rs[k].image.name
  }

  lemma {:induction false} NamesSeen(rs: seq<Reading>, name: string)
    ensures HasName(FirstOnes(rs), name) <==> exists k :: 0 <= k < |rs| && rs[k].Names? && rs[k].image.name == name
  {
    if rs != [] {
      var init, r := rs[..|rs| - 1], rs[|rs| - 1];
      NamesSeen(init, name);
      var before := FirstOnes(init);
      if r.Names? && !HasName(before, r.image.name) {
        var after := before + [r.image];
        assert after[|before|] == r.image;
        assert forall k :: 0 <= k < |before| ==> after[k] == before[k];
        assert FirstOnes(rs) == after;
      }
      assert forall k :: 0 <= k < |init| ==> init[k] == rs[k];
      if r.Names? && r.image.name == name {
        assert HasName(FirstOnes(rs), name);
      }
    }
  }

  /** The images found are exactly the first ones of each name in search order, and no
      name is used twice. */
  lemma {:induction false} FirstOfEachName(rs: seq<Reading>)
    ensures forall image :: image in FirstOnes(rs) <==> exists k: nat :: FirstToName(rs, k) && rs[k].image == image
    ensures forall i, j :: 0 <= i < j < |FirstOnes(rs)| ==> FirstOnes(rs)[i].name != FirstOnes(rs)[j].name
  {
    if rs != [] {
      var n, init, r := |rs| - 1, rs[..|rs| - 1], rs[|rs| - 1];
      var before := FirstOnes(init);
      FirstOfEachName(init);
      forall k: nat | k < n
        ensures FirstToName(rs, k) <==> FirstToName(init, k)
      {
        assert forall j :: 0 <= j <= k ==> init[j] == rs[j];
      }
      if r.Names? {
        NamesSeen(init, r.image.name);
        assert FirstToName(rs, n) <==> !HasName(before, r.image.name);
      }
      forall image
        ensures image in FirstOnes(rs) <==> exists k: nat :: FirstToName(rs, k) && rs[k].image == image
      {
        if image in before {
          var k: nat :| FirstToName(init, k) && init[k].image == image;
          assert FirstToName(rs, k) && rs[k].image == image;
        }
        if k: nat :| FirstToName(rs, k) && rs[k].image == image {
          if k < n {
            assert FirstToName(init, k) && init[k].image == image;
          }
        }
      }
    }
  }

  // ----- sorting

  ghost predicate Ordered(s: seq<Image>) {
    forall i, j :: 0 <= i < j < |s| ==> Compare(s[i].name, s[j].name) <= 0
  }

  /** The images whose names compare equal to the given one, in order. */
  function Ties(s: seq<Image>, name: string): seq<Image> {
    if s == [] then []
    else (if Compare(s[0].name, name) == 0 then [s[0]] else []) + Ties(s[1..], name)
  }

  /** t is s sorted by version, stably. */
  ghost predicate StablySorted(s: seq<Image>, t: seq<Image>) {
    Ordered(t) && forall name :: Ties(t, name) == Ties(s, name)
  }

  function Insert(x: Image, s: seq<Image>): seq<Image> {
    if s == [] || Compare(x.name, s[0].name) <= 0 then [x] + s else [s[0]] + Insert(x, s[1..])
  }

  /** Sort. */
  function Sorted(s: seq<Image>): seq<Image> {
    if s == [] then [] else Insert(s[0], Sorted(s[1..]))
  }

  lemma {:induction false} TiesOf(x: Image, s: seq<Image>, name: string)
    ensures Ties([x] + s, name) == (if Compare(x.name, name) == 0 then [x] else []) + Ties(s, name)
  {
    assert ([x] + s)[1..] == s;
  }

  lemma {:induction false} InsertTies(x: Image, s: seq<Image>, name: string)
    ensures Ties(Insert(x, s), name) == Ties([x] + s, name)
  {
    hide Compare, Ties;
    if s != [] && Compare(x.name, s[0].name) > 0 {
      InsertTies(x, s[1..], name);
      TiesOf(x, s, name);
      TiesOf(x, s[1..], name);
      TiesOf(s[0], s[1..], name);
      assert s == [s[0]] + s[1..];
      assert [] + Ties(s[1..], name) == Ties(s[1..], name);
      TiesOf(s[0], Insert(x, s[1..]), name);
      VersionOrder(x.name, name);
      VersionOrder(s[0].name, name);
      VersionOrder(x.name, s[0].name);
    }
  }

  lemma {:induction false} InsertOrdered(x: Image, s: seq<Image>)
    requires Ordered(s)
    ensures Ordered(Insert(x, s))
    ensures forall y :: y in Insert(x, s) <==> y == x || y in s
  {
    hide Compare;
    if s == [] {
    } else if Compare(x.name, s[0].name) <= 0 {
      forall j | 0 <= j < |s|
        ensures Compare(x.name, s[j].name) <= 0
      {
        VersionOrder(s[0].name, s[0].name);
        if j > 0 {
          VersionTransitive(x.name, s[0].name, s[j].name);
        }
      }
    } else {
      InsertOrdered(x, s[1..]);
      VersionOrder(x.name, s[0].name);
      var t := Insert(x, s[1..]);
      forall j | 0 <= j < |t|
        ensures Compare(s[0].name, t[j].name) <= 0
      {
        assert t[j] in t;
      }
    }
  }

  lemma {:induction false} SortedIsStable(s: seq<Image>)
    ensures StablySorted(s, Sorted(s))
  {
    hide Compare;
    if s != [] {
      var rest := Sorted(s[1..]);
      SortedIsStable(s[1..]);
      InsertOrdered(s[0], rest);
      forall name
        ensures Ties(Sorted(s), name) == Ties(s, name)
      {
        InsertTies(s[0], rest, name);
        TiesOf(s[0], rest, name);
      }
    }
  }

  lemma {:induction false} TiesMember(s: seq<Image>, name: string)
    ensures forall x :: x in Ties(s, name) <==> x in s && Compare(x.name, name) == 0
  {
    hide Compare;
    if s != [] {
      TiesMember(s[1..], name);
      assert s == [s[0]] + s[1..];
    }
  }

  lemma FirstIsLeast(s: seq<Image>, x: Image)
    requires Ordered(s) && x in s
    ensures Compare(s[0].name, x.name) <= 0
  {
    hide Compare;
    var k :| 0 <= k < |s| && s[k] == x;
    VersionOrder(s[0].name, s[0].name);
  }

  lemma SameFirst(a: seq<Image>, b: seq<Image>)
    requires a != [] && Ordered(a) && Ordered(b)
    requires forall name :: Ties(a, name) == Ties(b, name)
    ensures b != [] && a[0] == b[0]
  {
    hide Compare, Ordered;
    var x := a[0];
    VersionOrder(x.name, x.name);
    assert x in a;
    TiesMember(a, x.name);
    TiesMember(b, x.name);
    assert x in b;
    var y := b[0];
    VersionOrder(y.name, y.name);
    assert y in b;
    TiesMember(b, y.name);
    TiesMember(a, y.name);
    FirstIsLeast(a, y);
    FirstIsLeast(b, x);
    VersionOrder(x.name, y.name);
    assert Ties(a, x.name)[0] == x && Ties(b, x.name)[0] == y;
  }

  /** A stable sort by version has one possible result. */
  lemma {:induction false} StableSortUnique(a: seq<Image>, b: seq<Image>)
    requires Ordered(a) && Ordered(b)
    requires forall name :: Ties(a, name) == Ties(b, name)
    ensures a == b
  {
    if a == [] {
      if b != [] {
        SameFirst(b, a);
        assert false;
      }
    } else {
      SameFirst(a, b);
      hide Compare;
      forall name
        ensures Ties(a[1..], name) == Ties(b[1..], name)
      {
        var p := if Compare(a[0].name, name) == 0 then [a[0]] else [];
        var s, t := Ties(a[1..], name), Ties(b[1..], name);
        assert p + s == Ties(a, name) == Ties(b, name) == p + t;
        assert s == (p + s)[|p|..] && t == (p + t)[|p|..];
      }
      StableSortUnique(a[1..], b[1..]);
      assert a == [a[0]] + a[1..] && b == [b[0]] + b[1..];
    }
  }

  // ----- Discover

  datatype Outcome = Images(images: seq<Image>) | Failure

  /** The first image of each name in search order, sorted by version; an error exactly
      when some directory or entry fails to be read. */
  ghost predicate Discovered(env: Env, dirs: seq<Directory>, r: Outcome) {
    var rs := Readings(env, dirs);
    && (r.Failure? <==> Broken in rs)
    && (r.Images? ==> StablySorted(FirstOnes(rs), r.images))
  }

  lemma {:induction false} ReadingsStart(env: Env, dirs: seq<Directory>, n: nat)
    requires n <= |dirs|
    ensures forall r :: r in Readings(env, dirs[..n]) ==> r in Readings(env, dirs)
    decreases |dirs|
  {
    if n < |dirs| {
      var init := dirs[..|dirs| - 1];
      assert init[..n] == dirs[..n];
      ReadingsStart(env, init, n);
    } else {
      assert dirs[..n] == dirs;
    }
  }

  /** The names used so far. */
  ghost predicate Seen(seen: set<string>, images: seq<Image>) {
    forall name :: name in seen <==> HasName(images, name)
  }

  /** One search directory, after those that gave the readings before. */
  method ScanDirectory(env: Env, rel: string, names: seq<string>, seen0: set<string>, images0: seq<Image>, ghost before: seq<Reading>)
      returns (ok: bool, seen: set<string>, images: seq<Image>)
    requires images0 == FirstOnes(before) && Seen(seen0, images0)
    ensures var here := ReadDirectory(env, Listing(rel, names));
            && (ok <==> Broken !in here)
            && (ok ==> images == FirstOnes(before + here) && Seen(seen, images))
  {
    hide Read, Seen, HasName, FirstOnes;
    ok, seen, images := true, seen0, images0;
    ghost var here := ReadDirectory(env, Listing(rel, names));
    assert before + here[..0] == before;
    for j := 0 to |names|
      invariant images == FirstOnes(before + here[..j])
      invariant Seen(seen, images)
      invariant Broken !in here[..j]
    {
      var found := Read(env, rel, names[j]);
      OneReading(before + here[..j], here[j]);
      assert before + here[..j + 1] == before + here[..j] + [here[j]];
      assert here[..j + 1] == here[..j] + [here[j]];
      assert here[j] == found;
      if found.Broken? {
        assert here[j] in here;
        return false, seen, images;
      }
      if found.Names? {
        SeenName(seen, images, found.image);
        if found.image.name !in seen {
          seen, images := seen + {found.image.name}, images + [found.image];
        }
      }
    }
    assert here[..|names|] == here;
  }

  method Discover(env: Env, dirs: seq<Directory>) returns (r: Outcome)
    ensures Discovered(env, dirs, r)
  {
    hide Read, Ties, StablySorted, HasName, FirstOnes, Seen;
    var seen: set<string>, images: seq<Image>, ok := {}, [], true;
    NothingSeen();
    for i := 0 to |dirs|
      invariant images == FirstOnes(Readings(env, dirs[..i]))
      invariant Seen(seen, images)
      invariant Broken !in Readings(env, dirs[..i])
    {
      ghost var before := Readings(env, dirs[..i]);
      assert dirs[..i + 1][..i] == dirs[..i];
      assert Readings(env, dirs[..i + 1]) == before + ReadDirectory(env, dirs[i]);
      ReadingsStart(env, dirs, i + 1);
      match dirs[i] {
        case Missing =>
          assert before + [] == before;
          continue;
        case Unreadable =>
          assert Broken in ReadDirectory(env, dirs[i]);
          return Failure;
        case Listing(rel, names) =>
          ok, seen, images := ScanDirectory(env, rel, names, seen, images, before);
          if !ok {
            return Failure;
          }
      }
    }
    assert dirs[..|dirs|] == dirs;
    SortedIsStable(images);
    r := Images(Sorted(images));
  }

  lemma NothingSeen()
    ensures Seen({}, []) && FirstOnes([]) == []
  {
  }

  lemma SeenName(seen: set<string>, images: seq<Image>, image: Image)
    requires Seen(seen, images)
    ensures image.name in seen <==> HasName(images, image.name)
    ensures Seen(seen + {image.name}, images + [image])
  {
    var after := images + [image];
    assert after[|images|] == image;
    assert forall k :: 0 <= k < |images| ==> after[k] == images[k];
  }

  lemma OneReading(rs: seq<Reading>, r: Reading)
    ensures FirstOnes(rs + [r]) == if r.Names? && !HasName(FirstOnes(rs), r.image.name) then FirstOnes(rs) + [r.image] else FirstOnes(rs)
  {
    assert (rs + [r])[..|rs|] == rs;
  }
}
