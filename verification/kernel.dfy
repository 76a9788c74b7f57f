module Maybe {
  datatype Option<+T> = None | Some(value: T)

  datatype Result<+T, +E> = Ok(value: T) | Err(error: E)
}

/** The mount table and the directories the merge engine works on.

    World is one state of the kernel; Kernel holds the current one and offers the
    calls of internal/overlay (mount, move, clone, detach, remove) as methods that
    succeed or fail as they like. Inv is what every call sequence of the engine
    keeps, whatever fails. */
module KernelModel {
  import opened Maybe

  /** A hierarchy, such as /usr. Hierarchies do not lie inside one another. */
  type Hier = string

  /** Where an operation builds its layout: the workspace itself or ws/next.<n>. */
  datatype Gen = Base | Next(n: nat)

  /** meta/<h>, overlay/<h> and mh_workspace/<h>. */
  datatype Kind = Meta | Staging | Scratch

  datatype Dir = Dir(gen: Gen, kind: Kind, h: Hier)

  /** Persistent directories outside the workspace, named after a hierarchy. */
  datatype Store = Upper(name: string) | Work(name: string)

  /** The identity of a directory used as an overlay layer. */
  datatype Layer = InWorkspace(owner: Hier, serial: nat) | InStore(name: string, serial: nat)

  /** A mount below a hierarchy: its relative path and the mount tree on it. */
  datatype Sub = Sub(rel: string, tree: nat)

  /** The mounts that the files of a directory have a place for: the mount point exists
      or can be made, without a symlink on the way. */
  type Tree = iset<Sub>

  ghost predicate Fit(subs: set<Sub>, tree: Tree) {
    forall s :: s in subs ==> s in tree
  }

  /** One of our overlays: the recorded origin and workdir, the directories in the
      workspace or a store it needs, what its files have a place for, the mounts below
      it, and whether its marker directory is covered by a read-only bind mount. */
  datatype Overlay =
    Overlay(origin: string, layers: set<Layer>, work: Option<string>, tree: Tree, subs: set<Sub>, bound: bool)

  /** A directory mounts are carried from or to. */
  datatype Place = Target(h: Hier) | Staged(gen: Gen, h: Hier)

  /** hierarchy_as_single_path_component: slashes around the path are dropped and
      the inner ones become dots. */
  function Component(h: Hier): string {
    Dots(TrimRight(TrimLeft(h)))
  }

  function TrimLeft(s: string): string {
    if s != "" && s[0] == '/' then TrimLeft(s[1..]) else s
  }

  function TrimRight(s: string): string {
    if s != "" && s[|s| - 1] == '/' then TrimRight(s[..|s| - 1]) else s
  }

  function Dots(s: string): string {
    if s == "" then "" else [if s[0] == '/' then '.' else s[0]] + Dots(s[1..])
  }

  /** No two hierarchies share the name of their mutable directories. */
  ghost predicate NamesDistinct(config: set<Hier>) {
    forall g, h :: g in config && h in config && Component(g) == Component(h) ==> g == h
  }

  /** One hierarchy: whether it exists as a directory, what its own files have a place
      for, the mounts below the bare directory, and our overlays on it, bottom first. */
  datatype Spot = Spot(present: bool, tree: Tree, host: set<Sub>, stack: seq<Overlay>) {

    /** The mounts below the hierarchy that are visible, those of its topmost mount. */
    function Subs(): set<Sub> {
      if stack == [] then host else stack[|stack| - 1].subs
    }

    /** The mounts that can be attached below the hierarchy. */
    function Room(): Tree {
      if !present then iset{} else if stack == [] then tree else stack[|stack| - 1].tree
    }

    function WithSubs(subs: set<Sub>): Spot {
      if stack == [] then this.(host := subs)
      else this.(stack := stack[..|stack| - 1] + [stack[|stack| - 1].(subs := subs)])
    }

    function WithBound(b: bool): Spot {
      if stack == [] then this else this.(stack := stack[..|stack| - 1] + [stack[|stack| - 1].(bound := b)])
    }

    function Without(): Spot {
      if stack == [] then this else this.(stack := stack[..|stack| - 1])
    }
  }

  datatype World = World(
    spots: map<Hier, Spot>,            // the hierarchies in use
    staged: map<(Gen, Hier), Overlay>, // overlays at their staging points
    mounted: bool,                     // the workspace tmpfs is mounted
    gens: set<nat>,                    // the next.* directories in it
    dirs: map<Dir, Layer>,
    images: set<(Gen, string)>,        // image mounts at extensions/<name>
    stores: map<Store, Layer>,
    dead: set<Layer>,                  // directories a removal has reached
    unused: nat,                       // serials from here on are not in use
    strays: nat)                       // mounts that stayed behind when they were cloned
  {
    function At(h: Hier): Spot {
      if h in spots then spots[h] else Spot(false, iset{}, {}, [])
    }

    function SubsAt(p: Place): set<Sub> {
      match p
      case Target(h) => At(h).Subs()
      case Staged(g, h) => if (g, h) in staged then staged[(g, h)].subs else {}
    }

    function SetSpot(h: Hier, s: Spot): World {
      if h in spots then this.(spots := spots[h := s]) else this
    }

    function WithSubs(p: Place, subs: set<Sub>): World {
      match p
      case Target(h) => SetSpot(h, At(h).WithSubs(subs))
      case Staged(g, h) =>
        if (g, h) in staged then this.(staged := staged[(g, h) := staged[(g, h)].(subs := subs)]) else this
    }

    /** The mounts at a place taken off, all but those left; n have stayed behind by now. */
    function Taken(p: Place, left: set<Sub>, n: nat): World {
      WithSubs(p, left).(strays := n)
    }

    /** The mounts that can be attached there. */
    function RoomAt(p: Place): Tree {
      match p
      case Target(h) => At(h).Room()
      case Staged(g, h) => if (g, h) in staged then staged[(g, h)].tree else iset{}
    }

    /** The overlay at a place with its marker directory bound read-only, or not. */
    function WithBound(p: Place, b: bool): World {
      match p
      case Target(h) => SetSpot(h, At(h).WithBound(b))
      case Staged(g, h) =>
        if (g, h) in staged then this.(staged := staged[(g, h) := staged[(g, h)].(bound := b)]) else this
    }

    /** The overlay at a place gone, with everything mounted below it. */
    function Without(p: Place): World {
      match p
      case Target(h) => SetSpot(h, At(h).Without())
      case Staged(g, h) => this.(staged := staged - {(g, h)})
    }

    /** The workspace detached: what is mounted in it goes along, the directories
        stay as long as an overlay uses them. */
    function Unmounted(): World {
      this.(mounted := false, staged := map[], gens := {}, dirs := map[], images := {})
    }

    /** A directory made, unless it is there already; one a removal has reached
        counts as new. */
    function WithDir(d: Dir): World {
      if d in dirs && dirs[d] !in dead then this
      else this.(dirs := dirs[d := InWorkspace(d.h, unused)], unused := unused + 1)
    }

    function WithStore(s: Store): World {
      if s in stores && stores[s] !in dead then this
      else this.(stores := stores[s := InStore(s.name, unused)], unused := unused + 1)
    }

    /** A removal that reached the directories hit and deleted the names gone. */
    function Removed(gone: set<Dir>, hit: set<Dir>): World {
      this.(dirs := dirs - gone, dead := dead + set d | d in dirs && (d in gone || d in hit) :: dirs[d])
    }

    function StoreRemoved(s: Store, gone: bool): World {
      if s !in stores then this
      else this.(stores := if gone then stores - {s} else stores, dead := dead + {stores[s]})
    }

    /** A staged overlay moved onto its hierarchy, hiding what is there. */
    function Moved(g: Gen, h: Hier): World
      requires (g, h) in staged
    {
      SetSpot(h, At(h).(stack := At(h).stack + [staged[(g, h)]])).(staged := staged - {(g, h)})
    }

    function Renamed(src: Dir, dst: Dir): World
      requires src in dirs
    {
      this.(dirs := (dirs - {src})[dst := dirs[src]])
    }
  }

  // ----- the invariant

  ghost predicate LayerOk(l: Layer, h: Hier, unused: nat, dead: set<Layer>) {
    l.serial < unused && l !in dead && (if l.InWorkspace? then l.owner == h else l.name == Component(h))
  }

  ghost predicate OverlayOk(o: Overlay, h: Hier, unused: nat, dead: set<Layer>) {
    && (forall l :: l in o.layers ==> LayerOk(l, h, unused, dead)) && o.work in {None, Some(Component(h))}
    && Fit(o.subs, o.tree)
  }

  /** At most one of our overlays on a hierarchy. What is mounted has its mount point. */
  ghost predicate SpotOk(s: Spot, h: Hier, unused: nat, dead: set<Layer>) {
    && |s.stack| <= 1
    && (s.stack != [] ==> OverlayOk(s.stack[0], h, unused, dead))
    && (!s.present ==> s.stack == [] && s.host == {})
    && Fit(s.host, s.tree)
  }

  /** An overlay hides no mount below the bare hierarchy. */
  ghost predicate Flat(s: Spot) {
    s.stack != [] ==> s.host == {}
  }

  ghost predicate SpotsOk(w: World) {
    forall h :: h in w.spots ==> SpotOk(w.spots[h], h, w.unused, w.dead)
  }

  /** The layers of an overlay built in generation g for h: directories of g and stores
      of h, the metadata directory among them as long as no removal has reached it. A
      layer may be dead. */
  ghost predicate BuiltIn(w: World, g: Gen, h: Hier, o: Overlay) {
    && (forall l :: l in o.layers ==> l.serial < w.unused && if l.InWorkspace? then l.owner == h else l.name == Component(h))
    && (forall d :: d in w.dirs && w.dirs[d] in o.layers ==> d.gen == g)
    && (o.layers !! w.dead ==> Dir(g, Meta, h) in w.dirs && w.dirs[Dir(g, Meta, h)] in o.layers)
  }

  ghost predicate StagedOk(w: World) {
    forall k :: k in w.staged ==> BuiltIn(w, k.0, k.1, w.staged[k])
  }

  /** No overlay mounted at a staging point has a dead layer. */
  ghost predicate StagedSafe(w: World) {
    forall k :: k in w.staged ==> w.staged[k].layers !! w.dead
  }

  ghost predicate DirsOk(w: World) {
    && (forall d :: d in w.dirs ==> w.dirs[d].InWorkspace? && w.dirs[d].owner == d.h && w.dirs[d].serial < w.unused)
    && (forall s :: s in w.stores ==> w.stores[s].InStore? && w.stores[s].name == s.name && w.stores[s].serial < w.unused)
    && (forall l :: l in w.dead ==> l.serial < w.unused)
  }

  /** Generations in use are known by name, so a new one is never an old one. */
  ghost predicate GensOk(w: World) {
    && (!w.mounted ==> w.staged == map[] && w.dirs == map[] && w.images == {} && w.gens == {})
    && (forall d :: d in w.dirs && d.gen.Next? ==> d.gen.n in w.gens)
    && (forall k :: k in w.staged && k.0.Next? ==> k.0.n in w.gens)
    && (forall k :: k in w.images && k.0.Next? ==> k.0.n in w.gens)
  }

  ghost predicate Inv(w: World) {
    NamesDistinct(w.spots.Keys) && SpotsOk(w) && StagedOk(w) && DirsOk(w) && GensOk(w)
  }

  /** Hierarchy h and what is staged for it. */
  ghost predicate SameAt(v: World, w: World, g: Gen, h: Hier) {
    && v.At(h) == w.At(h)
    && ((g, h) in v.staged <==> (g, h) in w.staged)
    && ((g, h) in v.staged && (g, h) in w.staged ==> v.staged[(g, h)] == w.staged[(g, h)])
  }

  /** Everything outside hierarchy h is mounted as before. */
  ghost predicate SameElsewhere(v: World, w: World, h: Hier) {
    && v.spots.Keys == w.spots.Keys && v.images == w.images && v.strays <= w.strays && v.dead <= w.dead
    && forall g: Gen, k: Hier :: k != h ==> SameAt(v, w, g, k)
  }

  lemma ElsewhereTransitive(u: World, v: World, w: World, h: Hier)
    requires SameElsewhere(u, v, h) && SameElsewhere(v, w, h)
    ensures SameElsewhere(u, w, h)
  {
    forall g: Gen, k: Hier | k != h
      ensures SameAt(u, w, g, k)
    {
      assert SameAt(u, v, g, k) && SameAt(v, w, g, k);
    }
  }

  /** Nothing but mounts on and below hierarchies changed. */
  ghost predicate SameWorkspace(v: World, w: World) {
    && v.mounted == w.mounted && v.gens == w.gens && v.dirs == w.dirs && v.images == w.images
    && v.stores == w.stores && v.dead == w.dead && v.unused == w.unused
  }

  /** No overlay on a hierarchy has one of the directories as a layer. */
  ghost predicate Unneeded(w: World, ds: set<Dir>) {
    forall h, d :: h in w.spots && w.spots[h].stack != [] && d in ds && d in w.dirs ==> w.dirs[d] !in w.spots[h].stack[0].layers
  }

  /** The directories of generation g. */
  function DirsOf(w: World, g: Gen): set<Dir> {
    set d | d in w.dirs && d.gen == g
  }

  /** The work directory recorded by the overlay on h, which unmerging h removes. */
  function Doomed(w: World, h: Hier): set<Layer> {
    var s := w.At(h).stack;
    if s != [] && s[|s| - 1].work.Some? && Work(s[|s| - 1].work.value) in w.stores then {w.stores[Work(s[|s| - 1].work.value)]} else {}
  }

  /** An overlay at a staging point uses a work directory that unmerging one of the
      hierarchies removes. */
  ghost predicate SharesWork(w: World, hs: set<Hier>) {
    exists k, h :: k in w.staged && h in hs && !(Doomed(w, h) !! w.staged[k].layers)
  }

  /** What has died was recorded as a work directory by one of the hierarchies. */
  ghost predicate DiedAt(v: World, w: World, hs: set<Hier>) {
    v.dead <= w.dead && forall l :: l in w.dead ==> l in v.dead || exists h :: h in hs && l in Doomed(v, h)
  }

  /** Staged overlays are those of before, or use nothing dead. */
  lemma StagedSpared(v: World, w: World, hs: set<Hier>)
    requires StagedSafe(v) && DiedAt(v, w, hs) && !SharesWork(v, hs)
    requires forall k :: k in w.staged ==> (k in v.staged && w.staged[k].layers == v.staged[k].layers) || w.staged[k].layers !! w.dead
    ensures StagedSafe(w)
  {
    forall k | k in w.staged
      ensures w.staged[k].layers !! w.dead
    {
      if k in v.staged && w.staged[k].layers == v.staged[k].layers {
        assert forall h :: h in hs ==> Doomed(v, h) !! v.staged[k].layers;
      }
    }
  }

  // ----- what single changes keep

  lemma SetSpotKeeps(w: World, h: Hier, s: Spot)
    requires Inv(w) && SpotOk(s, h, w.unused, w.dead)
    ensures Inv(w.SetSpot(h, s))
    ensures SameElsewhere(w, w.SetSpot(h, s), h) && SameWorkspace(w, w.SetSpot(h, s))
  {
    SetSpotElsewhere(w, h, s);
    hide SpotOk, DirsOk, GensOk, StagedOk, NamesDistinct;
    assert w.SetSpot(h, s).spots.Keys == w.spots.Keys;
    SetSpotRest(w, h, s);
  }

  lemma SetSpotElsewhere(w: World, h: Hier, s: Spot)
    ensures SameElsewhere(w, w.SetSpot(h, s), h) && SameWorkspace(w, w.SetSpot(h, s))
  {
    assert w.SetSpot(h, s).spots.Keys == w.spots.Keys;
  }

  lemma SetSpotRest(w: World, h: Hier, s: Spot)
    requires DirsOk(w) && GensOk(w) && StagedOk(w)
    ensures DirsOk(w.SetSpot(h, s)) && GensOk(w.SetSpot(h, s)) && StagedOk(w.SetSpot(h, s))
  {
  }

  lemma StagedKeeps(w: World, k: (Gen, Hier), v: World)
    requires Inv(w) && k in w.staged && v.staged.Keys <= w.staged.Keys && v == w.(staged := v.staged)
    requires forall i :: i in w.staged && i != k ==> i in v.staged && v.staged[i] == w.staged[i]
    requires k in v.staged ==> v.staged[k].layers == w.staged[k].layers
    ensures Inv(v) && SameElsewhere(w, v, k.1) && SameWorkspace(w, v)
  {
  }

  lemma WithSubsKeeps(w: World, p: Place, subs: set<Sub>)
    requires Inv(w)
    requires p.Target? ==> Fit(subs, w.RoomAt(p))
    ensures Inv(w.WithSubs(p, subs))
    ensures SameElsewhere(w, w.WithSubs(p, subs), p.h) && SameWorkspace(w, w.WithSubs(p, subs))
  {
    hide Inv;
    if p.Target? {
      SpotFacts(w, p.h);
      SetSpotKeeps(w, p.h, w.At(p.h).WithSubs(subs));
    } else if (p.gen, p.h) in w.staged {
      StagedKeeps(w, (p.gen, p.h), w.WithSubs(p, subs));
    }
  }

  lemma StraysKeep(w: World, n: nat)
    requires Inv(w)
    ensures Inv(w.(strays := n))
  {
    StagedShape(w, w.(strays := n));
  }

  lemma TakenKeeps(w: World, p: Place, left: set<Sub>, n: nat)
    requires Inv(w) && w.strays <= n
    requires p.Target? ==> Fit(left, w.RoomAt(p))
    ensures Inv(w.Taken(p, left, n)) && SameElsewhere(w, w.Taken(p, left, n), p.h)
  {
    hide Inv;
    WithSubsKeeps(w, p, left);
    StraysKeep(w.WithSubs(p, left), n);
  }

  lemma WithBoundKeeps(w: World, p: Place, b: bool)
    requires Inv(w)
    ensures Inv(w.WithBound(p, b))
    ensures SameElsewhere(w, w.WithBound(p, b), p.h) && SameWorkspace(w, w.WithBound(p, b))
  {
    hide Inv;
    if p.Target? {
      SpotFacts(w, p.h);
      SetSpotKeeps(w, p.h, w.At(p.h).WithBound(b));
    } else if (p.gen, p.h) in w.staged {
      StagedKeeps(w, (p.gen, p.h), w.WithBound(p, b));
    }
  }

  lemma WithoutKeeps(w: World, p: Place)
    requires Inv(w)
    ensures Inv(w.Without(p))
    ensures SameElsewhere(w, w.Without(p), p.h) && SameWorkspace(w, w.Without(p))
  {
    hide Inv;
    if p.Target? {
      SpotFacts(w, p.h);
      SetSpotKeeps(w, p.h, w.At(p.h).Without());
    } else if (p.gen, p.h) in w.staged {
      StagedKeeps(w, (p.gen, p.h), w.Without(p));
    } else {
      assert w.Without(p) == w;
    }
  }

  /** What the invariant says about one hierarchy. */
  lemma SpotFacts(w: World, h: Hier)
    requires Inv(w)
    ensures SpotOk(w.At(h), h, w.unused, w.dead)
    ensures w.At(h).stack == [] || w.At(h).stack == [w.At(h).stack[0]]
    ensures w.At(h).Without().stack == []
    ensures w.At(h).stack != [] ==> |w.At(h).stack| == 1
  {
  }

  lemma UnmountedKeeps(w: World)
    requires Inv(w)
    ensures Inv(w.Unmounted())
  {
  }

  lemma WithDirKeeps(w: World, d: Dir)
    requires Inv(w) && w.mounted && (d.gen.Next? ==> d.gen.n in w.gens)
    ensures Inv(w.WithDir(d))
  {
    WithDirStaged(w, d);
    hide StagedOk;
  }

  lemma WithDirStaged(w: World, d: Dir)
    requires StagedOk(w) && DirsOk(w)
    ensures StagedOk(w.WithDir(d))
  {
    var v := w.WithDir(d);
    forall k | k in v.staged
      ensures BuiltIn(v, k.0, k.1, v.staged[k])
    {
      assert BuiltIn(w, k.0, k.1, w.staged[k]);
    }
  }

  lemma WithStoreKeeps(w: World, s: Store)
    requires Inv(w)
    ensures Inv(w.WithStore(s))
  {
  }

  /** The heart of layer safety: a removal keeps the invariant because no merged
      hierarchy needs what it reaches. */
  lemma RemovedKeeps(w: World, gone: set<Dir>, hit: set<Dir>)
    requires Inv(w) && Unneeded(w, gone + hit)
    ensures Inv(w.Removed(gone, hit))
  {
    var v := w.Removed(gone, hit);
    RemovedStaged(w, gone, hit);
    hide StagedOk;
    forall h | h in v.spots
      ensures SpotOk(v.spots[h], h, v.unused, v.dead)
    {
      assert SpotOk(w.spots[h], h, w.unused, w.dead);
    }
  }

  lemma RemovedStaged(w: World, gone: set<Dir>, hit: set<Dir>)
    requires StagedOk(w)
    ensures StagedOk(w.Removed(gone, hit))
  {
    var v := w.Removed(gone, hit);
    forall k | k in v.staged
      ensures BuiltIn(v, k.0, k.1, v.staged[k])
    {
      assert BuiltIn(w, k.0, k.1, w.staged[k]);
    }
  }

  /** A removal spares every overlay at a staging point when nothing is staged in the
      place of a directory it reaches. */
  lemma RemovalSpares(w: World, gone: set<Dir>, hit: set<Dir>)
    requires StagedOk(w) && DirsOk(w) && StagedSafe(w)
    requires forall d :: d in gone + hit ==> (d.gen, d.h) !in w.staged
    ensures StagedSafe(w.Removed(gone, hit))
  {
    var v := w.Removed(gone, hit);
    forall k | k in v.staged
      ensures v.staged[k].layers !! v.dead
    {
      assert BuiltIn(w, k.0, k.1, w.staged[k]);
      forall d | d in w.dirs && (d in gone || d in hit)
        ensures w.dirs[d] !in v.staged[k].layers
      {
        assert w.dirs[d] in v.staged[k].layers ==> (d.gen, d.h) == k;
      }
    }
  }

  /** Removing the metadata directory takes a layer from the overlay staged there. */
  lemma RemovalHits(w: World, g: Gen, h: Hier, gone: set<Dir>, hit: set<Dir>)
    requires StagedOk(w) && StagedSafe(w) && (g, h) in w.staged && Dir(g, Meta, h) in gone + hit
    ensures !StagedSafe(w.Removed(gone, hit))
  {
    var k := (g, h);
    assert BuiltIn(w, k.0, k.1, w.staged[k]);
    assert k in w.Removed(gone, hit).staged;
  }

  /** Once dead, a layer stays dead: an overlay that lost one is not made safe again by
      any removal. */
  lemma RemovalLasts(w: World, gone: set<Dir>, hit: set<Dir>)
    requires !StagedSafe(w)
    ensures !StagedSafe(w.Removed(gone, hit))
  {
    var k :| k in w.staged && !(w.staged[k].layers !! w.dead);
    assert k in w.Removed(gone, hit).staged;
  }

  lemma GenerationRemovedKeeps(w: World, g: Gen, gone: set<Dir>, hit: set<Dir>, ok: bool)
    requires Inv(w) && g.Next? && Unneeded(w, DirsOf(w, g)) && gone <= DirsOf(w, g) && hit <= DirsOf(w, g)
    requires ok ==> gone == DirsOf(w, g) && (forall k :: k in w.staged ==> k.0 != g) && (forall k :: k in w.images ==> k.0 != g)
    ensures Inv(if ok then w.Removed(gone, hit).(gens := w.gens - {g.n}) else w.Removed(gone, hit))
  {
    RemovedKeeps(w, gone, hit);
    hide SpotsOk, DirsOk;
    if ok {
      StagedShape(w.Removed(gone, hit), w.Removed(gone, hit).(gens := w.gens - {g.n}));
      hide StagedOk;
    }
  }

  lemma StagedShape(v: World, w: World)
    requires StagedOk(v) && w.staged == v.staged && w.dirs == v.dirs && w.dead == v.dead && w.unused == v.unused
    ensures StagedOk(w)
  {
    forall k | k in w.staged
      ensures BuiltIn(w, k.0, k.1, w.staged[k])
    {
      assert BuiltIn(v, k.0, k.1, v.staged[k]);
    }
  }

  lemma StoreRemovedKeeps(w: World, s: Store, gone: bool)
    requires Inv(w)
    requires forall h :: h in w.spots && w.spots[h].stack != [] ==> Component(h) != s.name
    ensures Inv(w.StoreRemoved(s, gone))
  {
  }

  lemma MovedKeeps(w: World, g: Gen, h: Hier)
    requires Inv(w) && (g, h) in w.staged && w.At(h).present && w.At(h).stack == []
    requires OverlayOk(w.staged[(g, h)], h, w.unused, w.dead)
    ensures Inv(w.Moved(g, h)) && SameElsewhere(w, w.Moved(g, h), h)
  {
    MovedStaged(w, g, h);
    hide StagedOk;
  }

  lemma MovedStaged(w: World, g: Gen, h: Hier)
    requires StagedOk(w) && (g, h) in w.staged
    ensures StagedOk(w.Moved(g, h))
  {
    var v := w.Moved(g, h);
    forall k | k in v.staged
      ensures BuiltIn(v, k.0, k.1, v.staged[k])
    {
      assert BuiltIn(w, k.0, k.1, w.staged[k]);
    }
  }

  lemma RenamedKeeps(w: World, src: Dir, dst: Dir)
    requires Inv(w) && src in w.dirs && dst !in w.dirs && src.h == dst.h && dst.gen == Base
    requires forall k :: k in w.staged ==> k.0 != src.gen
    ensures Inv(w.Renamed(src, dst))
  {
    RenamedStaged(w, src, dst);
    hide StagedOk;
  }

  lemma RenamedStaged(w: World, src: Dir, dst: Dir)
    requires StagedOk(w) && src in w.dirs && dst !in w.dirs && forall k :: k in w.staged ==> k.0 != src.gen
    ensures StagedOk(w.Renamed(src, dst))
  {
    var v := w.Renamed(src, dst);
    forall k | k in v.staged
      ensures BuiltIn(v, k.0, k.1, v.staged[k])
    {
      assert BuiltIn(w, k.0, k.1, w.staged[k]);
    }
  }

  lemma SpotsShape(v: World, w: World)
    requires SpotsOk(v) && w.spots == v.spots && w.dead == v.dead && w.unused == v.unused
    ensures SpotsOk(w)
  {
  }

  lemma InvImages(w: World, images: set<(Gen, string)>)
    requires Inv(w)
    ensures w.mounted && (forall k :: k in images ==> k in w.images || (k.0.Next? ==> k.0.n in w.gens)) ==> Inv(w.(images := images))
    ensures images <= w.images ==> Inv(w.(images := images))
  {
    StagedShape(w, w.(images := images));
    SpotsShape(w, w.(images := images));
    hide StagedOk, SpotsOk, NamesDistinct, DirsOk;
  }

  lemma InvMounted(w: World)
    requires Inv(w)
    ensures Inv(w.(mounted := true))
  {
    StagedShape(w, w.(mounted := true));
    SpotsShape(w, w.(mounted := true));
    hide StagedOk, SpotsOk, NamesDistinct;
  }

  lemma InvGen(w: World, n: nat)
    requires Inv(w) && w.mounted
    ensures Inv(w.(gens := w.gens + {n}))
  {
    StagedShape(w, w.(gens := w.gens + {n}));
    SpotsShape(w, w.(gens := w.gens + {n}));
    hide StagedOk, SpotsOk, NamesDistinct, DirsOk;
  }

  /** Overlays at staging points can go. */
  lemma InvStaged(w: World, v: World)
    requires Inv(w) && v == w.(staged := v.staged)
    requires v.staged.Keys <= w.staged.Keys && forall k :: k in v.staged ==> v.staged[k] == w.staged[k]
    ensures Inv(v)
  {
    SpotsShape(w, v);
    hide SpotsOk, NamesDistinct;
    forall k | k in v.staged
      ensures BuiltIn(v, k.0, k.1, v.staged[k])
    {
      assert BuiltIn(w, k.0, k.1, w.staged[k]);
    }
  }

  lemma InvStage(w: World, g: Gen, h: Hier, o: Overlay)
    requires Inv(w) && w.mounted && (g.Next? ==> g.n in w.gens) && BuiltIn(w, g, h, o)
    ensures Inv(w.(staged := w.staged[(g, h) := o]))
  {
    SpotsShape(w, w.(staged := w.staged[(g, h) := o]));
    StageBuilt(w, g, h, o);
    hide SpotsOk, StagedOk, BuiltIn, NamesDistinct;
  }

  lemma StageBuilt(w: World, g: Gen, h: Hier, o: Overlay)
    requires StagedOk(w) && BuiltIn(w, g, h, o)
    ensures StagedOk(w.(staged := w.staged[(g, h) := o]))
  {
    var v := w.(staged := w.staged[(g, h) := o]);
    forall k | k in v.staged
      ensures BuiltIn(v, k.0, k.1, v.staged[k])
    {
      assert k != (g, h) ==> BuiltIn(w, k.0, k.1, w.staged[k]);
    }
  }

  lemma BareAlone(w: World, h: Hier)
    requires Inv(w)
    ensures !w.At(h).present ==> w.At(h).Subs() == {}
  {
    SpotFacts(w, h);
  }

  /** What is mounted below a hierarchy has its place there. */
  lemma TakenFit(w: World, h: Hier, left: set<Sub>)
    requires Inv(w) && left <= w.At(h).Subs()
    ensures Fit(left, w.At(h).Room())
  {
    SpotFacts(w, h);
  }

  lemma PresentKeeps(w: World, h: Hier)
    requires Inv(w)
    ensures Inv(w.SetSpot(h, w.At(h).(present := true)))
  {
    SpotFacts(w, h);
    SetSpotKeeps(w, h, w.At(h).(present := true));
  }

  lemma NamesBounded(s: set<nat>) returns (bound: nat)
    ensures forall n :: n in s ==> n < bound
    ensures bound !in s
  {
    bound := 0;
    var left := s;
    while left != {}
      invariant forall n :: n in s ==> n in left || n < bound
      decreases left
    {
      var n :| n in left;
      bound := if n < bound then bound else n + 1;
      left := left - {n};
    }
  }

  // ----- the calls

  /** An overlay is mounted on one of the directories. */
  predicate Busy(w: World, ds: set<Dir>) {
    exists d :: d in ds && d.kind == Staging && (d.gen, d.h) in w.staged
  }

  /** Something is mounted in generation g. */
  predicate InUse(w: World, g: Gen) {
    (exists k :: k in w.staged && k.0 == g) || (exists k :: k in w.images && k.0 == g)
  }

  /** All overlays on the hierarchies record one origin. */
  ghost predicate Alike(w: World, hs: set<Hier>) {
    forall g, h ::
      g in hs && h in hs && w.At(g).stack != [] && w.At(h).stack != [] ==>
        w.At(g).stack[|w.At(g).stack| - 1].origin == w.At(h).stack[|w.At(h).stack| - 1].origin
  }

  /** All overlays on the hierarchies record this origin. */
  ghost predicate Recording(w: World, hs: set<Hier>, origin: string) {
    forall h :: h in hs && w.At(h).stack != [] ==> w.At(h).stack[|w.At(h).stack| - 1].origin == origin
  }

  lemma AlikeMoved(w: World, g: Gen, h: Hier, hs: set<Hier>)
    requires (g, h) in w.staged && Recording(w, hs, w.staged[(g, h)].origin)
    ensures Recording(w.Moved(g, h), hs, w.staged[(g, h)].origin) && Alike(w.Moved(g, h), hs)
  {
    var v := w.Moved(g, h);
    assert forall f :: f != h || f !in w.spots ==> v.At(f) == w.At(f);
    assert h in w.spots ==> v.At(h).stack == w.At(h).stack + [w.staged[(g, h)]];
    hide World.At;
  }

  /** What holds at every moment: no overlay on a hierarchy has a dead layer, no hierarchy
      has two, and old and new merges are not side by side. */
  ghost predicate Sound(w: World, hs: set<Hier>) {
    Inv(w) && Alike(w, hs)
  }

  /** An overlay that was there is there, or gone. */
  lemma AlikeStays(v: World, w: World, hs: set<Hier>)
    requires Alike(v, hs)
    requires forall h :: h in hs && w.At(h).stack != [] ==>
               v.At(h).stack != [] && w.At(h).stack[|w.At(h).stack| - 1].origin == v.At(h).stack[|v.At(h).stack| - 1].origin
    ensures Alike(w, hs)
  {
  }

  lemma AlikeSpots(v: World, w: World, hs: set<Hier>)
    requires Alike(v, hs) && w.spots == v.spots
    ensures Alike(w, hs)
  {
  }

  lemma AlikeSubs(w: World, p: Place, subs: set<Sub>, n: nat, hs: set<Hier>)
    requires Alike(w, hs)
    ensures Alike(w.WithSubs(p, subs), hs) && Alike(w.Taken(p, subs, n), hs)
  {
    AlikeStays(w, w.WithSubs(p, subs), hs);
    AlikeSpots(w.WithSubs(p, subs), w.Taken(p, subs, n), hs);
  }

  lemma AlikeBound(w: World, p: Place, b: bool, hs: set<Hier>)
    requires Alike(w, hs)
    ensures Alike(w.WithBound(p, b), hs)
  {
    AlikeStays(w, w.WithBound(p, b), hs);
  }

  lemma AlikeGone(w: World, p: Place, hs: set<Hier>)
    requires Inv(w) && Alike(w, hs)
    ensures Alike(w.Without(p), hs)
  {
    SpotFacts(w, p.h);
    hide Inv;
    AlikeStays(w, w.Without(p), hs);
  }

  lemma AlikePresent(w: World, h: Hier, hs: set<Hier>)
    requires Alike(w, hs)
    ensures Alike(w.SetSpot(h, w.At(h).(present := true)), hs)
  {
    AlikeStays(w, w.SetSpot(h, w.At(h).(present := true)), hs);
  }

  /** The kernel as the engine sees it. Every call may fail; one that fails leaves
      the world as its contract says. */
  class Kernel {
    var w: World
    ghost const group: set<Hier> // the hierarchies the operations work on
    ghost var faults: nat        // the calls that have failed of themselves
    ghost var sound: bool        // the world has been sound after every call so far

    /** If the world is sound at first, it is after every call from the old state to now. */
    twostate predicate Kept()
      reads this
    {
      (sound ==> old(sound)) && (old(sound) && Sound(old(w), group) ==> sound && Sound(w, group))
    }

    /** A failure is due to a call that has failed of itself since the old state. A call
        that the state of the world makes impossible does not count. And whatever fails,
        no call makes the world unsound. */
    twostate predicate Blamed(ok: bool)
      reads this
    {
      Kept() && faults >= old(faults) && (!ok ==> faults > old(faults))
    }

    /** Any other call or check: it changes nothing that is modelled here. */
    method Other() returns (ok: bool)
      modifies this
      ensures w == old(w) && Blamed(ok)
    {
      ok := *;
      faults := faults + if ok then 0 else 1;
    }

    /** isOurMountPoint: the marker in the top layer of the overlay on h is read
        through it, so a merge whose layers were destroyed is not recognized. */
    method IsOurs(h: Hier) returns (ok: bool, ours: bool)
      modifies this
      ensures w == old(w) && Blamed(ok)
      ensures ok ==> ours == (w.At(h).stack != [] && w.At(h).stack[|w.At(h).stack| - 1].layers !! w.dead)
    {
      ok := *;
      faults := faults + if ok then 0 else 1;
      var s := w.At(h).stack;
      ours := s != [] && s[|s| - 1].layers !! w.dead;
    }

    method Exists(h: Hier) returns (ok: bool, present: bool)
      modifies this
      ensures w == old(w) && Blamed(ok)
      ensures ok ==> present == w.At(h).present
    {
      ok := *;
      faults := faults + if ok then 0 else 1;
      present := w.At(h).present;
    }

    method ReadOrigin(h: Hier) returns (o: Option<string>)
      modifies this
      ensures w == old(w) && sound == old(sound) && faults == old(faults) + if o.None? && w.At(h).stack != [] then 1 else 0
      ensures o.Some? ==> w.At(h).stack != [] && o.value == w.At(h).stack[|w.At(h).stack| - 1].origin
    {
      var s, readable := w.At(h).stack, *;
      o := if readable && s != [] then Some(s[|s| - 1].origin) else None;
      faults := faults + if o.None? && s != [] then 1 else 0;
    }

    /** recordedWorkDir of the overlay on h. */
    method ReadWorkDir(h: Hier) returns (ok: bool, work: Option<string>)
      modifies this
      ensures w == old(w) && Blamed(ok)
      ensures ok && w.At(h).stack != [] ==> work == w.At(h).stack[|w.At(h).stack| - 1].work
    {
      var s := w.At(h).stack;
      ok := *;
      faults := faults + if ok then 0 else 1;
      work := if s != [] then s[|s| - 1].work else None;
    }

    /** Detaches the overlay at p lazily, with everything below it. */
    method Detach(p: Place) returns (ok: bool)
      modifies this
      ensures Blamed(ok)
      ensures w == if ok then old(w).Without(p) else old(w)
    {
      hide Inv, Alike;
      ghost var v := w;
      ok := *;
      faults := faults + if ok then 0 else 1;
      if ok {
        w := w.Without(p);
      }
      if Sound(v, group) {
        WithoutKeeps(v, p);
        AlikeGone(v, p, group);
      }
      sound := sound && Sound(w, group);
    }

    method SetMarkerBound(p: Place, bound: bool) returns (ok: bool)
      modifies this
      ensures Blamed(ok)
      ensures w == if ok then old(w).WithBound(p, bound) else old(w)
    {
      hide Inv, Alike;
      ghost var v := w;
      ok := *;
      faults := faults + if ok then 0 else 1;
      if ok {
        w := w.WithBound(p, bound);
      }
      if Sound(v, group) {
        WithBoundKeeps(v, p, bound);
        AlikeBound(v, p, bound, group);
      }
      sound := sound && Sound(w, group);
    }

    /** Detaches a mount that has been cloned. On failure the mount stays where it is,
        besides its clone. */
    method DetachOriginal(p: Place, s: Sub) returns (ok: bool)
      modifies this
      ensures Blamed(ok)
      ensures w == if ok then old(w).WithSubs(p, old(w).SubsAt(p) - {s}) else old(w).(strays := old(w).strays + 1)
    {
      hide Inv, Alike;
      ghost var v := w;
      ok := *;
      faults := faults + if ok then 0 else 1;
      w := if ok then w.WithSubs(p, w.SubsAt(p) - {s}) else w.(strays := w.strays + 1);
      if Sound(v, group) {
        TakenFit(v, p.h, if p.Target? then v.SubsAt(p) - {s} else {});
        WithSubsKeeps(v, p, v.SubsAt(p) - {s});
        StraysKeep(v, v.strays + 1);
        AlikeSubs(v, p, v.SubsAt(p) - {s}, v.strays, group);
        AlikeSpots(v, v.(strays := v.strays + 1), group);
      }
      sound := sound && Sound(w, group);
    }

    /** Makes a mount point and moves a clone onto it. It is refused below a hierarchy
        that does not exist or a staging point without overlay, and where the files have
        no place for it: a symlink is in the way, or what is missing cannot be made. */
    method AttachClone(p: Place, s: Sub) returns (ok: bool)
      modifies this
      ensures Blamed(ok || s !in old(w).RoomAt(p))
      ensures w == if ok then old(w).WithSubs(p, old(w).SubsAt(p) + {s}) else old(w)
      ensures ok ==> s in old(w).RoomAt(p)
    {
      hide Inv, Alike;
      ghost var v := w;
      ok := *;
      faults := faults + if ok then 0 else 1;
      ok := ok && s in w.RoomAt(p);
      if ok {
        w := w.WithSubs(p, w.SubsAt(p) + {s});
      }
      if Sound(v, group) {
        if ok {
          TakenFit(v, p.h, v.At(p.h).Subs());
          WithSubsKeeps(v, p, v.SubsAt(p) + {s});
        }
        AlikeSubs(v, p, v.SubsAt(p) + {s}, v.strays, group);
      }
      sound := sound && Sound(w, group);
    }

    method MakeHierarchy(h: Hier) returns (ok: bool)
      modifies this
      ensures Blamed(ok)
      ensures w == if ok then old(w).SetSpot(h, old(w).At(h).(present := true)) else old(w)
    {
      hide Inv, Alike;
      ghost var v := w;
      ok := *;
      faults := faults + if ok then 0 else 1;
      if ok {
        w := w.SetSpot(h, w.At(h).(present := true));
      }
      if Sound(v, group) {
        PresentKeeps(v, h);
        AlikePresent(v, h, group);
      }
      sound := sound && Sound(w, group);
    }

    method MountOverlay(g: Gen, h: Hier, o: Overlay) returns (ok: bool)
      requires BuiltIn(w, g, h, o) && (g.Next? ==> g.n in w.gens)
      modifies this
      ensures Blamed(ok || !(old(w).mounted))
      ensures ok ==> old(w).mounted
      ensures w == if ok then old(w).(staged := old(w).staged[(g, h) := o]) else old(w)
    {
      hide Inv, Alike;
      ghost var v := w;
      ok := *;
      faults := faults + if ok then 0 else 1;
      ok := ok && w.mounted;
      if ok {
        w := w.(staged := w.staged[(g, h) := o]);
      }
      if Sound(v, group) {
        if ok {
          InvStage(v, g, h, o);
        }
        AlikeSpots(v, w, group);
      }
      sound := sound && Sound(w, group);
    }

    /** A hierarchy must not have an overlay when another is moved onto it, and those on
        other hierarchies must be of the same merge. */
    method MoveOverlay(g: Gen, h: Hier) returns (ok: bool)
      requires w.At(h).stack == []
      requires (g, h) in w.staged ==> OverlayOk(w.staged[(g, h)], h, w.unused, w.dead) && Recording(w, group, w.staged[(g, h)].origin)
      modifies this
      ensures Blamed(ok || !((g, h) in old(w).staged && old(w).At(h).present))
      ensures ok ==> (g, h) in old(w).staged && old(w).At(h).present
      ensures w == if ok then old(w).Moved(g, h) else old(w)
    {
      hide Inv, Alike;
      ghost var v := w;
      ok := *;
      faults := faults + if ok then 0 else 1;
      ok := ok && (g, h) in w.staged && w.At(h).present;
      if ok {
        w := w.Moved(g, h);
      }
      if Sound(v, group) {
        if ok {
          MovedKeeps(v, g, h);
          AlikeMoved(v, g, h, group);
        }
      }
      sound := sound && Sound(w, group);
    }

    /** teardownWorkspace: detaches the workspace and removes what it covered. It can
        fail after the detach. */
    method Teardown() returns (ok: bool)
      modifies this
      ensures Blamed(ok)
      ensures w == old(w).Unmounted() || (!ok && w == old(w))
    {
      hide Inv, Alike;
      ghost var v := w;
      ok := *;
      faults := faults + if ok then 0 else 1;
      var detached := *;
      if ok || detached {
        w := w.Unmounted();
      }
      if Sound(v, group) {
        UnmountedKeeps(v);
        AlikeSpots(v, w, group);
      }
      sound := sound && Sound(w, group);
    }

    /** mountWorkspace: can fail with the tmpfs left mounted. */
    method MountWorkspace() returns (ok: bool)
      modifies this
      ensures Blamed(ok)
      ensures w == old(w).(mounted := true) || (!ok && w == old(w))
    {
      hide Inv, Alike;
      ghost var v := w;
      ok := *;
      faults := faults + if ok then 0 else 1;
      var mounted := *;
      if ok || mounted {
        w := w.(mounted := true);
      }
      if Sound(v, group) {
        InvMounted(v);
        AlikeSpots(v, w, group);
      }
      sound := sound && Sound(w, group);
    }

    /** MkdirTemp: a new next.* directory. */
    method MakeGeneration() returns (ok: bool, n: nat)
      modifies this
      ensures Blamed(ok || !(old(w).mounted))
      ensures ok ==> n !in old(w).gens && old(w).mounted
      ensures w == if ok then old(w).(gens := old(w).gens + {n}) else old(w)
    {
      hide Inv, Alike;
      ghost var v := w;
      ok := *;
      faults := faults + if ok then 0 else 1;
      n := 0;
      ok := ok && w.mounted;
      if ok {
        var bound := NamesBounded(w.gens);
        n :| n !in w.gens;
        w := w.(gens := w.gens + {n});
      }
      if Sound(v, group) {
        if ok {
          InvGen(v, n);
        }
        AlikeSpots(v, w, group);
      }
      sound := sound && Sound(w, group);
    }

    method MakeDir(d: Dir) returns (ok: bool)
      requires w.mounted && (d.gen.Next? ==> d.gen.n in w.gens)
      modifies this
      ensures Blamed(ok)
      ensures w == if ok then old(w).WithDir(d) else old(w)
    {
      hide Inv, Alike;
      ghost var v := w;
      ok := *;
      faults := faults + if ok then 0 else 1;
      if ok {
        w := w.WithDir(d);
      }
      if Sound(v, group) {
        WithDirKeeps(v, d);
        AlikeSpots(v, w, group);
      }
      sound := sound && Sound(w, group);
    }

    method MakeStore(s: Store) returns (ok: bool)
      modifies this
      ensures Blamed(ok)
      ensures w == if ok then old(w).WithStore(s) else old(w)
    {
      hide Inv, Alike;
      ghost var v := w;
      ok := *;
      faults := faults + if ok then 0 else 1;
      if ok {
        w := w.WithStore(s);
      }
      if Sound(v, group) {
        WithStoreKeeps(v, s);
        AlikeSpots(v, w, group);
      }
      sound := sound && Sound(w, group);
    }

    /** removeTree of directories in the workspace. It must not be called on one that
        backs an overlay on a hierarchy. With an overlay mounted below it refuses; one
        that fails half-way has reached some of the directories and deleted some. */
    method RemoveDirs(ds: set<Dir>) returns (ok: bool, ghost gone: set<Dir>, ghost hit: set<Dir>)
      requires Unneeded(w, ds)
      modifies this
      ensures Blamed(ok || Busy(old(w), ds))
      ensures gone <= ds && hit <= ds && (ok ==> gone == ds)
      ensures Busy(old(w), ds) ==> !ok && w == old(w)
      ensures w == old(w).Removed(gone, hit)
    {
      hide Inv, Alike;
      ghost var v := w;
      var reached: set<Dir> := *;
      var deleted: set<Dir> := *;
      ok := *;
      faults := faults + if ok then 0 else 1;
      if Busy(w, ds) {
        ok, gone, hit := false, {}, {};
        assert w.Removed({}, {}) == w;
      } else {
        gone, hit := if ok then ds else ds * deleted, ds * reached;
        w := w.Removed(if ok then ds else ds * deleted, ds * reached);
      }
      if Sound(v, group) {
        RemovedKeeps(v, gone, hit);
        AlikeSpots(v, w, group);
      }
      sound := sound && Sound(w, group);
    }

    /** removeTree of a generation: refuses while anything is mounted in it. */
    method RemoveGeneration(g: Gen) returns (ok: bool, ghost gone: set<Dir>, ghost hit: set<Dir>)
      requires g.Next? && Unneeded(w, DirsOf(w, g))
      modifies this
      ensures Blamed(ok || InUse(old(w), g))
      ensures gone <= DirsOf(old(w), g) && hit <= DirsOf(old(w), g) && (ok ==> gone == DirsOf(old(w), g))
      ensures InUse(old(w), g) ==> !ok && w == old(w)
      ensures w == if ok then old(w).Removed(gone, hit).(gens := old(w).gens - {g.n}) else old(w).Removed(gone, hit)
    {
      hide Inv, Alike;
      ghost var v := w;
      if InUse(w, g) {
        ok, gone, hit := false, {}, {};
        assert w.Removed({}, {}) == w;
      } else {
        ok, gone, hit := RemoveDirs(DirsOf(w, g));
        if ok {
          w := w.(gens := w.gens - {g.n});
        }
      }
      if Sound(v, group) {
        GenerationRemovedKeeps(v, g, gone, hit, ok);
        AlikeSpots(v, w, group);
      }
      sound := sound && Sound(w, group);
    }

    /** removeTree of extensions/ in generation g: refuses while an image is mounted. */
    method RemoveImageDirs(g: Gen) returns (ok: bool)
      modifies this
      ensures w == old(w) && Blamed(ok || !(forall k :: k in w.images ==> k.0 != g))
      ensures ok ==> forall k :: k in w.images ==> k.0 != g
    {
      ok := *;
      faults := faults + if ok then 0 else 1;
      ok := ok && !exists k :: k in w.images && k.0 == g;
    }

    /** removeTree of a recorded workdir. */
    method RemoveStore(s: Store) returns (ok: bool, ghost touched: bool, ghost gone: bool)
      requires forall h :: h in w.spots && w.spots[h].stack != [] ==> Component(h) != s.name
      modifies this
      ensures Blamed(ok)
      ensures ok ==> touched && gone
      ensures w == if touched then old(w).StoreRemoved(s, gone) else old(w)
    {
      hide Inv, Alike;
      ghost var v := w;
      ok := *;
      faults := faults + if ok then 0 else 1;
      var t, g := *, *;
      touched, gone := ok || t, ok || g;
      if ok {
        w := w.StoreRemoved(s, true);
      } else if t {
        w := w.StoreRemoved(s, g);
      }
      if Sound(v, group) {
        StoreRemovedKeeps(v, s, gone);
        AlikeSpots(v, w, group);
      }
      sound := sound && Sound(w, group);
    }

    method MountImage(g: Gen, name: string) returns (ok: bool)
      requires g.Next? ==> g.n in w.gens
      modifies this
      ensures Blamed(ok || !(old(w).mounted))
      ensures ok ==> old(w).mounted
      ensures w == if ok then old(w).(images := old(w).images + {(g, name)}) else old(w)
    {
      hide Inv, Alike;
      ghost var v := w;
      ok := *;
      faults := faults + if ok then 0 else 1;
      ok := ok && w.mounted;
      if ok {
        w := w.(images := w.images + {(g, name)});
      }
      if Sound(v, group) {
        InvImages(v, w.images);
        AlikeSpots(v, w, group);
      }
      sound := sound && Sound(w, group);
    }

    method UnmountImage(g: Gen, name: string) returns (ok: bool)
      modifies this
      ensures Blamed(ok)
      ensures w == if ok then old(w).(images := old(w).images - {(g, name)}) else old(w)
    {
      hide Inv, Alike;
      ghost var v := w;
      ok := *;
      faults := faults + if ok then 0 else 1;
      if ok {
        w := w.(images := w.images - {(g, name)});
      }
      if Sound(v, group) {
        InvImages(v, w.images);
        AlikeSpots(v, w, group);
      }
      sound := sound && Sound(w, group);
    }

    /** detachAll of the image mounts in generation g, which can fail half-way. */
    method DetachImages(g: Gen) returns (ok: bool)
      modifies this
      ensures Blamed(ok)
      ensures w == old(w).(images := w.images) && w.images <= old(w).images
      ensures forall i :: i in old(w).images && i.0 != g ==> i in w.images
      ensures ok ==> forall i :: i in w.images ==> i.0 != g
    {
      hide Inv, Alike;
      ghost var v := w;
      ok := *;
      faults := faults + if ok then 0 else 1;
      var some: set<(Gen, string)> := *;
      if ok {
        w := w.(images := set i | i in w.images && i.0 != g);
      } else {
        w := w.(images := set i | i in w.images && (i.0 != g || i in some));
      }
      if Sound(v, group) {
        InvImages(v, w.images);
        AlikeSpots(v, w, group);
      }
      sound := sound && Sound(w, group);
    }

    /** detachAll of the staged overlays in generation g, which can fail half-way. */
    method DetachStaged(g: Gen) returns (ok: bool)
      modifies this
      ensures Blamed(ok)
      ensures w == old(w).(staged := w.staged) && w.staged.Keys <= old(w).staged.Keys
      ensures forall k :: k in w.staged ==> w.staged[k] == old(w).staged[k]
      ensures forall k :: k in old(w).staged && k.0 != g ==> k in w.staged
      ensures ok ==> forall k :: k in w.staged ==> k.0 != g
    {
      hide Inv, Alike;
      ghost var v := w;
      ok := *;
      faults := faults + if ok then 0 else 1;
      var some: set<(Gen, Hier)> := *;
      if ok {
        w := w.(staged := map k | k in w.staged && k.0 != g :: w.staged[k]);
      } else {
        w := w.(staged := map k | k in w.staged && (k.0 != g || k in some) :: w.staged[k]);
      }
      if Sound(v, group) {
        InvStaged(v, w);
        AlikeSpots(v, w, group);
      }
      sound := sound && Sound(w, group);
    }

    method MoveImage(g: Gen, name: string) returns (ok: bool)
      modifies this
      ensures Blamed(ok || !(old(w).mounted))
      ensures ok ==> old(w).mounted
      ensures w == if ok then old(w).(images := old(w).images - {(g, name)} + {(Base, name)}) else old(w)
    {
      hide Inv, Alike;
      ghost var v := w;
      ok := *;
      faults := faults + if ok then 0 else 1;
      ok := ok && w.mounted;
      if ok {
        w := w.(images := w.images - {(g, name)} + {(Base, name)});
      }
      if Sound(v, group) {
        InvImages(v, w.images);
        AlikeSpots(v, w, group);
      }
      sound := sound && Sound(w, group);
    }

    /** Rename of a directory; the engine only renames onto a name it removed. */
    method Rename(src: Dir, dst: Dir) returns (ok: bool)
      requires src.h == dst.h && dst.gen == Base && forall k :: k in w.staged ==> k.0 != src.gen
      modifies this
      ensures Blamed(ok || !(src in old(w).dirs && dst !in old(w).dirs))
      ensures ok ==> src in old(w).dirs && dst !in old(w).dirs
      ensures w == if ok then old(w).Renamed(src, dst) else old(w)
    {
      hide Inv, Alike;
      ghost var v := w;
      ok := *;
      faults := faults + if ok then 0 else 1;
      ok := ok && src in w.dirs && dst !in w.dirs;
      if ok {
        w := w.Renamed(src, dst);
      }
      if Sound(v, group) {
        if ok {
          RenamedKeeps(v, src, dst);
        }
        AlikeSpots(v, w, group);
      }
      sound := sound && Sound(w, group);
    }
  }
}
