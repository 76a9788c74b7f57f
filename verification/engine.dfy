/** The merge transaction of internal/overlay/engine.go: what an operation in
    progress has done so far, as predicates on the world before it and now. */
module Transaction {
  import opened KernelModel
  import opened Carry
  import opened Unmerging

  /** The mutable modes. */
  datatype Mode = No | Auto | Yes | Import | Ephemeral | EphemeralImport

  predicate IsEphemeral(m: Mode) {
    m == Ephemeral || m == EphemeralImport
  }

  datatype HierarchyState = HierarchyState(
    path: Hier,
    host: bool,           // exists
    merged: bool,         // merged before this operation
    mount: bool,          // gets an overlay
    tree: Tree,           // what that has a place for
    stagingMounted: bool,
    attached: bool,
    unmerged: bool,
    subs: seq<SavedMount>)

  predicate Untouched(hs: HierarchyState) {
    !hs.stagingMounted && !hs.attached && !hs.unmerged && hs.subs == []
  }

  function Paths(hiers: seq<HierarchyState>): set<Hier> {
    set hs | hs in hiers :: hs.path
  }

  ghost predicate DistinctPaths(hiers: seq<HierarchyState>) {
    forall i, j :: 0 <= i < j < |hiers| ==> hiers[i].path != hiers[j].path
  }

  /** The overlay's directories in the workspace were made from serial mark on, that
      is by this operation. */
  ghost predicate NewLayers(o: Overlay, mark: nat) {
    forall l :: l in o.layers && l.InWorkspace? ==> l.serial >= mark
  }

  function StagedSubs(w: World, g: Gen, h: Hier): set<Sub> {
    w.SubsAt(Staged(g, h))
  }

  /** One hierarchy while merges are being swapped. */
  ghost predicate HierOk(w0: World, w: World, g: Gen, mark: nat, content: string, hs: HierarchyState) {
    var h := hs.path;
    && h in w.spots
    && Conserved(w0, w, h, StagedSubs(w, g, h), hs.subs)
    && (w0.At(h).present ==> w.At(h).present) && w.At(h).tree == w0.At(h).tree
    && (if hs.attached then
          && w.At(h).stack != [] && NewLayers(w.At(h).stack[0], mark) && w.At(h).stack[0].origin == content
          && w.At(h).stack[0].tree == hs.tree && (g, h) !in w.staged && (hs.unmerged || w0.At(h).stack == [])
        else if hs.unmerged then w.At(h).stack == []
        else SameMerge(w0.At(h).stack, w.At(h).stack))
    && (hs.unmerged ==> w0.At(h).stack != [])
    && ((g, h) in w.staged ==> hs.stagingMounted && w.staged[(g, h)].tree == hs.tree)
  }

  /** The mounts below the hierarchy have a place where the plan puts them. */
  ghost predicate Suits(w0: World, hs: HierarchyState) {
    Fit(w0.At(hs.path).Subs(), if hs.mount then hs.tree else w0.At(hs.path).tree)
  }

  ghost predicate AllSuit(w0: World, hiers: seq<HierarchyState>) {
    forall i :: 0 <= i < |hiers| ==> Suits(w0, hiers[i])
  }

  /** All mounts below the hierarchy are held for its new overlay or already there. */
  ghost predicate Held(w0: World, w: World, g: Gen, hs: HierarchyState) {
    w0.At(hs.path).Subs() <= StagedSubs(w, g, hs.path) + Pending(hs.subs)
  }

  /** The directories of generation g were made by this operation for its own
      hierarchies, all others before it. */
  ghost predicate DirMarks(w: World, g: Gen, mark: nat, paths: set<Hier>) {
    && (forall d :: d in w.dirs && d.gen == g ==> w.dirs[d].serial >= mark && d.h in paths)
    && (forall d :: d in w.dirs && d.gen != g ==> w.dirs[d].serial < mark)
  }

  ghost predicate StagedNew(w: World, g: Gen, mark: nat, content: string, paths: set<Hier>) {
    forall k :: k in w.staged && k.0 == g ==>
      k.1 in paths && OverlayOk(w.staged[k], k.1, w.unused, w.dead) && NewLayers(w.staged[k], mark) && w.staged[k].origin == content
  }

  /** What is staged in other generations was there before, and if this operation builds
      in one of its own, all of that is still there. */
  ghost predicate StagedRest(v: World, w: World, g: Gen) {
    && (forall k :: k in w.staged && k.0 != g ==> k in v.staged && v.staged[k] == w.staged[k])
    && (g != Base ==> forall k :: k in v.staged ==> k.0 != g && k in w.staged && w.staged[k] == v.staged[k])
  }

  ghost predicate OthersSame(w0: World, w: World, paths: set<Hier>) {
    w.spots.Keys == w0.spots.Keys && forall h :: h !in paths ==> w.At(h) == w0.At(h)
  }

  /** The workspace holds this operation's generation. */
  ghost predicate Ready(w: World, g: Gen) {
    w.mounted && (g.Next? ==> g.n in w.gens)
  }

  /** The state of an operation that is replacing merges. */
  ghost predicate Swapping(w0: World, w: World, g: Gen, mark: nat, content: string, hiers: seq<HierarchyState>) {
    && Inv(w0) && Inv(w) && w0.unused <= mark <= w.unused && Ready(w, g)
    && DistinctPaths(hiers)
    && DirMarks(w, g, mark, Paths(hiers))
    && StagedNew(w, g, mark, content, Paths(hiers))
    && StagedRest(w0, w, g) && DiedAt(w0, w, Paths(hiers))
    && (forall i :: 0 <= i < |hiers| ==> HierOk(w0, w, g, mark, content, hiers[i]))
    && OthersSame(w0, w, Paths(hiers))
  }

  lemma PathsUpdate(hiers: seq<HierarchyState>, i: nat, hs: HierarchyState)
    requires i < |hiers| && hs.path == hiers[i].path
    ensures Paths(hiers[i := hs]) == Paths(hiers)
    ensures DistinctPaths(hiers) ==> DistinctPaths(hiers[i := hs])
  {
    var t := hiers[i := hs];
    forall h
      ensures h in Paths(t) <==> h in Paths(hiers)
    {
      if h in Paths(hiers) {
        var j :| 0 <= j < |hiers| && hiers[j].path == h;
        assert t[j].path == h && t[j] in t;
      }
      if h in Paths(t) {
        var j :| 0 <= j < |t| && t[j].path == h;
        assert hiers[j].path == h && hiers[j] in hiers;
      }
    }
  }

  lemma PathIn(hiers: seq<HierarchyState>, i: nat)
    requires i < |hiers|
    ensures hiers[i].path in Paths(hiers)
  {
    assert hiers[i] in hiers;
  }

  /** The workspace parts of the state after a step on one hierarchy. */
  ghost predicate WorkspaceStep(v: World, w: World, g: Gen) {
    && w.mounted == v.mounted && w.gens == v.gens && w.dirs == v.dirs && w.unused == v.unused
    && (w.dead == v.dead || forall k :: k in v.staged ==> k.0 != g)
    && (forall k: (Gen, Hier) :: k.0 != g ==> (k in v.staged <==> k in w.staged) && (k in v.staged && k in w.staged ==> v.staged[k] == w.staged[k]))
  }

  /** A step on hierarchy i that keeps its own part keeps the whole. */
  lemma SwapStep(w0: World, v: World, w: World, g: Gen, mark: nat, content: string, hiers: seq<HierarchyState>, i: nat, hs: HierarchyState)
    requires Swapping(w0, v, g, mark, content, hiers) && i < |hiers|
    requires Inv(w) && SameElsewhere(v, w, hiers[i].path) && WorkspaceStep(v, w, g) && DiedAt(w0, w, Paths(hiers))
    requires hs.path == hiers[i].path && HierOk(w0, w, g, mark, content, hs)
    requires (g, hs.path) in w.staged ==>
               var o := w.staged[(g, hs.path)];
               OverlayOk(o, hs.path, w.unused, w.dead) && NewLayers(o, mark) && o.origin == content
    ensures Swapping(w0, w, g, mark, content, hiers[i := hs])
  {
    hide Inv, SpotOk, OverlayOk, NewLayers, Distinct, Pending, SameMerge, DiedAt, HierOk;
    PathsUpdate(hiers, i, hs);
    PathIn(hiers, i);
    var t := hiers[i := hs];
    forall j | 0 <= j < |t|
      ensures HierOk(w0, w, g, mark, content, t[j])
    {
      if j != i {
        assert hiers[j].path != hs.path by {
          if i < j {
            assert hiers[i].path != hiers[j].path;
          } else {
            assert hiers[j].path != hiers[i].path;
          }
        }
        assert SameAt(v, w, g, hiers[j].path);
        HierStill(w0, v, w, g, mark, content, hiers[j]);
      }
    }
    forall k | k in w.staged && k.0 == g
      ensures k.1 in Paths(t) && OverlayOk(w.staged[k], k.1, w.unused, w.dead) && NewLayers(w.staged[k], mark) && w.staged[k].origin == content
    {
      if k.1 != hs.path {
        assert SameAt(v, w, g, k.1);
        assert k == (g, k.1);
        assert k in v.staged;
      } else {
        assert k == (g, hs.path);
      }
    }
    forall h | h !in Paths(t)
      ensures w.At(h) == w0.At(h)
    {
      assert SameAt(v, w, g, h);
    }
  }

  /** The state of a hierarchy is kept by what is done elsewhere. */
  lemma HierStill(w0: World, v: World, w: World, g: Gen, mark: nat, content: string, hs: HierarchyState)
    requires HierOk(w0, v, g, mark, content, hs) && SameAt(v, w, g, hs.path) && v.spots.Keys == w.spots.Keys && v.strays <= w.strays
    ensures HierOk(w0, w, g, mark, content, hs)
  {
    hide Distinct, Pending, SameMerge, NewLayers;
  }

  // ----- steps on one hierarchy that keep its part of the state

  /** Detaching the mounts below p and holding them as clones. */
  lemma LocalTake(w0: World, v: World, g: Gen, mark: nat, content: string, hs: HierarchyState, p: Place, s: seq<SavedMount>, left: set<Sub>, n: nat)
    requires Inv(v) && HierOk(w0, v, g, mark, content, hs) && p in {Target(hs.path), Staged(g, hs.path)}
    requires p.Target? ==> v.At(hs.path).stack != [] || w0.At(hs.path).stack == []
    requires Distinct(s) && Pending(s) == v.SubsAt(p) && left <= Pending(s) && (left !! Pending(s) <==> n == v.strays) && v.strays <= n
    ensures var u, t := v.Taken(p, left, n), hs.(subs := hs.subs + s);
            HierOk(w0, u, g, mark, content, t) && u.SubsAt(p) <= Pending(t.subs)
    ensures p.Target? ==> Held(w0, v.Taken(p, left, n), g, hs.(subs := hs.subs + s))
  {
    hide Distinct, Pending, Conserved;
    var u := v.Taken(p, left, n);
    PendingOfSum(hs.subs, s);
    SpotFacts(v, hs.path);
    hide Inv;
    if p.Target? {
      ConservedTake(w0, v, u, hs.path, StagedSubs(v, g, hs.path), hs.subs, s, left);
    } else {
      assert StagedSubs(u, g, hs.path) == left;
      ConservedTakeStaged(w0, v, u, hs.path, StagedSubs(v, g, hs.path), hs.subs, s, left);
    }
  }

  /** Other mounts below a hierarchy are no other overlays. */
  lemma SubsShape(t: seq<Overlay>, s: Spot, subs: set<Sub>)
    requires |s.stack| <= 1
    ensures var u := s.WithSubs(subs);
            && u.present == s.present && u.tree == s.tree && (u.stack == [] <==> s.stack == [])
            && (s.stack != [] ==> u.stack[0] == s.stack[0].(subs := subs))
            && (SameMerge(t, s.stack) ==> SameMerge(t, u.stack))
  {
  }

  /** Attaching some of the pending clones below p. */
  lemma LocalAttach(w0: World, v: World, g: Gen, mark: nat, content: string, hs: HierarchyState, p: Place, rest: seq<SavedMount>, moved: set<Sub>)
    requires Inv(v) && HierOk(w0, v, g, mark, content, hs) && p in {Target(hs.path), Staged(g, hs.path)}
    requires moved + Pending(rest) == Pending(hs.subs) && (Distinct(hs.subs) ==> Distinct(rest) && moved !! Pending(rest))
    requires Fit(moved, v.RoomAt(p))
    ensures var w := v.WithSubs(p, v.SubsAt(p) + moved);
            HierOk(w0, w, g, mark, content, hs.(subs := rest)) && (p.Staged? && Held(w0, v, g, hs) ==> Held(w0, w, g, hs.(subs := rest)))
  {
    SpotFacts(v, hs.path);
    hide Inv, Distinct, Pending, Conserved, NewLayers, SpotOk, Fit, SameMerge;
    var w := v.WithSubs(p, v.SubsAt(p) + moved);
    if p.Target? {
      SubsShape(w0.At(hs.path).stack, v.At(hs.path), v.At(hs.path).Subs() + moved);
      hide Spot.WithSubs;
      assert w.At(hs.path) == v.At(hs.path).WithSubs(v.At(hs.path).Subs() + moved);
      ConservedAttach(w0, v, w, hs.path, StagedSubs(v, g, hs.path), hs.subs, rest, moved);
    } else {
      assert StagedSubs(w, g, hs.path) == StagedSubs(v, g, hs.path) + moved;
      ConservedAttachStaged(w0, v, w, hs.path, StagedSubs(v, g, hs.path), hs.subs, rest, moved);
    }
  }

  lemma LocalStage(w0: World, v: World, g: Gen, mark: nat, content: string, hs: HierarchyState, o: Overlay)
    requires HierOk(w0, v, g, mark, content, hs) && !hs.attached && o.subs == {} && o.tree == hs.tree && StagedSubs(v, g, hs.path) == {}
    ensures var w := v.(staged := v.staged[(g, hs.path) := o]);
            HierOk(w0, w, g, mark, content, hs.(stagingMounted := true))
  {
    hide Distinct, Pending, NewLayers;
  }

  lemma LocalMove(w0: World, v: World, g: Gen, mark: nat, content: string, hs: HierarchyState)
    requires HierOk(w0, v, g, mark, content, hs) && Pending(hs.subs) == {} && (g, hs.path) in v.staged
    requires v.At(hs.path).stack == [] && v.At(hs.path).present && Held(w0, v, g, hs)
    requires NewLayers(v.staged[(g, hs.path)], mark) && v.staged[(g, hs.path)].origin == content
    ensures HierOk(w0, v.Moved(g, hs.path), g, mark, content, hs.(stagingMounted := false, attached := true))
  {
    hide Distinct, Pending, Conserved, NewLayers;
    ConservedMove(w0, v, v.Moved(g, hs.path), hs.path, v.staged[(g, hs.path)], hs.subs);
  }

  lemma LocalBound(w0: World, v: World, g: Gen, mark: nat, content: string, hs: HierarchyState, p: Place, b: bool)
    requires Inv(v) && HierOk(w0, v, g, mark, content, hs) && p in {Target(hs.path), Staged(g, hs.path)}
    ensures HierOk(w0, v.WithBound(p, b), g, mark, content, hs)
    ensures v.WithBound(p, b).SubsAt(p) == v.SubsAt(p)
  {
    SpotFacts(v, hs.path);
    hide Inv, Distinct, Pending, Conserved, NewLayers;
    ConservedSame(w0, v, v.WithBound(p, b), hs.path, StagedSubs(v, g, hs.path), hs.subs);
  }

  /** Taking the overlay of this operation down once what is mounted below it is held. */
  lemma LocalDetach(w0: World, v: World, g: Gen, mark: nat, content: string, hs: HierarchyState)
    requires Inv(v) && HierOk(w0, v, g, mark, content, hs)
    requires var p := if hs.attached then Target(hs.path) else Staged(g, hs.path); v.SubsAt(p) <= Pending(hs.subs)
    ensures var p := if hs.attached then Target(hs.path) else Staged(g, hs.path);
            var w := v.Without(p);
            HierOk(w0, w, g, mark, content, hs.(attached := false)) && (g, hs.path) !in w.staged
  {
    SpotFacts(v, hs.path);
    hide Inv, Distinct, Pending, Conserved, NewLayers;
    var w := v.Without(if hs.attached then Target(hs.path) else Staged(g, hs.path));
    if hs.attached {
      ConservedGone(w0, v, w, hs.path, StagedSubs(v, g, hs.path), hs.subs);
    } else {
      ConservedStagedGone(w0, v, w, hs.path, StagedSubs(v, g, hs.path), hs.subs);
    }
  }

  // ----- the same steps on the whole state

  /** What the whole state says about hierarchy i. */
  lemma SwapOne(w0: World, v: World, g: Gen, mark: nat, content: string, hiers: seq<HierarchyState>, i: nat)
    requires Swapping(w0, v, g, mark, content, hiers) && i < |hiers|
    ensures Inv(w0) && Inv(v) && Ready(v, g) && HierOk(w0, v, g, mark, content, hiers[i]) && hiers[i].path in v.spots
    ensures (g, hiers[i].path) in v.staged ==>
              var o := v.staged[(g, hiers[i].path)];
              OverlayOk(o, hiers[i].path, v.unused, v.dead) && NewLayers(o, mark) && o.origin == content
  {
    PathIn(hiers, i);
    hide Inv, OverlayOk, NewLayers, DiedAt, StagedRest;
  }

  /** A step on h that makes no layer dead and mounts no new overlay at its staging
      point. */
  ghost predicate MountStep(v: World, w: World, g: Gen, h: Hier) {
    && WorkspaceStep(v, w, g) && w.dead == v.dead
    && ((g, h) in w.staged ==>
          && (g, h) in v.staged
          && var o, p := v.staged[(g, h)], w.staged[(g, h)];
             p == o.(subs := p.subs, bound := p.bound) && (Fit(o.subs, o.tree) ==> Fit(p.subs, p.tree)))
  }

  /** Taking mounts leaves every overlay where it is. */
  lemma TakenShape(v: World, g: Gen, h: Hier, p: Place, left: set<Sub>, n: nat)
    ensures var u := v.Taken(p, left, n);
            && ((g, h) in v.staged <==> (g, h) in u.staged)
            && (u.At(h).stack == [] <==> v.At(h).stack == [])
  {
  }

  lemma MountTaken(v: World, g: Gen, h: Hier, p: Place, left: set<Sub>, n: nat)
    requires p in {Target(h), Staged(g, h)}
    requires p.Staged? ==> Fit(left, v.RoomAt(p)) || left <= v.SubsAt(p)
    ensures MountStep(v, v.Taken(p, left, n), g, h) && MountStep(v, v.WithSubs(p, left), g, h)
  {
  }

  lemma MountBound(v: World, g: Gen, h: Hier, p: Place, b: bool)
    requires p in {Target(h), Staged(g, h)}
    ensures MountStep(v, v.WithBound(p, b), g, h)
  {
  }

  lemma MountGone(v: World, g: Gen, h: Hier)
    ensures MountStep(v, v.Without(Staged(g, h)), g, h)
    ensures (g, h) in v.staged ==> MountStep(v, v.Moved(g, h), g, h)
    ensures MountStep(v, v.SetSpot(h, v.At(h).(present := true)), g, h)
  {
  }

  lemma SwapStepAlive(w0: World, v: World, w: World, g: Gen, mark: nat, content: string, hiers: seq<HierarchyState>, i: nat, hs: HierarchyState)
    requires Swapping(w0, v, g, mark, content, hiers) && i < |hiers|
    requires Inv(w) && SameElsewhere(v, w, hiers[i].path) && MountStep(v, w, g, hiers[i].path)
    requires hs.path == hiers[i].path && HierOk(w0, w, g, mark, content, hs)
    ensures Swapping(w0, w, g, mark, content, hiers[i := hs])
  {
    SwapOne(w0, v, g, mark, content, hiers, i);
    assert DiedAt(w0, w, Paths(hiers)) by {
      assert DiedAt(w0, v, Paths(hiers));
    }
    hide Swapping, Inv, HierOk, SameElsewhere, DiedAt;
    SwapStep(w0, v, w, g, mark, content, hiers, i, hs);
  }

  lemma SwapTake(w0: World, v: World, g: Gen, mark: nat, content: string, hiers: seq<HierarchyState>, i: nat, p: Place, s: seq<SavedMount>, left: set<Sub>, n: nat)
    requires Swapping(w0, v, g, mark, content, hiers) && i < |hiers| && p in {Target(hiers[i].path), Staged(g, hiers[i].path)}
    requires p.Target? ==> v.At(hiers[i].path).stack != [] || w0.At(hiers[i].path).stack == []
    requires Distinct(s) && Pending(s) == v.SubsAt(p) && left <= Pending(s) && (left !! Pending(s) <==> n == v.strays) && v.strays <= n
    ensures var u := v.Taken(p, left, n);
            Swapping(w0, u, g, mark, content, hiers[i := hiers[i].(subs := hiers[i].subs + s)]) && SameElsewhere(v, u, hiers[i].path)
    ensures p.Target? ==> Held(w0, v.Taken(p, left, n), g, hiers[i].(subs := hiers[i].subs + s))
  {
    SwapOne(w0, v, g, mark, content, hiers, i);
    hide Swapping, Inv, HierOk, Distinct, Pending, SameElsewhere, MountStep, Held;
    var u := v.Taken(p, left, n);
    LocalTake(w0, v, g, mark, content, hiers[i], p, s, left, n);
    TakenFit(v, hiers[i].path, if p.Target? then left else {});
    TakenKeeps(v, p, left, n);
    MountTaken(v, g, hiers[i].path, p, left, n);
    hide *;
    SwapStepAlive(w0, v, u, g, mark, content, hiers, i, hiers[i].(subs := hiers[i].subs + s));
  }

  lemma SwapAttach(w0: World, v: World, g: Gen, mark: nat, content: string, hiers: seq<HierarchyState>, i: nat, p: Place, rest: seq<SavedMount>, moved: set<Sub>)
    requires Swapping(w0, v, g, mark, content, hiers) && i < |hiers| && p in {Target(hiers[i].path), Staged(g, hiers[i].path)}
    requires moved + Pending(rest) == Pending(hiers[i].subs) && (Distinct(hiers[i].subs) ==> Distinct(rest) && moved !! Pending(rest))
    requires Fit(moved, v.RoomAt(p))
    ensures var w := v.WithSubs(p, v.SubsAt(p) + moved);
            Swapping(w0, w, g, mark, content, hiers[i := hiers[i].(subs := rest)]) && SameElsewhere(v, w, hiers[i].path)
    ensures p.Staged? && Held(w0, v, g, hiers[i]) ==> Held(w0, v.WithSubs(p, v.SubsAt(p) + moved), g, hiers[i].(subs := rest))
  {
    SwapOne(w0, v, g, mark, content, hiers, i);
    hide Swapping, Inv, HierOk, Distinct, Pending, SameElsewhere, Held, MountStep;
    var subs := v.SubsAt(p) + moved;
    LocalAttach(w0, v, g, mark, content, hiers[i], p, rest, moved);
    TakenFit(v, hiers[i].path, v.At(hiers[i].path).Subs());
    WithSubsKeeps(v, p, subs);
    MountTaken(v, g, hiers[i].path, p, subs, v.strays);
    hide *;
    SwapStepAlive(w0, v, v.WithSubs(p, subs), g, mark, content, hiers, i, hiers[i].(subs := rest));
  }

  /** Clones in hand have a place to go back to. */
  lemma PendingPresent(w0: World, v: World, g: Gen, mark: nat, content: string, hs: HierarchyState)
    requires Inv(w0) && HierOk(w0, v, g, mark, content, hs)
    ensures Pending(hs.subs) != {} ==> v.At(hs.path).present
  {
    SpotFacts(w0, hs.path);
  }

  lemma SwapBound(w0: World, v: World, g: Gen, mark: nat, content: string, hiers: seq<HierarchyState>, i: nat, p: Place, b: bool)
    requires Swapping(w0, v, g, mark, content, hiers) && i < |hiers|
    requires p in {Target(hiers[i].path), Staged(g, hiers[i].path)}
    ensures Swapping(w0, v.WithBound(p, b), g, mark, content, hiers) && SameElsewhere(v, v.WithBound(p, b), hiers[i].path)
  {
    SwapOne(w0, v, g, mark, content, hiers, i);
    hide Swapping, Inv, HierOk, SameElsewhere;
    LocalBound(w0, v, g, mark, content, hiers[i], p, b);
    WithBoundKeeps(v, p, b);
    MountBound(v, g, hiers[i].path, p, b);
    hide *;
    SwapStepAlive(w0, v, v.WithBound(p, b), g, mark, content, hiers, i, hiers[i]);
    assert hiers[i := hiers[i]] == hiers;
  }

  lemma StageKeeps(w: World, g: Gen, h: Hier, o: Overlay)
    requires Inv(w) && Ready(w, g) && BuiltIn(w, g, h, o)
    ensures var v := w.(staged := w.staged[(g, h) := o]);
            Inv(v) && SameElsewhere(w, v, h) && WorkspaceStep(w, v, g)
  {
    InvStage(w, g, h, o);
    hide Inv, BuiltIn;
  }

  /** Mounting a new overlay with nothing below it at the staging point. */
  lemma SwapStage(w0: World, v: World, g: Gen, mark: nat, content: string, hiers: seq<HierarchyState>, i: nat, o: Overlay)
    requires Swapping(w0, v, g, mark, content, hiers) && i < |hiers| && !hiers[i].attached
    requires OverlayOk(o, hiers[i].path, v.unused, v.dead) && NewLayers(o, mark) && o.origin == content && o.tree == hiers[i].tree && o.subs == {}
    requires StagedSubs(v, g, hiers[i].path) == {} && BuiltIn(v, g, hiers[i].path, o)
    ensures var w := v.(staged := v.staged[(g, hiers[i].path) := o]);
            Swapping(w0, w, g, mark, content, hiers[i := hiers[i].(stagingMounted := true)]) && SameElsewhere(v, w, hiers[i].path)
  {
    SwapOne(w0, v, g, mark, content, hiers, i);
    hide Inv, BuiltIn, OverlayOk, NewLayers, SameElsewhere, WorkspaceStep, HierOk, Doomed;
    var w := v.(staged := v.staged[(g, hiers[i].path) := o]);
    LocalStage(w0, v, g, mark, content, hiers[i], o);
    StageKeeps(v, g, hiers[i].path, o);
    assert DiedAt(w0, w, Paths(hiers)) by {
      assert DiedAt(w0, v, Paths(hiers));
    }
    assert w.staged[(g, hiers[i].path)] == o && w.unused == v.unused && w.dead == v.dead;
    hide *;
    SwapStep(w0, v, w, g, mark, content, hiers, i, hiers[i].(stagingMounted := true));
  }

  lemma SwapUnstage(w0: World, v: World, g: Gen, mark: nat, content: string, hiers: seq<HierarchyState>, i: nat)
    requires Swapping(w0, v, g, mark, content, hiers) && i < |hiers| && !hiers[i].attached
    requires StagedSubs(v, g, hiers[i].path) == {}
    ensures var w := v.Without(Staged(g, hiers[i].path));
            Swapping(w0, w, g, mark, content, hiers) && SameElsewhere(v, w, hiers[i].path)
  {
    SwapOne(w0, v, g, mark, content, hiers, i);
    hide Swapping, Inv, HierOk, SameElsewhere;
    var w := v.Without(Staged(g, hiers[i].path));
    WithoutKeeps(v, Staged(g, hiers[i].path));
    LocalDetach(w0, v, g, mark, content, hiers[i]);
    assert hiers[i].(attached := false) == hiers[i];
    MountGone(v, g, hiers[i].path);
    hide *;
    SwapStepAlive(w0, v, w, g, mark, content, hiers, i, hiers[i]);
    assert hiers[i := hiers[i]] == hiers;
  }

  /** Moving a staged overlay onto its bare hierarchy. */
  lemma SwapMove(w0: World, v: World, g: Gen, mark: nat, content: string, hiers: seq<HierarchyState>, i: nat)
    requires Swapping(w0, v, g, mark, content, hiers) && i < |hiers|
    requires var h := hiers[i].path;
             (g, h) in v.staged && v.At(h).present && v.At(h).stack == [] && Pending(hiers[i].subs) == {} && Held(w0, v, g, hiers[i])
    ensures var w := v.Moved(g, hiers[i].path);
            Swapping(w0, w, g, mark, content, hiers[i := hiers[i].(stagingMounted := false, attached := true)]) &&
            SameElsewhere(v, w, hiers[i].path)
  {
    SwapOne(w0, v, g, mark, content, hiers, i);
    hide Swapping, Inv, HierOk, OverlayOk, NewLayers, Pending, Held, SameElsewhere, MountStep;
    var h := hiers[i].path;
    var w, hs := v.Moved(g, h), hiers[i].(stagingMounted := false, attached := true);
    LocalMove(w0, v, g, mark, content, hiers[i]);
    MovedKeeps(v, g, h);
    MountGone(v, g, h);
    hide *;
    SwapStepAlive(w0, v, w, g, mark, content, hiers, i, hs);
  }

  lemma SwapPresent(w0: World, v: World, g: Gen, mark: nat, content: string, hiers: seq<HierarchyState>, i: nat)
    requires Swapping(w0, v, g, mark, content, hiers) && i < |hiers|
    ensures var h := hiers[i].path;
            var w := v.SetSpot(h, v.At(h).(present := true));
            Swapping(w0, w, g, mark, content, hiers) && SameElsewhere(v, w, h)
  {
    SwapOne(w0, v, g, mark, content, hiers, i);
    hide Swapping, Inv, SameElsewhere;
    var h := hiers[i].path;
    var w := v.SetSpot(h, v.At(h).(present := true));
    SpotFacts(v, h);
    SetSpotKeeps(v, h, v.At(h).(present := true));
    LocalPresent(w0, v, g, mark, content, hiers[i]);
    MountGone(v, g, h);
    hide *;
    SwapStepAlive(w0, v, w, g, mark, content, hiers, i, hiers[i]);
    assert hiers[i := hiers[i]] == hiers;
  }

  lemma LocalPresent(w0: World, v: World, g: Gen, mark: nat, content: string, hs: HierarchyState)
    requires HierOk(w0, v, g, mark, content, hs)
    ensures HierOk(w0, v.SetSpot(hs.path, v.At(hs.path).(present := true)), g, mark, content, hs)
  {
    hide Distinct, Pending, Conserved, NewLayers;
    ConservedSame(w0, v, v.SetSpot(hs.path, v.At(hs.path).(present := true)), hs.path, StagedSubs(v, g, hs.path), hs.subs);
  }

  /** Only directories were made: no mount and no dead directory changed. */
  ghost predicate OnlyMade(v: World, w: World) {
    && w.spots == v.spots && w.staged == v.staged && w.mounted == v.mounted && w.gens == v.gens
    && w.images == v.images && w.dead == v.dead && w.unused >= v.unused && w.strays == v.strays
    && (forall d :: d in v.dirs && v.dirs[d] !in v.dead ==> d in w.dirs && w.dirs[d] == v.dirs[d])
  }

  lemma SwapMade(w0: World, v: World, w: World, g: Gen, mark: nat, content: string, hiers: seq<HierarchyState>)
    requires Swapping(w0, v, g, mark, content, hiers)
    requires Inv(w) && OnlyMade(v, w) && DirMarks(w, g, mark, Paths(hiers))
    ensures Swapping(w0, w, g, mark, content, hiers)
  {
    hide Inv, NewLayers, Distinct, Pending, Covered, Single, SameMerge;
    forall k | k in w.staged && k.0 == g
      ensures OverlayOk(w.staged[k], k.1, w.unused, w.dead)
    {
      assert OverlayOk(v.staged[k], k.1, v.unused, v.dead);
    }
    forall i | 0 <= i < |hiers|
      ensures HierOk(w0, w, g, mark, content, hiers[i])
    {
      assert HierOk(w0, v, g, mark, content, hiers[i]);
    }
  }

  lemma DirMade(v: World, d: Dir, g: Gen, mark: nat, paths: set<Hier>)
    requires DirsOk(v) && DirMarks(v, g, mark, paths) && d.gen == g && d.h in paths && mark <= v.unused
    ensures var w := v.WithDir(d);
            DirMarks(w, g, mark, paths) && OnlyMade(v, w) &&
            d in w.dirs && w.dirs[d] !in w.dead && w.dirs[d].serial >= mark && w.dirs[d].InWorkspace? && w.dirs[d].owner == d.h && w.dirs[d].serial < w.unused
  {
    assert InWorkspace(d.h, v.unused) !in v.dead;
    var w := v.WithDir(d);
    if d !in v.dirs || v.dirs[d] in v.dead {
      assert w.dirs[d] == InWorkspace(d.h, v.unused) && forall e :: e in w.dirs && e != d ==> e in v.dirs && w.dirs[e] == v.dirs[e];
    } else {
      assert w == v;
    }
    hide World.WithDir;
  }

  lemma SwapDir(w0: World, v: World, g: Gen, mark: nat, content: string, hiers: seq<HierarchyState>, i: nat, kind: Kind)
    requires Swapping(w0, v, g, mark, content, hiers) && i < |hiers|
    ensures Ready(v, g)
    ensures var d := Dir(g, kind, hiers[i].path);
            var w := v.WithDir(d);
            Swapping(w0, w, g, mark, content, hiers) && OnlyMade(v, w) &&
            d in w.dirs && w.dirs[d] !in w.dead && w.dirs[d].serial >= mark && w.dirs[d].InWorkspace? && w.dirs[d].owner == d.h && w.dirs[d].serial < w.unused
  {
    PathIn(hiers, i);
    WithDirKeeps(v, Dir(g, kind, hiers[i].path));
    DirMade(v, Dir(g, kind, hiers[i].path), g, mark, Paths(hiers));
    hide Inv, DirsOk, HierOk, StagedNew, DirMarks, OnlyMade;
    SwapMade(w0, v, v.WithDir(Dir(g, kind, hiers[i].path)), g, mark, content, hiers);
  }

  lemma SwapStore(w0: World, v: World, g: Gen, mark: nat, content: string, hiers: seq<HierarchyState>, s: Store)
    requires Swapping(w0, v, g, mark, content, hiers)
    ensures var w := v.WithStore(s);
            Swapping(w0, w, g, mark, content, hiers) && OnlyMade(v, w) &&
            s in w.stores && w.stores[s] !in w.dead && w.stores[s].InStore? && w.stores[s].name == s.name && w.stores[s].serial < w.unused
  {
    SwapMarks(w0, v, g, mark, content, hiers);
    StoreMade(v, g, mark, s, Paths(hiers));
    WithStoreKeeps(v, s);
    hide *;
    SwapMade(w0, v, v.WithStore(s), g, mark, content, hiers);
  }

  lemma SwapMarks(w0: World, v: World, g: Gen, mark: nat, content: string, hiers: seq<HierarchyState>)
    requires Swapping(w0, v, g, mark, content, hiers)
    ensures Inv(v) && DirsOk(v) && DirMarks(v, g, mark, Paths(hiers))
  {
  }

  lemma StoreMade(v: World, g: Gen, mark: nat, s: Store, paths: set<Hier>)
    requires DirsOk(v) && DirMarks(v, g, mark, paths)
    ensures var w := v.WithStore(s);
            OnlyMade(v, w) && DirMarks(w, g, mark, paths) &&
            s in w.stores && w.stores[s] !in w.dead && w.stores[s].InStore? && w.stores[s].name == s.name && w.stores[s].serial < w.unused
  {
    assert InStore(s.name, v.unused) !in v.dead;
  }

  /** Taking the old merge off a hierarchy nothing has been done to. */
  lemma LocalUnmerge(w0: World, v: World, w: World, g: Gen, mark: nat, content: string, hs: HierarchyState, subs: seq<SavedMount>, n: nat)
    requires HierOk(w0, v, g, mark, content, hs) && Untouched(hs) && (g, hs.path) !in v.staged && w0.At(hs.path) == v.At(hs.path)
    requires Loosened(v, w, hs.path, subs, n)
    ensures HierOk(w0, w, g, mark, content, hs.(subs := hs.subs + subs, unmerged := n > 0))
    ensures n > 0 ==> Held(w0, w, g, hs.(subs := hs.subs + subs, unmerged := n > 0))
  {
    assert hs.subs + subs == subs;
    assert Pending(hs.subs) == {};
    hide Inv, Distinct, Pending, SameElsewhere, Reached;
  }

  lemma SwapUnmerge(w0: World, v: World, w: World, g: Gen, mark: nat, content: string, hiers: seq<HierarchyState>, i: nat, subs: seq<SavedMount>, n: nat)
    requires Swapping(w0, v, g, mark, content, hiers) && i < |hiers| && Untouched(hiers[i])
    requires w0.At(hiers[i].path) == v.At(hiers[i].path) && WorkSame(w0, v, hiers[i].path)
    requires forall k :: k in v.staged ==> k.0 != g
    requires Loosened(v, w, hiers[i].path, subs, n)
    ensures Swapping(w0, w, g, mark, content, hiers[i := hiers[i].(subs := hiers[i].subs + subs, unmerged := n > 0)])
    ensures SameElsewhere(v, w, hiers[i].path) && w.staged == v.staged && OtherStores(v, w, hiers[i].path) && v.dead <= w.dead
    ensures w.At(hiers[i].path).present == v.At(hiers[i].path).present && Doomed(w0, hiers[i].path) == Doomed(v, hiers[i].path)
    ensures n > 0 ==> Held(w0, w, g, hiers[i].(subs := hiers[i].subs + subs, unmerged := n > 0))
  {
    hide Swapping, Inv, HierOk, SameElsewhere, Doomed, Conserved, DiedAt, OtherStores, Pending, SameMerge;
    SwapOne(w0, v, g, mark, content, hiers, i);
    SwapDied(w0, v, g, mark, content, hiers);
    LoosenedFacts(v, w, hiers[i].path, subs, n);
    LocalUnmerge(w0, v, w, g, mark, content, hiers[i], subs, n);
    SameDoomed(w0, v, hiers[i].path);
    PathIn(hiers, i);
    DiedMore(w0, v, w, hiers[i].path, Paths(hiers));
    assert (g, hiers[i].path) !in w.staged;
    SwapStep(w0, v, w, g, mark, content, hiers, i, hiers[i].(subs := hiers[i].subs + subs, unmerged := n > 0));
  }

  lemma SwapDied(w0: World, v: World, g: Gen, mark: nat, content: string, hiers: seq<HierarchyState>)
    requires Swapping(w0, v, g, mark, content, hiers)
    ensures DiedAt(w0, v, Paths(hiers))
  {
  }

  lemma SameDoomed(v: World, w: World, h: Hier)
    requires v.At(h) == w.At(h) && WorkSame(v, w, h) && Inv(w)
    ensures Doomed(v, h) == Doomed(w, h)
  {
    SpotFacts(w, h);
  }

  lemma DiedMore(u: World, v: World, w: World, h: Hier, hs: set<Hier>)
    requires DiedAt(u, v, hs) && DiedAt(v, w, {h}) && h in hs && Doomed(u, h) == Doomed(v, h)
    ensures DiedAt(u, w, hs)
  {
    hide Doomed;
  }
}
