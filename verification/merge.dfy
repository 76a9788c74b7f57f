/** mergeOp of internal/overlay/engine.go: one Merge or Refresh, with everything
    needed to undo it. */
module Merging {
  import opened Maybe
  import opened KernelModel
  import opened Carry
  import opened Unmerging
  import opened Transaction

  /** Unmerging has removed the work directory of the old merge. */
  ghost predicate WorkGone(w0: World, w: World, hs: HierarchyState) {
    hs.merged ==> Doomed(w0, hs.path) <= w.dead
  }

  /** The old merge is off, if there was one, with its mounts in hand, and nothing is
      staged yet. */
  ghost predicate Bare(w0: World, w: World, g: Gen, hs: HierarchyState) {
    && !hs.attached && !hs.stagingMounted
    && w.At(hs.path).stack == [] && (g, hs.path) !in w.staged
    && (hs.merged <==> w0.At(hs.path).stack != []) && (hs.merged ==> Held(w0, w, g, hs))
    && (hs.host <==> w.At(hs.path).present)
    && WorkGone(w0, w, hs)
  }

  /** Nothing has been done to the hierarchy yet. */
  ghost predicate Fresh(w0: World, w: World, g: Gen, hs: HierarchyState) {
    && Untouched(hs) && (g, hs.path) !in w.staged
    && (hs.merged <==> w.At(hs.path).stack != [])
    && (hs.host <==> w.At(hs.path).present)
    && w0.At(hs.path) == w.At(hs.path) && WorkSame(w0, w, hs.path)
  }

  /** Staged with its submounts, or bare for good with its submounts back. */
  ghost predicate Placed(w0: World, w: World, g: Gen, hs: HierarchyState) {
    && !hs.attached && Pending(hs.subs) == {}
    && w.At(hs.path).stack == []
    && (if hs.mount then (g, hs.path) in w.staged && Held(w0, w, g, hs) else !hs.stagingMounted)
    && WorkGone(w0, w, hs)
  }

  /** On its hierarchy, or bare for good. */
  ghost predicate Finished(w0: World, w: World, hs: HierarchyState) {
    && Pending(hs.subs) == {}
    && (if hs.mount then hs.attached else !hs.stagingMounted && w.At(hs.path).stack == [])
    && WorkGone(w0, w, hs)
  }

  /** What the configuration and the plan say about a hierarchy stays. */
  predicate SamePlan(a: HierarchyState, b: HierarchyState) {
    a.path == b.path && a.host == b.host && a.merged == b.merged && a.mount == b.mount && a.tree == b.tree
  }

  lemma SamePlanSelf(a: HierarchyState)
    ensures SamePlan(a, a) && forall subs :: SamePlan(a, a.(subs := subs))
  {
  }

  lemma SuitsSame(w0: World, a: HierarchyState, b: HierarchyState)
    requires SamePlan(a, b)
    ensures Suits(w0, a) <==> Suits(w0, b)
  {
  }

  /** If the plan suits a hierarchy, the clones in hand fit where it puts them. */
  lemma AttachFits(w0: World, v: World, g: Gen, mark: nat, content: string, hiers: seq<HierarchyState>, i: nat)
    requires Swapping(w0, v, g, mark, content, hiers) && i < |hiers|
    ensures var hs := hiers[i];
            && (Suits(w0, hs) && hs.mount && (g, hs.path) in v.staged ==> Fit(Pending(hs.subs), v.RoomAt(Staged(g, hs.path))))
            && (Suits(w0, hs) && !hs.mount && v.At(hs.path).stack == [] ==> Fit(Pending(hs.subs), v.RoomAt(Target(hs.path))))
  {
    SwapOne(w0, v, g, mark, content, hiers, i);
    PendingPresent(w0, v, g, mark, content, hiers[i]);
    hide Swapping, Inv, Distinct, Pending, SameMerge, NewLayers, OverlayOk;
  }

  /** Every merge there was has been taken off. */
  ghost predicate AllUnmerged(w0: World, hiers: seq<HierarchyState>) {
    forall j :: 0 <= j < |hiers| && w0.At(hiers[j].path).stack != [] ==> hiers[j].unmerged
  }

  lemma BareUnmerged(w0: World, w: World, g: Gen, mark: nat, content: string, hiers: seq<HierarchyState>)
    requires Swapping(w0, w, g, mark, content, hiers) && forall j :: 0 <= j < |hiers| ==> Bare(w0, w, g, hiers[j])
    ensures AllUnmerged(w0, hiers)
  {
    hide Inv, Conserved, Held, DiedAt;
    forall j | 0 <= j < |hiers| && w0.At(hiers[j].path).stack != []
      ensures hiers[j].unmerged
    {
      assert HierOk(w0, w, g, mark, content, hiers[j]);
    }
  }

  /** The mounts of the merges taken off fit the bare hierarchies. */
  ghost predicate Returnable(w0: World, hiers: seq<HierarchyState>) {
    forall j :: 0 <= j < |hiers| && hiers[j].unmerged ==> FitsBare(w0, hiers[j].path)
  }

  lemma ReturnableAt(w0: World, hiers: seq<HierarchyState>, i: nat)
    requires i < |hiers|
    ensures hiers[i].unmerged && !FitsBare(w0, hiers[i].path) ==> !Returnable(w0, hiers)
  {
  }

  lemma NothingFits(tree: Tree)
    ensures Fit({}, tree)
  {
  }

  /** Once its new overlay is down, the clones of a hierarchy fit there, unless its old
      merge is gone and had one that does not fit the bare hierarchy. */
  lemma ReturnFits(base: World, u: World, g: Gen, mark: nat, content: string, hs: HierarchyState)
    requires Inv(base) && HierOk(base, u, g, mark, content, hs) && !hs.attached
    requires hs.unmerged ==> FitsBare(base, hs.path)
    ensures Fit(Pending(hs.subs), u.RoomAt(Target(hs.path)))
  {
    SpotFacts(base, hs.path);
    PendingPresent(base, u, g, mark, content, hs);
    hide Inv, Distinct, Pending, NewLayers, LayerOk;
  }

  lemma AttachedUp(base: World, v: World, g: Gen, mark: nat, content: string, hs: HierarchyState)
    requires HierOk(base, v, g, mark, content, hs)
    ensures hs.attached ==> v.At(hs.path).stack != []
  {
  }

  /** From v to w and from before to after, only hierarchy i was worked on. */
  ghost predicate OnlyAt(v: World, w: World, before: seq<HierarchyState>, after: seq<HierarchyState>, i: nat) {
    && i < |before| == |after|
    && SamePlan(before[i], after[i])
    && after == before[i := after[i]]
    && SameElsewhere(v, w, before[i].path)
  }

  lemma OnlyAtTransitive(u: World, v: World, w: World, a: seq<HierarchyState>, b: seq<HierarchyState>, c: seq<HierarchyState>, i: nat)
    requires OnlyAt(u, v, a, b, i) && OnlyAt(v, w, b, c, i)
    ensures OnlyAt(u, w, a, c, i)
  {
    ElsewhereTransitive(u, v, w, a[i].path);
  }

  lemma ProgressElsewhere(w0: World, v: World, w: World, before: seq<HierarchyState>, after: seq<HierarchyState>, i: nat, j: nat, g: Gen)
    requires DistinctPaths(before) && OnlyAt(v, w, before, after, i) && j < |before| && j != i
    ensures after[j] == before[j] && before[j].path != before[i].path
    ensures Bare(w0, v, g, before[j]) ==> Bare(w0, w, g, after[j])
    ensures Placed(w0, v, g, before[j]) ==> Placed(w0, w, g, after[j])
    ensures Finished(w0, v, before[j]) ==> Finished(w0, w, after[j])
  {
    hide Doomed, Pending;
    assert before[if i < j then i else j].path != before[if i < j then j else i].path;
    assert SameAt(v, w, g, before[j].path);
  }

  lemma FreshElsewhere(w0: World, v: World, w: World, before: seq<HierarchyState>, after: seq<HierarchyState>, i: nat, j: nat, g: Gen)
    requires DistinctPaths(before) && OnlyAt(v, w, before, after, i) && j < |before| && j != i
    requires OtherStores(v, w, before[i].path) && NamesDistinct(v.spots.Keys) && before[i].path in v.spots && before[j].path in v.spots
    ensures Fresh(w0, v, g, before[j]) ==> Fresh(w0, w, g, after[j])
  {
    hide Doomed, Component;
    assert before[if i < j then i else j].path != before[if i < j then j else i].path;
    assert SameAt(v, w, g, before[j].path);
    assert Component(before[i].path) != Component(before[j].path);
  }

  lemma SwapFacts(w0: World, w: World, g: Gen, mark: nat, content: string, hiers: seq<HierarchyState>, i: nat)
    requires Swapping(w0, w, g, mark, content, hiers) && i < |hiers|
    ensures Inv(w) && hiers[i].path in w.spots && DistinctPaths(hiers)
    ensures hiers[i].attached ==> (g, hiers[i].path) !in w.staged
    ensures w.At(hiers[i].path).stack == [] ==> !hiers[i].attached
    ensures SpotOk(w.At(hiers[i].path), hiers[i].path, w.unused, w.dead)
    ensures (g, hiers[i].path) in w.staged ==> hiers[i].stagingMounted
    ensures Ready(w, g) && (Pending(hiers[i].subs) != {} ==> w.At(hiers[i].path).present)
    ensures (g, hiers[i].path) in w.staged ==> OverlayOk(w.staged[(g, hiers[i].path)], hiers[i].path, w.unused, w.dead)
  {
    assert HierOk(w0, w, g, mark, content, hiers[i]);
    SpotFacts(w, hiers[i].path);
    PendingPresent(w0, w, g, mark, content, hiers[i]);
    SwapOne(w0, w, g, mark, content, hiers, i);
  }

  /** What is up is new. */
  ghost predicate Standing(w: World, hiers: seq<HierarchyState>) {
    forall j :: 0 <= j < |hiers| ==> hiers[j].attached || w.At(hiers[j].path).stack == []
  }

  /** The hierarchies before i are on their hierarchies or bare for good, the others staged
      or bare. */
  ghost predicate Moved(w0: World, w: World, g: Gen, hiers: seq<HierarchyState>, i: nat) {
    && (forall j :: 0 <= j < |hiers| && j < i ==> Finished(w0, w, hiers[j]))
    && (forall j :: i <= j < |hiers| ==> Placed(w0, w, g, hiers[j]))
  }

  /** The hierarchies before i that get an overlay, by path. */
  ghost predicate Named(attached: seq<Hier>, hiers: seq<HierarchyState>, i: nat) {
    && (forall h :: h in attached ==> exists j :: 0 <= j < |hiers| && hiers[j].path == h && hiers[j].mount)
    && (forall j :: 0 <= j < |hiers| && j < i && hiers[j].mount ==> hiers[j].path in attached)
  }

  lemma MovedStart(w0: World, w: World, g: Gen, hiers: seq<HierarchyState>)
    requires forall j :: 0 <= j < |hiers| ==> Placed(w0, w, g, hiers[j])
    ensures Moved(w0, w, g, hiers, 0) && Named([], hiers, 0)
  {
  }

  lemma MovedFacts(w0: World, w: World, g: Gen, hiers: seq<HierarchyState>, i: nat)
    requires i < |hiers| && Moved(w0, w, g, hiers, i)
    ensures Standing(w, hiers) && Placed(w0, w, g, hiers[i])
  {
  }

  lemma MovedNext(w0: World, v: World, w: World, g: Gen, before: seq<HierarchyState>, hiers: seq<HierarchyState>, i: nat, named: seq<Hier>, attached: seq<Hier>)
    requires i < |before| == |hiers| && Moved(w0, v, g, before, i) && Named(named, before, i)
    requires forall j :: 0 <= j < |hiers| && j != i ==> hiers[j] == before[j]
    requires forall j :: 0 <= j < |hiers| && j != i && Placed(w0, v, g, before[j]) ==> Placed(w0, w, g, hiers[j])
    requires forall j :: 0 <= j < |hiers| && j != i && Finished(w0, v, before[j]) ==> Finished(w0, w, hiers[j])
    requires SamePlan(before[i], hiers[i])
    requires if before[i].mount then Finished(w0, w, hiers[i]) && attached == named + [hiers[i].path]
             else w == v && hiers == before && attached == named
    ensures Moved(w0, w, g, hiers, i + 1) && Named(attached, hiers, i + 1)
  {
    hide Doomed, Pending, Held;
    forall h | h in attached
      ensures exists j :: 0 <= j < |hiers| && hiers[j].path == h && hiers[j].mount
    {
      if h in named {
        var j :| 0 <= j < |before| && before[j].path == h && before[j].mount;
        assert hiers[j].path == h && hiers[j].mount;
      } else {
        assert hiers[i].path == h && hiers[i].mount;
      }
    }
  }

  lemma MovedEnd(w0: World, w: World, g: Gen, hiers: seq<HierarchyState>, attached: seq<Hier>)
    requires Moved(w0, w, g, hiers, |hiers|) && Named(attached, hiers, |hiers|)
    ensures (forall j :: 0 <= j < |hiers| ==> Finished(w0, w, hiers[j])) && Standing(w, hiers)
    ensures Names(attached, hiers) && Named(attached, hiers, 0)
  {
  }

  lemma NamedSame(attached: seq<Hier>, a: seq<HierarchyState>, b: seq<HierarchyState>, i: nat)
    requires Named(attached, a, i) && |a| == |b| && forall j :: 0 <= j < |a| ==> a[j].path == b[j].path && a[j].mount == b[j].mount
    ensures Named(attached, b, 0)
  {
    forall h | h in attached
      ensures exists j :: 0 <= j < |b| && b[j].path == h && b[j].mount
    {
      var j :| 0 <= j < |a| && a[j].path == h && a[j].mount;
      assert b[j].path == h;
    }
  }

  /** While overlays are moved, those that are up are of the new merge. */
  lemma SwapRecording(w0: World, w: World, g: Gen, mark: nat, content: string, hiers: seq<HierarchyState>, i: nat, group: set<Hier>)
    requires Swapping(w0, w, g, mark, content, hiers) && i < |hiers| && group <= Paths(hiers)
    requires Standing(w, hiers)
    ensures (g, hiers[i].path) in w.staged ==> Recording(w, group, w.staged[(g, hiers[i].path)].origin)
  {
    hide Swapping, HierOk, Inv, SpotOk, OverlayOk, NewLayers;
    SwapOne(w0, w, g, mark, content, hiers, i);
    forall h | h in group && w.At(h).stack != []
      ensures w.At(h).stack[|w.At(h).stack| - 1].origin == content
    {
      var j :| 0 <= j < |hiers| && hiers[j].path == h;
      SwapOne(w0, w, g, mark, content, hiers, j);
      SpotFacts(w, h);
      OneRecording(w0, w, g, mark, content, hiers[j]);
    }
  }

  lemma OneRecording(w0: World, w: World, g: Gen, mark: nat, content: string, hs: HierarchyState)
    requires HierOk(w0, w, g, mark, content, hs) && hs.attached
    ensures w.At(hs.path).stack != [] && w.At(hs.path).stack[0].origin == content
  {
  }

  lemma RecordingPresent(w: World, h: Hier, hs: set<Hier>, origin: string)
    requires Recording(w, hs, origin)
    ensures Recording(w.SetSpot(h, w.At(h).(present := true)), hs, origin)
  {
  }

  function LayerAtDir(w: World, d: Dir): set<Layer> {
    if d in w.dirs then {w.dirs[d]} else {}
  }

  function LayerAtStore(w: World, s: Store): set<Layer> {
    if s in w.stores then {w.stores[s]} else {}
  }

  /** The persistent mutable directory is written to. */
  predicate Persistent(mode: Mode, found: bool) {
    mode == Yes || (mode == Auto && found)
  }

  /** The upper directory and what is imported. */
  function UpperSet(w: World, g: Gen, h: Hier, mode: Mode, found: bool): set<Layer> {
    (if IsEphemeral(mode) then LayerAtDir(w, Dir(g, Scratch, h)) else {})
    + if Persistent(mode, found) || (found && mode in {Import, EphemeralImport}) then LayerAtStore(w, Upper(Component(h))) else {}
  }

  predicate UpperThere(w: World, g: Gen, h: Hier, mode: Mode, found: bool) {
    && (IsEphemeral(mode) ==> Dir(g, Scratch, h) in w.dirs)
    && (Persistent(mode, found) || (found && mode in {Import, EphemeralImport}) ==> Upper(Component(h)) in w.stores)
  }

  /** The directories an overlay is made of besides extensions and host, by mutable mode;
      found says that the persistent mutable directory exists. Only when that is written
      to has the overlay a recorded work directory. */
  ghost predicate MadeOf(w: World, g: Gen, h: Hier, mode: Mode, found: bool, o: Overlay) {
    var meta, scratch := LayerAtDir(w, Dir(g, Meta, h)), LayerAtDir(w, Dir(g, Scratch, h));
    var upper, work := LayerAtStore(w, Upper(Component(h))), LayerAtStore(w, Work(Component(h)));
    match mode
    case No => o.layers == meta && o.work == None
    case Yes => o.layers == meta + upper + work && o.work == Some(Component(h))
    case Auto => o.layers == meta + (if found then upper + work else {}) && o.work == if found then Some(Component(h)) else None
    case Import => o.layers == meta + (if found then upper else {}) && o.work == None
    case Ephemeral => o.layers == meta + scratch && o.work == None
    case EphemeralImport => o.layers == meta + scratch + (if found then upper else {}) && o.work == None
  }

  lemma MadeUp(w: World, g: Gen, h: Hier, mode: Mode, found: bool, o: Overlay)
    requires var work := if Persistent(mode, found) then LayerAtStore(w, Work(Component(h))) else {};
             o.layers == UpperSet(w, g, h, mode, found) + LayerAtDir(w, Dir(g, Meta, h)) + work
    requires o.work == if Persistent(mode, found) then Some(Component(h)) else None
    ensures MadeOf(w, g, h, mode, found, o)
  {
    hide LayerAtDir, LayerAtStore, Component;
  }

  /** Making other directories changes none of these. */
  lemma UpperStays(v: World, w: World, g: Gen, h: Hier, mode: Mode, found: bool, layers: set<Layer>, mark: nat)
    requires layers == UpperSet(v, g, h, mode, found) && OnlyMade(v, w)
    requires forall l :: l in layers ==> l !in v.dead
    requires UpperThere(v, g, h, mode, found)
    requires forall x: Store :: x.Upper? && x in v.stores ==> x in w.stores && w.stores[x] == v.stores[x]
    ensures UpperSet(w, g, h, mode, found) == layers && UpperThere(w, g, h, mode, found)
  {
    hide Component;
  }

  datatype Result = NothingFound | Merged | Unchanged

  datatype Outcome = Outcome(result: Result, merged: seq<string>, ignored: nat, hierarchies: seq<Hier>, unmerged: seq<Hier>)

  /** What a set of images makes of a hierarchy: whether one contributes to it, and what
      the files of its overlay have a place for. */
  datatype Layout = Layout(used: bool, tree: Tree)

  type Layouts = (seq<string>, Hier) -> Layout

  /** What the files of the extensions decide: what they make of each hierarchy, which
      images the check accepts, and the origin that is written for a list of images. */
  datatype Extensions = Extensions(layouts: Layouts, accepts: string -> bool, document: seq<string> -> string)

  /** The images an operation merges: those given to it that the check accepts, in their
      order. */
  function Accepted(names: seq<string>, accepts: string -> bool): seq<string> {
    if names == [] then []
    else
      var last := names[|names| - 1];
      Accepted(names[..|names| - 1], accepts) + if accepts(last) then [last] else []
  }

  /** The places of the accepted images among those given. */
  function Places(names: seq<string>, accepts: string -> bool): (places: seq<nat>)
    ensures |places| == |Accepted(names, accepts)|
  {
    if names == [] then []
    else
      var n := |names| - 1;
      Places(names[..n], accepts) + if accepts(names[n]) then [n] else []
  }

  /** Each accepted image is among them as often as it was given, and no other is. */
  lemma {:induction false} PlacesAre(names: seq<string>, accepts: string -> bool)
    ensures forall n: nat :: n in Places(names, accepts) <==> n < |names| && accepts(names[n])
    decreases |names|
  {
    if names != [] {
      var n := |names| - 1;
      var init := names[..n];
      PlacesNext(names, accepts);
      hide Places, Accepted;
      PlacesAre(init, accepts);
      forall m: nat
        ensures m in Places(names, accepts) <==> m < |names| && accepts(names[m])
      {
        assert m < n ==> init[m] == names[m];
      }
    }
  }

  lemma PlacesNext(names: seq<string>, accepts: string -> bool)
    requires names != []
    ensures var n := |names| - 1;
            forall m: nat :: m in Places(names, accepts) <==> m in Places(names[..n], accepts) || (m == n && accepts(names[n]))
  {
    hide Accepted;
  }

  /** And none overtakes another. */
  lemma {:induction false} AcceptedIs(names: seq<string>, accepts: string -> bool, i: nat, j: nat)
    requires i < j < |Places(names, accepts)| || i == j < |Places(names, accepts)|
    ensures Places(names, accepts)[i] < |names| && Places(names, accepts)[j] < |names|
    ensures i < j ==> Places(names, accepts)[i] < Places(names, accepts)[j]
    ensures Accepted(names, accepts)[i] == names[Places(names, accepts)[i]]
    decreases |names|
  {
    var n := |names| - 1;
    var before := Places(names[..n], accepts);
    if i < |before| {
      AcceptedIs(names[..n], accepts, i, if j < |before| then j else i);
    }
  }

  lemma AcceptedNext(names: seq<string>, i: nat, accepts: string -> bool)
    requires i < |names|
    ensures Accepted(names[..i + 1], accepts) == Accepted(names[..i], accepts) + if accepts(names[i]) then [names[i]] else []
    ensures forall n :: n in Accepted(names[..i], accepts) ==> accepts(n)
  {
    assert names[..i + 1][..i] == names[..i];
    AllAccepted(names[..i], accepts);
  }

  lemma {:induction false} AllAccepted(names: seq<string>, accepts: string -> bool)
    ensures forall n :: n in Accepted(names, accepts) ==> accepts(n)
    decreases |names|
  {
    if names != [] {
      AllAccepted(names[..|names| - 1], accepts);
    }
  }

  /** What an operation is about to do, once its images are known. */
  datatype Design = Design(mode: Mode, images: seq<string>, layouts: Layouts) {

    /** The hierarchy gets an overlay. */
    predicate Mounts(h: Hier) {
      layouts(images, h).used || mode != No
    }

    /** What has a place below the hierarchy afterwards. */
    function Room(w: World, h: Hier): Tree {
      if Mounts(h) then layouts(images, h).tree else w.At(h).tree
    }
  }

  class MergeOp {
    const k: Kernel
    const mode: Mode
    const ext: Extensions
    var gen: Option<Gen>   // where this operation builds its layout
    var freshWS: bool      // the workspace was mounted by this operation
    var hiers: seq<HierarchyState>
    var images: seq<string>
    var ignored: nat
    var swapping: bool     // old merges are being replaced
    var committed: bool
    ghost var w0: World    // the world when the lock was taken
    ghost var mark: nat    // the first serial of this operation's directories

    constructor (k: Kernel, mode: Mode, ext: Extensions)
      ensures this.k == k && this.mode == mode && this.ext == ext
      ensures gen == None && !freshWS && hiers == [] && images == [] && ignored == 0 && !swapping && !committed
      ensures w0 == k.w
    {
      this.k, this.mode, this.ext := k, mode, ext;
      gen, freshWS, hiers, images, ignored, swapping, committed := None, false, [], [], 0, false, false;
      w0, mark := k.w, 0;
    }

    /** Old merges are being replaced. */
    ghost predicate Swap(content: string)
      reads this, k
    {
      swapping && !committed && gen.Some? && Swapping(w0, k.w, gen.value, mark, content, hiers)
    }

    function TheDesign(): Design
      reads this
    {
      Design(mode, images, ext.layouts)
    }

    /** What an operation with this outcome was about to do. */
    function DesignOf(out: Outcome): Design {
      Design(mode, out.merged, ext.layouts)
    }

    /** A layer of this operation for h. */
    ghost predicate Good(l: Layer, h: Hier)
      reads this, k
    {
      LayerOk(l, h, k.w.unused, k.w.dead) && (l.InWorkspace? ==> l.serial >= mark)
    }

    method MakeLayer(i: nat, kind: Kind, content: string) returns (ok: bool, l: Layer)
      requires Swap(content) && i < |hiers|
      modifies k
      ensures Swap(content) && OnlyMade(old(k.w), k.w)
      ensures ok ==> Good(l, hiers[i].path) && l.InWorkspace? && Dir(gen.value, kind, hiers[i].path) in k.w.dirs && l == k.w.dirs[Dir(gen.value, kind, hiers[i].path)]
      ensures k.w.stores == old(k.w).stores
      ensures k.Blamed(ok)
    {
      hide Sound, Swapping;
      var d := Dir(gen.value, kind, hiers[i].path);
      SwapDir(w0, k.w, gen.value, mark, content, hiers, i, kind);
      ok := k.MakeDir(d);
      l := if ok then k.w.dirs[d] else InWorkspace(d.h, 0);
    }

    method MakeStoreLayer(i: nat, s: Store, content: string) returns (ok: bool, l: Layer)
      requires Swap(content) && i < |hiers| && s.name == Component(hiers[i].path)
      modifies k
      ensures Swap(content) && OnlyMade(old(k.w), k.w)
      ensures ok ==> Good(l, hiers[i].path)
      ensures ok ==> s in k.w.stores && l == k.w.stores[s]
      ensures k.w.dirs == old(k.w).dirs && forall x :: x != s && x in old(k.w).stores ==> x in k.w.stores && k.w.stores[x] == old(k.w).stores[x]
      ensures k.Blamed(ok)
    {
      hide Sound, Swapping;
      SwapStore(w0, k.w, gen.value, mark, content, hiers, s);
      ok := k.MakeStore(s);
      l := if ok then k.w.stores[s] else InStore(s.name, 0);
    }

    /** The persistent mutable directory of hierarchy i exists. */
    predicate Found(i: nat)
      requires i < |hiers|
      reads this, k
    {
      var s := Upper(Component(hiers[i].path));
      s in k.w.stores && k.w.stores[s] !in k.w.dead
    }

    /** resolveMutableDir, importedMutableDir and upperDir: the upper layer of a writable
        overlay, and the persistent one that the import modes put below. */
    method UpperLayers(i: nat, content: string) returns (ok: bool, layers: set<Layer>, upper: bool)
      requires Swap(content) && i < |hiers|
      modifies k
      ensures Swap(content) && OnlyMade(old(k.w), k.w)
      ensures ok ==> forall l :: l in layers ==> Good(l, hiers[i].path)
      ensures ok ==> layers == UpperSet(k.w, gen.value, hiers[i].path, mode, old(Found(i)))
      ensures ok ==> UpperThere(k.w, gen.value, hiers[i].path, mode, old(Found(i)))
      ensures ok ==> (upper <==> IsEphemeral(mode) || Persistent(mode, old(Found(i))))
      ensures k.Blamed(ok)
    {
      hide Sound, Swapping, Component;
      layers, upper := {}, false;
      ok := k.Other();
      if !ok {
        return;
      }
      var found := Found(i);
      if found {
        layers := ImportedLayer(i, content);
      }
      var h, l := hiers[i].path, InStore("", 0);
      ghost var u := k.w;
      hide LayerOk, OnlyMade;
      if IsEphemeral(mode) {
        ok, l := MakeLayer(i, Scratch, content);
        GoodStill(u, k.w, layers, h, mark);
        layers, upper := layers + {l}, true;
      } else if mode == Yes || (mode == Auto && found) {
        ok, l := MakeStoreLayer(i, Upper(Component(h)), content);
        GoodStill(u, k.w, layers, h, mark);
        layers, upper := layers + {l}, true;
      } else {
        MadeSelf(u);
      }
    }

    /** The persistent mutable directory that the import modes use as a layer. */
    method ImportedLayer(i: nat, ghost content: string) returns (layers: set<Layer>)
      requires Swap(content) && i < |hiers| && Found(i)
      ensures forall l :: l in layers ==> Good(l, hiers[i].path)
      ensures layers == if mode == Import || mode == EphemeralImport then {k.w.stores[Upper(Component(hiers[i].path))]} else {}
    {
      var s := Upper(Component(hiers[i].path));
      StoreGood(w0, k.w, gen.value, mark, content, hiers, s);
      hide Swapping, Component;
      layers := {};
      if mode == Import || mode == EphemeralImport {
        layers := {k.w.stores[s]};
      }
    }

    /** The layers but the recorded work directory. */
    method MetaLayers(i: nat, content: string) returns (ok: bool, layers: set<Layer>, upper: bool)
      requires Swap(content) && i < |hiers|
      modifies k
      ensures Swap(content) && OnlyMade(old(k.w), k.w)
      ensures ok ==> forall l :: l in layers ==> Good(l, hiers[i].path)
      ensures ok ==> var meta := Dir(gen.value, Meta, hiers[i].path); meta in k.w.dirs && k.w.dirs[meta] in layers && k.w.dirs[meta] !in k.w.dead
      ensures ok ==> layers == UpperSet(k.w, gen.value, hiers[i].path, mode, old(Found(i))) + LayerAtDir(k.w, Dir(gen.value, Meta, hiers[i].path))
      ensures ok ==> UpperThere(k.w, gen.value, hiers[i].path, mode, old(Found(i)))
      ensures ok ==> (upper <==> IsEphemeral(mode) || Persistent(mode, old(Found(i))))
      ensures k.Blamed(ok)
    {
      hide Sound, Swapping, Component, UpperSet, UpperThere;
      var h := hiers[i].path;
      var l, m := InStore("", 0), InStore("", 0);
      ghost var found := Found(i);
      ok, layers, upper := UpperLayers(i, content);
      if !ok {
        return;
      }
      ghost var u := k.w;
      ok, l := MakeLayer(i, Staging, content);
      if !ok {
        return;
      }
      ok, m := MakeLayer(i, Meta, content);
      if !ok {
        return;
      }
      UpperStays(u, k.w, gen.value, h, mode, found, layers, mark);
      layers := layers + {m};
    }

    /** Makes the directories of hierarchy i's overlay and writes its metadata. What it is
        made of depends on the mutable mode, see MadeOf. */
    method BuildLayers(i: nat, content: string) returns (ok: bool, o: Overlay, upper: bool)
      requires Swap(content) && i < |hiers|
      modifies k
      ensures Swap(content) && OnlyMade(old(k.w), k.w)
      ensures ok ==> OverlayOk(o, hiers[i].path, k.w.unused, k.w.dead) && NewLayers(o, mark) && BuiltIn(k.w, gen.value, hiers[i].path, o)
      ensures ok ==> o.origin == content && o.tree == hiers[i].tree && o.subs == {} && !o.bound
      ensures ok ==> MadeOf(k.w, gen.value, hiers[i].path, mode, old(Found(i)), o)
      ensures k.Blamed(ok)
    {
      hide Sound, Swapping, Component, UpperSet, UpperThere, MadeOf, BuiltIn;
      var h := hiers[i].path;
      o := Overlay(content, {}, None, hiers[i].tree, {}, false);
      var layers: set<Layer>, l, work: Option<string> := {}, InStore("", 0), None;
      ghost var found := Found(i);
      ok, layers, upper := MetaLayers(i, content);
      if !ok {
        return;
      }
      ghost var v := k.w;
      if upper && !IsEphemeral(mode) {
        ok, l := MakeStoreLayer(i, Work(Component(h)), content);
        if !ok {
          return;
        }
        UpperStays(v, k.w, gen.value, h, mode, found, UpperSet(v, gen.value, h, mode, found), mark);
        layers, work := layers + {l}, Some(Component(h));
      }
      ok := k.Other(); // chmod, writeMeta
      o := Overlay(content, layers, work, hiers[i].tree, {}, false);
      assert OverlayOk(o, h, k.w.unused, k.w.dead) && NewLayers(o, mark);
      BuiltHere(w0, k.w, gen.value, mark, content, hiers, h, o);
      MadeUp(k.w, gen.value, h, mode, found, o);
    }

    /** writeDev: while the dev marker does not read back, the overlay is taken down
        and mounted again, up to two times. */
    method WriteDev(i: nat, content: string, o: Overlay) returns (ok: bool)
      requires Swap(content) && i < |hiers| && !hiers[i].attached && hiers[i].stagingMounted
      requires (gen.value, hiers[i].path) in k.w.staged && StagedSubs(k.w, gen.value, hiers[i].path) == {}
      requires OverlayOk(o, hiers[i].path, k.w.unused, k.w.dead) && NewLayers(o, mark) && o.origin == content && o.tree == hiers[i].tree && o.subs == {}
      requires BuiltIn(k.w, gen.value, hiers[i].path, o)
      modifies k
      ensures Swap(content) && SameElsewhere(old(k.w), k.w, hiers[i].path) && k.w.At(hiers[i].path) == old(k.w).At(hiers[i].path)
      ensures StagedSubs(k.w, gen.value, hiers[i].path) == {}
      ensures ok ==> (gen.value, hiers[i].path) in k.w.staged
      ensures k.Blamed(ok)
    {
      hide Sound, Swapping, SameElsewhere, OverlayOk, NewLayers, BuiltIn;
      var g, h := gen.value, hiers[i].path;
      ghost var v := k.w;
      ElsewhereSelf(v, h);
      for attempt := 0 to 3
        invariant k.Blamed(attempt == 0)
        invariant Swap(content) && SameElsewhere(v, k.w, h) && k.w.At(h) == v.At(h)
        invariant (g, h) in k.w.staged && StagedSubs(k.w, g, h) == {}
        invariant k.w.unused == v.unused && k.w.dead == v.dead && k.w.dirs == v.dirs
      {
        if attempt > 0 {
          ghost var u := k.w;
          SwapUnstage(w0, u, g, mark, content, hiers, i);
          ok := k.Detach(Staged(g, h));
          if !ok {
            return;
          }
          ElsewhereTransitive(v, u, k.w, h);
          u := k.w;
          BuiltStill(v, u, g, h, o);
          SwapFacts(w0, u, g, mark, content, hiers, i);
          SwapStage(w0, u, g, mark, content, hiers, i, o);
          assert hiers[i := hiers[i].(stagingMounted := true)] == hiers;
          ok := k.MountOverlay(g, h, o);
          if !ok {
            return;
          }
          ElsewhereTransitive(v, u, k.w, h);
        }
        ok := k.Other(); // writing the marker
        if !ok {
          return;
        }
        var seen := k.Other();
        if seen {
          return true;
        }
      }
      ok := false;
    }

    /** The end of mergeHierarchy: the marker's read-only bind mount. */
    method BindMarker(i: nat, content: string) returns (ok: bool)
      requires Swap(content) && i < |hiers|
      requires (gen.value, hiers[i].path) in k.w.staged
      modifies k
      ensures Swap(content) && SameElsewhere(old(k.w), k.w, hiers[i].path) && k.w.At(hiers[i].path) == old(k.w).At(hiers[i].path)
      ensures (gen.value, hiers[i].path) in k.w.staged
      ensures k.Blamed(ok)
    {
      hide Sound, Swapping, SameElsewhere;
      var p := Staged(gen.value, hiers[i].path);
      ghost var v := k.w;
      ElsewhereSelf(v, p.h);
      SwapBound(w0, v, gen.value, mark, content, hiers, i, p, true);
      ok := k.SetMarkerBound(p, true);
      if ok {
        ok := k.Other(); // makeReadOnly
      }
    }

    /** takeSubmounts for hierarchy i; the clones join those it holds already. */
    method Take(i: nat, content: string, p: Place) returns (ok: bool)
      requires Swap(content) && i < |hiers| && p in {Target(hiers[i].path), Staged(gen.value, hiers[i].path)}
      requires p.Target? ==> k.w.At(hiers[i].path).stack != [] || w0.At(hiers[i].path).stack == []
      modifies k, this`hiers
      ensures Swap(content) && OnlyAt(old(k.w), k.w, old(hiers), hiers, i)
      ensures hiers[i] == old(hiers[i]).(subs := hiers[i].subs)
      ensures !ok ==> k.w == old(k.w)
      ensures ok && p.Target? ==> Held(w0, k.w, gen.value, hiers[i])
      ensures (gen.value, hiers[i].path) in old(k.w).staged ==> (gen.value, hiers[i].path) in k.w.staged
      ensures k.w.At(hiers[i].path).stack == [] <==> old(k.w).At(hiers[i].path).stack == []
      ensures k.Blamed(ok)
    {
      hide Sound, Swapping, SameElsewhere, Distinct, Pending, Held, Inv, SpotOk, World.Taken, World.SubsAt, SamePlan;
      ghost var v, before := k.w, hiers;
      ElsewhereSelf(v, hiers[i].path);
      SamePlanSelf(hiers[i]);
      SwapFacts(w0, v, gen.value, mark, content, hiers, i);
      var s;
      ghost var left;
      ok, s, left := TakeSubmounts(k, p);
      if !ok {
        return; // s is empty
      }
      SwapTake(w0, v, gen.value, mark, content, hiers, i, p, s, left, k.w.strays);
      TakenShape(v, gen.value, p.h, p, left, k.w.strays);
      hiers := hiers[i := hiers[i].(subs := hiers[i].subs + s)];
    }

    /** attachSubmounts for hierarchy i. */
    method Attach(i: nat, content: string, p: Place) returns (ok: bool)
      requires Swap(content) && i < |hiers| && p in {Target(hiers[i].path), Staged(gen.value, hiers[i].path)}
      modifies k, this`hiers
      ensures Swap(content) && OnlyAt(old(k.w), k.w, old(hiers), hiers, i)
      ensures hiers[i] == old(hiers[i]).(subs := hiers[i].subs)
      ensures ok ==> Pending(hiers[i].subs) == {}
      ensures p.Staged? && Held(w0, old(k.w), gen.value, old(hiers[i])) ==> Held(w0, k.w, gen.value, hiers[i])
      ensures k.w.At(hiers[i].path).stack == [] <==> old(k.w).At(hiers[i].path).stack == []
      ensures k.w.At(hiers[i].path).present == old(k.w).At(hiers[i].path).present
      ensures p.Staged? ==> k.w.At(hiers[i].path) == old(k.w).At(hiers[i].path)
      ensures (gen.value, hiers[i].path) in old(k.w).staged ==> (gen.value, hiers[i].path) in k.w.staged
      ensures k.Blamed(ok || !Fit(Pending(old(hiers[i]).subs), old(k.w).RoomAt(p)))
    {
      hide Sound, Swapping, SameElsewhere, Distinct, Pending, Held, Fit;
      ghost var v := k.w;
      SwapFacts(w0, v, gen.value, mark, content, hiers, i);
      var rest;
      ghost var moved;
      ok, rest, moved := AttachSubmounts(k, p, hiers[i].subs);
      SwapAttach(w0, v, gen.value, mark, content, hiers, i, p, rest, moved);
      hiers := hiers[i := hiers[i].(subs := rest)];
    }

    /** The first part of mergeHierarchy: mounts the new overlay at its staging point. */
    method MountStaged(i: nat, content: string) returns (ok: bool)
      requires Swap(content) && i < |hiers| && hiers[i].mount && Bare(w0, k.w, gen.value, hiers[i])
      modifies k, this`hiers
      ensures Swap(content) && OnlyAt(old(k.w), k.w, old(hiers), hiers, i) && k.w.At(hiers[i].path) == old(k.w.At(hiers[i].path))
      ensures ok ==> (gen.value, hiers[i].path) in k.w.staged
      ensures hiers[i] == old(hiers[i]).(stagingMounted := hiers[i].stagingMounted)
      ensures k.Blamed(ok) && old(k.w).dead <= k.w.dead
    {
      hide Sound, Swapping, SameElsewhere, OverlayOk, NewLayers, BuiltIn, Held, Doomed;
      var g, h := gen.value, hiers[i].path;
      ghost var v, before := k.w, hiers;
      SwapFacts(w0, v, g, mark, content, hiers, i);
      ElsewhereSelf(v, h);
      var o, upper;
      ok, o, upper := BuildLayers(i, content);
      MadeElsewhere(v, k.w, h);
      if !ok {
        return;
      }
      ghost var u := k.w;
      SwapFacts(w0, u, g, mark, content, hiers, i);
      SwapStage(w0, u, g, mark, content, hiers, i, o);
      ok := k.MountOverlay(g, h, o);
      if !ok {
        return;
      }
      hiers := hiers[i := hiers[i].(stagingMounted := true)];
      ElsewhereTransitive(v, u, k.w, h);
      BuiltStill(u, k.w, g, h, o);
      u := k.w;
      ok := WriteDev(i, content, o);
      ElsewhereTransitive(v, u, k.w, h);
      if !ok {
        return;
      }
      ok := k.Other(); // chtimes
      if ok && upper {
        u := k.w;
        ok := BindMarker(i, content);
        ElsewhereTransitive(v, u, k.w, h);
      }
    }

    /** mergeHierarchy: mounts the new overlay at its staging point and carries the
        mounts below the hierarchy over. */
    method MergeHierarchy(i: nat, content: string) returns (ok: bool)
      requires Swap(content) && i < |hiers| && hiers[i].mount && Bare(w0, k.w, gen.value, hiers[i])
      modifies k, this`hiers
      ensures Swap(content) && OnlyAt(old(k.w), k.w, old(hiers), hiers, i)
      ensures ok ==> Placed(w0, k.w, gen.value, hiers[i])
      ensures hiers[i].unmerged == old(hiers[i].unmerged) && !hiers[i].attached
      ensures k.Blamed(ok || !Suits(w0, old(hiers[i])))
    {
      hide Sound, Swapping, Held, Doomed, Pending, Fit, Suits;
      var g, h := gen.value, hiers[i].path;
      ghost var v, before := k.w, hiers;
      SwapFacts(w0, v, g, mark, content, hiers, i);
      ok := MountStaged(i, content);
      if !ok {
        return;
      }
      ghost var mid, u := hiers, k.w;
      HeldStaged(w0, v, u, g, mark, content, before, mid, i);
      if !hiers[i].merged && hiers[i].host {
        ok := Take(i, content, Target(h));
        OnlyAtTransitive(v, u, k.w, before, mid, hiers, i);
        if !ok {
          return;
        }
        mid, u := hiers, k.w;
      }
      SuitsSame(w0, before[i], mid[i]);
      AttachFits(w0, u, g, mark, content, mid, i);
      ok := Attach(i, content, Staged(g, h));
      OnlyAtTransitive(v, u, k.w, before, mid, hiers, i);
    }

    /** Takes the old merges off, holding the mounts below them. */
    method UnmergeOld(content: string) returns (ok: bool, unmerged: seq<Hier>)
      requires Swap(content) && forall j :: 0 <= j < |hiers| ==> Fresh(w0, k.w, gen.value, hiers[j])
      requires forall key :: key in k.w.staged ==> key.0 != gen.value
      modifies k, this`hiers
      ensures Swap(content) && Planned(old(hiers), hiers)
      ensures ok ==> forall j :: 0 <= j < |hiers| ==> Bare(w0, k.w, gen.value, hiers[j])
      ensures k.Blamed(ok) && k.w.images == old(k.w).images
    {
      hide Sound, Swapping, Unrolled, Planned, Fresh, Bare;
      unmerged := [];
      ghost var g, plan := gen.value, hiers;
      UnrollStart(w0, k.w, g, plan);
      for i := 0 to |hiers|
        invariant k.Blamed(true) && k.w.images == old(k.w).images
        invariant Swap(content) && |hiers| == |plan| && Unrolled(w0, k.w, g, plan, hiers, i)
        invariant forall key :: key in k.w.staged ==> key.0 != g
      {
        UnrollFacts(w0, k.w, g, plan, hiers, i);
        if hiers[i].merged {
          ok := UnmergeOne(i, content, plan);
          if hiers[i].unmerged {
            unmerged := unmerged + [hiers[i].path];
          }
          if !ok {
            return;
          }
        }
      }
      UnrollEnd(w0, k.w, g, plan, hiers);
      ok := true;
    }

    method UnmergeOne(i: nat, content: string, ghost plan: seq<HierarchyState>) returns (ok: bool)
      requires Swap(content) && i < |hiers| && Unrolled(w0, k.w, gen.value, plan, hiers, i) && hiers[i].merged
      requires forall key :: key in k.w.staged ==> key.0 != gen.value
      modifies k, this`hiers
      ensures Swap(content) && |hiers| == |plan| && Planned(plan, hiers)
      ensures ok ==> Unrolled(w0, k.w, gen.value, plan, hiers, i + 1)
      ensures forall key :: key in k.w.staged ==> key.0 != gen.value
      ensures k.Blamed(ok) && k.w.images == old(k.w).images
    {
      hide Sound, Swapping, Loosened, Doomed, Held, Inv, Component;
      var g, h := gen.value, hiers[i].path;
      ghost var v, before := k.w, hiers;
      SwapFacts(w0, v, g, mark, content, hiers, i);
      var subs, n;
      ok, subs, n := UnmergeHierarchy(k, h);
      SwapUnmerge(w0, v, k.w, g, mark, content, hiers, i, subs, n);
      MergedFacts(v, k.w, h, subs, n);
      hiers := hiers[i := hiers[i].(subs := hiers[i].subs + subs, unmerged := n > 0)];
      assert OnlyAt(v, k.w, before, hiers, i);
      assert ok ==> Bare(w0, k.w, g, hiers[i]);
      InvNames(v);
      forall j | 0 <= j < |hiers| && j != i
        ensures hiers[j] == before[j]
        ensures Fresh(w0, v, g, before[j]) ==> Fresh(w0, k.w, g, hiers[j])
        ensures Bare(w0, v, g, before[j]) ==> Bare(w0, k.w, g, hiers[j])
      {
        SwapFacts(w0, v, g, mark, content, before, j);
        ProgressElsewhere(w0, v, k.w, before, hiers, i, j, g);
        FreshElsewhere(w0, v, k.w, before, hiers, i, j, g);
      }
      hide Fresh, Bare, SameElsewhere, Conserved, Reached;
    }

    /** Stages the new overlays; a hierarchy that gets none takes its mounts back. */
    method StageNew(content: string) returns (ok: bool)
      requires Swap(content) && forall j :: 0 <= j < |hiers| ==> Bare(w0, k.w, gen.value, hiers[j])
      modifies k, this`hiers
      ensures Swap(content) && Planned(old(hiers), hiers)
      ensures ok ==> forall j :: 0 <= j < |hiers| ==> Placed(w0, k.w, gen.value, hiers[j])
      ensures forall j :: 0 <= j < |hiers| ==> hiers[j].unmerged == old(hiers)[j].unmerged
      ensures k.Blamed(ok || !AllSuit(w0, old(hiers))) && k.w.images == old(k.w).images
    {
      hide Sound, Swapping, Laid, Planned, Bare, Placed, AllSuit;
      ghost var g, plan := gen.value, hiers;
      LaidStart(w0, k.w, g, plan);
      for i := 0 to |hiers|
        invariant k.Blamed(true) && k.w.images == old(k.w).images
        invariant Swap(content) && |hiers| == |plan| && Laid(w0, k.w, g, plan, hiers, i)
        invariant forall j :: 0 <= j < |hiers| ==> hiers[j].unmerged == plan[j].unmerged
      {
        ok := StageOne(i, content, plan);
        if !ok {
          return;
        }
      }
      LaidEnd(w0, k.w, g, plan, hiers);
      ok := true;
    }

    method StageOne(i: nat, content: string, ghost plan: seq<HierarchyState>) returns (ok: bool)
      requires Swap(content) && i < |hiers| && Laid(w0, k.w, gen.value, plan, hiers, i)
      modifies k, this`hiers
      ensures Swap(content) && |hiers| == |plan| && Planned(plan, hiers)
      ensures ok ==> Laid(w0, k.w, gen.value, plan, hiers, i + 1)
      ensures forall j :: 0 <= j < |hiers| ==> hiers[j].unmerged == old(hiers)[j].unmerged
      ensures k.Blamed(ok || !AllSuit(w0, plan)) && k.w.images == old(k.w).images
    {
      hide Sound, Swapping, Bare, Placed, SpotOk, Laid, Planned, Suits, AllSuit, Fit, Pending;
      ghost var g, v, before := gen.value, k.w, hiers;
      LaidFacts(w0, v, g, plan, hiers, i);
      SwapFacts(w0, v, g, mark, content, hiers, i);
      PlannedSuits(w0, v, g, plan, hiers, i);
      if hiers[i].mount {
        ok := MergeHierarchy(i, content);
      } else {
        AttachFits(w0, v, g, mark, content, hiers, i);
        ok := Attach(i, content, Target(hiers[i].path));
        BarePlaced(w0, v, k.w, g, before, hiers, i, ok);
      }
      LaidNext(w0, v, k.w, g, plan, before, hiers, i, ok);
    }

    /** Moves the staged overlays onto their hierarchies. */
    method MoveNew(content: string) returns (ok: bool, attached: seq<Hier>)
      requires Swap(content) && forall j :: 0 <= j < |hiers| ==> Placed(w0, k.w, gen.value, hiers[j])
      requires k.group <= Paths(hiers)
      modifies k, this`hiers
      ensures Swap(content) && |hiers| == old(|hiers|) && forall j :: 0 <= j < |hiers| ==> SamePlan(old(hiers[j]), hiers[j])
      ensures ok ==> forall j :: 0 <= j < |hiers| ==> Finished(w0, k.w, hiers[j])
      ensures Named(attached, hiers, 0) && (ok ==> Names(attached, hiers))
      ensures Standing(k.w, hiers)
      ensures k.Blamed(ok) && k.w.images == old(k.w).images
    {
      hide Sound, Swapping, SameElsewhere, Moved, Standing, Named, Paths;
      attached := [];
      var g := gen.value;
      ghost var plan := hiers;
      MovedStart(w0, k.w, g, hiers);
      for i := 0 to |hiers|
        invariant k.Blamed(true) && k.w.images == old(k.w).images
        invariant Swap(content) && |hiers| == |plan| && k.group <= Paths(hiers)
        invariant forall j :: 0 <= j < |hiers| ==> SamePlan(plan[j], hiers[j])
        invariant Moved(w0, k.w, g, hiers, i) && Named(attached, hiers, i)
      {
        MovedFacts(w0, k.w, g, hiers, i);
        ghost var v, before, named := k.w, hiers, attached;
        if hiers[i].mount {
          ok := MoveOne(i, content);
          SamePaths(before, hiers);
          NamedSame(attached, before, hiers, i);
          if !ok {
            return;
          }
          attached := attached + [hiers[i].path];
        }
        MovedNext(w0, v, k.w, g, before, hiers, i, named, attached);
      }
      MovedEnd(w0, k.w, g, hiers, attached);
      ok := true;
    }

    method MoveOne(i: nat, content: string) returns (ok: bool)
      requires Swap(content) && i < |hiers| && hiers[i].mount && Placed(w0, k.w, gen.value, hiers[i])
      requires k.group <= Paths(hiers) && Standing(k.w, hiers)
      modifies k, this`hiers
      ensures Swap(content) && |hiers| == old(|hiers|) && SamePlan(old(hiers[i]), hiers[i])
      ensures if ok then Finished(w0, k.w, hiers[i]) else k.w.At(hiers[i].path).stack == []
      ensures forall j :: 0 <= j < |hiers| && j != i ==> hiers[j] == old(hiers[j])
      ensures forall j :: 0 <= j < |hiers| && j != i && Placed(w0, old(k.w), gen.value, old(hiers[j])) ==> Placed(w0, k.w, gen.value, hiers[j])
      ensures forall j :: 0 <= j < |hiers| && j != i && Finished(w0, old(k.w), old(hiers[j])) ==> Finished(w0, k.w, hiers[j])
      ensures Standing(k.w, hiers)
      ensures k.Blamed(ok) && k.w.images == old(k.w).images
    {
      hide Sound, Swapping, Doomed, Pending, SpotOk, Recording, Paths;
      var g, h := gen.value, hiers[i].path;
      ghost var v, before := k.w, hiers;
      SwapFacts(w0, v, g, mark, content, hiers, i);
      SwapRecording(w0, v, g, mark, content, hiers, i, k.group);
      SwapPresent(w0, v, g, mark, content, hiers, i);
      ElsewhereSelf(v, h);
      ok := k.MakeHierarchy(h);
      assert k.w.At(h) == v.At(h).(present := true) || k.w == v;
      if ok {
        ghost var u := k.w;
        SwapMove(w0, u, g, mark, content, hiers, i);
        RecordingPresent(v, h, k.group, v.staged[(g, h)].origin);
        ok := k.MoveOverlay(g, h);
        if ok {
          hiers := hiers[i := hiers[i].(stagingMounted := false, attached := true)];
          ElsewhereTransitive(v, u, k.w, h);
        }
      }
      assert OnlyAt(v, k.w, before, hiers, i);
      forall j | 0 <= j < |hiers| && j != i
        ensures hiers[j] == before[j]
        ensures Placed(w0, v, g, before[j]) ==> Placed(w0, k.w, g, hiers[j])
        ensures Finished(w0, v, before[j]) ==> Finished(w0, k.w, hiers[j])
      {
        ProgressElsewhere(w0, v, k.w, before, hiers, i, j, g);
      }
    }

    /** restoreHost: takes the new overlay of a hierarchy down, wherever it is, and
        puts the mounts below it and those saved from the old merge back onto the
        hierarchy. clean says that every call succeeded whose error is ignored here. */
    method RestoreHost(hs0: HierarchyState, ghost base: World, ghost content: string) returns (clean: bool, hs: HierarchyState)
      requires Inv(k.w) && hs0.path in k.w.spots
      requires Untouched(hs0) || (gen.Some? && Inv(base) && HierOk(base, k.w, gen.value, mark, content, hs0))
      modifies k
      ensures Touched(old(k.w), k.w, hs0.path)
      ensures hs == hs0.(stagingMounted := false, attached := false, subs := [])
      ensures Untouched(hs0) ==> k.w == old(k.w) && clean
      ensures clean && gen.Some? && HierOk(base, old(k.w), gen.value, mark, content, hs0) ==>
                Restored(base, k.w, gen.value, hs0.path, hs0.unmerged)
      ensures k.Blamed(clean || (hs0.unmerged && !FitsBare(base, hs0.path)))
    {
      hide Sound, Inv, Touched, HierOk, Restored, Distinct, Fit, FitsBare;
      ghost var v := k.w;
      TouchedSelf(v, hs0.path);
      clean, hs := true, hs0;
      if hs.attached || hs.stagingMounted {
        clean, hs := TakeDown(hs0, base, content);
        TouchedFacts(v, k.w, hs0.path);
      }
      ghost var u, moved := k.w, {};
      if clean && !Untouched(hs0) && (hs0.unmerged ==> FitsBare(base, hs0.path)) {
        ReturnFits(base, u, gen.value, mark, content, hs);
      }
      assert Untouched(hs0) ==> Pending(hs.subs) == {} && Fit(Pending(hs.subs), u.RoomAt(Target(hs.path))) by {
        NothingFits(u.RoomAt(Target(hs.path)));
      }
      hide Pending;
      var attached, rest;
      attached, rest, moved := AttachSubmounts(k, Target(hs.path), hs.subs);
      RestoreTouched(v, u, hs, rest, moved);
      if Untouched(hs0) {
        assert Pending(rest) == {};
        SameSubs(u, Target(hs.path));
        assert u.SubsAt(Target(hs.path)) + moved == u.SubsAt(Target(hs.path));
      }
      if clean && attached && gen.Some? {
        RestoreEnd(base, u, gen.value, mark, content, hs, rest, moved);
      }
      clean := clean && attached;
      hs := hs.(stagingMounted := false, attached := false, subs := []);
    }

    /** The part of restoreHost for an overlay that is up. */
    method TakeDown(hs0: HierarchyState, ghost base: World, ghost content: string) returns (clean: bool, hs: HierarchyState)
      requires Inv(k.w) && hs0.path in k.w.spots && gen.Some?
      requires HierOk(base, k.w, gen.value, mark, content, hs0) && (hs0.attached || hs0.stagingMounted)
      modifies k
      ensures Touched(old(k.w), k.w, hs0.path)
      ensures hs == hs0.(stagingMounted := false, attached := false, subs := hs.subs)
      ensures clean ==> HierOk(base, k.w, gen.value, mark, content, hs)
      ensures k.Blamed(clean)
    {
      hide Sound, Inv, HierOk, Touched, World.Without, World.WithBound;
      var g, h := gen.value, hs0.path;
      ghost var v := k.w;
      TouchedSelf(v, h);
      var p := if hs0.attached then Target(h) else Staged(g, h);
      LocalBound(base, v, g, mark, content, hs0, p, false);
      TouchBound(v, v, h, p);
      var bound := k.SetMarkerBound(p, false);
      assert Touched(v, k.w, h) && HierOk(base, k.w, g, mark, content, hs0);
      AttachedUp(base, k.w, g, mark, content, hs0);
      TouchedFacts(v, k.w, h);
      var taken;
      taken, hs := TakeBelow(hs0, p, v, base, content);
      ghost var u := k.w;
      TouchDetach(v, u, h, p);
      if taken {
        TakenDown(base, u, g, mark, content, hs, p);
      }
      var detached := k.Detach(p);
      clean := bound && taken && detached;
      hs := hs.(attached := false, stagingMounted := false);
    }

    method TakeBelow(hs0: HierarchyState, p: Place, ghost v: World, ghost base: World, ghost content: string)
      returns (taken: bool, hs: HierarchyState)
      requires Inv(k.w) && hs0.path in k.w.spots && gen.Some? && Touched(v, k.w, hs0.path)
      requires p in {Target(hs0.path), Staged(gen.value, hs0.path)}
      requires HierOk(base, k.w, gen.value, mark, content, hs0)
      requires p.Target? ==> k.w.At(hs0.path).stack != []
      modifies k
      ensures Inv(k.w) && Touched(v, k.w, hs0.path)
      ensures hs == hs0.(subs := hs.subs)
      ensures HierOk(base, k.w, gen.value, mark, content, hs)
      ensures taken ==> k.w.SubsAt(p) <= Pending(hs.subs)
      ensures k.Blamed(taken)
    {
      hide Sound, Inv, HierOk, Touched, Distinct, Pending, World.Taken;
      ghost var u, g, left := k.w, gen.value, {};
      var s;
      taken, s, left := TakeSubmounts(k, p);
      hs := hs0.(subs := hs0.subs + s);
      if taken {
        LocalTake(base, u, g, mark, content, hs0, p, s, left, k.w.strays);
        TouchTake(v, u, hs0.path, p, left, k.w.strays);
        TouchedFacts(v, k.w, hs0.path);
      } else {
        assert hs.subs == hs0.subs;
      }
    }

    /** Before any merge was touched: what this operation made can be dropped. */
    ghost predicate Idle()
      reads this, k
    {
      && !committed && !swapping && Inv(k.w)
      && (forall j :: 0 <= j < |hiers| ==> Untouched(hiers[j]) && hiers[j].path in k.w.spots)
      && (gen == Some(Base) ==> freshWS)
      && (gen.Some? && gen.value.Next? ==> Unneeded(k.w, DirsOf(k.w, gen.value)))
    }

    method UnmountImages() returns (clean: bool)
      requires gen.Some? && Inv(k.w)
      modifies k, this`images
      ensures k.w == old(k.w).(images := k.w.images) && k.w.images <= old(k.w).images
      ensures Inv(k.w) && images == []
      ensures k.Blamed(clean)
    {
      hide Sound;
      clean := true;
      var n := |images|;
      while n > 0
        invariant k.Blamed(clean)
        invariant n <= |images| && images == old(images)
        invariant k.w == old(k.w).(images := k.w.images) && k.w.images <= old(k.w).images
      {
        n := n - 1;
        var ok := k.UnmountImage(gen.value, images[n]);
        clean := clean && ok;
      }
      images := [];
    }

    method DropGeneration(g: Gen) returns (clean: bool)
      requires Inv(k.w) && g.Next? && Unneeded(k.w, DirsOf(k.w, g))
      modifies k
      ensures Inv(k.w) && Near(old(k.w), k.w) && Fewer(old(k.w), k.w)
      ensures clean ==> (forall key :: key in k.w.images ==> key.0 != g) && (forall key :: key in k.w.staged ==> key.0 != g)
      ensures k.Blamed(clean)
    {
      hide Sound, Inv, Unneeded;
      ghost var u := k.w;
      var a := k.DetachStaged(g);
      var b := k.DetachImages(g);
      ghost var v := k.w;
      StagedShrinks(u, v, g);
      ghost var gone, hit;
      var c;
      c, gone, hit := k.RemoveGeneration(g);
      GenerationRemovedKeeps(v, g, gone, hit, c);
      GenerationSpares(v, k.w, g, gone, hit);
      NearTwice(u, v, k.w);
      clean := a && b && c;
    }

    /** discard: drops what this operation built before any merge was touched. */
    method Discard() returns (clean: bool)
      requires Idle()
      modifies k, this`images, this`freshWS, this`gen
      ensures Idle() && gen == None && images == [] && !freshWS && Near(old(k.w), k.w) && Fewer(old(k.w), k.w)
      ensures clean ==> Dropped(k.w, old(gen))
      ensures old(gen) == None && !old(freshWS) ==> clean && k.w == old(k.w)
      ensures k.Blamed(clean)
    {
      hide Sound, Inv, Unneeded, DirsOf, Near;
      clean := true;
      ghost var v := k.w;
      NearSelf(v);
      if gen.Some? {
        StillUnneeded(k.w, gen.value);
        clean := UnmountImages();
        NearImages(v, k.w);
      }
      images := [];
      ghost var u := k.w;
      if freshWS {
        UnmountedKeeps(u);
        clean := k.Teardown();
        NearUnmounted(v, u);
        freshWS := false;
      } else if gen.Some? && gen.value != Base {
        var dropped := DropGeneration(gen.value);
        NearTwice(v, u, k.w);
        clean := clean && dropped;
      }
      gen := None;
    }

    /** abort: every hierarchy switched over is unmerged again with its mounts back,
        and the new layers are released; merges not touched yet stay. If none of its own
        calls fails of itself, it falls short of that exactly when a merge it has taken
        off had a mount below it that does not fit the bare hierarchy. */
    method Abort(ghost content: string) returns (clean: bool)
      requires if committed then Inv(k.w) else if swapping then Swap(content) else Idle()
      modifies k, this`hiers, this`images, this`freshWS, this`gen
      ensures Inv(k.w)
      ensures committed ==> k.w == old(k.w) && clean
      ensures !committed && swapping ==> RestoreInv(w0, old(k.w), k.w, old(gen.value), mark, content, old(hiers), 0, clean)
      ensures !committed && swapping && clean ==> !k.w.mounted
      ensures !committed && !swapping ==> k.w.spots == old(k.w).spots && Fewer(old(k.w), k.w) && (clean ==> Dropped(k.w, old(gen)))
      ensures !committed && !swapping && old(gen) == None && !old(freshWS) ==> clean
      ensures StagedSafe(old(k.w)) ==> StagedSafe(k.w)
      ensures !committed && swapping && clean ==> Returnable(w0, old(hiers))
      ensures k.Blamed(clean || (!committed && swapping && !Returnable(w0, old(hiers))))
    {
      hide Sound, Returnable, FitsBare, Inv, Swapping, Touched, RestoreInv, Restored, HierOk, Unneeded, DirsOf, Near;
      if committed {
        return true;
      }
      clean := true;
      ghost var v, before := k.w, hiers;
      if swapping {
        RestoreStart(w0, v, gen.value, mark, content, hiers);
        SwapInv(w0, v, gen.value, mark, content, hiers);
      }
      var n: nat := |hiers|;
      while n > 0
        invariant k.Blamed(clean || (swapping && !Returnable(w0, before))) && (!swapping ==> clean)
        invariant n <= |hiers| == |before| && gen == old(gen) && freshWS == old(freshWS)
        invariant forall j :: 0 <= j < n ==> hiers[j] == before[j]
        invariant if swapping then RestoreInv(w0, v, k.w, gen.value, mark, content, before, n, clean)
                  else k.w == v && forall j :: 0 <= j < |hiers| ==> Untouched(hiers[j]) && hiers[j].path in k.w.spots
        invariant !swapping ==> Inv(k.w)
      {
        n := n - 1;
        ghost var u := k.w;
        if swapping {
          RestoreFacts(w0, v, u, gen.value, mark, content, before, n + 1, clean);
        }
        ReturnableAt(w0, before, n);
        var one, hs := RestoreHost(hiers[n], w0, content);
        if swapping {
          RestoreStep(w0, v, u, k.w, gen.value, mark, content, before, n, clean, one);
        }
        clean := clean && one;
        hiers := hiers[n := hs];
      }
      if swapping {
        RestoreFacts(w0, v, k.w, gen.value, mark, content, before, 0, clean);
        var a := UnmountImages();
        ghost var u := k.w;
        UnmountedKeeps(u);
        var b := k.Teardown();
        RestoreUnmounted(w0, v, u, k.w, gen.value, mark, content, before, clean);
        clean := clean && a && b;
        RestoreWeaker(w0, v, k.w, gen.value, mark, content, before, clean);
        RestoreSafe(w0, v, k.w, gen.value, mark, content, before, clean);
        RestoredFit(w0, v, k.w, gen.value, mark, content, before, clean);
      } else {
        clean := Discard();
        NearSafe(v, k.w);
      }
    }

    /** promote: moves the generation built in next.* into place, replacing the layers
        of the previous merge. Whatever fails, no merge is touched. If nothing is staged
        in the place of a replaced layer, it fails only when one of its calls fails of
        itself, and no overlay at a staging point loses a layer either; otherwise it
        fails in any case, and if no call fails of itself an overlay has lost a layer. */
    method Promote() returns (ok: bool)
      requires gen.Some? && Promotable(k.w, gen.value, mark, hiers) && Pictured()
      modifies k
      ensures Inv(k.w) && k.w.spots == old(k.w).spots && k.w.staged == old(k.w).staged
      ensures gen.value == Base ==> ok && k.w == old(k.w)
      ensures ok && gen.value != Base ==> Promoted(old(k.w), k.w, gen.value, hiers, images)
      ensures ok && gen.value != Base ==> Clear(old(k.w), hiers)
      ensures k.Blamed(ok || !Clear(old(k.w), hiers))
      ensures StagedSafe(old(k.w)) && Clear(old(k.w), hiers) ==> StagedSafe(k.w)
      ensures gen.value != Base && !Clear(old(k.w), hiers) && k.faults == old(k.faults) ==> !StagedSafe(k.w)
      ensures !StagedSafe(old(k.w)) ==> !StagedSafe(k.w)
    {
      hide Sound, Inv, Unneeded, Promotable, Replacing, Carried, Promoted, Clear, StagedSafe;
      var g := gen.value;
      ghost var v := k.w;
      PromotableFacts(v, g, mark, hiers);
      if g == Base {
        return true;
      }
      ImagesDontMatter(k.w, g, mark, hiers);
      ok := k.DetachImages(Base);
      PromotableFacts(k.w, g, mark, hiers);
      SameSafe(v, k.w, hiers);
      if !ok {
        return;
      }
      ok := k.RemoveImageDirs(Base);
      if !ok {
        return;
      }
      ghost var u := k.w;
      ok := RemoveReplaced();
      SameClear(v, u, hiers);
      if !ok {
        return;
      }
      ghost var x := k.w;
      ok := k.Other(); // mkdir extensions
      if !ok {
        return;
      }
      ok := MoveImages();
      PromotableFacts(k.w, g, mark, hiers);
      SameSafe(x, k.w, hiers);
      if !ok {
        return;
      }
      ghost var y := k.w;
      ok := RenameLayers(v);
      SameSafe(y, k.w, hiers);
      if !ok {
        return;
      }
      u := k.w;
      ReplacingUnstaged(u, g, mark, hiers);
      LeftoverUnneeded(u, g, mark, hiers);
      ghost var gone, hit;
      ok, gone, hit := k.RemoveGeneration(g);
      GenerationRemovedKeeps(u, g, gone, hit, ok);
      UnstagedRemoved(u, k.w, g, gone, hit);
      if ok {
        PromotedFacts(v, u, k.w, g, hiers, images, gone, hit);
      }
    }

    /** The images mounted in this operation's generation are the ones it knows. */
    ghost predicate Pictured()
      reads this, k
    {
      gen.Some? && forall key :: key in k.w.images && key.0 == gen.value ==> key.1 in images
    }

    /** And those are all mounted there. */
    ghost predicate Shown()
      reads this, k
    {
      gen.Some? && forall name :: name in images ==> (gen.value, name) in k.w.images
    }

    /** The images are those of the given ones that the check accepts, the others are
        counted. */
    ghost predicate Chosen(names: seq<string>)
      reads this
    {
      images == Accepted(names, ext.accepts) && ignored == |names| - |images|
    }

    /** There is nothing to merge. */
    predicate Nothing(names: seq<string>)
    {
      Accepted(names, ext.accepts) == [] && mode == No
    }

    /** Removes the layers of the merges this operation replaced. */
    method RemoveReplaced() returns (ok: bool)
      requires gen.Some? && gen.value != Base && Promotable(k.w, gen.value, mark, hiers)
      modifies k
      ensures Inv(k.w) && k.w.spots == old(k.w).spots && k.w.staged == old(k.w).staged && k.w.images == old(k.w).images
      ensures ok ==> Promotable(k.w, gen.value, mark, hiers) && SameDirsOf(old(k.w), k.w, gen.value)
      ensures ok ==> Vacant(k.w, hiers, |hiers|)
      ensures ok ==> Clear(old(k.w), hiers)
      ensures k.Blamed(ok || !Clear(old(k.w), hiers))
      ensures StagedSafe(old(k.w)) && Clear(old(k.w), hiers) ==> StagedSafe(k.w)
      ensures !Clear(old(k.w), hiers) && k.faults == old(k.faults) ==> !StagedSafe(k.w)
      ensures !StagedSafe(old(k.w)) ==> !StagedSafe(k.w)
    {
      hide Sound, Inv, Unneeded, Promotable, StagedSafe;
      ghost var v := k.w;
      for i := 0 to |hiers|
        invariant k.Blamed(true)
        invariant Promotable(k.w, gen.value, mark, hiers) && k.w.spots == old(k.w).spots && SameDirsOf(old(k.w), k.w, gen.value)
        invariant k.w.staged == v.staged && k.w.images == v.images && Vacant(k.w, hiers, i)
        invariant forall m :: 0 <= m < i && (hiers[m].attached || hiers[m].unmerged) ==> (Base, hiers[m].path) !in v.staged
        invariant StagedSafe(v) <==> StagedSafe(k.w)
      {
        if hiers[i].attached || hiers[i].unmerged {
          ok := RemoveLayers(i);
          PromotableFacts(k.w, gen.value, mark, hiers);
          if !ok {
            return;
          }
        }
      }
      PromotableFacts(k.w, gen.value, mark, hiers);
      ok := true;
    }

    /** Removes the layers of hierarchy i in the workspace itself. */
    method RemoveLayers(i: nat) returns (ok: bool)
      requires gen.Some? && gen.value != Base && Promotable(k.w, gen.value, mark, hiers) && i < |hiers| && Vacant(k.w, hiers, i)
      modifies k
      ensures Promotable(k.w, gen.value, mark, hiers) && k.w.spots == old(k.w).spots && SameDirsOf(old(k.w), k.w, gen.value)
      ensures k.w.staged == old(k.w).staged && k.w.images == old(k.w).images
      ensures ok ==> Vacant(k.w, hiers, i + 1) && (Base, hiers[i].path) !in k.w.staged
      ensures k.Blamed(ok || (Base, hiers[i].path) in k.w.staged)
      ensures (Base, hiers[i].path) !in k.w.staged ==> (StagedSafe(old(k.w)) <==> StagedSafe(k.w))
      ensures (Base, hiers[i].path) in k.w.staged && k.faults == old(k.faults) ==> !StagedSafe(k.w)
      ensures !StagedSafe(old(k.w)) ==> !StagedSafe(k.w)
    {
      hide Sound, Inv, Unneeded, Promotable, StagedSafe;
      var kinds := [Meta, Staging, Scratch];
      ghost var v := k.w;
      var h := hiers[i].path;
      for j := 0 to |kinds|
        invariant k.Blamed(true)
        invariant Promotable(k.w, gen.value, mark, hiers) && k.w.spots == old(k.w).spots && SameDirsOf(v, k.w, gen.value)
        invariant k.w.staged == v.staged && k.w.images == v.images && Vacant(k.w, hiers, i)
        invariant forall m :: 0 <= m < j ==> Dir(Base, kinds[m], h) !in k.w.dirs
        invariant (Base, h) !in v.staged ==> (StagedSafe(v) <==> StagedSafe(k.w))
        invariant j == 0 ==> (StagedSafe(v) <==> StagedSafe(k.w))
        invariant j > 0 && (Base, h) in v.staged ==> !StagedSafe(k.w)
        invariant j > 1 ==> (Base, h) !in v.staged
        invariant !StagedSafe(v) ==> !StagedSafe(k.w)
      {
        var d := Dir(Base, kinds[j], h);
        ghost var u := k.w;
        ReplacedUnneeded(u, gen.value, mark, hiers, i, kinds[j]);
        PromotableFacts(u, gen.value, mark, hiers);
        ghost var gone, hit;
        ok, gone, hit := k.RemoveDirs({d});
        PartUnneeded(u, {d}, gone, hit);
        StillPromotable(u, gen.value, mark, hiers, gone, hit);
        LayerRemoved(u, kinds[j], h, gone, hit, ok);
        if !ok {
          return;
        }
      }
      forall kind: Kind
        ensures Dir(Base, kind, h) !in k.w.dirs
      {
        assert kind == kinds[0] || kind == kinds[1] || kind == kinds[2];
      }
      ok := true;
    }

    method MoveImages() returns (ok: bool)
      requires gen.Some? && gen.value != Base && Promotable(k.w, gen.value, mark, hiers) && Pictured()
      modifies k
      ensures Promotable(k.w, gen.value, mark, hiers) && k.w == old(k.w).(images := k.w.images)
      ensures ok ==> forall name :: name in images ==> (Base, name) in k.w.images
      ensures ok ==> forall key :: key in k.w.images ==> key.0 != gen.value
      ensures k.Blamed(ok)
    {
      hide Sound, Inv, Promotable;
      for i := 0 to |images|
        invariant k.Blamed(true) && Pictured()
        invariant Promotable(k.w, gen.value, mark, hiers) && k.w == old(k.w).(images := k.w.images)
        invariant forall m :: 0 <= m < i ==> (Base, images[m]) in k.w.images && (gen.value, images[m]) !in k.w.images
      {
        PromotableFacts(k.w, gen.value, mark, hiers);
        ok := k.Other(); // mkdir
        if ok {
          ImageMoved(k.w, gen.value, mark, hiers, images[i]);
          ok := k.MoveImage(gen.value, images[i]);
        }
        if !ok {
          return;
        }
      }
      ok := true;
    }

    /** Renames the layers built in the generation, those v has. */
    method RenameLayers(ghost v: World) returns (ok: bool)
      requires gen.Some? && gen.value != Base && Promotable(k.w, gen.value, mark, hiers) && SameDirsOf(v, k.w, gen.value)
      requires Vacant(k.w, hiers, |hiers|)
      modifies k
      ensures Inv(k.w) && k.w == old(k.w).(dirs := k.w.dirs)
      ensures ok ==> Replacing(k.w, gen.value, mark, hiers, |hiers|, 0) && Carried(v, k.w, gen.value, hiers, |hiers|, 0)
      ensures k.Blamed(ok)
    {
      hide Sound, Inv, Promotable, Replacing, Carried, Vacant;
      var kinds := [Meta, Staging, Scratch];
      RenameStart(v, k.w, gen.value, mark, hiers);
      for i := 0 to |hiers|
        invariant k.Blamed(true)
        invariant Replacing(k.w, gen.value, mark, hiers, i, 0) && Carried(v, k.w, gen.value, hiers, i, 0)
        invariant k.w == old(k.w).(dirs := k.w.dirs)
      {
        if hiers[i].attached {
          for j := 0 to |kinds|
            invariant k.Blamed(true)
            invariant Replacing(k.w, gen.value, mark, hiers, i, j) && Carried(v, k.w, gen.value, hiers, i, j)
            invariant k.w == old(k.w).(dirs := k.w.dirs)
          {
            var src, dst := Dir(gen.value, kinds[j], hiers[i].path), Dir(Base, kinds[j], hiers[i].path);
            ghost var u := k.w;
            CarriedStep(v, u, gen.value, hiers, i, j);
            RenameStep(u, gen.value, mark, hiers, i, j);
            if src in k.w.dirs {
              ReplacingFacts(u, gen.value, mark, hiers, i, j);
              ok := k.Other(); // MkdirAll of the parent
              if ok {
                ok := k.Rename(src, dst);
              }
              if !ok {
                return;
              }
            }
          }
        }
        RenameNext(k.w, gen.value, mark, hiers, i, hiers[i].attached);
        CarriedNext(v, k.w, gen.value, hiers, i);
      }
      ReplacingFacts(k.w, gen.value, mark, hiers, |hiers|, 0);
      ok := true;
    }

    /** Before the workspace is touched: the hierarchies are known. */
    ghost predicate Known(paths: seq<Hier>)
      reads this
    {
      && |hiers| == |paths|
      && forall j :: 0 <= j < |hiers| ==>
           && hiers[j].path == paths[j] && paths[j] in w0.spots && Untouched(hiers[j])
           && (hiers[j].merged <==> w0.At(paths[j]).stack != [])
           && (hiers[j].host <==> w0.At(paths[j]).present)
    }

    /** Nothing has been built yet. */
    ghost predicate New()
      reads this, k
    {
      gen == None && !freshWS && images == [] && ignored == 0 && !swapping && !committed && Inv(w0) && k.w == w0
    }

    /** The first loop of run: resolves the hierarchies and finds out which are merged.
        A merge fails on the first one that is. */
    method Resolve(paths: seq<Hier>, refresh: bool) returns (ok: bool, anyMerged: bool)
      requires New() && hiers == []
      requires forall j :: 0 <= j < |paths| ==> paths[j] in k.w.spots
      modifies this`hiers, k
      ensures k.w == old(k.w) && k.Blamed(ok || AlreadyMerged(k.w, paths, refresh))
      ensures forall j :: 0 <= j < |hiers| ==> Untouched(hiers[j]) && hiers[j].path in k.w.spots
      ensures ok ==> Known(paths)
      ensures ok ==> !AlreadyMerged(k.w, paths, refresh)
      ensures ok ==> (anyMerged <==> exists j :: 0 <= j < |paths| && w0.At(paths[j]).stack != [])
    {
      hide Sound, Inv;
      anyMerged := false;
      for i := 0 to |paths|
        invariant |hiers| == i && k.w == old(k.w) && k.Blamed(true)
        invariant forall j :: 0 <= j < i ==>
                    && hiers[j].path == paths[j] && Untouched(hiers[j])
                    && (hiers[j].merged <==> w0.At(paths[j]).stack != [])
                    && (hiers[j].host <==> w0.At(paths[j]).present)
        invariant anyMerged <==> exists j :: 0 <= j < i && w0.At(paths[j]).stack != []
        invariant !refresh ==> !anyMerged
      {
        var present, merged;
        ok, present := k.Exists(paths[i]);
        if !ok {
          return;
        }
        merged := false;
        SpotFacts(w0, paths[i]);
        AliveSpot(w0, paths[i]);
        if present {
          ok, merged := k.IsOurs(paths[i]);
          if !ok {
            return;
          }
        }
        if merged && !refresh {
          return false, anyMerged;
        }
        anyMerged := anyMerged || merged;
        hiers := hiers + [HierarchyState(paths[i], present, merged, false, iset{}, false, false, false, [])];
      }
      ok := true;
    }

    /** The workspace is ready and empty where this operation builds. */
    ghost predicate Open()
      reads this, k
    {
      gen.Some? && (gen == Some(Base) ==> freshWS) && Opened(w0, k.w, gen.value, mark)
    }

    ghost predicate NotBuilt()
      reads this, k
    {
      Inv(k.w) && k.w.spots == w0.spots && gen == None && Fewer(w0, k.w) && Near(w0, k.w)
    }

    /** resetWorkspace. */
    method ResetWorkspace() returns (ok: bool)
      requires New()
      modifies k, this`gen, this`freshWS, this`mark
      ensures if ok then Open() else NotBuilt()
      ensures ok ==> gen == Some(Base) && forall key :: key in k.w.images ==> key.0 != gen.value
      ensures k.Blamed(ok)
    {
      hide Sound, Near, Inv, Opened;
      NearReset(w0);
      ok := k.Teardown();
      if !ok {
        return;
      }
      ok := k.MountWorkspace();
      if !ok {
        return;
      }
      ResetOpened(w0, k.w);
      freshWS, gen, mark := true, Some(Base), k.w.unused;
    }

    /** useWorkspace: the generation gets a name that is not in use, so that what an
        earlier operation left behind is never built in. */
    method UseWorkspace() returns (ok: bool)
      requires New()
      modifies k, this`gen, this`freshWS, this`mark
      ensures if ok then Open() else NotBuilt()
      ensures ok ==> gen != Some(Base) && forall key :: key in k.w.images ==> key.0 != gen.value
      ensures k.Blamed(ok)
    {
      hide Sound, Near, Inv, Opened;
      NearReset(w0);
      ok := k.Other();
      if !ok {
        return;
      }
      if !k.w.mounted {
        ok := k.Teardown();
        if !ok {
          return;
        }
        ok := k.MountWorkspace();
        if !ok {
          return;
        }
        freshWS := true;
      }
      ghost var u := k.w;
      var n;
      ok, n := k.MakeGeneration();
      if !ok {
        return;
      }
      NextOpened(w0, u, n);
      gen, mark := Some(Next(n)), k.w.unused;
    }

    /** mountImage for all images; those the check rejects are unmounted again. */
    method MountAll(names: seq<string>) returns (ok: bool)
      requires Open() && images == [] && ignored == 0 && Pictured()
      modifies k, this`images, this`ignored
      ensures Open() && (ok ==> Pictured() && Shown() && Chosen(names))
      ensures k.Blamed(ok)
    {
      hide Sound, Opened;
      for i := 0 to |names|
        invariant k.Blamed(true)
        invariant Open() && Pictured() && Shown() && Chosen(names[..i])
      {
        AcceptedNext(names, i, ext.accepts);
        ok := MountImage(names[i]);
        if !ok {
          return;
        }
      }
      assert names[..|names|] == names;
      ok := true;
    }

    /** mountImage: an image that the check rejects is unmounted again and counted. */
    method MountImage(name: string) returns (ok: bool)
      requires Open() && Pictured() && Shown()
      requires forall n :: n in images ==> ext.accepts(n)
      modifies k, this`images, this`ignored
      ensures Open() && (ok ==> Pictured() && Shown())
      ensures ok ==> images == old(images) + (if ext.accepts(name) then [name] else [])
      ensures ok ==> ignored == old(ignored) + if ext.accepts(name) then 0 else 1
      ensures k.Blamed(ok)
    {
      hide Sound, Opened;
      OpenedMounted(w0, k.w, gen.value, mark);
      ImagesKeep(w0, k.w, gen.value, mark, name);
      ok := k.Other(); // mkdir
      if !ok {
        return;
      }
      ok := k.MountImage(gen.value, name);
      if !ok {
        return;
      }
      images := images + [name];
      ok := k.Other(); // read-only, check
      if !ok {
        return;
      }
      if !ext.accepts(name) {
        images := images[..|images| - 1];
        ignored := ignored + 1;
        ImagesKeep(w0, k.w, gen.value, mark, name);
        ok := k.UnmountImage(gen.value, name);
        var removed := k.Other();
        ok := ok && removed;
      }
    }

    /** plan: which hierarchies get an overlay, and the origin to record. For the mode
        "yes" it makes the mutable directories. */
    method Plan(paths: seq<Hier>) returns (ok: bool, content: string)
      requires Open() && Known(paths)
      modifies k, this`hiers
      ensures Open() && Known(paths)
      ensures ok ==> Follows(hiers, TheDesign()) && content == ext.document(images)
      ensures k.w.images == old(k.w).images
      ensures k.Blamed(ok)
    {
      hide Sound, Opened, Component, Follows;
      FollowsNothing(hiers[..0], TheDesign());
      content := ext.document(images);
      for i := 0 to |hiers|
        invariant k.Blamed(true)
        invariant Open() && Known(paths) && k.w.images == old(k.w).images
        invariant Follows(hiers[..i], TheDesign())
      {
        ok := k.Other(); // usedLayers
        if !ok {
          return;
        }
        var layout := ext.layouts(images, hiers[i].path);
        ghost var before := hiers;
        hiers := hiers[i := hiers[i].(mount := layout.used || mode != No, tree := layout.tree)];
        FollowsNext(before, hiers, i, TheDesign());
        if mode == Yes {
          StoreKeeps(w0, k.w, gen.value, mark, Upper(Component(hiers[i].path)));
          ok := k.MakeStore(Upper(Component(hiers[i].path)));
          if !ok {
            return;
          }
        }
      }
      assert hiers[..|hiers|] == hiers;
      ok := true;
    }

    /** oldOrigin: that of the first merged hierarchy with a readable one. The reads that
        failed are those of the hierarchies in unread. */
    method OldOrigin() returns (o: Option<string>, ghost unread: set<nat>)
      modifies k
      ensures k.w == old(k.w) && k.sound == old(k.sound) && k.faults == old(k.faults) + |unread|
      ensures forall j :: j in unread ==> j < |hiers| && Marked(k.w, hiers[j])
      ensures match o
              case None => forall j: nat :: j < |hiers| && Marked(k.w, hiers[j]) ==> j in unread
              case Some(origin) => exists j: nat :: j < |hiers| && Marked(k.w, hiers[j]) && j !in unread && OriginOf(k.w, hiers[j]) == origin
                                                    && forall i: nat :: i < j && Marked(k.w, hiers[i]) ==> i in unread
    {
      unread := {};
      for i := 0 to |hiers|
        invariant k.w == old(k.w) && k.sound == old(k.sound) && k.faults == old(k.faults) + |unread|
        invariant forall j: nat :: j in unread <==> j < i && Marked(k.w, hiers[j])
      {
        if hiers[i].merged {
          o := k.ReadOrigin(hiers[i].path);
          if o.Some? {
            return;
          }
          if k.w.At(hiers[i].path).stack != [] {
            unread := unread + {i};
          }
        }
      }
      o := None;
    }

    /** The end of the transaction: merges are swapped. Up to the commit a failure leaves
        a state that Abort can roll back, and no hierarchy mixes old and new. */
    method SwapMerges(content: string) returns (ok: bool, attached: seq<Hier>, unmerged: seq<Hier>)
      requires !committed && swapping && Swap(content)
      requires forall j :: 0 <= j < |hiers| ==> Fresh(w0, k.w, gen.value, hiers[j])
      requires forall key :: key in k.w.staged ==> key.0 != gen.value
      requires k.group <= Paths(hiers)
      modifies k, this`hiers
      ensures Swap(content) && |hiers| == old(|hiers|)
      ensures forall j :: 0 <= j < |hiers| ==> SamePlan(old(hiers[j]), hiers[j])
      ensures k.w.images == old(k.w).images
      ensures Unmixed(k.w, hiers)
      ensures ok ==> forall j :: 0 <= j < |hiers| ==> Finished(w0, k.w, hiers[j])
      ensures ok ==> Names(attached, hiers)
      ensures k.Blamed(ok || (AllUnmerged(w0, hiers) && !AllSuit(w0, old(hiers))))
    {
      hide Sound, Swapping, Fresh, Bare, Placed, AllSuit, AllUnmerged;
      ghost var plan := hiers;
      attached := [];
      ok, unmerged := UnmergeOld(content);
      if !ok {
        return;
      }
      AllSuitSame(w0, plan, hiers);
      BareUnmerged(w0, k.w, gen.value, mark, content, hiers);
      ghost var bare := hiers;
      ok := StageNew(content);
      StillUnmerged(w0, bare, hiers);
      if !ok {
        return;
      }
      ok, attached := MoveNew(content);
    }

    /** Closes the saved clones after the commit; all of them are attached by then. */
    method CloseAll()
      requires forall j :: 0 <= j < |hiers| ==> Pending(hiers[j].subs) == {}
      modifies this`hiers
      ensures |hiers| == old(|hiers|)
      ensures forall j :: 0 <= j < |hiers| ==> hiers[j] == old(hiers[j]).(subs := hiers[j].subs) && Pending(hiers[j].subs) == {}
    {
      for i := 0 to |hiers|
        invariant |hiers| == old(|hiers|)
        invariant forall j :: 0 <= j < |hiers| ==> hiers[j] == old(hiers[j]).(subs := hiers[j].subs) && Pending(hiers[j].subs) == {}
      {
        hiers := hiers[i := hiers[i].(subs := Closed(hiers[i].subs))];
      }
    }

    /** Swaps the merges, commits and cleans up. The merge stays whatever the cleanup
        does. */
    method SwapAndCommit(content: string, ghost d: Design) returns (ok: bool, attached: seq<Hier>, unmerged: seq<Hier>)
      requires !committed && swapping && Swap(content) && Pictured() && Shown() && Follows(hiers, d)
      requires forall j :: 0 <= j < |hiers| ==> Fresh(w0, k.w, gen.value, hiers[j])
      requires forall key :: key in k.w.staged ==> key.0 != gen.value
      requires k.group <= Paths(hiers)
      modifies k, this`hiers, this`committed
      ensures Inv(k.w)
      ensures !committed ==> !ok && Swap(content) && Unmixed(k.w, hiers) && Paths(hiers) == old(Paths(hiers))
      ensures committed ==> Committed(w0, k.w, content, old(hiers)) && OthersSame(w0, k.w, old(Paths(hiers)))
      ensures committed ==> Names(attached, old(hiers))
      ensures ok ==> Settled(k.w, gen.value, images)
      ensures if committed then k.Blamed(ok || (gen.value != Base && Crowded(w0, old(Paths(hiers)), d)))
              else k.Blamed(AllUnmerged(w0, hiers) && !AllSuit(w0, old(hiers)))
      ensures committed ==> AllSuit(w0, old(hiers)) && k.w.staged.Keys <= w0.staged.Keys
      ensures Spared(w0, k.w, old(Paths(hiers)), d, committed && gen.value != Base)
      ensures committed && gen.value != Base && k.faults == old(k.faults) ==> Outcomes(w0, k.w, old(Paths(hiers)), d, ok)
    {
      hide Sound, Swapping, Promotable, Committed, Promoted, Cleared, Settled, Fresh, Finished, Doomed, Spared, Outcomes, StagedSafe, Clear, SharesWork;
      hide Crowded, Inv, Unmixed, Names, AllSuit, AllUnmerged, Follows;
      ghost var before := hiers;
      FreshMerged(w0, k.w, gen.value, hiers);
      ok, attached, unmerged := SwapMerges(content);
      SamePaths(before, hiers);
      if !ok {
        SwapInv(w0, k.w, gen.value, mark, content, hiers);
        SwapSpared(w0, k.w, gen.value, mark, content, hiers, d);
        return;
      }
      PlanMerged(w0, before, hiers);
      CommitFacts(w0, k.w, gen.value, mark, content, hiers);
      CommittedPlan(w0, k.w, content, before, hiers);
      CommitSuits(w0, k.w, gen.value, mark, content, hiers);
      AllSuitSame(w0, before, hiers);
      FollowsSame(before, hiers, d);
      NamesSame(attached, hiers, before);
      ghost var u := k.w;
      ok := CleanUp(content, attached, d);
      CommittedSpots(w0, u, k.w, content, before);
    }

    /** The commit and what follows it. */
    method CleanUp(ghost content: string, attached: seq<Hier>, ghost d: Design) returns (ok: bool)
      requires !committed && Swap(content) && Pictured() && Shown() && Follows(hiers, d) && Names(attached, hiers)
      requires forall j :: 0 <= j < |hiers| ==> Finished(w0, k.w, hiers[j]) && (hiers[j].merged <==> w0.At(hiers[j].path).stack != [])
      modifies k, this`hiers, this`committed
      ensures committed && Inv(k.w) && k.w.spots == old(k.w).spots && k.w.staged.Keys <= w0.staged.Keys
      ensures ok ==> Settled(k.w, gen.value, images)
      ensures k.Blamed(ok || (gen.value != Base && Crowded(w0, old(Paths(hiers)), d)))
      ensures Spared(w0, k.w, old(Paths(hiers)), d, gen.value != Base)
      ensures gen.value != Base && k.faults == old(k.faults) ==> Outcomes(w0, k.w, old(Paths(hiers)), d, ok)
    {
      hide Sound, Swapping, Promotable, Promoted, Cleared, Finished, Spared, Outcomes, StagedSafe, Clear, SharesWork, Crowded, Mounting;
      hide Inv, Names, Follows, Committed;
      CommitFacts(w0, k.w, gen.value, mark, content, hiers);
      CommitStaged(w0, k.w, gen.value, mark, content, hiers, d);
      ghost var u, mid, faults := k.w, hiers, k.faults;
      committed := true;
      SamePromotable(u, gen.value, mark, hiers);
      FreshUnattached(w0, u, gen.value, hiers);
      CloseAll();
      SameSwitched(u, mid, hiers);
      if attached == [] {
        SwapInv(w0, u, gen.value, mark, content, mid);
        UnmountedKeeps(u);
        ok := k.Teardown();
        NoneMounted(w0, attached, mid, Paths(mid), d);
        TornSpared(w0, u, k.w, Paths(mid), d);
      } else {
        ok := Promote();
        if ok && gen.value != Base {
          PromotedCleared(u, k.w, gen.value, hiers, images);
        }
        FollowsSame(mid, hiers, d);
        SomeMounted(attached, mid, Paths(mid), d);
        PromoteSpared(w0, u, k.w, gen.value, hiers, d, ok, k.faults == faults);
      }
    }

    /** The end of a refresh that found nothing to merge: the merged hierarchies are
        unmerged one by one, up to the first failure. */
    method UnmergeFound(paths: seq<Hier>) returns (ok: bool, unmerged: seq<Hier>, kept: bool)
      requires Known(paths) && Inv(w0) && Inv(k.w) && k.w.spots == w0.spots
      requires forall i, j :: 0 <= i < j < |paths| ==> paths[i] != paths[j]
      modifies k
      ensures Inv(k.w) && k.w.spots.Keys == w0.spots.Keys
      ensures forall h :: h !in paths ==> k.w.At(h) == w0.At(h)
      ensures forall h :: h in paths ==> After(w0, k.w, h, kept)
      ensures ok ==> kept && forall h :: h in paths ==> k.w.At(h).stack == []
      ensures Fewer(old(k.w), k.w)
      ensures StagedSafe(old(k.w)) && !SharesWork(old(k.w), PathSet(paths)) ==> StagedSafe(k.w)
      ensures k.Blamed(kept || !AllFitBare(w0, PathSet(paths))) && k.Blamed(ok || !kept)
      ensures ok ==> AllFitBare(w0, PathSet(paths))
    {
      hide Sound, FitsBare, Unmerged1, Rolled, Inv, SharesWork, StagedSafe, After, Fewer, World.Unmounted;
      unmerged, kept := [], true;
      ghost var v := k.w;
      RolledStart(w0, v, paths);
      for i := 0 to |hiers|
        invariant k.Blamed(true) && kept && Rolled(w0, v, k.w, paths, i, true, true)
        invariant forall j :: 0 <= j < i ==> FitsBare(w0, paths[j])
      {
        ghost var u := k.w;
        RolledFacts(w0, v, u, paths, i, true, true);
        FitsSame(w0, u, paths[i]);
        if !hiers[i].merged {
          RolledSkip(w0, v, u, paths, i, true);
        } else {
          var n, back;
          ok, n, back := UnmergeInPlace(k, hiers[i].path);
          RolledOne(w0, v, u, k.w, paths, i, n, back, ok);
          if n > 0 {
            unmerged := unmerged + [hiers[i].path];
          }
          kept := kept && back;
          if !ok {
            RolledEnd(w0, v, k.w, paths, i + 1, kept, false);
            return;
          }
        }
      }
      ghost var u := k.w;
      RolledEnd(w0, v, u, paths, |paths|, true, true);
      UnmountedKeeps(u);
      ok := k.Teardown();
      RolledTorn(w0, v, u, k.w, paths);
    }

    /** The state in which Abort is called, or in which the operation ended well. */
    ghost predicate Ended(ok: bool, content: string, before: set<Hier>)
      reads this, k
    {
      && Inv(k.w)
      && (!committed && swapping ==> !ok && Swap(content) && Unmixed(k.w, hiers) && Paths(hiers) == before)
      && (!committed && !swapping ==> Idle())
    }

    /** The part of run that sets up the workspace and mounts the images. */
    method Build(names: seq<string>, live: bool) returns (ok: bool)
      requires New() && forall j :: 0 <= j < |hiers| ==> Untouched(hiers[j]) && hiers[j].path in w0.spots
      modifies k, this`gen, this`freshWS, this`mark, this`images, this`ignored
      ensures Idle() && k.w.spots == w0.spots && OnlyOurs(w0, k.w, gen) && Near(w0, k.w)
      ensures ok ==> Open() && Pictured() && Shown() && Chosen(names) && (gen == Some(Base) <==> !live)
      ensures k.Blamed(ok)
    {
      hide Sound, Inv, Unneeded, DirsOf, Near, Opened;
      if live {
        ok := UseWorkspace();
      } else {
        ok := ResetWorkspace();
      }
      if !ok {
        return;
      }
      ok := MountAll(names);
      OpenIdle();
      NearSafe(w0, k.w);
    }

    /** The part of run for a refresh or merge without anything to merge. */
    method NothingToMerge(paths: seq<Hier>, anyMerged: bool) returns (ok: bool, out: Outcome, stage: Stage, kept: bool, tidy: bool)
      requires Idle() && Known(paths) && Inv(w0) && k.w.spots == w0.spots && OnlyOurs(w0, k.w, gen) && Near(w0, k.w)
      requires forall i, j :: 0 <= i < j < |paths| ==> paths[i] != paths[j]
      modifies k, this`images, this`freshWS, this`gen
      ensures Idle() && out.result == NothingFound && stage in {Built, Unwinding}
      ensures gen == None && !freshWS && out.merged == [] && out.ignored == old(ignored) && (stage == Unwinding ==> anyMerged)
      ensures stage == Built ==> k.w.spots == w0.spots && (tidy ==> OnlyOurs(w0, k.w, gen))
      ensures stage == Unwinding ==> Unwound(w0, k.w, paths, kept) && (tidy ==> OnlyOurs(w0, k.w, None))
      ensures stage == Unwinding && ok ==> kept && forall h :: h in paths ==> k.w.At(h).stack == []
      ensures StagedSafe(w0) && !SharesWork(w0, PathSet(paths)) ==> StagedSafe(k.w)
      ensures k.Blamed(tidy) && k.Blamed(ok || !kept) && k.Blamed(kept || (stage == Unwinding && !AllFitBare(w0, PathSet(paths))))
      ensures ok && stage == Unwinding ==> AllFitBare(w0, PathSet(paths))
      ensures stage == Built ==> k.Blamed(ok) && (ok ==> !anyMerged)
    {
      hide Sound, Inv, Unneeded, DirsOf, Near, SharesWork, StagedSafe, AllFitBare;
      ghost var u, g := k.w, gen;
      tidy := Discard();
      NearTwice(w0, u, k.w);
      NearSafe(w0, k.w);
      NearShares(w0, k.w, PathSet(paths));
      if tidy {
        NothingLeft(w0, u, k.w, g);
      }
      out := Outcome(NothingFound, [], ignored, [], []);
      ok, stage, kept := true, Built, true;
      if !anyMerged {
        return;
      }
      ok := k.Other(); // BeforeUnmerge
      if !ok {
        return;
      }
      stage := Unwinding;
      var unmerged;
      ok, unmerged, kept := UnmergeFound(paths);
      out := out.(unmerged := unmerged);
    }

    /** The comparison with the recorded origin: an unchanged refresh drops what it
        built and stops. */
    method UpToDate(content: string, always: bool) returns (ok: bool, stop: bool, tidy: bool)
      requires Open() && Idle()
      modifies k, this`images, this`freshWS, this`gen
      ensures Idle() && Near(old(k.w), k.w) && k.w.spots == w0.spots && (tidy ==> OnlyOurs(w0, k.w, gen))
      ensures !stop ==> k.w == old(k.w) && images == old(images) && gen == old(gen) && freshWS == old(freshWS)
      ensures stop ==> ok && !always && gen == None
      ensures stop ==> exists j: nat :: j < |hiers| && Marked(k.w, hiers[j]) && OriginOf(k.w, hiers[j]) == content
      ensures k.faults == old(k.faults) ==> (stop <==> !always && content != "" && FirstOrigin(old(k.w), hiers) == Some(content))
      ensures k.Blamed(ok && tidy)
    {
      hide Sound, Inv, Unneeded, DirsOf, Near, Opened, FirstOrigin, OnlyOurs, Dropped, Fewer, Untouched, Marked;
      tidy, stop, ok := true, false, true;
      OpenIdle();
      ghost var u, g := k.w, gen;
      NearSelf(u);
      var recorded;
      ghost var unread;
      recorded, unread := OldOrigin();
      if k.faults == old(k.faults) {
        assert unread == {};
        FirstOriginIs(u, hiers, recorded);
      }
      ghost var j: nat := 0;
      if recorded.Some? {
        j :| j < |hiers| && Marked(k.w, hiers[j]) && OriginOf(k.w, hiers[j]) == recorded.value;
      }
      NearSafe(w0, k.w);
      if recorded.Some? && recorded.value != "" {
        ok := k.Other(); // originEqual can fail
        if ok && content == recorded.value && !always {
          stop := true;
          tidy := Discard();
          NearSafe(u, k.w);
          if tidy {
            NothingLeft(w0, u, k.w, g);
          }
          MarkedStays(u, k.w, hiers[j]);
        }
      }
    }

    /** The part of run that replaces the old merges. */
    method Replace(paths: seq<Hier>, content: string) returns (ok: bool, attached: seq<Hier>, unmerged: seq<Hier>)
      requires Open() && Known(paths) && Pictured() && Shown() && Inv(w0) && !committed && !swapping && Follows(hiers, TheDesign())
      requires k.group <= PathSet(paths) && forall i, j :: 0 <= i < j < |paths| ==> paths[i] != paths[j]
      modifies k, this`hiers, this`swapping, this`committed
      ensures swapping && Ended(ok, content, PathSet(paths))
      ensures committed ==> Switched(w0, k.w, paths, content)
      ensures committed ==> forall h :: h in paths ==> (h in attached <==> k.w.At(h).stack != [])
      ensures committed ==> forall h :: h in paths ==> (TheDesign().Mounts(h) <==> k.w.At(h).stack != [])
      ensures ok ==> committed && gen.Some? && Settled(k.w, gen.value, images)
      ensures if committed then k.Blamed(ok || (gen != Some(Base) && Crowded(w0, PathSet(paths), TheDesign())))
              else k.Blamed(AllUnmerged(w0, hiers) && !Fitting(w0, PathSet(paths), TheDesign()))
      ensures committed ==> Fitting(w0, PathSet(paths), TheDesign()) && k.w.staged.Keys <= w0.staged.Keys
      ensures Spared(w0, k.w, PathSet(paths), TheDesign(), committed && gen != Some(Base))
      ensures committed && gen != Some(Base) && k.faults == old(k.faults) ==> Outcomes(w0, k.w, PathSet(paths), TheDesign(), ok)
    {
      hide Sound, Inv, Swapping, Unmixed, Committed, Switched, Settled, Spared, Outcomes, Crowded, Doomed, AllSuit, AllUnmerged, Fitting, Follows;
      swapping := true;
      OpenSwap(w0, k.w, gen.value, mark, content, hiers, paths);
      ghost var planned := hiers;
      FollowsFits(w0, planned, TheDesign());
      ok, attached, unmerged := SwapAndCommit(content, TheDesign());
      if committed {
        LiveFacts(w0, k.w, content, planned, paths, attached, TheDesign());
      }
    }

    /** The part of run from the plan on. */
    method PlanAndReplace(paths: seq<Hier>, always: bool) returns (ok: bool, out: Outcome, stage: Stage, tidy: bool, content: string)
      requires Open() && Idle() && Known(paths) && Pictured() && Shown() && Inv(w0)
      requires k.group <= PathSet(paths) && forall i, j :: 0 <= i < j < |paths| ==> paths[i] != paths[j]
      modifies this, k
      ensures w0 == old(w0) && (gen == old(gen) || stage == Built)
      ensures k.Blamed(tidy)
      ensures stage == Built ==> k.Blamed(ok) && (ok ==> out.result == Unchanged)
      ensures stage != Built || ok ==> out.merged == old(images) && out.ignored == old(ignored) && content == ext.document(old(images))
      ensures k.faults == old(k.faults) ==> (stage == Built <==> Current(w0, paths, ext.document(old(images)), always))
      ensures stage == Replaced ==> k.Blamed(AllUnmerged(w0, hiers) && !Fitting(w0, PathSet(paths), DesignOf(out)))
      ensures stage == Live ==> k.Blamed(ok || (gen != Some(Base) && Crowded(w0, PathSet(paths), DesignOf(out))))
      ensures stage == Live ==> Fitting(w0, PathSet(paths), DesignOf(out)) && k.w.staged.Keys <= w0.staged.Keys
      ensures ok && out.result == Unchanged ==> Recorded(w0, paths, content)
      ensures stage in {Built, Replaced, Live} && Ended(ok, content, PathSet(paths))
      ensures stage == Live <==> committed
      ensures stage == Replaced <==> !committed && swapping
      ensures stage == Built ==> k.w.spots == w0.spots && (tidy ==> OnlyOurs(w0, k.w, gen)) && (ok ==> gen == None && out.result != Merged)
      ensures stage == Live ==> Switched(w0, k.w, paths, content) && out.result == Merged
      ensures stage == Live ==> forall h :: h in paths ==> (h in out.hierarchies <==> k.w.At(h).stack != [])
      ensures stage == Live ==> forall h :: h in paths ==> (DesignOf(out).Mounts(h) <==> k.w.At(h).stack != [])
      ensures stage == Live && ok ==> gen.Some? && Settled(k.w, gen.value, out.merged)
      ensures StagedSafe(w0) && !Exposed(w0, PathSet(paths)) ==> StagedSafe(k.w)
      ensures stage == Live && gen != Some(Base) && k.faults == old(k.faults) ==> Outcomes(w0, k.w, PathSet(paths), DesignOf(out), ok)
    {
      hide Sound, Current, Fitting, Follows, AllUnmerged, Recorded, Inv, Swapping, Unneeded, DirsOf, Unmixed, Switched, Settled;
      hide Opened, Near, StagedSafe, SharesWork, Crowded, Outcomes, Spared, Exposed, OnlyOurs;
      stage, tidy := Built, true;
      out := Outcome(NothingFound, [], 0, [], []);
      ok, content := Plan(paths);
      OpenIdle();
      NearSafe(w0, k.w);
      if !ok {
        return;
      }
      out := Outcome(Unchanged, images, ignored, [], []);
      var stop;
      ghost var u := k.w;
      CurrentFound(w0, u, hiers, paths, content, always);
      ok, stop, tidy := UpToDate(content, always);
      NearSafe(u, k.w);
      if !ok || stop {
        if stop {
          RecordedAt(w0, k.w, hiers, paths, content);
        }
        return;
      }
      var attached, unmerged;
      ok, attached, unmerged := Replace(paths, content);
      out := Outcome(Merged, images, ignored, attached, unmerged);
      stage := if committed then Live else Replaced;
      SparedFacts(w0, k.w, paths, DesignOf(out), committed && gen != Some(Base));
    }

    /** run. stage tells how far it got, kept that unmerging lost no mount, tidy that
        dropping what had been built did not fail. */
    method Run(paths: seq<Hier>, names: seq<string>, refresh: bool, always: bool)
      returns (ok: bool, out: Outcome, stage: Stage, kept: bool, tidy: bool, content: string)
      requires New() && hiers == []
      requires forall j :: 0 <= j < |paths| ==> paths[j] in k.w.spots
      requires k.group <= PathSet(paths) && forall i, j :: 0 <= i < j < |paths| ==> paths[i] != paths[j]
      modifies this, k
      ensures w0 == old(w0)
      ensures stage != Built || ok ==> out.merged == Accepted(names, ext.accepts) && out.ignored == |names| - |out.merged|
      ensures stage != Built || ok ==> !AlreadyMerged(w0, paths, refresh)
      ensures stage in {Replaced, Live} || (ok && out.result == Unchanged) ==> !Nothing(names) && content == ext.document(out.merged)
      ensures stage == Unwinding ==> Nothing(names) && AnyMerged(w0, paths)
      ensures stage == Built && ok && out.result == NothingFound ==> Nothing(names) && !AnyMerged(w0, paths)
      ensures k.faults == old(k.faults) && (stage in {Replaced, Live} || (ok && out.result == Unchanged)) ==>
                (stage == Built <==> Current(w0, paths, ext.document(out.merged), always))
      ensures k.Blamed(tidy) && k.Blamed(kept || (stage == Unwinding && !AllFitBare(w0, PathSet(paths))))
      ensures stage == Built ==> k.Blamed(ok || AlreadyMerged(w0, paths, refresh)) && (ok ==> !AlreadyMerged(w0, paths, refresh))
      ensures stage == Unwinding ==> k.Blamed(ok || !kept) && (ok ==> AllFitBare(w0, PathSet(paths)))
      ensures stage == Replaced ==> k.Blamed(AllUnmerged(w0, hiers) && !Fitting(w0, PathSet(paths), DesignOf(out)))
      ensures stage == Live ==> k.Blamed(ok || (Onto(w0, paths, refresh) && Crowded(w0, PathSet(paths), DesignOf(out))))
      ensures stage == Live ==> Fitting(w0, PathSet(paths), DesignOf(out)) && k.w.staged.Keys <= w0.staged.Keys
      ensures ok && out.result == Unchanged ==> Recorded(w0, paths, content)
      ensures !ok && k.faults == old(k.faults) ==> stage in {Replaced, Live} || (gen == None && !freshWS)
      ensures Ended(ok, content, PathSet(paths))
      ensures stage == Live <==> committed
      ensures stage == Replaced <==> !committed && swapping
      ensures stage == Built ==> k.w.spots == w0.spots && (tidy ==> OnlyOurs(w0, k.w, gen)) && (ok ==> gen == None && out.result != Merged)
      ensures stage == Unwinding ==> Unwound(w0, k.w, paths, kept) && out.result == NothingFound && (tidy ==> OnlyOurs(w0, k.w, None))
      ensures stage == Unwinding && ok ==> kept && forall h :: h in paths ==> k.w.At(h).stack == []
      ensures stage == Live ==> Switched(w0, k.w, paths, content) && out.result == Merged
      ensures stage == Live ==> forall h :: h in paths ==> (h in out.hierarchies <==> k.w.At(h).stack != [])
      ensures stage == Live ==> forall h :: h in paths ==> (DesignOf(out).Mounts(h) <==> k.w.At(h).stack != [])
      ensures stage == Live && ok ==> gen.Some? && Settled(k.w, gen.value, out.merged)
      ensures StagedSafe(w0) && !Exposed(w0, PathSet(paths)) ==> StagedSafe(k.w)
      ensures stage == Live && Onto(w0, paths, refresh) && k.faults == old(k.faults) ==>
                Outcomes(w0, k.w, PathSet(paths), DesignOf(out), ok)
    {
      hide Sound, Current, Inv, Swapping, Unneeded, DirsOf, Unmixed, Unwound, Switched, Settled, Opened, Near, StagedSafe, SharesWork, Crowded, Outcomes;
      hide Exposed, OnlyOurs, AlreadyMerged, AllUnmerged, Fitting, AllFitBare, Recorded;
      stage, kept, tidy, content := Built, true, true, "";
      out := Outcome(NothingFound, [], 0, [], []);
      NearSelf(w0);
      OursSelf(w0);
      assert names == [] ==> Accepted(names, ext.accepts) == [];
      ExposedFacts(w0, paths);
      var anyMerged;
      ok, anyMerged := Resolve(paths, refresh);
      if !ok {
        return;
      }
      if names != [] || mode != No {
        ok := Build(names, refresh && anyMerged);
        NearSafe(w0, k.w);
        if !ok {
          return;
        }
      }
      if images == [] && mode == No {
        ok, out, stage, kept, tidy := NothingToMerge(paths, anyMerged);
        return;
      }
      ok, out, stage, tidy, content := PlanAndReplace(paths, always);
    }

    lemma OpenIdle()
      ensures Open() && !committed && !swapping && (forall j :: 0 <= j < |hiers| ==> Untouched(hiers[j]) && hiers[j].path in w0.spots) ==> Idle()
      ensures Open() ==> OnlyOurs(w0, k.w, gen) && Near(w0, k.w)
    {
      hide Inv;
    }
  }

  /** The hierarchy was merged before the operation, and is. */
  predicate Marked(w: World, hs: HierarchyState) {
    hs.merged && w.At(hs.path).stack != []
  }

  function OriginOf(w: World, hs: HierarchyState): string
    requires Marked(w, hs)
  {
    var s := w.At(hs.path).stack;
    s[|s| - 1].origin
  }

  lemma MarkedStays(v: World, w: World, hs: HierarchyState)
    requires w.spots == v.spots && Marked(v, hs)
    ensures Marked(w, hs) && OriginOf(w, hs) == OriginOf(v, hs)
  {
  }

  /** The origin that the first merged hierarchy records. */
  function FirstOrigin(w: World, hiers: seq<HierarchyState>): Option<string> {
    if hiers == [] then None
    else if Marked(w, hiers[0]) then Some(OriginOf(w, hiers[0]))
    else FirstOrigin(w, hiers[1..])
  }

  lemma {:induction false} FirstOriginIs(w: World, hiers: seq<HierarchyState>, o: Option<string>)
    requires match o
             case None => forall j: nat :: j < |hiers| ==> !Marked(w, hiers[j])
             case Some(origin) => exists j: nat :: j < |hiers| && Marked(w, hiers[j]) && OriginOf(w, hiers[j]) == origin
                                                   && forall i: nat :: i < j ==> !Marked(w, hiers[i])
    ensures FirstOrigin(w, hiers) == o
    decreases |hiers|
  {
    if hiers != [] && !Marked(w, hiers[0]) {
      if o.Some? {
        var j: nat :| j < |hiers| && Marked(w, hiers[j]) && OriginOf(w, hiers[j]) == o.value && forall i: nat :: i < j ==> !Marked(w, hiers[i]);
        assert hiers[1..][j - 1] == hiers[j];
        assert forall i: nat :: i < j - 1 ==> hiers[1..][i] == hiers[i + 1];
      } else {
        assert forall i: nat :: i < |hiers| - 1 ==> hiers[1..][i] == hiers[i + 1];
      }
      FirstOriginIs(w, hiers[1..], o);
    }
  }

  ghost predicate AnyMerged(w: World, paths: seq<Hier>) {
    exists h :: h in paths && w.At(h).stack != []
  }

  /** The origin of the first of the hierarchies that is merged. */
  function OriginFound(w: World, paths: seq<Hier>): Option<string> {
    if paths == [] then None
    else
      var s := w.At(paths[0]).stack;
      if s != [] then Some(s[|s| - 1].origin) else OriginFound(w, paths[1..])
  }

  /** The merge there is has been made with this origin, and need not be made again. */
  predicate Current(w: World, paths: seq<Hier>, content: string, always: bool) {
    !always && content != "" && OriginFound(w, paths) == Some(content)
  }

  lemma CurrentFound(v: World, w: World, hiers: seq<HierarchyState>, paths: seq<Hier>, content: string, always: bool)
    requires w.spots == v.spots && |hiers| == |paths|
    requires forall j :: 0 <= j < |hiers| ==> hiers[j].path == paths[j] && (hiers[j].merged <==> v.At(paths[j]).stack != [])
    ensures Current(v, paths, content, always) <==> !always && content != "" && FirstOrigin(w, hiers) == Some(content)
  {
    OriginIsFirst(v, w, hiers, paths);
  }

  lemma {:induction false} OriginIsFirst(v: World, w: World, hiers: seq<HierarchyState>, paths: seq<Hier>)
    requires w.spots == v.spots && |hiers| == |paths|
    requires forall j :: 0 <= j < |hiers| ==> hiers[j].path == paths[j] && (hiers[j].merged <==> v.At(paths[j]).stack != [])
    ensures FirstOrigin(w, hiers) == OriginFound(v, paths)
    decreases |paths|
  {
    if paths != [] {
      OriginIsFirst(v, w, hiers[1..], paths[1..]);
    }
  }

  /** A plain merge is asked for a hierarchy that is merged. */
  ghost predicate AlreadyMerged(w: World, paths: seq<Hier>, refresh: bool) {
    !refresh && exists h :: h in paths && w.At(h).stack != []
  }

  /** The operation builds next to a live merge. */
  ghost predicate Onto(w: World, paths: seq<Hier>, refresh: bool) {
    refresh && exists h :: h in paths && w.At(h).stack != []
  }

  /** The states of the hierarchies follow the design. */
  ghost predicate Follows(hiers: seq<HierarchyState>, d: Design) {
    forall j :: 0 <= j < |hiers| ==>
      (hiers[j].mount <==> d.Mounts(hiers[j].path)) && hiers[j].tree == d.layouts(d.images, hiers[j].path).tree
  }

  /** The mounts below the hierarchies have a place in what they are about to carry. */
  ghost predicate Fitting(v: World, hs: set<Hier>, d: Design) {
    forall h :: h in hs ==> Fit(v.At(h).Subs(), d.Room(v, h))
  }

  /** Some hierarchy gets an overlay. */
  ghost predicate Mounting(hs: set<Hier>, d: Design) {
    exists h :: h in hs && d.Mounts(h)
  }

  /** An overlay left at its staging point in the workspace itself is in the place of the
      layers of a hierarchy that the operation switches: from merged, or to merged. */
  ghost predicate Crowded(v: World, hs: set<Hier>, d: Design) {
    Mounting(hs, d) && exists h :: h in hs && (Base, h) in v.staged && (v.At(h).stack != [] || d.Mounts(h))
  }

  /** Some hierarchy was merged with this origin. */
  ghost predicate Recorded(v: World, paths: seq<Hier>, content: string) {
    exists h :: h in paths && v.At(h).stack != [] && v.At(h).stack[|v.At(h).stack| - 1].origin == content
  }

  lemma RecordedAt(v: World, w: World, hiers: seq<HierarchyState>, paths: seq<Hier>, content: string)
    requires w.spots == v.spots && |hiers| == |paths| && forall j :: 0 <= j < |hiers| ==> hiers[j].path == paths[j]
    requires exists j: nat :: j < |hiers| && Marked(w, hiers[j]) && OriginOf(w, hiers[j]) == content
    ensures Recorded(v, paths, content)
  {
    var j: nat :| j < |hiers| && Marked(w, hiers[j]) && OriginOf(w, hiers[j]) == content;
    assert paths[j] in paths;
  }

  lemma AllSuitSame(w0: World, a: seq<HierarchyState>, b: seq<HierarchyState>)
    requires |a| == |b| && forall j :: 0 <= j < |a| ==> SamePlan(a[j], b[j])
    ensures AllSuit(w0, a) <==> AllSuit(w0, b)
  {
    forall j | 0 <= j < |a|
      ensures Suits(w0, a[j]) <==> Suits(w0, b[j])
    {
      SuitsSame(w0, a[j], b[j]);
    }
    hide Suits;
  }

  lemma StillUnmerged(w0: World, a: seq<HierarchyState>, b: seq<HierarchyState>)
    requires |a| == |b| && forall j :: 0 <= j < |a| ==> SamePlan(a[j], b[j]) && b[j].unmerged == a[j].unmerged
    ensures AllUnmerged(w0, a) ==> AllUnmerged(w0, b)
  {
  }

  lemma FollowsSame(a: seq<HierarchyState>, b: seq<HierarchyState>, d: Design)
    requires |a| == |b| && forall j :: 0 <= j < |a| ==> a[j].path == b[j].path && a[j].mount == b[j].mount && a[j].tree == b[j].tree
    ensures Follows(a, d) ==> Follows(b, d)
  {
  }

  lemma FollowsNothing(hiers: seq<HierarchyState>, d: Design)
    requires hiers == []
    ensures Follows(hiers, d)
  {
  }

  lemma FollowsNext(before: seq<HierarchyState>, after: seq<HierarchyState>, i: nat, d: Design)
    requires i < |before| == |after| && Follows(before[..i], d) && after == before[i := after[i]]
    requires (after[i].mount <==> d.Mounts(after[i].path)) && after[i].tree == d.layouts(d.images, after[i].path).tree
    ensures Follows(after[..i + 1], d)
  {
    assert after[..i + 1] == before[..i] + [after[i]];
  }

  lemma FollowsFits(w0: World, hiers: seq<HierarchyState>, d: Design)
    requires Follows(hiers, d)
    ensures AllSuit(w0, hiers) <==> Fitting(w0, Paths(hiers), d)
  {
    hide Fit;
    forall j | 0 <= j < |hiers|
      ensures hiers[j].path in Paths(hiers)
      ensures Suits(w0, hiers[j]) <==> Fit(w0.At(hiers[j].path).Subs(), d.Room(w0, hiers[j].path))
    {
      PathIn(hiers, j);
    }
    if AllSuit(w0, hiers) {
      forall h | h in Paths(hiers)
        ensures Fit(w0.At(h).Subs(), d.Room(w0, h))
      {
        var j :| 0 <= j < |hiers| && hiers[j].path == h;
      }
    }
  }

  lemma SomeMounted(attached: seq<Hier>, hiers: seq<HierarchyState>, hs: set<Hier>, d: Design)
    requires Names(attached, hiers) && Follows(hiers, d) && hs == Paths(hiers) && attached != []
    ensures Mounting(hs, d)
  {
    assert attached[0] in attached;
    var j :| 0 <= j < |hiers| && hiers[j].path == attached[0] && hiers[j].mount;
    PathIn(hiers, j);
  }

  lemma NoneMounted(v: World, attached: seq<Hier>, hiers: seq<HierarchyState>, hs: set<Hier>, d: Design)
    requires Names(attached, hiers) && Follows(hiers, d) && hs == Paths(hiers) && attached == []
    ensures !Mounting(hs, d) && !Crowded(v, hs, d)
  {
  }

  /** What can be told before the operation: an overlay is left at a staging point of one
      of its hierarchies, or uses the work directory of one. */
  ghost predicate Exposed(v: World, hs: set<Hier>) {
    SharesWork(v, hs) || exists h :: h in hs && (Base, h) in v.staged
  }

  /** The layers of overlays at staging points are spared, unless one is crowded, when
      that matters, or shares a work directory. */
  ghost predicate Spared(v: World, w: World, hs: set<Hier>, d: Design, promoted: bool) {
    StagedSafe(v) && !SharesWork(v, hs) && !(promoted && Crowded(v, hs, d)) ==> StagedSafe(w)
  }

  /** How an operation next to a live merge ends when no call fails of itself and it
      commits: with success exactly when no overlay is crowded, and with all layers of
      staged overlays exactly when also none shares a work directory. One that ends with
      no merge at all drops what is staged. */
  ghost predicate Outcomes(v: World, w: World, hs: set<Hier>, d: Design, ok: bool) {
    && (ok <==> !Crowded(v, hs, d))
    && (StagedSafe(v) ==> (StagedSafe(w) <==> !Crowded(v, hs, d) && !(Mounting(hs, d) && SharesWork(v, hs))))
  }

  lemma ExposedFacts(v: World, paths: seq<Hier>)
    ensures SharesWork(v, PathSet(paths)) ==> Exposed(v, PathSet(paths))
    ensures forall d :: Crowded(v, PathSet(paths), d) ==> Exposed(v, PathSet(paths)) && exists h :: h in paths && (Base, h) in v.staged
  {
  }

  lemma SparedFacts(v: World, w: World, paths: seq<Hier>, d: Design, promoted: bool)
    requires Spared(v, w, PathSet(paths), d, promoted)
    ensures StagedSafe(v) && !Exposed(v, PathSet(paths)) ==> StagedSafe(w)
  {
    ExposedFacts(v, paths);
    hide SharesWork, StagedSafe;
  }

  /** How far an operation got: it has built layers, started to unmerge because nothing
      was found, started to replace merges, or committed. */
  datatype Stage = Built | Unwinding | Replaced | Live

  /** Whatever is mounted in the workspace beyond what was there is in generation gen. */
  ghost predicate OnlyOurs(v: World, w: World, gen: Option<Gen>) {
    && (forall key :: key in w.images ==> key in v.images || (gen.Some? && key.0 == gen.value))
    && (forall key :: key in w.staged ==> key in v.staged || (gen.Some? && key.0 == gen.value))
  }

  ghost predicate Unwound(v: World, w: World, paths: seq<Hier>, kept: bool) {
    && w.spots.Keys == v.spots.Keys
    && (forall h :: h !in paths ==> w.At(h) == v.At(h))
    && (forall h :: h in paths ==> After(v, w, h, kept))
  }

  /** Every hierarchy has the new merge or none, with its mounts. */
  ghost predicate Switched(v: World, w: World, paths: seq<Hier>, content: string) {
    && w.spots.Keys == v.spots.Keys
    && (forall h :: h !in paths ==> w.At(h) == v.At(h))
    && (forall h :: h in paths ==> Back(v.At(h), w.At(h)) && w.At(h).tree == v.At(h).tree && |w.At(h).stack| <= 1)
    && (forall h :: h in paths && w.At(h).stack != [] ==> w.At(h).stack[0].origin == content)
  }

  lemma PathsAre(hiers: seq<HierarchyState>, paths: seq<Hier>)
    requires |hiers| == |paths| && forall j :: 0 <= j < |hiers| ==> hiers[j].path == paths[j]
    ensures Paths(hiers) == PathSet(paths)
  {
    forall h
      ensures h in Paths(hiers) <==> h in PathSet(paths)
    {
      if h in PathSet(paths) {
        var j :| 0 <= j < |paths| && paths[j] == h;
        PathIn(hiers, j);
      }
    }
  }

  lemma LiveFacts(v: World, w: World, content: string, hiers: seq<HierarchyState>, paths: seq<Hier>, attached: seq<Hier>, d: Design)
    requires Names(attached, hiers) && forall i, j :: 0 <= i < j < |paths| ==> paths[i] != paths[j]
    requires |hiers| == |paths| && forall j :: 0 <= j < |hiers| ==> hiers[j].path == paths[j]
    requires Follows(hiers, d) && Committed(v, w, content, hiers) && OthersSame(v, w, Paths(hiers))
    ensures Switched(v, w, paths, content)
    ensures forall h :: h in paths ==> (d.Mounts(h) <==> w.At(h).stack != [])
    ensures forall h :: h in paths ==> (h in attached <==> w.At(h).stack != [])
  {
    PathsAre(hiers, paths);
    forall h | h in paths
      ensures Back(v.At(h), w.At(h)) && w.At(h).tree == v.At(h).tree && |w.At(h).stack| <= 1
      ensures w.At(h).stack != [] ==> w.At(h).stack[0].origin == content
      ensures d.Mounts(h) <==> w.At(h).stack != []
      ensures h in attached <==> w.At(h).stack != []
    {
      var j :| 0 <= j < |paths| && paths[j] == h;
      assert hiers[j].path == h;
      if h in attached {
        var m :| 0 <= m < |hiers| && hiers[m].path == h && hiers[m].mount;
        assert paths[m] == paths[j];
      }
    }
  }

  /** The swap begins with every hierarchy as it was. */
  lemma OpenSwap(v: World, w: World, g: Gen, mark: nat, content: string, hiers: seq<HierarchyState>, paths: seq<Hier>)
    requires Inv(v) && Opened(v, w, g, mark)
    requires |hiers| == |paths|
    requires forall j :: 0 <= j < |hiers| ==>
               && hiers[j].path == paths[j] && Untouched(hiers[j]) && paths[j] in v.spots
               && (hiers[j].merged <==> v.At(paths[j]).stack != [])
               && (hiers[j].host <==> v.At(paths[j]).present)
    requires forall i, j :: 0 <= i < j < |paths| ==> paths[i] != paths[j]
    ensures Swapping(v, w, g, mark, content, hiers)
    ensures Paths(hiers) == PathSet(paths)
    ensures forall j :: 0 <= j < |hiers| ==> Fresh(v, w, g, hiers[j])
    ensures forall key :: key in w.staged ==> key.0 != g
  {
    hide Inv, HierOk, Fresh, Doomed, OverlayOk;
    PathsAre(hiers, paths);
    forall i | 0 <= i < |hiers|
      ensures HierOk(v, w, g, mark, content, hiers[i]) && Fresh(v, w, g, hiers[i])
    {
      OpenHierarchy(v, w, g, mark, content, hiers[i]);
      OpenFresh(v, w, g, mark, hiers[i]);
    }
    assert DistinctPaths(hiers);
  }

  lemma OpenFresh(v: World, w: World, g: Gen, mark: nat, hs: HierarchyState)
    requires Opened(v, w, g, mark) && Untouched(hs)
    requires (hs.merged <==> v.At(hs.path).stack != []) && (hs.host <==> v.At(hs.path).present)
    ensures Fresh(v, w, g, hs)
  {
    hide Inv;
  }

  lemma NothingLeft(v: World, u: World, w: World, gen: Option<Gen>)
    requires OnlyOurs(v, u, gen) && Fewer(u, w) && Dropped(w, gen)
    ensures OnlyOurs(v, w, None) && Fewer(v, w)
  {
    forall key | key in w.images
      ensures key in v.images
    {
      assert key in u.images;
    }
    forall key | key in w.staged
      ensures key in v.staged
    {
      assert key in u.staged;
    }
  }

  lemma OpenHierarchy(v: World, w: World, g: Gen, mark: nat, content: string, hs: HierarchyState)
    requires w.spots == v.spots && w.strays == v.strays && hs.path in v.spots && Untouched(hs)
    requires forall key :: key in w.staged ==> key.0 != g
    ensures HierOk(v, w, g, mark, content, hs)
  {
  }

  /** Unmerging one after the other has come to hierarchy i. v is the world in which it
      began, w0 that in which the operation began. */
  ghost predicate Rolled(w0: World, v: World, w: World, paths: seq<Hier>, i: nat, kept: bool, bare: bool) {
    && i <= |paths| && Inv(w) && w.spots.Keys == w0.spots.Keys && v.spots == w0.spots
    && (forall j :: 0 <= j < i ==> After(w0, w, paths[j], kept) && (bare ==> w.At(paths[j]).stack == []))
    && (forall h :: h !in paths[..i] ==> w0.At(h) == w.At(h))
    && w.images == v.images && w.staged == v.staged && Struck(v, w, paths, i)
  }

  lemma RolledStart(w0: World, v: World, paths: seq<Hier>)
    requires Inv(v) && v.spots == w0.spots
    ensures Rolled(w0, v, v, paths, 0, true, true)
  {
    NothingStruck(v, v, paths);
  }

  lemma RolledFacts(w0: World, v: World, w: World, paths: seq<Hier>, i: nat, kept: bool, bare: bool)
    requires Rolled(w0, v, w, paths, i, kept, bare) && forall a, b :: 0 <= a < b < |paths| ==> paths[a] != paths[b]
    ensures Inv(w) && w.spots.Keys == w0.spots.Keys
    ensures i < |paths| ==> w0.At(paths[i]) == w.At(paths[i])
  {
    assert i < |paths| ==> paths[i] !in paths[..i];
  }

  lemma RolledSkip(w0: World, v: World, w: World, paths: seq<Hier>, i: nat, bare: bool)
    requires i < |paths| && forall a, b :: 0 <= a < b < |paths| ==> paths[a] != paths[b]
    requires Rolled(w0, v, w, paths, i, true, bare) && w0.At(paths[i]).stack == []
    ensures Rolled(w0, v, w, paths, i + 1, true, bare)
  {
    hide Inv, After, Struck;
    assert paths[..i + 1] == paths[..i] + [paths[i]];
    assert paths[i] !in paths[..i];
    Skip(w0, w, paths, i, true);
    StruckSkip(v, w, paths, i);
  }

  lemma RolledOne(w0: World, v: World, u: World, w: World, paths: seq<Hier>, i: nat, n: nat, back: bool, ok: bool)
    requires i < |paths| && (forall a, b :: 0 <= a < b < |paths| ==> paths[a] != paths[b]) && forall h :: h in paths ==> h in u.spots
    requires Rolled(w0, v, u, paths, i, true, true) && Unmerged1(u, w, paths[i], n, back)
    requires ok ==> back && w.At(paths[i]).stack == []
    ensures Rolled(w0, v, w, paths, i + 1, back, ok)
  {
    hide Inv, After, Struck, Unmerged1;
    assert paths[..i + 1] == paths[..i] + [paths[i]];
    assert paths[i] !in paths[..i];
    AfterOne(w0, u, w, paths, i, n, back, true);
    StruckOne(v, u, w, paths, i, n, back);
  }

  lemma RolledTorn(w0: World, v: World, u: World, w: World, paths: seq<Hier>)
    requires Fewer(v, u) && (w == u || w == u.Unmounted()) && forall h :: h in paths ==> After(w0, u, h, true)
    ensures Fewer(v, w) && w.spots == u.spots && (StagedSafe(u) ==> StagedSafe(w)) && forall h :: h in paths ==> After(w0, w, h, true)
  {
    TornSafe(u, w);
    hide After;
    forall h | h in paths
      ensures After(w0, w, h, true)
    {
      AfterSame(w0, u, w, h, true);
    }
  }

  lemma RolledEnd(w0: World, v: World, w: World, paths: seq<Hier>, i: nat, kept: bool, bare: bool)
    requires Rolled(w0, v, w, paths, i, kept, bare) && forall a, b :: 0 <= a < b < |paths| ==> paths[a] != paths[b]
    ensures Inv(w) && w.spots.Keys == w0.spots.Keys && Fewer(v, w)
    ensures forall h :: h in paths ==> After(w0, w, h, kept)
    ensures bare && i == |paths| ==> forall h :: h in paths ==> w.At(h).stack == []
    ensures forall h :: h !in paths ==> w0.At(h) == w.At(h)
    ensures StagedSafe(v) && !SharesWork(v, PathSet(paths)) ==> StagedSafe(w)
  {
    StruckSpares(v, w, paths, i);
    hide Inv, Struck, StagedSafe, SharesWork;
    forall h | h in paths
      ensures After(w0, w, h, kept)
    {
      var j :| 0 <= j < |paths| && paths[j] == h;
    }
    forall h | h !in paths
      ensures w0.At(h) == w.At(h)
    {
      assert h !in paths[..i];
    }
  }

  /** Old and new merges do not exist side by side: nothing new is attached yet, or
      nothing old is left. */
  ghost predicate Unmixed(w: World, hiers: seq<HierarchyState>) {
    || (forall j :: 0 <= j < |hiers| ==> !hiers[j].attached)
    || Standing(w, hiers)
  }

  /** All hierarchies of the plan are merged with the new origin, all others are not,
      and the mounts below them are the same as before. */
  ghost predicate Committed(w0: World, w: World, content: string, hiers: seq<HierarchyState>) {
    forall j :: 0 <= j < |hiers| ==>
      var s := w.At(hiers[j].path);
      && Back(w0.At(hiers[j].path), s) && s.tree == w0.At(hiers[j].path).tree
      && (if hiers[j].mount then |s.stack| == 1 && s.stack[0].origin == content else s.stack == [])
  }

  lemma SamePaths(a: seq<HierarchyState>, b: seq<HierarchyState>)
    requires |a| == |b| && forall j :: 0 <= j < |a| ==> a[j].path == b[j].path
    ensures Paths(a) == Paths(b)
  {
    forall h
      ensures h in Paths(a) <==> h in Paths(b)
    {
      if h in Paths(a) {
        var j :| 0 <= j < |a| && a[j].path == h;
        PathIn(b, j);
      }
      if h in Paths(b) {
        var j :| 0 <= j < |b| && b[j].path == h;
        PathIn(a, j);
      }
    }
  }

  lemma CommitFacts(w0: World, w: World, g: Gen, mark: nat, content: string, hiers: seq<HierarchyState>)
    requires Swapping(w0, w, g, mark, content, hiers)
    requires forall j :: 0 <= j < |hiers| ==> Finished(w0, w, hiers[j])
    ensures Promotable(w, g, mark, hiers) && Committed(w0, w, content, hiers) && OthersSame(w0, w, Paths(hiers))
  {
    hide Inv, Doomed, Distinct, NewLayers, DiedAt;
    forall j | 0 <= j < |hiers|
      ensures var s := w.At(hiers[j].path);
              && Back(w0.At(hiers[j].path), s) && s.tree == w0.At(hiers[j].path).tree
              && (if hiers[j].mount then |s.stack| == 1 && s.stack[0].origin == content else s.stack == [])
              && (hiers[j].attached <==> s.stack != []) && (g, hiers[j].path) !in w.staged
    {
      assert HierOk(w0, w, g, mark, content, hiers[j]);
      SpotFacts(w, hiers[j].path);
    }
    forall k | k in w.staged
      ensures k.0 != g
    {
      assert k.0 == g ==> k == (g, k.1) && k.1 in Paths(hiers);
    }
    hide Pending;
  }

  /** What is committed has all mounts in their places. */
  lemma CommitSuits(w0: World, w: World, g: Gen, mark: nat, content: string, hiers: seq<HierarchyState>)
    requires Swapping(w0, w, g, mark, content, hiers)
    requires forall j :: 0 <= j < |hiers| ==> Finished(w0, w, hiers[j])
    ensures AllSuit(w0, hiers)
  {
    forall j | 0 <= j < |hiers|
      ensures Suits(w0, hiers[j])
    {
      assert HierOk(w0, w, g, mark, content, hiers[j]);
      SpotFacts(w, hiers[j].path);
      FinishedSuits(w0, w, g, mark, content, hiers[j]);
    }
    hide *;
  }

  lemma FinishedSuits(w0: World, w: World, g: Gen, mark: nat, content: string, hs: HierarchyState)
    requires HierOk(w0, w, g, mark, content, hs) && Finished(w0, w, hs) && SpotOk(w.At(hs.path), hs.path, w.unused, w.dead)
    ensures Suits(w0, hs)
  {
    hide Distinct, Pending, NewLayers, SameMerge, LayerOk, Doomed;
  }

  /** After the swap the overlays at staging points are those of before, and those that
      lost a layer share the work directory of an old merge. */
  lemma CommitStaged(w0: World, w: World, g: Gen, mark: nat, content: string, hiers: seq<HierarchyState>, d: Design)
    requires Swapping(w0, w, g, mark, content, hiers) && Promotable(w, g, mark, hiers)
    requires forall j :: 0 <= j < |hiers| ==> Finished(w0, w, hiers[j]) && (hiers[j].merged <==> w0.At(hiers[j].path).stack != [])
    ensures Spared(w0, w, Paths(hiers), d, false) && w.staged.Keys <= w0.staged.Keys
    ensures g != Base ==> w.staged == w0.staged && (StagedSafe(w0) ==> (StagedSafe(w) <==> !SharesWork(w0, Paths(hiers))))
    ensures forall j :: 0 <= j < |hiers| ==> (hiers[j].unmerged <==> w0.At(hiers[j].path).stack != []) && hiers[j].attached == hiers[j].mount
  {
    hide Inv, Distinct, NewLayers, Pending, DiedAt, Doomed, Conserved, DirMarks, OthersSame;
    SwapSpared(w0, w, g, mark, content, hiers, d);
    forall j | 0 <= j < |hiers|
      ensures (hiers[j].unmerged <==> w0.At(hiers[j].path).stack != []) && hiers[j].attached == hiers[j].mount
    {
      assert HierOk(w0, w, g, mark, content, hiers[j]);
    }
    if g != Base {
      assert w.staged == w0.staged;
      if StagedSafe(w0) && SharesWork(w0, Paths(hiers)) {
        var k, h :| k in w0.staged && h in Paths(hiers) && !(Doomed(w0, h) !! w0.staged[k].layers);
        var j :| 0 <= j < |hiers| && hiers[j].path == h;
        assert Doomed(w0, h) <= w.dead by {
          DoomedMerged(w0, h);
        }
        assert k in w.staged;
      }
    }
  }

  lemma DoomedMerged(w: World, h: Hier)
    ensures w.At(h).stack == [] ==> Doomed(w, h) == {}
  {
  }

  /** During the swap the layers of staged overlays are spared unless one shares a work
      directory. */
  lemma SwapSpared(w0: World, w: World, g: Gen, mark: nat, content: string, hiers: seq<HierarchyState>, d: Design)
    requires Swapping(w0, w, g, mark, content, hiers)
    ensures forall promoted :: Spared(w0, w, Paths(hiers), d, promoted)
    ensures StagedSafe(w0) && !SharesWork(w0, Paths(hiers)) ==> StagedSafe(w)
  {
    if StagedSafe(w0) && !SharesWork(w0, Paths(hiers)) {
      forall k | k in w.staged
        ensures (k in w0.staged && w.staged[k].layers == w0.staged[k].layers) || w.staged[k].layers !! w.dead
      {
        if k.0 == g {
          assert OverlayOk(w.staged[k], k.1, w.unused, w.dead);
        }
      }
      StagedSpared(w0, w, Paths(hiers));
    }
  }

  lemma FreshMerged(w0: World, w: World, g: Gen, hiers: seq<HierarchyState>)
    requires forall j :: 0 <= j < |hiers| ==> Fresh(w0, w, g, hiers[j])
    ensures forall j :: 0 <= j < |hiers| ==> (hiers[j].merged <==> w0.At(hiers[j].path).stack != [])
  {
  }

  lemma PlanMerged(w0: World, a: seq<HierarchyState>, b: seq<HierarchyState>)
    requires |a| == |b| && forall j :: 0 <= j < |a| ==> SamePlan(a[j], b[j])
    requires forall j :: 0 <= j < |a| ==> (a[j].merged <==> w0.At(a[j].path).stack != [])
    ensures forall j :: 0 <= j < |b| ==> (b[j].merged <==> w0.At(b[j].path).stack != [])
  {
  }

  lemma SameSwitched(u: World, a: seq<HierarchyState>, b: seq<HierarchyState>)
    requires |a| == |b| && forall j :: 0 <= j < |a| ==> b[j] == a[j].(subs := b[j].subs)
    ensures Clear(u, a) <==> Clear(u, b)
    ensures Paths(a) == Paths(b)
  {
    SamePaths(a, b);
  }

  lemma TornSafe(u: World, w: World)
    requires w == u || w == u.Unmounted()
    ensures StagedSafe(u) ==> StagedSafe(w)
  {
  }

  lemma TornSpared(v: World, u: World, w: World, hs: set<Hier>, d: Design)
    requires Spared(v, u, hs, d, false) && (w == u || w == u.Unmounted()) && !Mounting(hs, d)
    ensures forall promoted :: Spared(v, w, hs, d, promoted)
    ensures w == u.Unmounted() ==> Outcomes(v, w, hs, d, true)
    ensures w.staged.Keys <= u.staged.Keys
  {
    TornSafe(u, w);
    assert w == u.Unmounted() ==> StagedSafe(w);
    hide StagedSafe, SharesWork;
  }

  /** What promoting means for the overlays at staging points. */
  lemma PromoteSpared(v: World, u: World, w: World, g: Gen, hiers: seq<HierarchyState>, d: Design, ok: bool, faultless: bool)
    requires Spared(v, u, Paths(hiers), d, false) && w.spots == u.spots && Follows(hiers, d) && Mounting(Paths(hiers), d)
    requires g != Base ==> u.staged == v.staged && (StagedSafe(v) ==> (StagedSafe(u) <==> !SharesWork(v, Paths(hiers))))
    requires forall j :: 0 <= j < |hiers| ==> (hiers[j].unmerged <==> v.At(hiers[j].path).stack != []) && hiers[j].attached == hiers[j].mount
    requires g == Base ==> w == u
    requires StagedSafe(u) && Clear(u, hiers) ==> StagedSafe(w)
    requires !StagedSafe(u) ==> !StagedSafe(w)
    requires g != Base && !Clear(u, hiers) && faultless ==> !StagedSafe(w)
    requires (ok && g != Base ==> Clear(u, hiers)) && (faultless && g != Base && !ok ==> !Clear(u, hiers))
    ensures Spared(v, w, Paths(hiers), d, g != Base)
    ensures g != Base ==> (Clear(u, hiers) <==> !Crowded(v, Paths(hiers), d))
    ensures g != Base && faultless ==> Outcomes(v, w, Paths(hiers), d, ok)
  {
    hide StagedSafe, SharesWork, Mounting;
    if g != Base {
      forall h | h in Paths(hiers) && (Base, h) in v.staged && (v.At(h).stack != [] || d.Mounts(h))
        ensures !Clear(u, hiers)
      {
        var j :| 0 <= j < |hiers| && hiers[j].path == h;
      }
      if !Clear(u, hiers) {
        var m :| 0 <= m < |hiers| && (hiers[m].attached || hiers[m].unmerged) && (Base, hiers[m].path) in u.staged;
        PathIn(hiers, m);
        assert Crowded(v, Paths(hiers), d);
      }
    }
  }

  lemma CommittedPlan(w0: World, w: World, content: string, a: seq<HierarchyState>, b: seq<HierarchyState>)
    requires |a| == |b| && forall j :: 0 <= j < |a| ==> a[j].path == b[j].path && a[j].mount == b[j].mount
    requires Committed(w0, w, content, b)
    ensures Committed(w0, w, content, a)
  {
  }

  /** The hierarchies the plan gives an overlay, by path. */
  ghost predicate Names(attached: seq<Hier>, hiers: seq<HierarchyState>) {
    && (forall h :: h in attached ==> exists j :: 0 <= j < |hiers| && hiers[j].path == h && hiers[j].mount)
    && (forall j :: 0 <= j < |hiers| && hiers[j].mount ==> hiers[j].path in attached)
  }

  lemma NamesSame(attached: seq<Hier>, a: seq<HierarchyState>, b: seq<HierarchyState>)
    requires Names(attached, a) && |a| == |b| && forall j :: 0 <= j < |a| ==> a[j].path == b[j].path && a[j].mount == b[j].mount
    ensures Names(attached, b)
  {
    forall h | h in attached
      ensures exists j :: 0 <= j < |b| && b[j].path == h && b[j].mount
    {
      var j :| 0 <= j < |a| && a[j].path == h && a[j].mount;
      assert b[j].path == h;
    }
  }

  lemma CommittedSpots(w0: World, u: World, w: World, content: string, hiers: seq<HierarchyState>)
    requires Committed(w0, u, content, hiers) && w.spots == u.spots
    ensures Committed(w0, w, content, hiers)
  {
  }

  lemma SwapInv(w0: World, w: World, g: Gen, mark: nat, content: string, hiers: seq<HierarchyState>)
    requires Swapping(w0, w, g, mark, content, hiers)
    ensures Inv(w) && Inv(w0)
  {
  }

  lemma SamePromotable(w: World, g: Gen, mark: nat, a: seq<HierarchyState>)
    requires Promotable(w, g, mark, a)
    ensures forall b: seq<HierarchyState> ::
              |a| == |b| && (forall j :: 0 <= j < |a| ==> b[j] == a[j].(subs := b[j].subs)) ==> Promotable(w, g, mark, b)
  {
    forall b: seq<HierarchyState> | |a| == |b| && forall j :: 0 <= j < |a| ==> b[j] == a[j].(subs := b[j].subs)
      ensures Promotable(w, g, mark, b)
    {
      SamePaths(a, b);
    }
  }

  lemma AliveSpot(w: World, h: Hier)
    requires Inv(w)
    ensures w.At(h).stack != [] ==> w.At(h).present && w.At(h).stack[|w.At(h).stack| - 1].layers !! w.dead
  {
    SpotFacts(w, h);
  }

  /** The workspace is gone, or new and empty. */
  lemma NearReset(v: World)
    requires Inv(v)
    ensures Near(v, v) && Near(v, v.Unmounted()) && Near(v, v.Unmounted().(mounted := true))
    ensures Inv(v.Unmounted()) && Inv(v.Unmounted().(mounted := true))
    ensures !v.mounted ==> v.staged == map[]
  {
    UnmountedKeeps(v);
    InvMounted(v.Unmounted());
  }

  lemma ResetOpened(v: World, w: World)
    requires Inv(v) && w == v.Unmounted().(mounted := true)
    ensures Opened(v, w, Base, w.unused) && w.images == {}
  {
    NearReset(v);
    hide Inv, Near;
  }

  lemma NextOpened(v: World, u: World, n: nat)
    requires Inv(v) && u.mounted && (u == v || (!v.mounted && u == v.Unmounted().(mounted := true))) && n !in u.gens
    ensures var w := u.(gens := u.gens + {n});
            Opened(v, w, Next(n), w.unused) && forall key :: key in w.images ==> key.0 != Next(n)
  {
    hide Near, Inv;
    NearReset(v);
    InvNext(u, n);
  }

  lemma InvNext(u: World, n: nat)
    requires Inv(u) && u.mounted && n !in u.gens
    ensures var w := u.(gens := u.gens + {n});
            && Inv(w)
            && (forall d :: d in w.dirs ==> d.gen != Next(n) && w.dirs[d].serial < w.unused)
            && (forall k :: k in w.staged ==> k.0 != Next(n))
            && (forall k :: k in w.images ==> k.0 != Next(n))
  {
    InvGen(u, n);
    hide StagedOk, SpotsOk;
  }

  /** The workspace is ready, and nothing but images is in generation g. */
  ghost predicate Opened(v: World, w: World, g: Gen, mark: nat) {
    && Inv(w) && w.spots == v.spots && Ready(w, g) && v.unused <= mark <= w.unused
    && (forall d :: d in w.dirs ==> w.dirs[d].serial < mark && d.gen != g)
    && (forall key :: key in w.staged ==> key.0 != g) && StagedRest(v, w, g)
    && (forall key :: key in w.images ==> key.0 == g || key in v.images)
    && w.dead == v.dead && w.strays == v.strays
    && forall s: Store :: s.Work? ==> (s in v.stores <==> s in w.stores) && (s in v.stores && s in w.stores ==> v.stores[s] == w.stores[s])
  }

  lemma OpenedMounted(v: World, w: World, g: Gen, mark: nat)
    requires Opened(v, w, g, mark)
    ensures Ready(w, g)
  {
  }

  lemma ImagesKeep(v: World, w: World, g: Gen, mark: nat, name: string)
    requires Opened(v, w, g, mark)
    ensures Opened(v, w.(images := w.images + {(g, name)}), g, mark) && Opened(v, w.(images := w.images - {(g, name)}), g, mark)
  {
    hide Inv;
    InvImages(w, w.images + {(g, name)});
    InvImages(w, w.images - {(g, name)});
  }

  lemma StoreKeeps(v: World, w: World, g: Gen, mark: nat, s: Store)
    requires Opened(v, w, g, mark) && s.Upper?
    ensures Opened(v, w.WithStore(s), g, mark)
  {
    hide Inv;
    WithStoreKeeps(w, s);
  }

  lemma NearShares(v: World, w: World, hs: set<Hier>)
    requires Near(v, w)
    ensures SharesWork(w, hs) ==> SharesWork(v, hs)
  {
    if SharesWork(w, hs) {
      var k, h :| k in w.staged && h in hs && !(Doomed(w, h) !! w.staged[k].layers);
      assert k in v.staged && Doomed(v, h) == Doomed(w, h);
    }
  }

  lemma StruckSpares(v: World, w: World, paths: seq<Hier>, i: nat)
    requires Struck(v, w, paths, i) && w.staged == v.staged
    ensures StagedSafe(v) && !SharesWork(v, PathSet(paths)) ==> StagedSafe(w)
  {
    if StagedSafe(v) && !SharesWork(v, PathSet(paths)) {
      StagedSpared(v, w, PathSet(paths));
    }
  }

  /** The new overlays are up and the old ones gone. */
  ghost predicate Promotable(w: World, g: Gen, mark: nat, hiers: seq<HierarchyState>) {
    && Inv(w) && Ready(w, g) && DistinctPaths(hiers) && DirMarks(w, g, mark, Paths(hiers))
    && (forall k :: k in w.staged ==> k.0 != g)
    && forall i :: 0 <= i < |hiers| ==>
         if hiers[i].attached then w.At(hiers[i].path).stack != [] && NewLayers(w.At(hiers[i].path).stack[0], mark)
         else w.At(hiers[i].path).stack == []
  }

  lemma PromotableFacts(w: World, g: Gen, mark: nat, hiers: seq<HierarchyState>)
    requires Promotable(w, g, mark, hiers)
    ensures Inv(w) && StagedOk(w) && DirsOk(w) && w.mounted
  {
  }

  lemma ImagesDontMatter(w: World, g: Gen, mark: nat, hiers: seq<HierarchyState>)
    requires Promotable(w, g, mark, hiers)
    ensures forall images :: images <= w.images ==> Promotable(w.(images := images), g, mark, hiers)
  {
    forall images | images <= w.images
      ensures Promotable(w.(images := images), g, mark, hiers)
    {
      StagedShape(w, w.(images := images));
    }
  }

  lemma ImageMoved(w: World, g: Gen, mark: nat, hiers: seq<HierarchyState>, name: string)
    requires Promotable(w, g, mark, hiers)
    ensures w.mounted ==> Promotable(w.(images := w.images - {(g, name)} + {(Base, name)}), g, mark, hiers)
  {
    StagedShape(w, w.(images := w.images - {(g, name)} + {(Base, name)}));
  }

  /** Nothing is staged in the place of the layers of a hierarchy that was switched. */
  ghost predicate Clear(w: World, hiers: seq<HierarchyState>) {
    forall m :: 0 <= m < |hiers| && (hiers[m].attached || hiers[m].unmerged) ==> (Base, hiers[m].path) !in w.staged
  }

  lemma SameClear(v: World, w: World, hiers: seq<HierarchyState>)
    requires w.staged == v.staged
    ensures Clear(v, hiers) <==> Clear(w, hiers)
  {
  }

  lemma SameSafe(v: World, w: World, hiers: seq<HierarchyState>)
    requires w.staged == v.staged && w.dead == v.dead
    ensures StagedSafe(v) <==> StagedSafe(w)
    ensures Clear(v, hiers) <==> Clear(w, hiers)
  {
  }

  /** The names that the new layers of the hierarchies before i will get are free. */
  ghost predicate Vacant(w: World, hiers: seq<HierarchyState>, i: nat) {
    forall m, kind :: 0 <= m < i && m < |hiers| && hiers[m].attached ==> Dir(Base, kind, hiers[m].path) !in w.dirs
  }

  /** What removing one layer in the workspace itself does to the overlays at staging
      points. */
  lemma LayerRemoved(w: World, kind: Kind, h: Hier, gone: set<Dir>, hit: set<Dir>, ok: bool)
    requires Inv(w) && gone <= {Dir(Base, kind, h)} && hit <= {Dir(Base, kind, h)} && (ok ==> gone == {Dir(Base, kind, h)})
    ensures var v := w.Removed(gone, hit);
            && (!StagedSafe(w) ==> !StagedSafe(v))
            && ((Base, h) !in w.staged ==> (StagedSafe(w) <==> StagedSafe(v)))
            && (kind == Meta && ok && (Base, h) in w.staged ==> !StagedSafe(v))
  {
    hide SpotsOk;
    if !StagedSafe(w) {
      RemovalLasts(w, gone, hit);
    } else if (Base, h) !in w.staged {
      RemovalSpares(w, gone, hit);
    } else if kind == Meta && ok {
      RemovalHits(w, Base, h, gone, hit);
    }
  }

  /** A generation in which nothing is staged can go: no overlay at another staging point
      has a layer in it. */
  lemma UnstagedRemoved(v: World, w: World, g: Gen, gone: set<Dir>, hit: set<Dir>)
    requires Inv(v) && gone <= DirsOf(v, g) && hit <= DirsOf(v, g) && forall k :: k in v.staged ==> k.0 != g
    requires w.staged == v.staged && w.dead == v.Removed(gone, hit).dead
    ensures StagedSafe(v) <==> StagedSafe(w)
  {
    hide SpotsOk;
    if StagedSafe(v) {
      RemovalSpares(v, gone, hit);
    } else {
      RemovalLasts(v, gone, hit);
    }
  }

  /** The old layers of a hierarchy this operation replaced: its new overlay has
      layers made later, other overlays have layers of their own. */
  lemma ReplacedUnneeded(w: World, g: Gen, mark: nat, hiers: seq<HierarchyState>, i: nat, kind: Kind)
    requires Promotable(w, g, mark, hiers) && g != Base && i < |hiers|
    ensures Unneeded(w, {Dir(Base, kind, hiers[i].path)})
  {
    hide StagedOk;
    var d := Dir(Base, kind, hiers[i].path);
    forall h | h in w.spots && w.spots[h].stack != [] && d in w.dirs
      ensures w.dirs[d] !in w.spots[h].stack[0].layers
    {
      assert SpotOk(w.spots[h], h, w.unused, w.dead);
      assert w.At(hiers[i].path).stack != [] ==> hiers[i].attached;
      assert w.dirs[d].owner == hiers[i].path && w.dirs[d].serial < mark;
      assert OverlayOk(w.spots[h].stack[0], h, w.unused, w.dead);
    }
  }

  lemma PartUnneeded(w: World, ds: set<Dir>, gone: set<Dir>, hit: set<Dir>)
    requires Unneeded(w, ds) && gone <= ds && hit <= ds
    ensures Unneeded(w, gone + hit)
  {
  }

  lemma StillPromotable(w: World, g: Gen, mark: nat, hiers: seq<HierarchyState>, gone: set<Dir>, hit: set<Dir>)
    requires Promotable(w, g, mark, hiers) && Unneeded(w, gone + hit)
    ensures Promotable(w.Removed(gone, hit), g, mark, hiers)
  {
    RemovedKeeps(w, gone, hit);
    hide Inv, NewLayers;
  }

  /** The directories are being renamed: those of the hierarchies before i and of
      the first j kinds of hierarchy i are out of the generation. */
  ghost predicate Replacing(w: World, g: Gen, mark: nat, hiers: seq<HierarchyState>, i: nat, j: nat) {
    && Inv(w) && g != Base && DistinctPaths(hiers)
    && (forall k :: k in w.staged ==> k.0 != g)
    && (forall d :: d in w.dirs && d.gen == g ==> d.h in Paths(hiers))
    && (forall m :: 0 <= m < |hiers| && !hiers[m].attached ==> w.At(hiers[m].path).stack == [])
    && (forall m, kind :: 0 <= m < |hiers| && m < i && hiers[m].attached ==> Dir(g, kind, hiers[m].path) !in w.dirs)
    && (i < |hiers| ==>
          && (j > 0 ==> Dir(g, Meta, hiers[i].path) !in w.dirs)
          && (j > 1 ==> Dir(g, Staging, hiers[i].path) !in w.dirs)
          && (j > 2 ==> Dir(g, Scratch, hiers[i].path) !in w.dirs))
  }

  lemma ReplacingUnstaged(w: World, g: Gen, mark: nat, hiers: seq<HierarchyState>)
    requires Replacing(w, g, mark, hiers, |hiers|, 0)
    ensures Inv(w) && forall k :: k in w.staged ==> k.0 != g
  {
  }

  lemma ReplacingFacts(w: World, g: Gen, mark: nat, hiers: seq<HierarchyState>, i: nat, j: nat)
    requires Replacing(w, g, mark, hiers, i, j)
    ensures Inv(w) && forall k :: k in w.staged ==> k.0 != g
  {
  }

  /** The directories of generation g are the same. */
  ghost predicate SameDirsOf(v: World, w: World, g: Gen) {
    forall d :: d in v.dirs && d.gen == g ==> d in w.dirs && w.dirs[d] == v.dirs[d]
  }

  function Index(kind: Kind): nat {
    match kind
    case Meta => 0
    case Staging => 1
    case Scratch => 2
  }

  /** The layers v has in generation g for hierarchies with an overlay: those before i,
      and of i the first j, are now in the workspace itself, the others still in g. */
  ghost predicate Carried(v: World, w: World, g: Gen, hiers: seq<HierarchyState>, i: nat, j: nat) {
    && g != Base && DistinctPaths(hiers)
    && forall m: nat, kind: Kind :: m < |hiers| ==> LayerAt(v, w, g, hiers, i, j, m, kind)
  }

  ghost predicate LayerAt(v: World, w: World, g: Gen, hiers: seq<HierarchyState>, i: nat, j: nat, m: nat, kind: Kind)
    requires m < |hiers|
  {
    var moved := m < i || (m == i && Index(kind) < j);
    hiers[m].attached ==>
      FoundIn(v, w, g, if moved then Base else g, kind, hiers[m].path) && (!moved ==> Dir(Base, kind, hiers[m].path) !in w.dirs)
  }

  /** What v has in generation g for h is in generation now. */
  ghost predicate FoundIn(v: World, w: World, g: Gen, now: Gen, kind: Kind, h: Hier) {
    var src, dst := Dir(g, kind, h), Dir(now, kind, h);
    src in v.dirs ==> dst in w.dirs && w.dirs[dst] == v.dirs[src]
  }

  lemma CarriedStep(v: World, w: World, g: Gen, hiers: seq<HierarchyState>, i: nat, j: nat)
    requires Carried(v, w, g, hiers, i, j) && i < |hiers| && hiers[i].attached && j < 3
    ensures Dir(Base, [Meta, Staging, Scratch][j], hiers[i].path) !in w.dirs
    ensures var kind := [Meta, Staging, Scratch][j];
            var src, dst := Dir(g, kind, hiers[i].path), Dir(Base, kind, hiers[i].path);
            Carried(v, if src in w.dirs then w.Renamed(src, dst) else w, g, hiers, i, j + 1)
  {
    var k := [Meta, Staging, Scratch][j];
    var src, dst := Dir(g, k, hiers[i].path), Dir(Base, k, hiers[i].path);
    var u := if src in w.dirs then w.Renamed(src, dst) else w;
    var next := j + 1;
    assert LayerAt(v, w, g, hiers, i, j, i, k);
    forall m: nat, kind: Kind | m < |hiers|
      ensures LayerAt(v, u, g, hiers, i, next, m, kind)
    {
      assert LayerAt(v, w, g, hiers, i, j, m, kind);
      if m < i {
        assert hiers[m].path != hiers[i].path;
      } else if i < m {
        assert hiers[i].path != hiers[m].path;
      }
    }
  }

  lemma CarriedNext(v: World, w: World, g: Gen, hiers: seq<HierarchyState>, i: nat)
    requires i < |hiers| && Carried(v, w, g, hiers, i, if hiers[i].attached then 3 else 0)
    ensures Carried(v, w, g, hiers, i + 1, 0)
  {
    var j := if hiers[i].attached then 3 else 0;
    var next := i + 1;
    forall m: nat, kind: Kind | m < |hiers|
      ensures LayerAt(v, w, g, hiers, next, 0, m, kind)
    {
      assert LayerAt(v, w, g, hiers, i, j, m, kind);
    }
  }

  /** The generation is gone; its images and the layers v has for hierarchies with an
      overlay are in the workspace itself. */
  ghost predicate Promoted(v: World, w: World, g: Gen, hiers: seq<HierarchyState>, images: seq<string>) {
    && Cleared(w, g, images)
    && forall m: nat, kind: Kind :: m < |hiers| && hiers[m].attached ==> FoundIn(v, w, g, Base, kind, hiers[m].path)
  }

  /** Nothing is left in generation g, and the images are mounted in the workspace. */
  ghost predicate Cleared(w: World, g: Gen, images: seq<string>) {
    && (forall d :: d in w.dirs ==> d.gen != g)
    && (forall key :: key in w.images ==> key.0 != g)
    && (forall key :: key in w.staged ==> key.0 != g)
    && (g.Next? ==> g.n !in w.gens)
    && (forall name :: name in images ==> (Base, name) in w.images)
  }

  lemma PromotedCleared(v: World, w: World, g: Gen, hiers: seq<HierarchyState>, images: seq<string>)
    requires Promoted(v, w, g, hiers, images)
    ensures Cleared(w, g, images) && forall name :: name in images ==> (Base, name) in w.images
  {
  }

  /** A merge that ends without error leaves nothing half-promoted: the workspace is
      gone, or has all images, and everything else, in place. */
  ghost predicate Settled(w: World, g: Gen, images: seq<string>) {
    !w.mounted || ((forall name :: name in images ==> (Base, name) in w.images) && (g == Base || Cleared(w, g, images)))
  }

  lemma PromotedFacts(v: World, u: World, w: World, g: Gen, hiers: seq<HierarchyState>, images: seq<string>, gone: set<Dir>, hit: set<Dir>)
    requires Carried(v, u, g, hiers, |hiers|, 0) && g.Next? && gone == DirsOf(u, g)
    requires forall name :: name in images ==> (Base, name) in u.images
    requires w == u.Removed(gone, hit).(gens := u.gens - {g.n})
    requires (forall key :: key in u.staged ==> key.0 != g) && (forall key :: key in u.images ==> key.0 != g)
    ensures Promoted(v, w, g, hiers, images)
  {
    forall m: nat, kind: Kind | m < |hiers| && hiers[m].attached
      ensures FoundIn(v, w, g, Base, kind, hiers[m].path)
    {
      assert LayerAt(v, u, g, hiers, |hiers|, 0, m, kind);
    }
  }

  lemma RenameStart(v: World, w: World, g: Gen, mark: nat, hiers: seq<HierarchyState>)
    requires Promotable(w, g, mark, hiers) && g != Base && SameDirsOf(v, w, g) && Vacant(w, hiers, |hiers|)
    ensures Replacing(w, g, mark, hiers, 0, 0) && Carried(v, w, g, hiers, 0, 0)
  {
  }

  lemma RenameStep(w: World, g: Gen, mark: nat, hiers: seq<HierarchyState>, i: nat, j: nat)
    requires Replacing(w, g, mark, hiers, i, j) && i < |hiers| && j < 3
    requires Dir(Base, [Meta, Staging, Scratch][j], hiers[i].path) !in w.dirs
    ensures var kind := [Meta, Staging, Scratch][j];
            var src, dst := Dir(g, kind, hiers[i].path), Dir(Base, kind, hiers[i].path);
            Replacing(if src in w.dirs then w.Renamed(src, dst) else w, g, mark, hiers, i, j + 1)
  {
    var kind := [Meta, Staging, Scratch][j];
    var src, dst := Dir(g, kind, hiers[i].path), Dir(Base, kind, hiers[i].path);
    if src in w.dirs {
      RenamedKeeps(w, src, dst);
    }
    hide Inv;
  }

  lemma RenameNext(w: World, g: Gen, mark: nat, hiers: seq<HierarchyState>, i: nat, renamed: bool)
    requires i < |hiers| && renamed == hiers[i].attached
    requires Replacing(w, g, mark, hiers, i, if renamed then 3 else 0)
    ensures Replacing(w, g, mark, hiers, i + 1, 0)
  {
    hide Inv;
    forall m, kind | 0 <= m < i + 1 && hiers[m].attached
      ensures Dir(g, kind, hiers[m].path) !in w.dirs
    {
      if m == i {
        assert kind == Meta || kind == Staging || kind == Scratch;
      }
    }
  }

  /** What is left of the generation belongs to hierarchies without an overlay. */
  lemma LeftoverUnneeded(w: World, g: Gen, mark: nat, hiers: seq<HierarchyState>)
    requires Replacing(w, g, mark, hiers, |hiers|, 0)
    ensures Unneeded(w, DirsOf(w, g))
  {
    forall h, d | h in w.spots && w.spots[h].stack != [] && d in DirsOf(w, g)
      ensures w.dirs[d] !in w.spots[h].stack[0].layers
    {
      var m :| 0 <= m < |hiers| && hiers[m].path == d.h;
      assert d == Dir(g, d.kind, hiers[m].path);
      assert !hiers[m].attached;
      assert w.At(d.h).stack == [];
      assert SpotOk(w.spots[h], h, w.unused, w.dead);
      assert OverlayOk(w.spots[h].stack[0], h, w.unused, w.dead);
    }
  }

  /** The rollback in progress, hierarchies from n on done. v is the world in which
      it began. */
  ghost predicate RestoreInv(w0: World, v: World, w: World, g: Gen, mark: nat, content: string, hiers: seq<HierarchyState>, n: nat, clean: bool) {
    && Inv(w0) && Inv(w) && OthersSame(w0, w, Paths(hiers)) && DistinctPaths(hiers) && n <= |hiers|
    && StagedFewer(v, w) && w.dead == v.dead
    && (forall j :: 0 <= j < n ==> HierOk(w0, w, g, mark, content, hiers[j]) && w.At(hiers[j].path) == v.At(hiers[j].path))
    && (forall j :: n <= j < |hiers| ==>
          && (clean ==> Restored(w0, w, g, hiers[j].path, hiers[j].unmerged))
          && (w.At(hiers[j].path).stack == [] || SameMerge(v.At(hiers[j].path).stack, w.At(hiers[j].path).stack)))
  }

  lemma RestoreStart(w0: World, v: World, g: Gen, mark: nat, content: string, hiers: seq<HierarchyState>)
    requires Swapping(w0, v, g, mark, content, hiers)
    ensures RestoreInv(w0, v, v, g, mark, content, hiers, |hiers|, true)
  {
  }

  lemma RestoreFacts(w0: World, v: World, w: World, g: Gen, mark: nat, content: string, hiers: seq<HierarchyState>, n: nat, clean: bool)
    requires RestoreInv(w0, v, w, g, mark, content, hiers, n, clean)
    ensures Inv(w) && Inv(w0)
    ensures n > 0 ==> HierOk(w0, w, g, mark, content, hiers[n - 1]) && hiers[n - 1].path in w.spots
  {
  }

  lemma HierSame(w0: World, u: World, w: World, g: Gen, mark: nat, content: string, hs: HierarchyState)
    requires SameAt(u, w, g, hs.path) && u.spots.Keys == w.spots.Keys && u.strays <= w.strays
    ensures HierOk(w0, u, g, mark, content, hs) ==> HierOk(w0, w, g, mark, content, hs)
    ensures forall unmerged :: Restored(w0, u, g, hs.path, unmerged) ==> Restored(w0, w, g, hs.path, unmerged)
  {
    if HierOk(w0, u, g, mark, content, hs) {
      HierStill(w0, u, w, g, mark, content, hs);
    }
    hide HierOk;
  }

  lemma RestoreSafe(w0: World, v: World, w: World, g: Gen, mark: nat, content: string, hiers: seq<HierarchyState>, clean: bool)
    requires RestoreInv(w0, v, w, g, mark, content, hiers, 0, clean)
    ensures StagedSafe(v) ==> StagedSafe(w)
  {
    if StagedSafe(v) {
      FewerSafe(v, w);
    }
  }

  /** What a clean rollback brought back fits. */
  lemma RestoredFit(w0: World, v: World, w: World, g: Gen, mark: nat, content: string, hiers: seq<HierarchyState>, clean: bool)
    requires RestoreInv(w0, v, w, g, mark, content, hiers, 0, clean)
    ensures clean ==> Returnable(w0, hiers)
  {
    hide Inv;
    forall j | clean && 0 <= j < |hiers| && hiers[j].unmerged
      ensures FitsBare(w0, hiers[j].path)
    {
      BackFits(w0, w, hiers[j].path);
    }
  }

  lemma RestoreStep(w0: World, v: World, u: World, w: World, g: Gen, mark: nat, content: string, hiers: seq<HierarchyState>, n: nat, clean: bool, one: bool)
    requires RestoreInv(w0, v, u, g, mark, content, hiers, n + 1, clean)
    requires Touched(u, w, hiers[n].path) && (one ==> Restored(w0, w, g, hiers[n].path, hiers[n].unmerged))
    ensures RestoreInv(w0, v, w, g, mark, content, hiers, n, clean && one)
  {
    hide Inv, HierOk, Restored;
    PathIn(hiers, n);
    forall j | 0 <= j < |hiers| && j != n
      ensures w.At(hiers[j].path) == u.At(hiers[j].path)
      ensures HierOk(w0, u, g, mark, content, hiers[j]) ==> HierOk(w0, w, g, mark, content, hiers[j])
      ensures forall unmerged :: Restored(w0, u, g, hiers[j].path, unmerged) ==> Restored(w0, w, g, hiers[j].path, unmerged)
    {
      assert hiers[if j < n then j else n].path != hiers[if j < n then n else j].path;
      assert SameAt(u, w, g, hiers[j].path);
      HierSame(w0, u, w, g, mark, content, hiers[j]);
    }
    forall h | h !in Paths(hiers)
      ensures w.At(h) == w0.At(h)
    {
      assert SameAt(u, w, g, h);
    }
  }

  lemma RestoreUnmounted(w0: World, v: World, u: World, w: World, g: Gen, mark: nat, content: string, hiers: seq<HierarchyState>, clean: bool)
    requires exists images :: RestoreInv(w0, v, u.(images := images), g, mark, content, hiers, 0, clean)
    requires Inv(w) && (w == u || w == u.Unmounted())
    ensures RestoreInv(w0, v, w, g, mark, content, hiers, 0, clean)
  {
    hide Inv, Distinct, Conserved, SameMerge;
  }

  lemma RestoreWeaker(w0: World, v: World, w: World, g: Gen, mark: nat, content: string, hiers: seq<HierarchyState>, clean: bool)
    requires RestoreInv(w0, v, w, g, mark, content, hiers, 0, true) || RestoreInv(w0, v, w, g, mark, content, hiers, 0, clean)
    ensures RestoreInv(w0, v, w, g, mark, content, hiers, 0, clean)
    ensures RestoreInv(w0, v, w, g, mark, content, hiers, 0, false)
  {
  }

  /** Nothing is mounted in the generation an operation built. */
  ghost predicate Dropped(w: World, gen: Option<Gen>) {
    gen.Some? ==> (forall key :: key in w.images ==> key.0 != gen.value) && (forall key :: key in w.staged ==> key.0 != gen.value)
  }

  /** No image mount and no staged overlay was added. */
  ghost predicate Fewer(v: World, w: World) {
    w.images <= v.images && w.staged.Keys <= v.staged.Keys
  }

  /** Nothing changed that an operation which stops here would have to undo: the
      hierarchies, the work directories, and that staged overlays have their layers. */
  ghost predicate Near(v: World, w: World) {
    && w.spots == v.spots && StagedFewer(v, w) && (StagedSafe(v) ==> StagedSafe(w))
    && forall s: Store :: s.Work? ==> (s in v.stores <==> s in w.stores) && (s in v.stores && s in w.stores ==> v.stores[s] == w.stores[s])
  }

  lemma NearSelf(v: World)
    ensures Near(v, v)
  {
  }

  lemma OursSelf(v: World)
    ensures OnlyOurs(v, v, None)
  {
  }

  lemma NearTwice(u: World, v: World, w: World)
    requires Near(u, v) && Near(v, w)
    ensures Near(u, w)
  {
  }

  lemma NearSafe(v: World, w: World)
    requires Near(v, w)
    ensures StagedSafe(v) ==> StagedSafe(w)
    ensures w.spots == v.spots
  {
  }

  lemma NearImages(v: World, w: World)
    requires w == v.(images := w.images)
    ensures Near(v, w)
  {
  }

  lemma NearUnmounted(v: World, w: World)
    requires Near(v, w)
    ensures Near(v, w.Unmounted())
  {
  }

  lemma StagedShrinks(w: World, v: World, g: Gen)
    requires Inv(w) && Unneeded(w, DirsOf(w, g)) && v == w.(staged := v.staged, images := v.images)
    requires v.staged.Keys <= w.staged.Keys && v.images <= w.images && forall k :: k in v.staged ==> v.staged[k] == w.staged[k]
    ensures Inv(v) && Unneeded(v, DirsOf(v, g)) && Near(w, v)
  {
    assert DirsOf(v, g) == DirsOf(w, g);
    InvStaged(w, w.(staged := v.staged));
    InvImages(w.(staged := v.staged), v.images);
    assert v == w.(staged := v.staged).(images := v.images);
  }

  lemma GenerationSpares(v: World, w: World, g: Gen, gone: set<Dir>, hit: set<Dir>)
    requires Inv(v) && g.Next? && gone <= DirsOf(v, g) && hit <= DirsOf(v, g)
    requires w == v || w == v.Removed(gone, hit) || w == v.Removed(gone, hit).(gens := v.gens - {g.n})
    requires InUse(v, g) ==> w == v
    ensures Near(v, w)
  {
    if !InUse(v, g) && w != v {
      assert forall k :: k in v.staged ==> k.0 != g;
      UnstagedRemoved(v, w, g, gone, hit);
    }
  }

  /** Whether directories are needed does not depend on image mounts. */
  lemma StillUnneeded(w: World, g: Gen)
    ensures forall images :: Unneeded(w, DirsOf(w, g)) ==> Unneeded(w.(images := images), DirsOf(w.(images := images), g))
  {
    forall images | Unneeded(w, DirsOf(w, g))
      ensures Unneeded(w.(images := images), DirsOf(w.(images := images), g))
    {
      assert DirsOf(w.(images := images), g) == DirsOf(w, g);
    }
  }

  /** What is staged was staged before, with the same layers. */
  ghost predicate StagedFewer(v: World, w: World) {
    forall k :: k in w.staged ==> k in v.staged && w.staged[k].layers == v.staged[k].layers
  }

  lemma FewerSafe(v: World, w: World)
    requires StagedFewer(v, w) && w.dead == v.dead && StagedSafe(v)
    ensures StagedSafe(w)
  {
  }

  /** A step of the rollback on h: it never leaves another overlay there than the one
      it found. */
  ghost predicate Touched(v: World, w: World, h: Hier) {
    && Inv(w) && SameElsewhere(v, w, h) && SameWorkspace(v, w) && StagedFewer(v, w)
    && w.At(h).present == v.At(h).present
    && (w.At(h).stack == [] || SameMerge(v.At(h).stack, w.At(h).stack))
  }

  /** Nothing of the operation is left on h, and all its mounts are back. */
  ghost predicate Restored(base: World, w: World, g: Gen, h: Hier, unmerged: bool) {
    && Back(base.At(h), w.At(h))
    && (w.At(h).stack == [] || SameMerge(base.At(h).stack, w.At(h).stack))
    && (unmerged ==> w.At(h).stack == [])
    && (base.At(h).present ==> w.At(h).present) && w.At(h).tree == base.At(h).tree
    && (g, h) !in w.staged
  }

  lemma TouchedSelf(v: World, h: Hier)
    requires Inv(v)
    ensures Touched(v, v, h)
  {
  }

  lemma TouchedFacts(v: World, w: World, h: Hier)
    requires Touched(v, w, h)
    ensures Inv(w) && w.spots.Keys == v.spots.Keys
  {
  }

  lemma TouchBound(v: World, u: World, h: Hier, p: Place)
    requires Touched(v, u, h) && p.h == h
    ensures Touched(v, u.WithBound(p, false), h)
  {
    hide Inv;
    WithBoundKeeps(u, p, false);
    ElsewhereTransitive(v, u, u.WithBound(p, false), h);
    SpotFacts(u, h);
    hide SameElsewhere;
  }

  lemma TouchTake(v: World, u: World, h: Hier, p: Place, left: set<Sub>, n: nat)
    requires Touched(v, u, h) && p.h == h && u.strays <= n && left <= u.SubsAt(p)
    ensures Touched(v, u.Taken(p, left, n), h)
  {
    hide Inv;
    TakenFit(u, h, if p.Target? then left else {});
    TakenKeeps(u, p, left, n);
    ElsewhereTransitive(v, u, u.Taken(p, left, n), h);
    SpotFacts(u, h);
    hide SameElsewhere;
  }

  lemma TouchDetach(v: World, u: World, h: Hier, p: Place)
    requires Touched(v, u, h) && p.h == h
    ensures Touched(v, u.Without(p), h)
  {
    hide Inv;
    WithoutKeeps(u, p);
    ElsewhereTransitive(v, u, u.Without(p), h);
    SpotFacts(u, h);
    hide SameElsewhere;
  }

  lemma RestoreTouched(v: World, u: World, hs: HierarchyState, rest: seq<SavedMount>, moved: set<Sub>)
    requires Touched(v, u, hs.path) && Fit(moved, u.At(hs.path).Room())
    ensures var p := Target(hs.path);
            Touched(v, u.WithSubs(p, u.SubsAt(p) + moved), hs.path)
  {
    hide Inv;
    var p := Target(hs.path);
    var subs := u.SubsAt(p) + moved;
    SpotFacts(u, hs.path);
    TakenFit(u, hs.path, u.At(hs.path).Subs());
    WithSubsKeeps(u, p, subs);
    ElsewhereTransitive(v, u, u.WithSubs(p, subs), hs.path);
    hide SameElsewhere;
  }

  lemma TakenDown(base: World, u: World, g: Gen, mark: nat, content: string, hs: HierarchyState, p: Place)
    requires Inv(u) && HierOk(base, u, g, mark, content, hs)
    requires p == (if hs.attached then Target(hs.path) else Staged(g, hs.path)) && u.SubsAt(p) <= Pending(hs.subs)
    ensures HierOk(base, u.Without(p), g, mark, content, hs.(attached := false, stagingMounted := false))
  {
    LocalDetach(base, u, g, mark, content, hs);
    hide Inv, SameMerge, Conserved, Distinct, World.Without, NewLayers;
  }

  lemma RestoreEnd(base: World, u: World, g: Gen, mark: nat, content: string, hs: HierarchyState, rest: seq<SavedMount>, moved: set<Sub>)
    requires Inv(u) && Pending(rest) == {} && moved + Pending(rest) == Pending(hs.subs)
    requires (Distinct(hs.subs) ==> Distinct(rest) && moved !! Pending(rest)) && Fit(moved, u.At(hs.path).Room())
    ensures var p := Target(hs.path);
            HierOk(base, u, g, mark, content, hs) && !hs.attached && !hs.stagingMounted ==>
            Restored(base, u.WithSubs(p, u.SubsAt(p) + moved), g, hs.path, hs.unmerged)
  {
    hide Inv, Distinct, NewLayers;
    if HierOk(base, u, g, mark, content, hs) && !hs.attached && !hs.stagingMounted {
      var p := Target(hs.path);
      LocalAttach(base, u, g, mark, content, hs, p, rest, moved);
      hide Pending;
    }
  }

  lemma MadeElsewhere(v: World, w: World, h: Hier)
    requires OnlyMade(v, w)
    ensures SameElsewhere(v, w, h) && w.At(h) == v.At(h)
  {
  }

  lemma ElsewhereSelf(w: World, h: Hier)
    ensures SameElsewhere(w, w, h)
  {
  }

  // ----- steps of the swap

  lemma MadeSelf(w: World)
    ensures OnlyMade(w, w)
  {
  }

  lemma GoodStill(v: World, w: World, layers: set<Layer>, h: Hier, mark: nat)
    requires OnlyMade(v, w)
    ensures (forall l :: l in layers ==> LayerOk(l, h, v.unused, v.dead)) ==> forall l :: l in layers ==> LayerOk(l, h, w.unused, w.dead)
  {
    hide Component;
  }

  lemma StoreGood(w0: World, w: World, g: Gen, mark: nat, content: string, hiers: seq<HierarchyState>, s: Store)
    requires Swapping(w0, w, g, mark, content, hiers)
    ensures s in w.stores ==> w.stores[s].InStore? && w.stores[s].name == s.name && w.stores[s].serial < w.unused
  {
  }

  /** Layers of this operation are in its own generation. */
  lemma BuiltHere(w0: World, w: World, g: Gen, mark: nat, content: string, hiers: seq<HierarchyState>, h: Hier, o: Overlay)
    requires Swapping(w0, w, g, mark, content, hiers) && OverlayOk(o, h, w.unused, w.dead) && NewLayers(o, mark)
    requires Dir(g, Meta, h) in w.dirs && w.dirs[Dir(g, Meta, h)] in o.layers
    ensures BuiltIn(w, g, h, o)
  {
    SwapMarks(w0, w, g, mark, content, hiers);
    hide Swapping, Component;
  }

  lemma BuiltStill(v: World, w: World, g: Gen, h: Hier, o: Overlay)
    requires BuiltIn(v, g, h, o) && w.unused == v.unused && w.dead == v.dead && w.dirs == v.dirs
    ensures BuiltIn(w, g, h, o)
  {
  }

  /** Before the mounts of a bare hierarchy are taken, those of its old merge are held,
      and one that does not exist has none. */
  lemma HeldStaged(w0: World, v: World, w: World, g: Gen, mark: nat, content: string, before: seq<HierarchyState>, hiers: seq<HierarchyState>, i: nat)
    requires Swapping(w0, v, g, mark, content, before) && i < |before| && Bare(w0, v, g, before[i])
    requires |hiers| == |before| && hiers[i] == before[i].(stagingMounted := hiers[i].stagingMounted)
    ensures hiers[i].merged || !hiers[i].host ==> Held(w0, w, g, hiers[i])
  {
    var hs := before[i];
    assert HierOk(w0, v, g, mark, content, hs);
    SpotFacts(w0, hs.path);
    if !hs.merged && !hs.host {
      assert !w0.At(hs.path).present;
    }
  }

  /** The plan stands and nothing new is attached. */
  ghost predicate Planned(plan: seq<HierarchyState>, hiers: seq<HierarchyState>) {
    |plan| == |hiers| && forall j :: 0 <= j < |plan| ==> SamePlan(plan[j], hiers[j]) && !hiers[j].attached
  }

  /** The hierarchies before i are bare, the others as they were. */
  ghost predicate Unrolled(w0: World, w: World, g: Gen, plan: seq<HierarchyState>, hiers: seq<HierarchyState>, i: nat) {
    && Planned(plan, hiers)
    && (forall j :: 0 <= j < |hiers| && j < i ==> Bare(w0, w, g, hiers[j]))
    && (forall j :: i <= j < |hiers| ==> Fresh(w0, w, g, hiers[j]))
  }

  lemma UnrollStart(w0: World, w: World, g: Gen, hiers: seq<HierarchyState>)
    requires forall j :: 0 <= j < |hiers| ==> Fresh(w0, w, g, hiers[j])
    ensures Unrolled(w0, w, g, hiers, hiers, 0)
  {
  }

  lemma UnrollFacts(w0: World, w: World, g: Gen, plan: seq<HierarchyState>, hiers: seq<HierarchyState>, i: nat)
    requires i < |hiers| && Unrolled(w0, w, g, plan, hiers, i)
    ensures !hiers[i].merged ==> Unrolled(w0, w, g, plan, hiers, i + 1)
    ensures Planned(plan, hiers)
  {
    if !hiers[i].merged {
      FreshBare(w0, w, g, hiers[i]);
    }
  }

  lemma UnrollEnd(w0: World, w: World, g: Gen, plan: seq<HierarchyState>, hiers: seq<HierarchyState>)
    requires Unrolled(w0, w, g, plan, hiers, |hiers|)
    ensures Planned(plan, hiers) && forall j :: 0 <= j < |hiers| ==> Bare(w0, w, g, hiers[j])
  {
  }

  /** The hierarchies before i are staged or bare for good, the others bare. */
  ghost predicate Laid(w0: World, w: World, g: Gen, plan: seq<HierarchyState>, hiers: seq<HierarchyState>, i: nat) {
    && Planned(plan, hiers)
    && (forall j :: 0 <= j < |hiers| && j < i ==> Placed(w0, w, g, hiers[j]))
    && (forall j :: i <= j < |hiers| ==> Bare(w0, w, g, hiers[j]))
  }

  lemma LaidStart(w0: World, w: World, g: Gen, hiers: seq<HierarchyState>)
    requires forall j :: 0 <= j < |hiers| ==> Bare(w0, w, g, hiers[j])
    ensures Laid(w0, w, g, hiers, hiers, 0)
  {
  }

  lemma PlannedSuits(w0: World, w: World, g: Gen, plan: seq<HierarchyState>, hiers: seq<HierarchyState>, i: nat)
    requires i < |hiers| && Laid(w0, w, g, plan, hiers, i)
    ensures AllSuit(w0, plan) ==> Suits(w0, hiers[i])
  {
    SuitsSame(w0, plan[i], hiers[i]);
    hide Suits, Bare, Placed;
  }

  lemma LaidFacts(w0: World, w: World, g: Gen, plan: seq<HierarchyState>, hiers: seq<HierarchyState>, i: nat)
    requires i < |hiers| && Laid(w0, w, g, plan, hiers, i)
    ensures |plan| == |hiers| && Bare(w0, w, g, hiers[i]) && !hiers[i].attached
  {
  }

  lemma LaidNext(w0: World, v: World, w: World, g: Gen, plan: seq<HierarchyState>, before: seq<HierarchyState>, hiers: seq<HierarchyState>, i: nat, ok: bool)
    requires Laid(w0, v, g, plan, before, i) && DistinctPaths(before) && OnlyAt(v, w, before, hiers, i) && !hiers[i].attached
    requires ok ==> Placed(w0, w, g, hiers[i])
    ensures Planned(plan, hiers) && (ok ==> Laid(w0, w, g, plan, hiers, i + 1))
  {
    hide Bare, Placed, SameElsewhere;
    forall j | 0 <= j < |hiers| && j != i
      ensures hiers[j] == before[j]
      ensures Bare(w0, v, g, before[j]) ==> Bare(w0, w, g, hiers[j])
      ensures Placed(w0, v, g, before[j]) ==> Placed(w0, w, g, hiers[j])
    {
      ProgressElsewhere(w0, v, w, before, hiers, i, j, g);
    }
  }

  lemma LaidEnd(w0: World, w: World, g: Gen, plan: seq<HierarchyState>, hiers: seq<HierarchyState>)
    requires Laid(w0, w, g, plan, hiers, |hiers|)
    ensures Planned(plan, hiers) && forall j :: 0 <= j < |hiers| ==> Placed(w0, w, g, hiers[j])
  {
  }

  lemma FreshUnattached(w0: World, w: World, g: Gen, hiers: seq<HierarchyState>)
    ensures forall j :: 0 <= j < |hiers| && Fresh(w0, w, g, hiers[j]) ==> !hiers[j].attached
    ensures forall j :: 0 <= j < |hiers| && Bare(w0, w, g, hiers[j]) ==> !hiers[j].attached
    ensures forall j :: 0 <= j < |hiers| && Finished(w0, w, hiers[j]) ==> Pending(hiers[j].subs) == {}
  {
  }

  lemma FreshBare(w0: World, w: World, g: Gen, hs: HierarchyState)
    requires Fresh(w0, w, g, hs) && !hs.merged
    ensures Bare(w0, w, g, hs)
  {
  }

  lemma BarePlaced(w0: World, v: World, w: World, g: Gen, before: seq<HierarchyState>, hiers: seq<HierarchyState>, i: nat, ok: bool)
    requires OnlyAt(v, w, before, hiers, i) && Bare(w0, v, g, before[i]) && !before[i].mount
    requires hiers[i] == before[i].(subs := hiers[i].subs) && (ok ==> Pending(hiers[i].subs) == {})
    requires w.At(before[i].path).stack == [] <==> v.At(before[i].path).stack == []
    ensures ok ==> Placed(w0, w, g, hiers[i])
    ensures !hiers[i].attached
  {
  }

  lemma InvNames(w: World)
    requires Inv(w)
    ensures NamesDistinct(w.spots.Keys)
  {
  }
}
