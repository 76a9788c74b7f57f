/** Unmerging: unmergeHierarchy and Unmerge of internal/overlay/overlay.go,
    unmergeInPlace of internal/overlay/engine.go. */
module Unmerging {
  import opened Maybe
  import opened KernelModel
  import opened Carry

  /** The same overlays, up to what is mounted below them and on their markers. */
  ghost predicate SameMerge(s: seq<Overlay>, t: seq<Overlay>) {
    |s| == |t| && forall i :: 0 <= i < |s| ==> t[i] == s[i].(subs := t[i].subs, bound := t[i].bound)
  }

  /** What unmerging leaves alone in the workspace. */
  ghost predicate SameTmpfs(v: World, w: World) {
    v.mounted == w.mounted && v.gens == w.gens && v.dirs == w.dirs && v.images == w.images && v.unused == w.unused
  }

  function PathSet(paths: seq<Hier>): set<Hier> {
    set h | h in paths
  }

  /** h's store for work directories is the same. */
  ghost predicate WorkSame(v: World, w: World, h: Hier) {
    var s := Work(Component(h));
    (s in v.stores <==> s in w.stores) && (s in v.stores && s in w.stores ==> v.stores[s] == w.stores[s])
  }

  /** Of the persistent directories only h's work directory may have gone. */
  ghost predicate OtherStores(v: World, w: World, h: Hier) {
    forall s :: s != Work(Component(h)) ==> (s in v.stores <==> s in w.stores) && (s in v.stores && s in w.stores ==> v.stores[s] == w.stores[s])
  }

  /** h is merged as before, or its merge is gone; the mounts below it are still there
      or held as clones, and if its merge is gone all of them are held. */
  ghost predicate Loosened(v: World, w: World, h: Hier, subs: seq<SavedMount>, n: nat) {
    && Inv(w) && SameElsewhere(v, w, h) && SameTmpfs(v, w) && w.staged == v.staged
    && v.At(h).present == w.At(h).present && v.At(h).tree == w.At(h).tree
    && Conserved(v, w, h, {}, subs)
    && (if n == 0 then SameMerge(v.At(h).stack, w.At(h).stack)
        else w.At(h).stack == [] && v.At(h).stack != [] && v.At(h).Subs() <= Pending(subs))
    && Reached(v, w, h)
  }

  /** The mounts below h have a place on the hierarchy without its merge. */
  ghost predicate FitsBare(w: World, h: Hier) {
    w.At(h).stack != [] ==> Fit(w.At(h).Subs(), w.At(h).tree)
  }

  ghost predicate AllFitBare(w: World, hs: set<Hier>) {
    forall h :: h in hs ==> FitsBare(w, h)
  }

  /** Of all directories only h's recorded work directory may have been reached. */
  ghost predicate Reached(v: World, w: World, h: Hier) {
    DiedAt(v, w, {h}) && OtherStores(v, w, h)
  }

  lemma LoosenTake(v: World, w: World, h: Hier, subs: seq<SavedMount>, s: seq<SavedMount>, left: set<Sub>, n: nat)
    requires h in v.spots && w.strays <= n
    requires Loosened(v, w, h, subs, 0) && w.At(h).stack != []
    requires Distinct(s) && Pending(s) == w.At(h).Subs() && left <= Pending(s) && (left !! Pending(s) <==> n == w.strays)
    ensures Loosened(v, w.Taken(Target(h), left, n), h, subs + s, 0)
    ensures var u := w.Taken(Target(h), left, n);
            u.At(h).stack != [] && u.stores == w.stores && u.At(h).Subs() + v.At(h).Subs() <= Pending(subs + s)
  {
    hide Inv, Conserved, Pending, Distinct, Reached;
    var u := w.Taken(Target(h), left, n);
    BareAlone(w, h);
    TakenFit(w, h, left);
    WithSubsKeeps(w, Target(h), left);
    StraysKeep(w.WithSubs(Target(h), left), n);
    ElsewhereTransitive(v, w, u, h);
    hide SameElsewhere;
    ConservedTake(v, w, u, h, {}, subs, s, left);
    ReachedSame(v, w, u, h);
  }

  lemma ReachedSame(v: World, w: World, u: World, h: Hier)
    requires Reached(v, w, h) && u.dead == w.dead && u.stores == w.stores
    ensures Reached(v, u, h)
  {
  }

  lemma LoosenBound(v: World, w: World, h: Hier, subs: seq<SavedMount>, b: bool)
    requires h in v.spots
    requires Loosened(v, w, h, subs, 0) && w.At(h).stack != []
    ensures Loosened(v, w.WithBound(Target(h), b), h, subs, 0)
    ensures var u := w.WithBound(Target(h), b); u.At(h).stack != [] && u.stores == w.stores
  {
    WithBoundKeeps(w, Target(h), b);
    ElsewhereTransitive(v, w, w.WithBound(Target(h), b), h);
    SpotFacts(w, h);
    ConservedSame(v, w, w.WithBound(Target(h), b), h, {}, subs);
    hide Inv, SameElsewhere, Doomed, Conserved;
  }

  lemma LoosenDetach(v: World, w: World, h: Hier, subs: seq<SavedMount>)
    requires h in v.spots
    requires Loosened(v, w, h, subs, 0) && w.At(h).stack != [] && w.At(h).Subs() + v.At(h).Subs() <= Pending(subs)
    ensures Loosened(v, w.Without(Target(h)), h, subs, 1)
    ensures w.Without(Target(h)).At(h).stack == [] && w.Without(Target(h)).stores == w.stores
  {
    WithoutKeeps(w, Target(h));
    ElsewhereTransitive(v, w, w.Without(Target(h)), h);
    SpotFacts(w, h);
    ConservedGone(v, w, w.Without(Target(h)), h, {}, subs);
    hide Inv, SameElsewhere, Doomed, Conserved, Pending;
  }

  lemma LoosenStore(v: World, w: World, h: Hier, subs: seq<SavedMount>, gone: bool)
    requires h in v.spots
    requires Loosened(v, w, h, subs, 1) && w.stores == v.stores
    requires v.At(h).stack[|v.At(h).stack| - 1].work == Some(Component(h))
    ensures var u := w.StoreRemoved(Work(Component(h)), gone);
            Loosened(v, u, h, subs, 1) && Doomed(v, h) <= u.dead && u.At(h).stack == []
    ensures forall g :: g in w.spots && w.spots[g].stack != [] ==> Component(g) != Component(h)
  {
    hide Inv, Conserved, Pending, Distinct, Reached, Doomed;
    var u := w.StoreRemoved(Work(Component(h)), gone);
    OthersNamed(w, h);
    StoreRemovedKeeps(w, Work(Component(h)), gone);
    assert SameElsewhere(w, u, h);
    ElsewhereTransitive(v, w, u, h);
    hide SameElsewhere;
    ConservedSame(v, w, u, h, {}, subs);
    WorkReached(v, w, h, gone);
  }

  lemma OthersNamed(w: World, h: Hier)
    requires Inv(w) && h in w.spots && w.At(h).stack == []
    ensures forall g :: g in w.spots && w.spots[g].stack != [] ==> Component(g) != Component(h)
  {
  }

  lemma WorkReached(v: World, w: World, h: Hier, gone: bool)
    requires Reached(v, w, h) && w.stores == v.stores && v.At(h).stack != []
    requires v.At(h).stack[|v.At(h).stack| - 1].work == Some(Component(h))
    ensures var u := w.StoreRemoved(Work(Component(h)), gone);
            Reached(v, u, h) && Doomed(v, h) <= u.dead
  {
    assert h in {h};
  }

  lemma LoosenStart(v: World, h: Hier)
    requires Inv(v) && h in v.spots
    ensures Loosened(v, v, h, [], 0)
  {
  }

  /** A mark that can be read names the overlay and its workdir. */
  lemma MergedFacts(v: World, w: World, h: Hier, subs: seq<SavedMount>, n: nat)
    requires Loosened(v, w, h, subs, n) && h in v.spots
    ensures Inv(w) && h in w.spots
    ensures w.At(h).stack != [] ==> n == 0 && |w.At(h).stack| == |v.At(h).stack| == 1
    ensures w.At(h).stack != [] ==> w.At(h).stack[0].layers !! w.dead && w.At(h).stack[0].work in {None, Some(Component(h))}
    ensures w.At(h).stack != [] ==> v.At(h).stack[0].work == w.At(h).stack[0].work
    ensures w.At(h).stack == [] && n == 0 ==> v.At(h).stack == []
  {
  }

  /** Takes our overlay off h. A failure leaves it there, or gone; either way the
      mounts below are visible or in subs. */
  method UnmergeHierarchy(k: Kernel, h: Hier) returns (ok: bool, subs: seq<SavedMount>, n: nat)
    requires Inv(k.w) && h in k.w.spots
    modifies k
    ensures Loosened(old(k.w), k.w, h, subs, n)
    ensures ok ==> k.w.At(h).stack == [] && Doomed(old(k.w), h) <= k.w.dead
    ensures old(k.w).At(h).stack == [] ==> k.w == old(k.w) && n == 0 && subs == []
    ensures k.Blamed(ok)
  {
    hide Sound, Loosened, Inv, Doomed, Distinct, Pending, Component;
    hide World.Taken, World.Without, World.WithBound, World.StoreRemoved;
    subs, n := [], 0;
    ghost var v := k.w;
    LoosenStart(v, h);
    NothingDoomed(v, h);
    while true
      invariant Loosened(v, k.w, h, subs, n) && k.Blamed(true)
      invariant v.At(h).stack == [] ==> k.w == v && n == 0 && subs == []
      invariant if n == 0 then k.w.stores == v.stores else Doomed(v, h) <= k.w.dead
      decreases |k.w.At(h).stack|
    {
      MergedFacts(v, k.w, h, subs, n);
      var ours;
      ok, ours := k.IsOurs(h);
      if !ok || !ours {
        return;
      }
      var work;
      ok, work := k.ReadWorkDir(h);
      if !ok {
        return;
      }
      LoosenBound(v, k.w, h, subs, false);
      ok := k.SetMarkerBound(Target(h), false);
      if !ok {
        return;
      }
      var s;
      ghost var u, left := k.w, {};
      ok, s, left := TakeSubmounts(k, Target(h));
      if !ok {
        assert subs + s == subs;
        return;
      }
      LoosenTake(v, u, h, subs, s, left, k.w.strays);
      subs := subs + s;
      LoosenDetach(v, k.w, h, subs);
      ok := k.Detach(Target(h));
      if !ok {
        return;
      }
      n := n + 1;
      if work.Some? {
        u := k.w;
        LoosenStore(v, u, h, subs, true);
        ghost var touched, gone;
        ok, touched, gone := k.RemoveStore(Work(work.value));
        LoosenStore(v, u, h, subs, gone);
        if !ok {
          return;
        }
      }
    }
  }

  lemma NothingDoomed(w: World, h: Hier)
    ensures w.At(h).stack == [] || w.At(h).stack[|w.At(h).stack| - 1].work.None? ==> Doomed(w, h) == {}
  {
  }

  /** Unmerging a hierarchy spares every overlay at a staging point exactly when none of
      them uses its work directory. */
  lemma UnmergedSpares(v: World, w: World, h: Hier, subs: seq<SavedMount>, n: nat)
    requires Loosened(v, w, h, subs, n) && StagedSafe(v)
    ensures !SharesWork(v, {h}) ==> StagedSafe(w)
    ensures Doomed(v, h) <= w.dead ==> (StagedSafe(w) <==> !SharesWork(v, {h}))
  {
    hide Inv, SameElsewhere, Doomed;
    if !SharesWork(v, {h}) {
      StagedSpared(v, w, {h});
    } else if Doomed(v, h) <= w.dead {
      var k, g :| k in v.staged && g in {h} && !(Doomed(v, g) !! v.staged[k].layers);
      assert k in w.staged;
    }
  }

  /** What unmerging one hierarchy may do: its merge stays or goes, nothing else is
      touched, and the mounts below it are back when kept holds. */
  ghost predicate Unmerged1(v: World, w: World, h: Hier, n: nat, kept: bool) {
    && Inv(w) && SameElsewhere(v, w, h) && SameTmpfs(v, w) && w.staged == v.staged
    && v.At(h).present == w.At(h).present && v.At(h).tree == w.At(h).tree
    && (if n == 0 then SameMerge(v.At(h).stack, w.At(h).stack) else w.At(h).stack == [])
    && (kept ==> Back(v.At(h), w.At(h)))
    && Reached(v, w, h)
  }

  lemma AttachBack(v: World, u: World, h: Hier, subs: seq<SavedMount>, n: nat, rest: seq<SavedMount>, moved: set<Sub>)
    requires Loosened(v, u, h, subs, n) && h in v.spots && moved + Pending(rest) == Pending(subs)
    requires (Distinct(subs) ==> Distinct(rest) && moved !! Pending(rest)) && Fit(moved, u.At(h).Room())
    ensures var w := u.WithSubs(Target(h), u.SubsAt(Target(h)) + moved);
            Unmerged1(v, w, h, n, Pending(rest) == {})
  {
    hide Inv, Conserved, Pending, Distinct, Reached;
    var w := u.WithSubs(Target(h), u.SubsAt(Target(h)) + moved);
    TakenFit(u, h, u.At(h).Subs());
    WithSubsKeeps(u, Target(h), u.SubsAt(Target(h)) + moved);
    ElsewhereTransitive(v, u, w, h);
    hide SameElsewhere;
    assert w.At(h) == u.At(h).WithSubs(u.At(h).Subs() + moved);
    ConservedAttach(v, u, w, h, {}, subs, rest, moved);
    ReachedSame(v, u, w, h);
  }

  /** Clones in hand have a place to go back to: below the merge if it is still there,
      else if they fit the bare hierarchy. */
  lemma LoosenedFit(v: World, w: World, h: Hier, subs: seq<SavedMount>, n: nat)
    requires Loosened(v, w, h, subs, n) && Inv(v) && FitsBare(v, h)
    ensures Fit(Pending(subs), w.At(h).Room())
  {
    SpotFacts(v, h);
    hide Inv, Distinct, Pending, SameElsewhere, Reached;
  }

  /** Mounts that are back below the bare hierarchy fit it. */
  lemma BackFits(v: World, w: World, h: Hier)
    requires Inv(w) && w.At(h).stack == [] && v.At(h).tree == w.At(h).tree && Back(v.At(h), w.At(h))
    ensures FitsBare(v, h)
  {
    SpotFacts(w, h);
  }

  /** unmergeInPlace: the mounts taken from the overlay go back below the hierarchy;
      one that cannot be attached is given up, and kept is false. If no call fails of
      itself, that happens exactly when one does not fit the bare hierarchy. */
  method UnmergeInPlace(k: Kernel, h: Hier) returns (ok: bool, n: nat, kept: bool)
    requires Inv(k.w) && h in k.w.spots
    modifies k
    ensures Unmerged1(old(k.w), k.w, h, n, kept)
    ensures ok ==> k.w.At(h).stack == [] && kept
    ensures old(k.w).At(h).stack == [] ==> n == 0
    ensures k.Blamed(kept || !FitsBare(old(k.w), h)) && k.Blamed(ok || !kept)
    ensures k.Blamed(k.w.At(h).stack == [])
    ensures ok ==> FitsBare(old(k.w), h)
    ensures k.faults == old(k.faults) ==> forall s :: s in old(k.w).At(h).Subs() ==> (s in k.w.At(h).Subs() <==> s in old(k.w).At(h).tree)
  {
    hide Sound, Loosened, Unmerged1, Inv, Doomed, FitsBare, Fit;
    ghost var v := k.w;
    var subs;
    ok, subs, n := UnmergeHierarchy(k, h);
    ghost var u, moved := k.w, {};
    MergedFacts(v, u, h, subs, n);
    LoosenedFacts(v, u, h, subs, n);
    if FitsBare(v, h) {
      LoosenedFit(v, u, h, subs, n);
    }
    var rest;
    kept, rest, moved := AttachSubmounts(k, Target(h), subs);
    AttachBack(v, u, h, subs, n, rest, moved);
    if k.faults == old(k.faults) {
      GivenUp(v, u, h, subs, n, rest, moved);
    }
    ok := ok && kept;
    if ok {
      UnmergedFits(v, k.w, h, n);
    }
  }

  /** The mounts that stay below a bare hierarchy are those that fit it. */
  lemma GivenUp(v: World, u: World, h: Hier, subs: seq<SavedMount>, n: nat, rest: seq<SavedMount>, moved: set<Sub>)
    requires Inv(v) && Loosened(v, u, h, subs, n) && h in v.spots && u.At(h).stack == []
    requires moved + Pending(rest) == Pending(subs) && Fit(moved, u.At(h).Room())
    requires forall s :: s in Pending(rest) ==> s !in u.At(h).Room()
    ensures var w := u.WithSubs(Target(h), u.SubsAt(Target(h)) + moved);
            forall s :: s in v.At(h).Subs() ==> (s in w.At(h).Subs() <==> s in v.At(h).tree)
  {
    SpotFacts(u, h);
    SpotFacts(v, h);
    hide Inv, Distinct, Pending, SameElsewhere, Reached, SameMerge;
  }

  lemma UnmergedFits(v: World, w: World, h: Hier, n: nat)
    requires Unmerged1(v, w, h, n, true) && w.At(h).stack == []
    ensures FitsBare(v, h)
  {
    hide Inv;
    BackFits(v, w, h);
  }

  lemma LoosenedFacts(v: World, w: World, h: Hier, subs: seq<SavedMount>, n: nat)
    requires Loosened(v, w, h, subs, n)
    ensures w.spots.Keys == v.spots.Keys
    ensures Inv(w) && SameTmpfs(v, w) && v.dead <= w.dead
    ensures forall g: Gen, k: Hier :: k != h ==> SameAt(v, w, g, k)
  {
  }

  /** One hierarchy after an Unmerge run. */
  ghost predicate After(v: World, w: World, h: Hier, kept: bool) {
    && v.At(h).present == w.At(h).present && v.At(h).tree == w.At(h).tree
    && (w.At(h).stack == [] || SameMerge(v.At(h).stack, w.At(h).stack))
    && (kept ==> Back(v.At(h), w.At(h)))
  }

  /** What unmerging the hierarchies before i has done to the staged overlays' layers, and
      that the work directories of the others are the same. */
  ghost predicate Struck(v: World, w: World, hiers: seq<Hier>, i: nat) {
    && DiedAt(v, w, PathSet(hiers)) && v.strays <= w.strays
    && forall j :: i <= j < |hiers| ==> WorkSame(v, w, hiers[j])
  }

  lemma StruckOne(v: World, u: World, w: World, hiers: seq<Hier>, i: nat, n: nat, kept: bool)
    requires i < |hiers| && forall a, b :: 0 <= a < b < |hiers| ==> hiers[a] != hiers[b]
    requires forall h :: h in hiers ==> h in u.spots
    requires Inv(u) && Struck(v, u, hiers, i) && v.At(hiers[i]) == u.At(hiers[i])
    requires Unmerged1(u, w, hiers[i], n, kept)
    ensures Struck(v, w, hiers, i + 1)
  {
    var h := hiers[i];
    assert NamesDistinct(u.spots.Keys);
    assert SpotOk(u.At(h), h, u.unused, u.dead);
    hide Inv, SpotOk, Component, SameElsewhere, Back, SameMerge;
    assert Doomed(u, h) == Doomed(v, h) by {
      assert WorkSame(v, u, h);
    }
    assert h in PathSet(hiers);
    forall j | i + 1 <= j < |hiers|
      ensures WorkSame(v, w, hiers[j])
    {
      assert WorkSame(v, u, hiers[j]);
      assert Component(hiers[j]) != Component(h);
    }
  }

  lemma AfterOne(v: World, u: World, w: World, hiers: seq<Hier>, i: nat, n: nat, kept: bool, before: bool)
    requires i < |hiers| && forall a, b :: 0 <= a < b < |hiers| ==> hiers[a] != hiers[b]
    requires Inv(u) && v.spots.Keys == u.spots.Keys && hiers[i] in u.spots
    requires forall j :: 0 <= j < i ==> After(v, u, hiers[j], before)
    requires forall h :: h !in hiers[..i] ==> v.At(h) == u.At(h)
    requires Unmerged1(u, w, hiers[i], n, kept)
    ensures Inv(w) && v.spots.Keys == w.spots.Keys
    ensures forall j :: 0 <= j < i + 1 ==> After(v, w, hiers[j], before && kept)
    ensures forall h :: h !in hiers[..i + 1] ==> v.At(h) == w.At(h)
    ensures forall j :: 0 <= j < i && u.At(hiers[j]).stack == [] ==> w.At(hiers[j]).stack == []
    ensures w.images == u.images && w.staged == u.staged
  {
    hide Inv, Doomed, DiedAt, OtherStores;
    forall h | h != hiers[i]
      ensures u.At(h) == w.At(h)
    {
      assert SameAt(u, w, Base, h);
    }
  }

  lemma NothingStruck(v: World, w: World, hiers: seq<Hier>)
    requires w.dead == v.dead && w.stores == v.stores && w.strays == v.strays
    ensures Struck(v, w, hiers, 0)
  {
  }

  /** Unmerge: goes through all hierarchies whatever fails, and releases the workspace
      when nothing did. If no call fails of itself, it succeeds, and keeps all mounts,
      exactly when these fit the bare hierarchies. */
  method Unmerge(k: Kernel, hiers: seq<Hier>) returns (ok: bool, unmerged: seq<Hier>, kept: bool)
    requires Inv(k.w) && forall i :: 0 <= i < |hiers| ==> hiers[i] in k.w.spots
    requires forall i, j :: 0 <= i < j < |hiers| ==> hiers[i] != hiers[j]
    modifies k
    ensures Inv(k.w) && k.w.spots.Keys == old(k.w).spots.Keys
    ensures forall h :: h !in hiers ==> k.w.At(h) == old(k.w).At(h)
    ensures forall h :: h in hiers ==> After(old(k.w), k.w, h, kept)
    ensures ok ==> kept && !k.w.mounted && forall h :: h in hiers ==> k.w.At(h).stack == []
    ensures StagedSafe(old(k.w)) && !SharesWork(old(k.w), PathSet(hiers)) ==> StagedSafe(k.w)
    ensures k.w.staged.Keys <= old(k.w).staged.Keys
    ensures k.Blamed(kept || !AllFitBare(old(k.w), PathSet(hiers))) && k.Blamed(ok || !kept)
    ensures ok ==> AllFitBare(old(k.w), PathSet(hiers))
  {
    hide Sound, Unmerged1, After, Inv, Struck, DiedAt, SharesWork, FitsBare;
    var failed := false;
    unmerged, kept := [], true;
    ghost var v := k.w;
    NothingStruck(v, v, hiers);
    for i := 0 to |hiers|
      invariant Inv(k.w) && v.spots.Keys == k.w.spots.Keys
      invariant k.Blamed(kept || !AllFitBare(v, PathSet(hiers))) && k.Blamed(!failed || !kept)
      invariant !failed ==> forall j :: 0 <= j < i ==> FitsBare(v, hiers[j])
      invariant forall j :: 0 <= j < i ==> After(v, k.w, hiers[j], kept)
      invariant forall h :: h !in hiers[..i] ==> v.At(h) == k.w.At(h)
      invariant !failed ==> kept && forall j :: 0 <= j < i ==> k.w.At(hiers[j]).stack == []
      invariant Struck(v, k.w, hiers, i) && k.w.staged == v.staged
    {
      ghost var u := k.w;
      var resolved, present := k.Exists(hiers[i]);
      assert hiers[..i + 1] == hiers[..i] + [hiers[i]];
      assert hiers[i] !in hiers[..i];
      FitsSame(v, u, hiers[i]);
      if !resolved || !present {
        failed := failed || !resolved;
        Skip(v, u, hiers, i, kept);
        StruckSkip(v, u, hiers, i);
      } else {
        var one, n, back := UnmergeInPlace(k, hiers[i]);
        AfterOne(v, u, k.w, hiers, i, n, back, kept);
        StruckOne(v, u, k.w, hiers, i, n, back);
        if n > 0 {
          unmerged := unmerged + [hiers[i]];
        }
        kept := kept && back;
        failed := failed || !one;
      }
    }
    assert hiers[..|hiers|] == hiers;
    StruckSpared(v, k.w, hiers);
    if failed {
      return false, unmerged, kept;
    }
    ghost var u := k.w;
    UnmountedKeeps(u);
    ok := k.Teardown();
    forall h
      ensures k.w.At(h) == u.At(h)
    {
    }
    forall h | h in hiers
      ensures After(v, k.w, h, kept)
    {
      assert After(v, u, h, kept);
      AfterSame(v, u, k.w, h, kept);
    }
  }

  lemma FitsSame(v: World, w: World, h: Hier)
    requires v.At(h) == w.At(h)
    ensures FitsBare(v, h) <==> FitsBare(w, h)
    ensures v.At(h).stack == [] ==> FitsBare(v, h)
  {
  }

  lemma StruckSkip(v: World, w: World, hiers: seq<Hier>, i: nat)
    requires i < |hiers| && Struck(v, w, hiers, i)
    ensures Struck(v, w, hiers, i + 1)
  {
  }

  lemma StruckSpared(v: World, w: World, hiers: seq<Hier>)
    requires Struck(v, w, hiers, |hiers|) && w.staged == v.staged
    ensures StagedSafe(v) && !SharesWork(v, PathSet(hiers)) ==> StagedSafe(w)
  {
    if StagedSafe(v) && !SharesWork(v, PathSet(hiers)) {
      StagedSpared(v, w, PathSet(hiers));
    }
  }

  lemma AfterSame(v: World, u: World, w: World, h: Hier, kept: bool)
    requires After(v, u, h, kept) && w.At(h) == u.At(h)
    ensures After(v, w, h, kept)
  {
  }

  lemma Skip(v: World, u: World, hiers: seq<Hier>, i: nat, before: bool)
    requires i < |hiers| && Inv(u) && v.At(hiers[i]) == u.At(hiers[i])
    ensures After(v, u, hiers[i], before)
    ensures !u.At(hiers[i]).present ==> u.At(hiers[i]).stack == []
  {
    SpotFacts(u, hiers[i]);
  }
}
