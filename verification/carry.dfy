/** Carrying the mounts below a hierarchy: takeSubmounts, attachSubmounts and
    closeSaved of internal/overlay/mounts.go over the kernel model. */
module Carry {
  import opened KernelModel

  /** A detached clone; pending until it is attached somewhere. */
  datatype SavedMount = SavedMount(sub: Sub, pending: bool)

  /** The mounts that exist only as clones. */
  function Pending(saved: seq<SavedMount>): set<Sub> {
    set m | m in saved && m.pending :: m.sub
  }

  ghost predicate Distinct(saved: seq<SavedMount>) {
    forall i, j :: 0 <= i < j < |saved| && saved[i].pending && saved[j].pending ==> saved[i].sub != saved[j].sub
  }

  lemma PendingOfSum(a: seq<SavedMount>, b: seq<SavedMount>)
    ensures Pending(a + b) == Pending(a) + Pending(b)
  {
    forall s
      ensures s in Pending(a + b) <==> s in Pending(a) + Pending(b)
    {
      assert SavedMount(s, true) in a + b <==> SavedMount(s, true) in a || SavedMount(s, true) in b;
    }
  }

  lemma PendingSet(saved: seq<SavedMount>, s: Sub)
    ensures s in Pending(saved) <==> SavedMount(s, true) in saved
  {
  }

  lemma DistinctSum(a: seq<SavedMount>, b: seq<SavedMount>)
    requires Distinct(a) && Distinct(b) && Pending(a) !! Pending(b)
    ensures Distinct(a + b)
  {
    var c := a + b;
    forall i, j | 0 <= i < j < |c| && c[i].pending && c[j].pending
      ensures c[i].sub != c[j].sub
    {
      if i < |a| && |a| <= j {
        assert c[i].sub in Pending(a) && c[j].sub in Pending(b);
      }
    }
  }

  /** Marking one clone as attached takes its mount out of the pending ones; if no other
      clone is of the same mount, exactly that. */
  lemma MarkAttached(saved: seq<SavedMount>, i: nat)
    requires i < |saved| && saved[i].pending
    ensures var t := saved[i := saved[i].(pending := false)];
            && Pending(t) + {saved[i].sub} == Pending(saved)
            && (Distinct(saved) ==> Distinct(t) && Pending(t) == Pending(saved) - {saved[i].sub})
  {
    var t := saved[i := saved[i].(pending := false)];
    forall s
      ensures s in Pending(t) + {saved[i].sub} <==> s in Pending(saved)
    {
      PendingSet(t, s);
      PendingSet(saved, s);
      if s in Pending(saved) && s != saved[i].sub {
        var j :| 0 <= j < |saved| && saved[j] == SavedMount(s, true);
        assert t[j] == SavedMount(s, true);
      }
      if s in Pending(t) {
        var j :| 0 <= j < |t| && t[j] == SavedMount(s, true);
        assert saved[j] == SavedMount(s, true);
      }
    }
    PendingSet(t, saved[i].sub);
    forall j | Distinct(saved) && 0 <= j < |t|
      ensures t[j] != SavedMount(saved[i].sub, true)
    {
      if j < i {
        assert saved[j].pending ==> saved[j].sub != saved[i].sub;
      } else if i < j {
        assert saved[j].pending ==> saved[i].sub != saved[j].sub;
      }
    }
  }

  // ----- conservation

  /** No mount below the hierarchy is lost: each is visible, staged or a pending clone.
      And none is there that was not there before, if only hidden by an overlay. */
  ghost predicate Covered(before: Spot, now: Spot, staged: set<Sub>, pending: set<Sub>) {
    && before.Subs() <= now.Subs() + staged + pending
    && staged + pending <= before.Subs() && now.host <= before.Subs() + before.host
    && (now.stack != [] ==> now.Subs() <= before.Subs())
  }

  /** Each mount is in only one place. */
  ghost predicate Single(now: Spot, staged: set<Sub>, saved: seq<SavedMount>) {
    now.Subs() !! staged && now.Subs() !! Pending(saved) && staged !! Pending(saved) && Distinct(saved) && Flat(now)
  }

  /** From v to w the mounts below h are conserved; unless one stayed behind when it was
      cloned or h hides mounts, each is in only one place. */
  ghost predicate Conserved(v: World, w: World, h: Hier, staged: set<Sub>, saved: seq<SavedMount>) {
    && v.strays <= w.strays
    && Covered(v.At(h), w.At(h), staged, Pending(saved))
    && (w.strays == v.strays && Flat(v.At(h)) ==> Single(w.At(h), staged, saved))
  }

  /** Taking the visible mounts. */
  lemma ConservedTake(v: World, w: World, u: World, h: Hier, staged: set<Sub>, saved: seq<SavedMount>, s: seq<SavedMount>, left: set<Sub>)
    requires Conserved(v, w, h, staged, saved) && u.At(h) == w.At(h).WithSubs(left) && w.strays <= u.strays
    requires w.At(h).stack != [] || v.At(h).stack == []
    requires Distinct(s) && Pending(s) == w.At(h).Subs() && left <= Pending(s) && (left !! Pending(s) <==> u.strays == w.strays)
    ensures Conserved(v, u, h, staged, saved + s)
    ensures v.At(h).Subs() <= staged + Pending(saved + s) && w.At(h).Subs() <= Pending(saved + s)
  {
    TakenSum(saved, s);
    hide Distinct, Pending;
  }

  /** Taking the staged mounts. */
  lemma ConservedTakeStaged(v: World, w: World, u: World, h: Hier, staged: set<Sub>, saved: seq<SavedMount>, s: seq<SavedMount>, left: set<Sub>)
    requires Conserved(v, w, h, staged, saved) && u.At(h) == w.At(h) && w.strays <= u.strays
    requires Distinct(s) && Pending(s) == staged && left <= Pending(s) && (left !! Pending(s) <==> u.strays == w.strays)
    ensures Conserved(v, u, h, left, saved + s)
  {
    TakenSum(saved, s);
    hide Distinct, Pending;
  }

  /** Each mount is in only one place after a take exactly when none stayed behind. */
  lemma SingleExactly(v: World, w: World, u: World, h: Hier, staged: set<Sub>, saved: seq<SavedMount>, s: seq<SavedMount>, left: set<Sub>)
    requires Conserved(v, w, h, staged, saved) && w.strays == v.strays && Flat(v.At(h))
    requires u.At(h) == w.At(h).WithSubs(left) && w.strays <= u.strays
    requires Distinct(s) && Pending(s) == w.At(h).Subs() && left <= Pending(s) && (left !! Pending(s) <==> u.strays == w.strays)
    ensures Single(u.At(h), staged, saved + s) <==> u.strays == w.strays
  {
    TakenSum(saved, s);
    hide Distinct, Pending;
  }

  lemma TakenSum(saved: seq<SavedMount>, s: seq<SavedMount>)
    ensures Pending(saved + s) == Pending(saved) + Pending(s)
    ensures Distinct(saved) && Distinct(s) && Pending(saved) !! Pending(s) ==> Distinct(saved + s)
  {
    PendingOfSum(saved, s);
    if Distinct(saved) && Distinct(s) && Pending(saved) !! Pending(s) {
      DistinctSum(saved, s);
    }
  }

  lemma ConservedAttach(v: World, w: World, u: World, h: Hier, staged: set<Sub>, saved: seq<SavedMount>, rest: seq<SavedMount>, moved: set<Sub>)
    requires Conserved(v, w, h, staged, saved) && u.At(h) == w.At(h).WithSubs(w.At(h).Subs() + moved) && u.strays == w.strays
    requires moved + Pending(rest) == Pending(saved) && (Distinct(saved) ==> Distinct(rest) && moved !! Pending(rest))
    ensures Conserved(v, u, h, staged, rest)
    ensures staged == {} && Pending(rest) == {} ==> Back(v.At(h), u.At(h))
  {
    hide Distinct, Pending;
  }

  lemma ConservedAttachStaged(v: World, w: World, u: World, h: Hier, staged: set<Sub>, saved: seq<SavedMount>, rest: seq<SavedMount>, moved: set<Sub>)
    requires Conserved(v, w, h, staged, saved) && u.At(h) == w.At(h) && u.strays == w.strays
    requires moved + Pending(rest) == Pending(saved) && (Distinct(saved) ==> Distinct(rest) && moved !! Pending(rest))
    ensures Conserved(v, u, h, staged + moved, rest)
  {
    hide Distinct, Pending;
  }

  /** An overlay goes, when what is still mounted below it is held as clones. */
  lemma ConservedGone(v: World, w: World, u: World, h: Hier, staged: set<Sub>, saved: seq<SavedMount>)
    requires Conserved(v, w, h, staged, saved) && u.At(h) == w.At(h).Without() && |w.At(h).stack| <= 1 && u.strays == w.strays
    requires w.At(h).stack != [] ==> w.At(h).Subs() <= Pending(saved)
    ensures Conserved(v, u, h, staged, saved)
  {
    hide Distinct, Pending;
  }

  lemma ConservedStagedGone(v: World, w: World, u: World, h: Hier, staged: set<Sub>, saved: seq<SavedMount>)
    requires Conserved(v, w, h, staged, saved) && u.At(h) == w.At(h) && u.strays == w.strays && staged <= Pending(saved)
    ensures Conserved(v, u, h, {}, saved)
  {
    hide Distinct, Pending;
  }

  /** A staged overlay that holds all mounts is moved onto the bare hierarchy. */
  lemma ConservedMove(v: World, w: World, u: World, h: Hier, o: Overlay, saved: seq<SavedMount>)
    requires Conserved(v, w, h, o.subs, saved) && w.At(h).stack == [] && u.At(h) == w.At(h).(stack := [o]) && u.strays == w.strays
    requires v.At(h).Subs() <= o.subs && Pending(saved) == {}
    ensures Conserved(v, u, h, {}, saved)
  {
    hide Distinct, Pending;
  }

  lemma ConservedSame(v: World, w: World, u: World, h: Hier, staged: set<Sub>, saved: seq<SavedMount>)
    requires Conserved(v, w, h, staged, saved) && u.strays == w.strays
    requires u.At(h).Subs() == w.At(h).Subs() && u.At(h).host == w.At(h).host && (u.At(h).stack == [] <==> w.At(h).stack == [])
    ensures Conserved(v, u, h, staged, saved)
  {
    hide Distinct, Pending;
  }

  /** The mounts below a hierarchy are back. */
  ghost predicate Back(before: Spot, now: Spot) {
    before.Subs() <= now.Subs() && now.host + now.Subs() <= before.Subs() + before.host
  }

  /** Back means the same mounts, and unless a merge hides others nothing else can
      come back. */
  lemma BackIsSame(before: Spot, now: Spot)
    requires Back(before, now) && before.host <= before.Subs()
    ensures now.Subs() == before.Subs() && now.host <= now.Subs()
  {
  }

  lemma SameSubs(w: World, p: Place)
    ensures w.WithSubs(p, w.SubsAt(p)) == w
  {
    if p.Target? && p.h in w.spots {
      var s := w.spots[p.h];
      assert s.WithSubs(s.Subs()) == s;
    }
  }

  lemma SubsTwice(w: World, p: Place, a: set<Sub>, b: set<Sub>)
    requires p.Target? ==> p.h in w.spots
    ensures w.WithSubs(p, a).WithSubs(p, b) == w.WithSubs(p, b)
    ensures (p.Staged? ==> (p.gen, p.h) in w.staged) ==> w.WithSubs(p, a).SubsAt(p) == a
  {
    if p.Target? {
      SpotSubsTwice(w.spots[p.h], a, b);
    }
  }

  lemma SpotSubsTwice(s: Spot, a: set<Sub>, b: set<Sub>)
    ensures s.WithSubs(a).WithSubs(b) == s.WithSubs(b)
    ensures s.WithSubs(a).Subs() == a
  {
  }

  /** Detaches the mounts below p and returns them as clones. All are cloned before
      the first is detached: on error nothing is. A mount that cannot be detached is
      left where it is besides its clone; that is the only way for a mount to be in
      two places. */
  method TakeSubmounts(k: Kernel, p: Place) returns (ok: bool, saved: seq<SavedMount>, ghost left: set<Sub>)
    requires p.Target? ==> p.h in k.w.spots
    modifies k
    ensures Distinct(saved)
    ensures ok ==> k.w == old(k.w).Taken(p, left, k.w.strays) && Pending(saved) == old(k.w).SubsAt(p)
    ensures ok ==> left <= Pending(saved) && (left !! Pending(saved) <==> k.w.strays == old(k.w).strays)
    ensures !ok ==> k.w == old(k.w) && saved == []
    ensures k.Blamed(ok) && old(k.w).strays <= k.w.strays
  {
    hide Sound;
    saved, left := [], {};
    ok := k.Other(); // reading the mount table
    if !ok {
      return;
    }
    var todo := k.w.SubsAt(p);
    var cloned: set<Sub> := {};
    while todo != {}
      invariant k.w == old(k.w) && k.Blamed(true)
      invariant Distinct(saved) && Pending(saved) == cloned
      invariant todo + cloned == k.w.SubsAt(p) && todo !! cloned
      decreases todo
    {
      var s :| s in todo;
      ok := k.Other(); // cloneMount
      if !ok {
        return false, [], {};
      }
      PendingOfSum(saved, [SavedMount(s, true)]);
      DistinctSum(saved, [SavedMount(s, true)]);
      saved := saved + [SavedMount(s, true)];
      todo, cloned := todo - {s}, cloned + {s};
    }
    left := Detached(k, p, cloned);
    ok := true;
  }

  /** The second half of takeSubmounts: errors are ignored. */
  method Detached(k: Kernel, p: Place, cloned: set<Sub>) returns (ghost left: set<Sub>)
    requires (p.Target? ==> p.h in k.w.spots) && cloned == k.w.SubsAt(p)
    modifies k
    ensures k.w == old(k.w).Taken(p, left, k.w.strays) && left <= cloned
    ensures k.Blamed(true) && old(k.w).strays <= k.w.strays && (left == {} <==> k.w.strays == old(k.w).strays)
  {
    hide Sound;
    left := {};
    ghost var w0 := k.w;
    SameSubs(w0, p);
    var todo := cloned;
    assert todo + left == cloned && w0.Taken(p, cloned, w0.strays) == w0;
    while todo != {}
      invariant k.w == w0.Taken(p, todo + left, k.w.strays) && k.w.SubsAt(p) == todo + left
      invariant todo + left <= cloned && todo !! left
      invariant k.Blamed(true) && w0.strays <= k.w.strays && (left == {} <==> k.w.strays == w0.strays)
      decreases todo
    {
      var s :| s in todo;
      ghost var u := k.w;
      SubsTwice(w0, p, todo + left, todo + left - {s});
      assert u.WithSubs(p, todo + left - {s}) == w0.Taken(p, todo + left - {s}, u.strays);
      var gone := k.DetachOriginal(p, s);
      if !gone {
        left := left + {s};
        assert todo - {s} + left == u.SubsAt(p);
      } else {
        assert todo - {s} + left == todo + left - {s};
      }
      todo := todo - {s};
    }
    assert {} + left == left;
  }

  /** Attaches the pending clones below p. A clone that cannot be attached stays
      pending; ok says that none did. If no call fails of itself, exactly the mounts that
      fit there are attached. */
  method AttachSubmounts(k: Kernel, p: Place, saved0: seq<SavedMount>) returns (ok: bool, saved: seq<SavedMount>, ghost moved: set<Sub>)
    requires p.Target? ==> p.h in k.w.spots
    modifies k
    ensures moved + Pending(saved) == Pending(saved0)
    ensures k.w == old(k.w).WithSubs(p, old(k.w).SubsAt(p) + moved)
    ensures Distinct(saved0) ==> Distinct(saved) && moved !! Pending(saved)
    ensures ok <==> Pending(saved) == {}
    ensures Fit(moved, old(k.w).RoomAt(p))
    ensures k.Blamed(ok || !Fit(Pending(saved0), old(k.w).RoomAt(p)))
    ensures k.faults == old(k.faults) ==> forall s :: s in Pending(saved) ==> s !in old(k.w).RoomAt(p)
  {
    hide Sound, Pending, Distinct, World.WithSubs;
    ok, saved, moved := true, saved0, {};
    ghost var w0 := k.w;
    SameSubs(w0, p);
    ghost var stuck := 0;
    assert w0.SubsAt(p) + moved == w0.SubsAt(p);
    for i := 0 to |saved0|
      invariant |saved| == |saved0| && (Distinct(saved0) ==> Distinct(saved) && moved !! Pending(saved))
      invariant Fit(moved, w0.RoomAt(p)) && k.Blamed(ok || !Fit(Pending(saved0), w0.RoomAt(p)))
      invariant forall j :: 0 <= j < i && saved[j].pending && k.faults == old(k.faults) ==> saved[j].sub !in w0.RoomAt(p)
      invariant forall j :: i <= j < |saved0| ==> saved[j] == saved0[j]
      invariant moved + Pending(saved) == Pending(saved0)
      invariant k.w == w0.WithSubs(p, w0.SubsAt(p) + moved)
      invariant ok ==> forall j :: 0 <= j < i ==> !saved[j].pending
      invariant !ok ==> 0 <= stuck < i && saved[stuck].pending
    {
      if saved[i].pending {
        RoomStill(w0, p, w0.SubsAt(p) + moved);
        PendingAt(saved0, i);
        var attached := k.AttachClone(p, saved[i].sub);
        if !attached {
          ok, stuck := false, i;
        } else {
          MarkAttached(saved, i);
          SubsTwice(w0, p, w0.SubsAt(p) + moved, w0.SubsAt(p) + moved + {saved[i].sub});
          assert w0.SubsAt(p) + moved + {saved[i].sub} == w0.SubsAt(p) + (moved + {saved[i].sub});
          moved := moved + {saved[i].sub};
          saved := saved[i := saved[i].(pending := false)];
        }
      }
    }
    if !ok {
      PendingAt(saved, stuck);
    }
    PendingIs(saved);
  }

  lemma PendingAt(saved: seq<SavedMount>, i: nat)
    requires i < |saved| && saved[i].pending
    ensures saved[i].sub in Pending(saved)
  {
  }

  lemma PendingIs(saved: seq<SavedMount>)
    ensures forall s :: s in Pending(saved) ==> exists i :: 0 <= i < |saved| && saved[i].pending && saved[i].sub == s
  {
  }

  lemma RoomStill(w: World, p: Place, subs: set<Sub>)
    ensures w.WithSubs(p, subs).RoomAt(p) == w.RoomAt(p)
  {
  }

  /** Closing a clone that is still pending gives its mounts up. */
  function Closed(saved: seq<SavedMount>): (r: seq<SavedMount>)
    ensures Pending(r) == {}
  {
    seq(|saved|, i requires 0 <= i < |saved| => saved[i].(pending := false))
  }
}
