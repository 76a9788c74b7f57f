/** When two hierarchies share the directories named after them
    (internal/overlay/markers.go:291-293), and what unmerging one then does to the
    other. */
module Naming {
  import opened KernelModel

  /** The path without slashes at its ends; a configured hierarchy may have some. */
  function Trimmed(h: Hier): string {
    TrimRight(TrimLeft(h))
  }

  lemma {:induction false} DotsAt(s: string)
    ensures |Dots(s)| == |s| && forall k :: 0 <= k < |s| ==> Dots(s)[k] == if s[k] == '/' then '.' else s[k]
  {
    if s != "" {
      DotsAt(s[1..]);
    }
  }

  /** Two hierarchies share a name exactly when, slashes at their ends aside, they differ
      in nothing but slashes for dots. */
  lemma NamesCollide(g: Hier, h: Hier)
    ensures var x, y := Trimmed(g), Trimmed(h);
            Component(g) == Component(h) <==> |x| == |y| && forall k :: 0 <= k < |x| ==> x[k] == y[k] || (x[k] in "/." && y[k] in "/.")
  {
    var x, y := Trimmed(g), Trimmed(h);
    DotsAt(x);
    DotsAt(y);
    hide Dots, TrimLeft, TrimRight;
    if |x| == |y| && (forall k :: 0 <= k < |x| ==> x[k] == y[k] || (x[k] in "/." && y[k] in "/.")) {
      assert Dots(x) == Dots(y);
    }
    if Dots(x) == Dots(y) {
      forall k | 0 <= k < |x|
        ensures x[k] == y[k] || (x[k] in "/." && y[k] in "/.")
      {
        assert Dots(x)[k] == Dots(y)[k];
      }
    }
  }

  lemma {:induction false} TrimmedPart(s: string)
    ensures forall c :: c in TrimLeft(s) ==> c in s
    ensures forall c :: c in TrimRight(s) ==> c in s
    decreases |s|
  {
    if s != "" {
      TrimmedPart(s[1..]);
      TrimmedPart(s[..|s| - 1]);
    }
  }

  /** So without dots in the configured paths their names are distinct exactly when no
      two of the paths differ only in slashes at their ends. */
  lemma DotlessNamesDistinct(config: set<Hier>)
    requires forall h :: h in config ==> '.' !in h
    ensures NamesDistinct(config) <==> forall g, h :: g in config && h in config && Trimmed(g) == Trimmed(h) ==> g == h
  {
    forall g, h | g in config && h in config
      ensures Component(g) == Component(h) <==> Trimmed(g) == Trimmed(h)
    {
      NamesCollide(g, h);
      TrimmedPart(g);
      TrimmedPart(TrimLeft(g));
      TrimmedPart(h);
      TrimmedPart(TrimLeft(h));
      hide Dots, TrimLeft, TrimRight;
    }
    hide Component, Trimmed;
  }

  /** Both of these may be configured, and so may "/usr" and "/usr/". */
  lemma CollidingNames()
    ensures Component("/foo/bar") == Component("/foo.bar")
    ensures Component("/usr") == Component("/usr/")
  {
    assert TrimLeft("/foo/bar") == TrimLeft("foo/bar") == "foo/bar" && TrimLeft("/foo.bar") == TrimLeft("foo.bar") == "foo.bar";
    assert TrimLeft("/usr") == TrimLeft("usr") == "usr" && TrimLeft("/usr/") == TrimLeft("usr/") == "usr/";
    assert TrimRight("usr/") == TrimRight("usr") == "usr";
    NamesCollide("/foo/bar", "/foo.bar");
  }

  /** Removing the workdir recorded for g takes the one of a merged h with the same
      name, and that of no hierarchy with another name. */
  lemma WorkdirShared(w: World, g: Hier, h: Hier, gone: bool)
    requires SpotsOk(w) && DirsOk(w)
    requires h in w.spots && w.spots[h].stack != [] && Work(Component(g)) in w.stores
    requires Work(Component(h)) in w.stores && w.stores[Work(Component(h))] in w.spots[h].stack[0].layers
    ensures var v := w.StoreRemoved(Work(Component(g)), gone);
            v.spots == w.spots && (SpotOk(v.spots[h], h, v.unused, v.dead) <==> Component(g) != Component(h))
  {
    hide Component;
    var v := w.StoreRemoved(Work(Component(g)), gone);
    var l := w.stores[Work(Component(h))];
    assert SpotOk(w.spots[h], h, w.unused, w.dead);
    if Component(g) == Component(h) {
      assert l in v.dead && l in v.spots[h].stack[0].layers;
    }
  }
}
