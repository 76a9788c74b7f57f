/** Overlays left at their staging points: what a rollback leaves behind when its own
    detaches and the teardown of the workspace fail too (internal/overlay/engine.go:
    700-741), and what later operations then do to their layers. */
module Leftover {
  import opened Maybe
  import opened KernelModel
  import opened Merging

  /** The directories of a hierarchy in the workspace itself. */
  function LayersOf(h: Hier): set<Dir> {
    {Dir(Base, Meta, h), Dir(Base, Staging, h), Dir(Base, Scratch, h)}
  }

  /** Removing the replaced layers of a hierarchy spares the overlays at staging points
      exactly when none is staged in their place. */
  lemma ReplacedSpares(w: World, h: Hier)
    requires Inv(w) && StagedSafe(w)
    ensures StagedSafe(w.Removed(LayersOf(h), {})) <==> (Base, h) !in w.staged
  {
    hide SpotsOk, GensOk;
    if (Base, h) !in w.staged {
      RemovalSpares(w, LayersOf(h), {});
    } else {
      RemovalHits(w, Base, h, LayersOf(h), {});
    }
  }

  /** A first merge has put its overlay on /usr and failed to move the one for /opt, and
      neither rollback nor teardown could take anything down. */
  function Stuck(): World {
    World(
      map["/usr" := Spot(true, iset{}, {}, [Overlay("x", {InWorkspace("/usr", 0)}, None, iset{}, {}, false)]),
          "/opt" := Spot(true, iset{}, {}, [])],
      map[(Base, "/opt") := Overlay("x", {InWorkspace("/opt", 1)}, None, iset{}, {}, false)],
      true, {}, map[Dir(Base, Meta, "/usr") := InWorkspace("/usr", 0), Dir(Base, Meta, "/opt") := InWorkspace("/opt", 1)],
      {}, map[], {}, 2, 0)
  }

  /** In that world the metadata of /opt backs no merged hierarchy, so that a refresh may
      remove it, and it backs an overlay that is still mounted. */
  lemma StuckLosesLayer()
    ensures Inv(Stuck()) && StagedSafe(Stuck())
    ensures Unneeded(Stuck(), {Dir(Base, Meta, "/opt")})
    ensures Inv(Stuck().Removed({Dir(Base, Meta, "/opt")}, {})) && !StagedSafe(Stuck().Removed({Dir(Base, Meta, "/opt")}, {}))
  {
    var w, d := Stuck(), Dir(Base, Meta, "/opt");
    StuckNames();
    hide Component;
    assert w.staged.Keys == {(Base, "/opt")};
    assert BuiltIn(w, Base, "/opt", w.staged[(Base, "/opt")]);
    assert StagedOk(w);
    assert Inv(w);
    hide StagedOk, DirsOk, GensOk, SpotsOk;
    RemovedKeeps(w, {d}, {});
    hide Inv;
    assert (Base, "/opt") in w.Removed({d}, {}).staged;
  }

  lemma StuckNames()
    ensures NamesDistinct(Stuck().spots.Keys)
  {
    assert TrimLeft("/usr") == TrimLeft("usr") == "usr" && TrimLeft("/opt") == TrimLeft("opt") == "opt";
    assert TrimRight("usr") == "usr" && TrimRight("opt") == "opt";
    assert Dots("usr")[0] == 'u' && Dots("opt")[0] == 'o';
    assert Stuck().spots.Keys == {"/usr", "/opt"};
  }

  /** A refresh from there that merges /opt ends with an error even if no call fails, and
      takes a layer from the overlay left at its staging point. */
  lemma StuckRefresh(w: World, d: Design, ok: bool)
    requires d.Mounts("/opt") && Outcomes(Stuck(), w, {"/usr", "/opt"}, d, ok)
    ensures Onto(Stuck(), ["/usr", "/opt"], true) && !ok && !StagedSafe(w)
  {
    StuckLosesLayer();
    hide Inv, StagedSafe, SharesWork;
    assert "/opt" in {"/usr", "/opt"} && (Base, "/opt") in Stuck().staged;
    assert Crowded(Stuck(), {"/usr", "/opt"}, d);
    assert "/usr" in ["/usr", "/opt"] && Stuck().At("/usr").stack != [];
  }
}
