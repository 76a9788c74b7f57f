/** Whole operations: what one Merge, Refresh or Unmerge does to the world, whatever
    fails in it, and what every sequence of them keeps. */
module Runs {
  import opened Maybe
  import opened KernelModel
  import opened Carry
  import opened Unmerging
  import opened Transaction
  import opened Merging

  /** How an operation ended: its stage; that unmerging lost no mount; that dropping
      what it had built did not fail; that the rollback's own calls, whose errors the
      code ignores, succeeded; and the origin it recorded or would have recorded. */
  datatype Ending = Ending(stage: Stage, kept: bool, tidy: bool, clean: bool, content: string)

  /** h carries the merge it carried, or none. */
  ghost predicate OldOrNone(v: World, w: World, h: Hier) {
    w.At(h).stack == [] || SameMerge(v.At(h).stack, w.At(h).stack)
  }

  /** h carries a merge with this origin, or none. */
  ghost predicate NewOrNone(w: World, h: Hier, content: string) {
    w.At(h).stack == [] || w.At(h).stack[0].origin == content
  }

  /** The mounts below h are back, and the hierarchy itself has the files it had. */
  ghost predicate Home(v: World, w: World, h: Hier) {
    Back(v.At(h), w.At(h)) && w.At(h).tree == v.At(h).tree
  }

  /** The effect of one Merge or Refresh. */
  ghost predicate Ran(v: World, w: World, paths: seq<Hier>, ok: bool, e: Ending) {
    && Inv(w) && w.spots.Keys == v.spots.Keys
    && (forall h :: h !in paths ==> w.At(h) == v.At(h))
    && (StagedSafe(v) && !Exposed(v, PathSet(paths)) ==> StagedSafe(w))
    && (e.tidy && e.clean ==> w.staged.Keys <= v.staged.Keys)
    && match e.stage
       case Built => (forall h :: w.At(h) == v.At(h)) && (e.tidy && e.clean ==> Fewer(v, w))
       case Unwinding =>
         && (forall h :: h in paths ==> OldOrNone(v, w, h))
         && (e.kept ==> forall h :: h in paths ==> Home(v, w, h))
         && (ok ==> e.kept && forall h :: h in paths ==> w.At(h).stack == [])
       case Replaced =>
         && !ok
         && ((forall h :: h in paths ==> OldOrNone(v, w, h)) || (forall h :: h in paths ==> NewOrNone(w, h, e.content)))
         && (e.clean ==> !w.mounted && forall h :: h in paths ==> OldOrNone(v, w, h) && Home(v, w, h))
       case Live =>
         forall h :: h in paths ==> NewOrNone(w, h, e.content) && Home(v, w, h)
  }

  /** What an operation is asked for. */
  datatype Job = Job(mode: Mode, ext: Extensions, paths: seq<Hier>, names: seq<string>, refresh: bool, always: bool) {

    /** The images it is to merge. */
    function Images(): seq<string> {
      Accepted(names, ext.accepts)
    }

    function Plan(): Design {
      Design(mode, Images(), ext.layouts)
    }

    /** The origin it records. */
    function Content(): string {
      ext.document(Images())
    }
  }

  /** How an operation ends in which no call fails of itself, told from the world before.
      It can fail only in these ways: a plain merge finds a merge; a mount does not fit
      what its hierarchy is about to carry; next to a live merge, an overlay left at its
      staging point is in the way; with nothing to merge, a mount does not fit the bare
      hierarchies. It stops exactly when the first merged hierarchy records the origin it
      would record. What unmerging and the rollback give up is what does not fit the bare
      hierarchies. */
  ghost predicate Verdict(v: World, j: Job, ok: bool, result: Merging.Result, e: Ending) {
    var hs := PathSet(j.paths);
    && e.tidy && (e.stage != Replaced ==> e.clean) && (e.stage != Unwinding ==> e.kept)
    && if AlreadyMerged(v, j.paths, j.refresh) then !ok && e.stage == Built
       else if j.mode == No && j.Images() == [] then
         if AnyMerged(v, j.paths) then e.stage == Unwinding && (ok <==> e.kept) && (ok <==> AllFitBare(v, hs))
         else ok && e.stage == Built && result == NothingFound
       else if Current(v, j.paths, j.Content(), j.always) then ok && e.stage == Built && result == Unchanged
       else if !Fitting(v, hs, j.Plan()) then !ok && e.stage == Replaced && (e.clean <==> AllFitBare(v, hs))
       else e.stage == Live && (ok <==> !(Onto(v, j.paths, j.refresh) && Crowded(v, hs, j.Plan())))
  }

  /** run: one Merge (refresh false) or Refresh under the lock. A failure is rolled back
      by abort, a panic is not modelled.

      If no call fails of itself, it ends as Verdict says; if a single call does, and the
      mounts fit, the rollback is exact. Overlays at staging points keep their layers
      unless one was left there that is crowded or shares a work directory. What it
      reports as merged are the accepted images, all mounted in the workspace in the end;
      it counts the others. */
  method Operate(k: Kernel, j: Job) returns (ok: bool, out: Outcome, e: Ending)
    requires Inv(k.w)
    requires forall i :: 0 <= i < |j.paths| ==> j.paths[i] in k.w.spots
    requires k.group <= PathSet(j.paths) && forall i, m :: 0 <= i < m < |j.paths| ==> j.paths[i] != j.paths[m]
    modifies k
    ensures Ran(old(k.w), k.w, j.paths, ok, e)
    ensures ok || e.stage != Built ==> out.merged == j.Images() && out.ignored == |j.names| - |j.Images()|
    ensures ok && e.stage == Live ==> !k.w.mounted || forall name :: name in j.Images() ==> (Base, name) in k.w.images
    ensures e.stage in {Replaced, Live} ==> e.content == j.Content()
    ensures e.stage == Live ==> forall h :: h in j.paths ==> (h in out.hierarchies <==> k.w.At(h).stack != [])
    ensures e.stage == Live ==> forall h :: h in j.paths ==> (j.Plan().Mounts(h) <==> k.w.At(h).stack != [])
    ensures ok ==> (out.result == Merged <==> e.stage == Live)
    ensures ok && out.result == Unchanged ==> e.stage == Built && Recorded(old(k.w), j.paths, e.content)
    ensures k.Kept() && k.faults >= old(k.faults)
    ensures k.faults == old(k.faults) ==> Verdict(old(k.w), j, ok, out.result, e)
    ensures k.faults <= old(k.faults) + 1 && Fitting(old(k.w), PathSet(j.paths), j.Plan()) && AllFitBare(old(k.w), PathSet(j.paths)) ==> e.clean
    ensures e.stage == Live && Onto(old(k.w), j.paths, j.refresh) && k.faults == old(k.faults) ==>
              Outcomes(old(k.w), k.w, PathSet(j.paths), j.Plan(), ok)
  {
    hide Inv, RestoreInv, Unwound, Unmixed, Unneeded, DirsOf, StagedSafe, Exposed, Outcomes, Crowded, Onto, AlreadyMerged, Switched, Current;
    hide AllFitBare, Fitting, Recorded, AllUnmerged, Returnable, Ran, Settled, AnyMerged, Accepted;
    ghost var v := k.w;
    var op := new MergeOp(k, j.mode, j.ext);
    var stage, kept, tidy, content;
    ok, out, stage, kept, tidy, content := op.Run(j.paths, j.names, j.refresh, j.always);
    var clean := true;
    ghost var u, hiers, gen, mark := k.w, op.hiers, op.gen, op.mark;
    if !ok {
      clean := op.Abort(content);
    }
    e := Ending(stage, kept, tidy, clean, content);
    if stage == Built {
      BuiltEnds(v, u, k.w, j.paths, ok, e, gen);
    } else if stage == Unwinding {
      UnwindingEnds(v, u, k.w, j.paths, ok, e);
    } else if stage == Replaced {
      ReplacedEnds(v, u, k.w, j.paths, e, gen.value, mark, hiers);
      ReturnedFit(v, j.paths, hiers);
    } else {
      LiveEnds(v, k.w, j.paths, ok, e);
      OutcomesDecide(v, k.w, PathSet(j.paths), j.Plan(), ok);
      if ok {
        SettledShows(k.w, gen.value, out.merged);
      }
    }
  }

  lemma SettledShows(w: World, g: Gen, images: seq<string>)
    requires Settled(w, g, images)
    ensures !w.mounted || forall name :: name in images ==> (Base, name) in w.images
  {
  }

  lemma OutcomesDecide(v: World, w: World, hs: set<Hier>, d: Design, ok: bool)
    ensures Outcomes(v, w, hs, d, ok) ==> (ok <==> !Crowded(v, hs, d))
  {
  }

  /** When every merge was taken off, all of its mounts can go back exactly when they fit
      the bare hierarchies. */
  lemma ReturnedFit(v: World, paths: seq<Hier>, hiers: seq<HierarchyState>)
    requires Paths(hiers) == PathSet(paths)
    ensures AllFitBare(v, PathSet(paths)) ==> Returnable(v, hiers)
    ensures AllUnmerged(v, hiers) && Returnable(v, hiers) ==> AllFitBare(v, PathSet(paths))
  {
    hide Fit;
    forall j | 0 <= j < |hiers|
      ensures hiers[j].path in Paths(hiers)
    {
      PathIn(hiers, j);
    }
    forall h | h in PathSet(paths)
      ensures exists j :: 0 <= j < |hiers| && hiers[j].path == h
    {
      assert h in Paths(hiers);
    }
  }

  lemma LiveEnds(v: World, w: World, paths: seq<Hier>, ok: bool, e: Ending)
    requires Inv(w) && e.stage == Live && Switched(v, w, paths, e.content)
    requires (StagedSafe(v) && !Exposed(v, PathSet(paths)) ==> StagedSafe(w)) && w.staged.Keys <= v.staged.Keys
    ensures Ran(v, w, paths, ok, e)
  {
    hide Inv, Back, StagedSafe, Exposed;
  }

  lemma BuiltEnds(v: World, u: World, w: World, paths: seq<Hier>, ok: bool, e: Ending, gen: Option<Gen>)
    requires Inv(w) && e.stage == Built && u.spots == v.spots
    requires e.tidy ==> OnlyOurs(v, u, gen)
    requires StagedSafe(v) && !Exposed(v, PathSet(paths)) ==> StagedSafe(w)
    requires if ok then gen == None && w == u else w.spots == u.spots && Fewer(u, w) && (e.clean ==> Dropped(w, gen))
    ensures Ran(v, w, paths, ok, e)
  {
    hide Inv, StagedSafe, Exposed;
    if e.tidy && e.clean {
      NothingLeft(v, u, w, gen);
    }
  }

  lemma UnwindingEnds(v: World, u: World, w: World, paths: seq<Hier>, ok: bool, e: Ending)
    requires Inv(w) && e.stage == Unwinding && Unwound(v, u, paths, e.kept) && w.spots == u.spots
    requires StagedSafe(v) && !Exposed(v, PathSet(paths)) ==> StagedSafe(w)
    requires ok ==> e.kept && forall h :: h in paths ==> u.At(h).stack == []
    requires w.staged.Keys <= u.staged.Keys && (e.tidy ==> OnlyOurs(v, u, None))
    ensures Ran(v, w, paths, ok, e)
  {
    hide Inv, StagedSafe, Exposed;
    forall key | e.tidy && key in w.staged
      ensures key in v.staged
    {
      assert key in u.staged;
    }
    forall h | h in paths
      ensures OldOrNone(v, w, h) && (e.kept ==> Home(v, w, h))
    {
      assert After(v, u, h, e.kept);
    }
  }

  lemma ReplacedEnds(v: World, u: World, w: World, paths: seq<Hier>, e: Ending, g: Gen, mark: nat, hiers: seq<HierarchyState>)
    requires Inv(w) && e.stage == Replaced && Swapping(v, u, g, mark, e.content, hiers) && Unmixed(u, hiers)
    requires Paths(hiers) == PathSet(paths)
    requires StagedSafe(v) && !Exposed(v, PathSet(paths)) ==> StagedSafe(w)
    requires RestoreInv(v, u, w, g, mark, e.content, hiers, 0, e.clean) && (e.clean ==> !w.mounted)
    ensures Ran(v, w, paths, false, e)
  {
    hide StagedSafe, Exposed;
    assert e.clean ==> w.staged == map[];
    hide Inv;
    forall j | 0 <= j < |hiers|
      ensures !hiers[j].attached ==> OldOrNone(v, w, hiers[j].path)
      ensures hiers[j].attached || u.At(hiers[j].path).stack == [] ==> NewOrNone(w, hiers[j].path, e.content)
      ensures e.clean ==> OldOrNone(v, w, hiers[j].path) && Home(v, w, hiers[j].path)
    {
      OneEnds(v, u, w, g, mark, e.content, hiers[j], e.clean);
    }
    forall h | h in paths
      ensures exists j :: 0 <= j < |hiers| && hiers[j].path == h
    {
      assert h in Paths(hiers);
    }
    forall h | h !in paths
      ensures w.At(h) == v.At(h)
    {
      assert h !in Paths(hiers);
    }
  }

  lemma OneEnds(v: World, u: World, w: World, g: Gen, mark: nat, content: string, hs: HierarchyState, clean: bool)
    requires HierOk(v, u, g, mark, content, hs)
    requires clean ==> Restored(v, w, g, hs.path, hs.unmerged)
    requires w.At(hs.path).stack == [] || SameMerge(u.At(hs.path).stack, w.At(hs.path).stack)
    ensures !hs.attached ==> OldOrNone(v, w, hs.path)
    ensures hs.attached || u.At(hs.path).stack == [] ==> NewOrNone(w, hs.path, content)
    ensures clean ==> OldOrNone(v, w, hs.path) && Home(v, w, hs.path)
  {
  }

  // ----- sequences of operations

  ghost predicate OneOrigin(w: World, paths: seq<Hier>, content: string) {
    forall h :: h in paths ==> NewOrNone(w, h, content)
  }

  /** All merged hierarchies carry one origin. */
  ghost predicate Uniform(w: World, paths: seq<Hier>) {
    exists content :: OneOrigin(w, paths, content)
  }

  /** A run; calm says that no call failed of itself in it. */
  datatype Event = Merge(ok: bool, ending: Ending, calm: bool) | Unmerge(kept: bool, calm: bool)

  /** The effect of an operation on a world that satisfies the invariant. */
  ghost predicate Step(v: World, e: Event, w: World, paths: seq<Hier>) {
    Inv(v) ==>
      match e
      case Merge(ok, ending, calm) =>
        Ran(v, w, paths, ok, ending) && (calm ==> ending.tidy && (AllFitBare(v, PathSet(paths)) ==> ending.kept && ending.clean))
      case Unmerge(kept, calm) =>
        Inv(w) && Undone(v, w, paths, kept) && (calm ==> (kept <==> AllFitBare(v, PathSet(paths))))
  }

  /** The effect of one Unmerge. */
  ghost predicate Undone(v: World, w: World, paths: seq<Hier>, kept: bool) {
    && Unwound(v, w, paths, kept) && w.staged.Keys <= v.staged.Keys
    && (StagedSafe(v) && !SharesWork(v, PathSet(paths)) ==> StagedSafe(w))
  }

  lemma {:induction false} StepKeepsUniform(v: World, e: Event, w: World, paths: seq<Hier>)
    requires Inv(v) && Step(v, e, w, paths) && Uniform(v, paths)
    ensures Inv(w) && Uniform(w, paths)
  {
    hide Inv;
    var content :| OneOrigin(v, paths, content);
    if e.Unmerge? {
      assert forall h :: h in paths ==> After(v, w, h, e.kept);
      assert OneOrigin(w, paths, content);
    } else if forall h :: h in paths ==> OldOrNone(v, w, h) {
      assert OneOrigin(w, paths, content);
    } else if e.ending.stage == Built {
      assert OneOrigin(w, paths, content);
    } else {
      assert OneOrigin(w, paths, e.ending.content);
    }
  }

  /** No mount below a hierarchy was given up: unmerging kept them all, and a rollback
      while merges were replaced was clean. */
  predicate KeepsMounts(e: Event) {
    match e
    case Merge(_, ending, _) => (ending.stage == Unwinding ==> ending.kept) && (ending.stage == Replaced ==> ending.clean)
    case Unmerge(kept, _) => kept
  }

  lemma StepKeepsMounts(v: World, e: Event, w: World, paths: seq<Hier>)
    requires Inv(v) && Step(v, e, w, paths) && KeepsMounts(e)
    ensures forall h :: Home(v, w, h)
  {
    hide Inv;
    if e.Unmerge? {
      assert forall h :: h in paths ==> After(v, w, h, e.kept);
    }
  }

  /** Nothing an operation built was left behind. */
  predicate LeavesNothing(e: Event) {
    e.Merge? ==> e.ending.tidy && e.ending.clean
  }

  lemma StepStaged(v: World, e: Event, w: World, paths: seq<Hier>)
    requires Inv(v) && Step(v, e, w, paths)
    ensures LeavesNothing(e) ==> w.staged.Keys <= v.staged.Keys
    ensures StagedSafe(v) && !Exposed(v, PathSet(paths)) ==> StagedSafe(w)
  {
    hide Inv, StagedSafe, SharesWork;
  }

  lemma NothingExposed(w: World, hs: set<Hier>)
    ensures w.staged == map[] ==> StagedSafe(w) && !Exposed(w, hs)
  {
  }

  /** Over every sequence of merge, refresh and unmerge runs, whatever fails in each,
      rollbacks included: no overlay on a hierarchy ever loses a layer, no hierarchy
      carries two of our overlays, and all merged hierarchies carry one origin. */
  lemma {:induction false} AllRunsSafe(worlds: seq<World>, events: seq<Event>, paths: seq<Hier>)
    requires |worlds| == |events| + 1
    requires Inv(worlds[0]) && Uniform(worlds[0], paths)
    requires forall i :: 0 <= i < |events| ==> Step(worlds[i], events[i], worlds[i + 1], paths)
    ensures forall i :: 0 <= i < |worlds| ==> Inv(worlds[i]) && Uniform(worlds[i], paths)
    decreases |events|
  {
    hide Inv, Uniform, Step;
    if events != [] {
      var n := |events| - 1;
      AllRunsSafe(worlds[..n + 1], events[..n], paths);
      assert worlds[..n + 1][n] == worlds[n];
      StepKeepsUniform(worlds[n], events[n], worlds[n + 1], paths);
    }
  }

  /** Overlays at their staging points too: from a world with nothing staged, while every
      run drops what it built, nothing is staged between runs; and the first run that
      leaves something staged takes no layer from it. So no mounted overlay anywhere loses
      a layer up to and including that run. */
  lemma {:induction false} NothingStaysStaged(worlds: seq<World>, events: seq<Event>, paths: seq<Hier>)
    requires |worlds| == |events| + 1
    requires Inv(worlds[0]) && Uniform(worlds[0], paths) && worlds[0].staged == map[]
    requires forall i :: 0 <= i < |events| ==> Step(worlds[i], events[i], worlds[i + 1], paths)
    requires forall i :: 0 <= i < |events| - 1 ==> LeavesNothing(events[i])
    ensures forall i :: 0 <= i < |worlds| ==> StagedSafe(worlds[i])
    ensures forall i :: 0 <= i < |events| ==> worlds[i].staged == map[]
    ensures events != [] && LeavesNothing(events[|events| - 1]) ==> worlds[|events|].staged == map[]
    decreases |events|
  {
    hide Inv, Uniform, Step, StagedSafe, Exposed, LeavesNothing;
    NothingExposed(worlds[0], PathSet(paths));
    if events != [] {
      var n := |events| - 1;
      var first := worlds[..n + 1];
      assert first[0] == worlds[0] && first[n] == worlds[n];
      NothingStaysStaged(first, events[..n], paths);
      AllRunsSafe(first, events[..n], paths);
      assert worlds[n].staged == map[];
      NothingExposed(worlds[n], PathSet(paths));
      StepStaged(worlds[n], events[n], worlds[n + 1], paths);
      forall i | 0 <= i < |events|
        ensures worlds[i].staged == map[]
      {
        assert i < n ==> first[i] == worlds[i];
      }
      forall i | 0 <= i < |worlds|
        ensures StagedSafe(worlds[i])
      {
        assert i <= n ==> first[i] == worlds[i];
      }
    }
  }

  /** And while no run gives mounts up, the mounts below every hierarchy are the same at
      the same relative paths, merged or not, from the first run to the last. */
  lemma {:induction false} MountsOutliveRuns(worlds: seq<World>, events: seq<Event>, paths: seq<Hier>, h: Hier)
    requires |worlds| == |events| + 1
    requires Inv(worlds[0]) && Uniform(worlds[0], paths) && worlds[0].At(h).host <= worlds[0].At(h).Subs()
    requires forall i :: 0 <= i < |events| ==> Step(worlds[i], events[i], worlds[i + 1], paths) && KeepsMounts(events[i])
    ensures worlds[|events|].At(h).Subs() == worlds[0].At(h).Subs()
    ensures worlds[|events|].At(h).host <= worlds[|events|].At(h).Subs()
    decreases |events|
  {
    hide Inv, Uniform, Step, KeepsMounts;
    if events != [] {
      var n := |events| - 1;
      var first := worlds[..n + 1];
      assert first[0] == worlds[0] && first[n] == worlds[n];
      MountsOutliveRuns(first, events[..n], paths, h);
      AllRunsSafe(first, events[..n], paths);
      StepKeepsMounts(worlds[n], events[n], worlds[n + 1], paths);
      assert Home(worlds[n], worlds[n + 1], h);
      BackIsSame(worlds[n].At(h), worlds[n + 1].At(h));
    }
  }

  /** The mounts below every hierarchy fit it without a merge. */
  ghost predicate Homely(w: World, paths: seq<Hier>) {
    forall h :: h in paths ==> w.At(h).host <= w.At(h).Subs() && Fit(w.At(h).Subs(), w.At(h).tree)
  }

  lemma StepHomely(v: World, e: Event, w: World, paths: seq<Hier>)
    requires Inv(v) && Step(v, e, w, paths) && Homely(v, paths) && e.calm
    ensures KeepsMounts(e) && Homely(w, paths)
  {
    assert AllFitBare(v, PathSet(paths));
    assert KeepsMounts(e);
    StepKeepsMounts(v, e, w, paths);
    hide Inv, Step;
    forall h | h in paths
      ensures w.At(h).host <= w.At(h).Subs() && Fit(w.At(h).Subs(), w.At(h).tree)
    {
      assert Home(v, w, h);
      BackIsSame(v.At(h), w.At(h));
    }
  }

  /** In particular no run in which no call fails of itself gives mounts up, whether it
      succeeds or not, if the mounts of the first world fit the bare hierarchies. */
  lemma {:induction false} CalmRunsKeepMounts(worlds: seq<World>, events: seq<Event>, paths: seq<Hier>)
    requires |worlds| == |events| + 1
    requires Inv(worlds[0]) && Uniform(worlds[0], paths) && Homely(worlds[0], paths)
    requires forall i :: 0 <= i < |events| ==> Step(worlds[i], events[i], worlds[i + 1], paths) && events[i].calm
    ensures forall i :: 0 <= i < |events| ==> KeepsMounts(events[i])
    ensures Homely(worlds[|events|], paths)
    ensures forall h :: h in paths ==> worlds[|events|].At(h).Subs() == worlds[0].At(h).Subs()
    decreases |events|
  {
    hide Inv, Uniform, Step, KeepsMounts;
    if events != [] {
      var n := |events| - 1;
      var first := worlds[..n + 1];
      assert first[0] == worlds[0] && first[n] == worlds[n];
      CalmRunsKeepMounts(first, events[..n], paths);
      AllRunsSafe(first, events[..n], paths);
      StepHomely(worlds[n], events[n], worlds[n + 1], paths);
      forall i | 0 <= i < |events|
        ensures KeepsMounts(events[i])
      {
        assert i < n ==> events[..n][i] == events[i];
      }
    }
    forall h | h in paths
      ensures worlds[|events|].At(h).Subs() == worlds[0].At(h).Subs()
    {
      MountsOutliveRuns(worlds, events, paths, h);
    }
  }

  /** If all merged hierarchies carry one origin, an unchanged refresh has found it on
      each of them. It says nothing about those that are not merged. */
  lemma UnchangedMeans(v: World, paths: seq<Hier>, content: string)
    requires Inv(v) && Uniform(v, paths) && Recorded(v, paths, content)
    ensures OneOrigin(v, paths, content)
  {
    var c :| OneOrigin(v, paths, c);
    var h :| h in paths && v.At(h).stack != [] && v.At(h).stack[|v.At(h).stack| - 1].origin == content;
    SpotFacts(v, h);
    hide Inv;
    assert NewOrNone(v, h, c);
    assert c == content;
  }

  /** What a caller may ask for. */
  datatype Request = ToMerge(mode: Mode, ext: Extensions, names: seq<string>, refresh: bool, always: bool) | ToUnmerge

  /** A world with one origin on all merged hierarchies is sound for any of them. */
  lemma UniformSound(w: World, paths: seq<Hier>, hs: set<Hier>)
    requires Inv(w) && Uniform(w, paths) && hs <= PathSet(paths)
    ensures Sound(w, hs)
  {
    var content :| OneOrigin(w, paths, content);
    forall h | h in hs && w.At(h).stack != []
      ensures w.At(h).stack[|w.At(h).stack| - 1].origin == content
    {
      SpotFacts(w, h);
      assert NewOrNone(w, h, content);
    }
    hide Inv;
  }

  /** And sound for all of them, it has one origin. */
  lemma SoundUniform(w: World, paths: seq<Hier>, hs: set<Hier>)
    requires Sound(w, hs) && PathSet(paths) <= hs
    ensures Inv(w) && Uniform(w, paths)
  {
    if h :| h in paths && w.At(h).stack != [] {
      forall g | g in paths && w.At(g).stack != []
        ensures w.At(g).stack[0].origin == w.At(h).stack[0].origin
      {
        SpotFacts(w, g);
        SpotFacts(w, h);
        assert g in PathSet(paths) && h in PathSet(paths);
      }
      hide Inv;
      assert OneOrigin(w, paths, w.At(h).stack[0].origin);
    } else {
      assert OneOrigin(w, paths, "");
    }
  }

  /** Any sequence of runs, as a program: what AllRunsSafe says of the steps holds of the
      operations themselves, and every single call in them leaves a sound world. If none
      fails of itself, all runs are calm, so that mounts which fit the bare hierarchies at
      first are there in the end. */
  method Serve(k: Kernel, paths: seq<Hier>, requests: seq<Request>) returns (ghost worlds: seq<World>, ghost events: seq<Event>)
    requires Inv(k.w) && Uniform(k.w, paths)
    requires forall j :: 0 <= j < |paths| ==> paths[j] in k.w.spots
    requires k.group <= PathSet(paths) && forall i, j :: 0 <= i < j < |paths| ==> paths[i] != paths[j]
    modifies k
    ensures |events| == |requests| && |worlds| == |events| + 1 && worlds[0] == old(k.w) && worlds[|events|] == k.w
    ensures forall i :: 0 <= i < |events| ==> Step(worlds[i], events[i], worlds[i + 1], paths)
    ensures forall i :: 0 <= i < |worlds| ==> Inv(worlds[i]) && Uniform(worlds[i], paths)
    ensures old(k.sound) ==> k.sound
    ensures k.faults == old(k.faults) ==> forall i :: 0 <= i < |events| ==> events[i].calm
    ensures k.faults == old(k.faults) && Homely(old(k.w), paths) ==> forall h :: h in paths ==> k.w.At(h).Subs() == old(k.w).At(h).Subs()
  {
    hide Inv, Uniform, Ran, Unwound, Verdict, StagedSafe, SharesWork, Outcomes, Step, Homely, Sound;
    worlds, events := [k.w], [];
    UniformSound(k.w, paths, k.group);
    for n := 0 to |requests|
      invariant |events| == n && |worlds| == n + 1 && worlds[0] == old(k.w) && worlds[n] == k.w
      invariant forall i :: 0 <= i < n ==> Step(worlds[i], events[i], worlds[i + 1], paths)
      invariant forall i :: 0 <= i <= n ==> Inv(worlds[i]) && Uniform(worlds[i], paths)
      invariant k.w.spots.Keys == old(k.w).spots.Keys && k.Blamed(true)
      invariant k.faults == old(k.faults) ==> forall i :: 0 <= i < n ==> events[i].calm
    {
      ghost var v := k.w;
      ghost var event := ServeOne(k, paths, requests[n]);
      StepKeepsUniform(v, event, k.w, paths);
      worlds, events := worlds + [k.w], events + [event];
    }
    if k.faults == old(k.faults) && Homely(worlds[0], paths) {
      CalmRunsKeepMounts(worlds, events, paths);
    }
  }

  method ServeOne(k: Kernel, paths: seq<Hier>, request: Request) returns (ghost event: Event)
    requires Inv(k.w) && forall j :: 0 <= j < |paths| ==> paths[j] in k.w.spots
    requires k.group <= PathSet(paths) && forall i, j :: 0 <= i < j < |paths| ==> paths[i] != paths[j]
    modifies k
    ensures Step(old(k.w), event, k.w, paths) && k.w.spots.Keys == old(k.w).spots.Keys
    ensures k.Blamed(true) && (event.calm <==> k.faults == old(k.faults))
  {
    hide Sound, Inv, Ran, Unwound, Verdict, StagedSafe, SharesWork, Outcomes;
    ghost var v, faults := k.w, k.faults;
    match request {
      case ToMerge(mode, ext, names, refresh, always) =>
        var job := Job(mode, ext, paths, names, refresh, always);
        var ok, out, e := Operate(k, job);
        RanKeys(v, k.w, paths, ok, e);
        event := Merge(ok, e, k.faults == faults);
        if event.calm {
          CalmVerdict(v, job, ok, out.result, e);
        }
      case ToUnmerge =>
        var ok, unmerged, kept := Unmerging.Unmerge(k, paths);
        UnwoundIs(v, k.w, paths, kept);
        event := Unmerge(kept, k.faults == faults);
    }
  }

  lemma CalmVerdict(v: World, j: Job, ok: bool, result: Merging.Result, e: Ending)
    requires Verdict(v, j, ok, result, e)
    ensures e.tidy && (AllFitBare(v, PathSet(j.paths)) ==> e.kept && e.clean)
  {
  }

  lemma RanKeys(v: World, w: World, paths: seq<Hier>, ok: bool, e: Ending)
    requires Ran(v, w, paths, ok, e)
    ensures Inv(w) && w.spots.Keys == v.spots.Keys
  {
  }

  lemma UnwoundIs(v: World, w: World, paths: seq<Hier>, kept: bool)
    requires w.spots.Keys == v.spots.Keys && (forall h :: h !in paths ==> w.At(h) == v.At(h)) && forall h :: h in paths ==> After(v, w, h, kept)
    ensures Unwound(v, w, paths, kept)
  {
  }
}
