/** Worlds in which the engine does not do what one might expect, although no call fails
    of itself (internal/overlay/mounts.go:131-189, internal/overlay/engine.go:161-190 and
    700-741). */
module Corners {
  import opened Maybe
  import opened KernelModel
  import opened Carry
  import opened Unmerging
  import opened Merging
  import opened Runs
  import opened Leftover
  import opened Locking

  const USR := "/usr"

  /** A tmpfs on /usr/lib/foo. */
  const FOO := Sub("lib/foo", 0)

  /** Nothing is merged, and the tmpfs is mounted. */
  function Plain(): World {
    World(map[USR := Spot(true, iset{FOO}, {FOO}, [])], map[], false, {}, map[], {}, map[], {}, 0, 0)
  }

  lemma OneName(w: World)
    requires w.spots.Keys == {USR}
    ensures NamesDistinct(w.spots.Keys)
  {
  }

  /** A first merge of an extension that ships lib/foo as a symlink has no place for the
      tmpfs. It gets as far as its overlay, fails although nothing is merged, nothing is
      staged and no call fails of itself, and puts everything back. */
  lemma SymlinkInTheWay(w: World, j: Job, ok: bool, result: Merging.Result, e: Ending)
    requires j.paths == [USR] && !j.refresh && j.Images() != []
    requires j.Plan().Mounts(USR) && FOO !in j.ext.layouts(j.Images(), USR).tree
    requires Verdict(Plain(), j, ok, result, e) && Ran(Plain(), w, [USR], ok, e)
    ensures Inv(Plain()) && Plain().staged == map[] && !AlreadyMerged(Plain(), [USR], false)
    ensures !ok && e.clean && w.At(USR).stack == [] && w.At(USR).Subs() == {FOO}
  {
    var v := Plain();
    OneName(v);
    assert USR in PathSet([USR]) && FOO in v.At(USR).Subs();
    assert AllFitBare(v, PathSet([USR]));
    assert OriginFound(v, [USR]) == OriginFound(v, []) == None by {
      assert [USR][1..] == [];
    }
    assert e.stage == Replaced && e.clean;
    assert USR in [USR];
    assert OldOrNone(v, w, USR) && Home(v, w, USR);
    hide Inv, Verdict, Ran;
    BackIsSame(v.At(USR), w.At(USR));
  }

  /** A merge has brought the directory lib/foo, which the bare /usr has as a symlink or
      does not have, and the tmpfs is mounted there. */
  function Brought(): World {
    World(
      map[USR := Spot(true, iset{}, {}, [Overlay("x", {InWorkspace(USR, 0)}, None, iset{FOO}, {FOO}, false)])],
      map[], true, {}, map[Dir(Base, Meta, USR) := InWorkspace(USR, 0)], {}, map[], {}, 1, 0)
  }

  lemma BroughtFacts()
    ensures Inv(Brought()) && !FitsBare(Brought(), USR) && !AllFitBare(Brought(), PathSet([USR]))
  {
    OneName(Brought());
    assert FOO in Brought().At(USR).Subs();
    assert USR in PathSet([USR]);
  }

  /** Unmerging it fails and gives the tmpfs up, although no call fails of itself. */
  method UnmergeGivesUp(k: Kernel) returns (ok: bool, n: nat, kept: bool)
    requires k.w == Brought()
    modifies k
    ensures k.faults == old(k.faults) ==> !ok && !kept && k.w.At(USR).stack == [] && FOO !in k.w.At(USR).Subs()
  {
    BroughtFacts();
    hide Inv;
    ok, n, kept := UnmergeInPlace(k, USR);
  }

  lemma UnmergeFails(w: World, kept: bool)
    requires Step(Brought(), Event.Unmerge(kept, true), w, [USR])
    ensures !kept
  {
    BroughtFacts();
  }

  /** And a refresh that has taken this merge off and then fails, for whatever reason,
      cannot be rolled back in full. */
  lemma RollbackGivesUp(w: World, ok: bool, e: Ending)
    requires Ran(Brought(), w, [USR], ok, e) && e.stage == Replaced && w.At(USR).stack == []
    ensures !ok && !e.clean
  {
    BroughtFacts();
    if e.clean {
      assert USR in [USR];
      assert Home(Brought(), w, USR);
      BackFits(Brought(), w, USR);
    }
  }

  /** /usr is merged and /opt is not. */
  function Half(): World {
    Stuck().Without(Staged(Base, "/opt"))
  }

  /** There a refresh that would record what /usr records stops, and /opt stays without a
      merge, even if it is to get one. */
  lemma UnchangedHalf(w: World, j: Job, ok: bool, result: Merging.Result, e: Ending)
    requires j.paths == [USR, "/opt"] && j.refresh && !j.always && j.Images() != [] && j.Content() == "x"
    requires Verdict(Half(), j, ok, result, e) && Ran(Half(), w, [USR, "/opt"], ok, e)
    ensures Inv(Half()) && Uniform(Half(), [USR, "/opt"]) && ok && result == Unchanged
    ensures w.At("/opt").stack == [] && w.At("/opt").present && w.At(USR).stack != []
  {
    hide Inv, StagedSafe, Exposed, SpotOk, Component;
    var v := Half();
    StuckLosesLayer();
    WithoutKeeps(Stuck(), Staged(Base, "/opt"));
    assert v.At(USR).stack != [];
    assert OneOrigin(v, [USR, "/opt"], "x");
    assert OriginFound(v, j.paths) == Some("x");
    assert e.stage == Built;
    hide Verdict;
    assert w.At("/opt") == v.At("/opt") && w.At(USR) == v.At(USR);
  }

  /** An interleaving of processes that do not wait for the lock. */
  ghost predicate Unlocked(states: seq<State>, actions: seq<Action>) {
    && |states| == |actions| + 1
    && states[0].holders == {} && states[0].inside == {}
    && forall i :: 0 <= i < |actions| ==>
         (if actions[i].Acquire? then actions[i].pid !in states[i].inside else Enabled(states[i], actions[i])) &&
         states[i + 1] == Do(states[i], actions[i])
  }

  /** Nothing is merged, one process has merged, and another has done so too. */
  function Raced(n: nat): World
    requires n <= 2
  {
    var v := Brought();
    var o := v.spots[USR].stack[0];
    v.SetSpot(USR, v.spots[USR].(stack := if n == 0 then [] else if n == 1 then [o] else [o, o]))
  }

  lemma RacedSound(n: nat)
    requires n <= 1
    ensures Inv(Raced(n)) && Uniform(Raced(n), [USR]) && Sound(Raced(n), PathSet([USR]))
  {
    BroughtFacts();
    WithoutKeeps(Brought(), Target(USR));
    assert n == 0 ==> Raced(n) == Brought().Without(Target(USR));
    assert n == 1 ==> Raced(n) == Brought() && Raced(n).At(USR).stack[0].origin == "x";
    hide Inv;
    assert OneOrigin(Raced(n), [USR], "x");
    UniformSound(Raced(n), [USR], PathSet([USR]));
  }

  /** Without the lock a hierarchy can get two overlays, although each process by itself
      does what the operations promise: it has looked before the other one acted. */
  lemma WithoutLock() returns (states: seq<State>, actions: seq<Action>)
    ensures Unlocked(states, actions) && RunsOperations(states, actions, [USR]) && RunsSoundly(states, actions, [USR])
    ensures Inv(states[0].world) && Uniform(states[0].world, [USR])
    ensures |states[|actions|].world.At(USR).stack| == 2
  {
    hide Inv, Uniform, Sound, Step;
    RacedSound(0);
    RacedSound(1);
    var before, one := Raced(0), Raced(1);
    actions := [Acquire(0), Acquire(1), Call(1, one), Call(0, Raced(2))];
    states := [
      State({}, {}, before), State({0}, {0}, before), State({0, 1}, {0, 1}, before),
      State({0, 1}, {0, 1}, one), State({0, 1}, {0, 1}, Raced(2))];
    forall i: nat, j: nat, p: Pid | Visiting(actions, i, j, p)
      ensures Sound(states[j].world, PathSet([USR]))
    {
      assert actions[1] == Acquire(1) && actions[3] == Call(0, Raced(2));
    }
  }
}
