/** The lock of internal/overlay/lock.go: any number of processes work on one class and
    root, each between taking and releasing an exclusive lock. */
module Locking {
  import opened KernelModel
  import opened Carry
  import opened Unmerging
  import opened Runs

  type Pid = nat

  datatype Action =
    | Acquire(pid: Pid)            // flock returned
    | Call(pid: Pid, after: World) // one kernel call and its effect
    | Release(pid: Pid)

  /** holders is the kernel's view of the lock; inside are the processes that have
      returned from lock and not yet called unlock. */
  datatype State = State(holders: set<Pid>, inside: set<Pid>, world: World)

  /** An exclusive flock returns only when nobody holds the lock; a process makes
      kernel calls only after lock returned to it and before it unlocks. */
  predicate Enabled(s: State, a: Action) {
    match a
    case Acquire(p) => s.holders == {} && p !in s.inside
    case Call(p, _) => p in s.inside
    case Release(p) => p in s.inside
  }

  function Do(s: State, a: Action): State {
    match a
    case Acquire(p) => s.(holders := s.holders + {p}, inside := s.inside + {p})
    case Call(_, after) => s.(world := after)
    case Release(p) => s.(holders := s.holders - {p}, inside := s.inside - {p})
  }

  /** Any interleaving of the processes. */
  ghost predicate Run(states: seq<State>, actions: seq<Action>) {
    && |states| == |actions| + 1
    && states[0].holders == {} && states[0].inside == {}
    && forall i :: 0 <= i < |actions| ==> Enabled(states[i], actions[i]) && states[i + 1] == Do(states[i], actions[i])
  }

  /** actions[i..j] is one visit of p to its critical section. */
  ghost predicate Section(actions: seq<Action>, i: nat, j: nat, p: Pid) {
    && i < j < |actions| && actions[i] == Acquire(p) && actions[j] == Release(p)
    && forall m :: i < m < j ==> actions[m].pid == p ==> actions[m].Call?
  }

  /** Only p acts between i and j. */
  ghost predicate Alone(actions: seq<Action>, i: nat, j: nat, p: Pid) {
    forall m :: i < m < j && m < |actions| ==> actions[m].pid == p
  }

  /** The processes run Merge, Refresh and Unmerge: a critical section nobody else
      interferes with has the effect of one operation, if it finds the invariant. */
  ghost predicate RunsOperations(states: seq<State>, actions: seq<Action>, paths: seq<Hier>)
    requires |states| == |actions| + 1
  {
    forall i: nat, j: nat, p: Pid :: Section(actions, i, j, p) && Alone(actions, i, j, p) && Inv(states[i].world) ==>
      exists e :: Step(states[i].world, e, states[j].world, paths)
  }

  /** Mutual exclusion. */
  lemma {:induction false} OneInside(states: seq<State>, actions: seq<Action>, i: nat)
    requires Run(states, actions) && i < |states|
    ensures states[i].inside == states[i].holders && |states[i].inside| <= 1
  {
    if i > 0 {
      OneInside(states, actions, i - 1);
      assert Enabled(states[i - 1], actions[i - 1]);
      if actions[i - 1].Release? {
        assert states[i].inside <= states[i - 1].inside;
        SubsetSize(states[i].inside, states[i - 1].inside);
      }
    }
  }

  lemma {:induction false} SubsetSize(a: set<Pid>, b: set<Pid>)
    requires a <= b
    ensures |a| <= |b|
    decreases b
  {
    if x :| x in a {
      SubsetSize(a - {x}, b - {x});
    }
  }

  /** While p is inside, the actions are its own. */
  lemma {:induction false} OnlyHolderActs(states: seq<State>, actions: seq<Action>, i: nat, p: Pid)
    requires Run(states, actions) && i < |actions| && p in states[i].inside
    ensures actions[i].pid == p && !actions[i].Acquire?
  {
    OneInside(states, actions, i);
    assert Enabled(states[i], actions[i]);
    if actions[i].pid != p {
      assert {p, actions[i].pid} <= states[i].inside;
      SubsetSize({p, actions[i].pid}, states[i].inside);
    }
  }

  /** The visit that p is in at step j began at some step i, and only p has acted since. */
  lemma {:induction false} SectionStart(states: seq<State>, actions: seq<Action>, j: nat, p: Pid) returns (i: nat)
    requires Run(states, actions) && j < |states| && p in states[j].inside
    ensures i < j && actions[i] == Acquire(p) && states[i].holders == {}
    ensures forall m :: i < m < j ==> actions[m].pid == p && actions[m].Call?
  {
    assert j > 0;
    var a := actions[j - 1];
    assert Enabled(states[j - 1], a);
    if p !in states[j - 1].inside {
      i := j - 1;
    } else {
      OnlyHolderActs(states, actions, j - 1, p);
      assert !a.Release?;
      i := SectionStart(states, actions, j - 1, p);
    }
  }

  /** When the lock has just become free, it was a visit nobody interfered with that
      ended, and the lock was free when it began. */
  lemma LastSection(states: seq<State>, actions: seq<Action>, j: nat) returns (i: nat, p: Pid)
    requires Run(states, actions) && 0 < j < |states| && states[j].holders == {}
    ensures i < j - 1 && states[i].holders == {} && states[j].world == states[j - 1].world
    ensures Section(actions, i, j - 1, p) && Alone(actions, i, j - 1, p)
  {
    p := actions[j - 1].pid;
    assert Enabled(states[j - 1], actions[j - 1]) && states[j] == Do(states[j - 1], actions[j - 1]);
    OneInside(states, actions, j - 1);
    assert !actions[j - 1].Release? ==> p in states[j].inside;
    OneInside(states, actions, j);
    i := SectionStart(states, actions, j - 1, p);
  }

  /** Whenever the lock is free, however the processes were interleaved: every
      hierarchy carries at most one of our overlays with all its layers, and all merged
      hierarchies carry one and the same origin. */
  lemma {:induction false} SafeWhenFree(states: seq<State>, actions: seq<Action>, paths: seq<Hier>, j: nat)
    requires Run(states, actions) && RunsOperations(states, actions, paths)
    requires Inv(states[0].world) && Uniform(states[0].world, paths)
    requires j < |states| && states[j].holders == {}
    ensures Inv(states[j].world) && Uniform(states[j].world, paths)
    decreases j
  {
    hide Inv, Uniform, Step;
    if j > 0 {
      var i, p := LastSection(states, actions, j);
      SafeWhenFree(states, actions, paths, i);
      var e :| Step(states[i].world, e, states[j - 1].world, paths);
      StepKeepsUniform(states[i].world, e, states[j - 1].world, paths);
    }
  }

  /** From i to j, p has been in its critical section, and nobody else has acted. */
  ghost predicate Visiting(actions: seq<Action>, i: nat, j: nat, p: Pid) {
    && i < j <= |actions| && actions[i] == Acquire(p)
    && forall m :: i < m < j ==> actions[m].pid == p && actions[m].Call?
  }

  /** As Operate and Unmerge prove (Kernel.Kept): while nobody interferes, an operation
      that finds a sound world leaves one after each of its calls. */
  ghost predicate RunsSoundly(states: seq<State>, actions: seq<Action>, paths: seq<Hier>)
    requires |states| == |actions| + 1
  {
    forall i: nat, j: nat, p: Pid :: Visiting(actions, i, j, p) && Sound(states[i].world, PathSet(paths)) ==>
      Sound(states[j].world, PathSet(paths))
  }

  /** Then at every moment, inside the critical sections too, no overlay on a hierarchy
      has lost a layer, no hierarchy carries two of our overlays, and all merged
      hierarchies carry one origin: old and new merges are never side by side. The lock is
      what this needs: two operations at once would interfere. */
  lemma AlwaysSound(states: seq<State>, actions: seq<Action>, paths: seq<Hier>, j: nat)
    requires Run(states, actions) && RunsOperations(states, actions, paths) && RunsSoundly(states, actions, paths)
    requires Inv(states[0].world) && Uniform(states[0].world, paths)
    requires j < |states|
    ensures Sound(states[j].world, PathSet(paths)) && Uniform(states[j].world, paths)
  {
    hide Inv, Uniform, Sound;
    if states[j].holders == {} {
      SafeWhenFree(states, actions, paths, j);
      UniformSound(states[j].world, paths, PathSet(paths));
    } else {
      var p :| p in states[j].holders;
      OneInside(states, actions, j);
      var i := SectionStart(states, actions, j, p);
      SafeWhenFree(states, actions, paths, i);
      UniformSound(states[i].world, paths, PathSet(paths));
      assert Visiting(actions, i, j, p);
    }
    SoundUniform(states[j].world, paths, PathSet(paths));
  }

  /** In particular no hierarchy ever carries two of our overlays. */
  lemma NeverTwo(states: seq<State>, actions: seq<Action>, paths: seq<Hier>, j: nat, h: Hier)
    requires Run(states, actions) && RunsOperations(states, actions, paths) && RunsSoundly(states, actions, paths)
    requires Inv(states[0].world) && Uniform(states[0].world, paths)
    requires j < |states|
    ensures |states[j].world.At(h).stack| <= 1
  {
    AlwaysSound(states, actions, paths, j);
    SpotFacts(states[j].world, h);
  }

  /** The processes' operations give no mounts up. */
  ghost predicate RunsKeepingMounts(states: seq<State>, actions: seq<Action>, paths: seq<Hier>)
    requires |states| == |actions| + 1
  {
    forall i: nat, j: nat, p: Pid :: Section(actions, i, j, p) && Alone(actions, i, j, p) && Inv(states[i].world) ==>
      exists e :: Step(states[i].world, e, states[j].world, paths) && KeepsMounts(e)
  }

  /** Then the mounts below a hierarchy are the same whenever the lock is free. */
  lemma {:induction false} MountsWhenFree(states: seq<State>, actions: seq<Action>, paths: seq<Hier>, j: nat, h: Hier)
    requires Run(states, actions) && RunsKeepingMounts(states, actions, paths)
    requires Inv(states[0].world) && Uniform(states[0].world, paths)
    requires states[0].world.At(h).host <= states[0].world.At(h).Subs()
    requires j < |states| && states[j].holders == {}
    ensures states[j].world.At(h).Subs() == states[0].world.At(h).Subs()
    ensures states[j].world.At(h).host <= states[j].world.At(h).Subs()
    decreases j
  {
    hide Inv, Uniform, Step, KeepsMounts;
    KeepingRuns(states, actions, paths);
    if j > 0 {
      var i, p := LastSection(states, actions, j);
      MountsWhenFree(states, actions, paths, i, h);
      SafeWhenFree(states, actions, paths, i);
      var e :| Step(states[i].world, e, states[j - 1].world, paths) && KeepsMounts(e);
      StepKeepsMounts(states[i].world, e, states[j - 1].world, paths);
      assert Home(states[i].world, states[j - 1].world, h);
      BackIsSame(states[i].world.At(h), states[j - 1].world.At(h));
    }
  }

  lemma KeepingRuns(states: seq<State>, actions: seq<Action>, paths: seq<Hier>)
    requires |states| == |actions| + 1 && RunsKeepingMounts(states, actions, paths)
    ensures RunsOperations(states, actions, paths)
  {
    forall i: nat, j: nat, p: Pid | Section(actions, i, j, p) && Alone(actions, i, j, p) && Inv(states[i].world)
      ensures exists e :: Step(states[i].world, e, states[j].world, paths)
    {
      var e :| Step(states[i].world, e, states[j].world, paths) && KeepsMounts(e);
    }
  }
}
