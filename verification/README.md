# A verified model of sysext-alpine

sysext-alpine merges system and configuration extension images into `/usr`, `/opt` and
`/etc` with overlayfs. This project models its hard parts in Dafny and proves what they
promise. `dafny verify dfyconfig.toml` checks everything.

## The merge engine

`kernel.dfy` models what the engine works on: the overlays attached at hierarchies and
at staging points, the mounts below each of them by relative path, the workspace tmpfs
with its generations, and an identity for every directory that can be an overlay layer.
What the files of a hierarchy or an overlay have a place for is a set of mounts, its
`Tree`: `makeMountPoint` finds or makes a mount point for those and for no others, since a
symlink can be in the way or a read-only file system lack the directory.

Class `Kernel` offers the calls of `internal/overlay`. Each of them succeeds or fails as
it likes, and `faults` counts the calls that fail of themselves; a call that the state of
the world makes impossible, such as removing a directory with a mount below it or
attaching a mount that the tree has no place for, is refused and does not count. Counted
as failing of themselves are system calls, and the checks that look at files and settings
which are not part of the world (`Kernel.Other`): reading the mount table, markers and
origins, `usedLayers`, `importedMutableDir`, `hostAsLowerDir`, `mutableDirModeMatches`,
`workDirFor`, `identify` and `pathInRoot`, the checks of an image, making directories,
permissions and times, the read-back of the dev marker; a read-only mutable directory
(`upperDir`); removing a recorded work directory that is in use elsewhere (`RemoveStore`);
and moving two images of one name (`MergeOp.MoveImages`), which discovery rules out. A
directory that a removal has reached is *dead*; `Inv` says that no overlay on a hierarchy
has a dead layer, that no hierarchy carries two of our overlays, where the layers of
overlays at staging points are, and that generations in use are known by name. Every
removal of directories requires that no overlay on a hierarchy needs them, and moving an
overlay that the hierarchy has none and that the others are of the same merge, so each
call site in the engine proves it. `Kernel.sound` records that after every single call
`Inv` held and all merged hierarchies of the kernel's `group`, which the operations work
on, carried one origin; all operations keep it (`Kept`). `StagedSafe` is layer safety for
overlays at staging points, which the code does not always keep (see below).

`carry.dfy`, `submounts.dfy`, `unmerge.dfy`, `engine.dfy` and `merge.dfy` model the
operations themselves, step by step and with every early return. Class `MergeOp` has the
fields of `mergeOp`. `engine.dfy` holds the transaction invariant `Swapping`: every mount
that was visible below a hierarchy is visible there, below its staged overlay, or a
pending clone, and none is there that was not there before; each is in only one of the
three exactly until a mount cannot be detached after it was cloned, an error the code
ignores. A hierarchy carries its old merge, none, or the new one. `runs.dfy` puts whole
operations together, `Ran` being the effect of one:

- stopped while building: every hierarchy is as it was, and when dropping what was built
  did not fail, no mount of the operation stays;
- stopped while old merges are replaced: every hierarchy has its old merge or none, with
  its mounts back, unless one of the rollback's own calls (whose errors the code ignores)
  fails of itself, or a mount of a merge that was taken off does not fit the bare
  hierarchy; even then hierarchies do not mix old and new merges, and no overlay on a
  hierarchy has lost a layer;
- committed: every planned hierarchy carries the new merge with all mounts of the old
  state below it, whatever the cleanup does.

`Runs.Verdict` says how an operation ends in which no call fails of itself, from the world
before and what it is asked for alone. The images it merges and reports are those given
that the check accepts, in order, and the others are counted. A plain merge fails when it
finds a merge. With nothing to merge, merges are taken off. A refresh stops exactly when
the first merged hierarchy records the origin that would be written. Otherwise it replaces
merges, and succeeds exactly when every mount below a hierarchy fits what the hierarchy is
about to carry, and next to a live merge no overlay left at a staging point is in the way.
Unmerging succeeds, and unmerging and the rollback keep all mounts, exactly when these fit
the bare hierarchies. When a single call fails and the mounts fit, the rollback is exact
(`Runs.Operate`).

`AllRunsSafe`, `MountsOutliveRuns`, `CalmRunsKeepMounts` and `NothingStaysStaged` extend
this to every sequence of runs, and `Serve` runs such a sequence. `lock.dfy` takes every
interleaving of processes. At every moment, inside the critical sections too, no overlay
on a hierarchy has lost a layer, none carries two of our overlays, and old and new merges
are not side by side (`AlwaysSound`); that follows from what `Operate` and `Unmerge` prove
of a process nobody interferes with, and from mutual exclusion. Without the lock it fails
(`Corners.WithoutLock`).

`layers.dfy` states what a lookup in a merged hierarchy finds, with merged directories and
whiteouts, and where the host directory is in the stack, for every mutable mode.
`names.dfy` shows when two hierarchies share the directories named after them.
`leftover.dfy` is about overlays that a failed rollback leaves at their staging points,
`corners.dfy` holds worlds in which the engine fails or gives mounts up with no failing call.

## Orders, parsers and walks

- `versions.dfy`: the two-string scanner `CompareVersions` equals the lexicographic order
  of two segment streams computed separately; it is a total preorder. `versionlaws.dfy`:
  what that order means for strings, down to the documented chain.
- `vpick.dfy`, `discover.dfy`: picking from versioned directories, shadowing, sorting.
- `dissect.dfy`: partition selection.
- `gpt.dfy`: the partition table in 64-bit arithmetic; `gpttables.dfy`: tables written by
  the UEFI Specification read back.
- `ber.dfy`: the explicit-stack walker against a recursive reader of ITU-T X.690 sections
  8.1.2, 8.1.3 and 8.1.5; `berobjects.dfy`: what both make of encoded objects.
- `policy.dfy`, `envfile.dfy`, `options.dfy`, `markers.dfy`: parsers and printers;
  `policymeaning.dfy`: what a policy demands; `envlines.dfy`: a grammar of os-release files
  and its meaning.
- `chase.dfy`: symlink resolution confined to a root, and what symlinks stand for.
- `levenshtein.dfy`: the three rotating rows compute the least cost of an edit script.

## Results that are not what one might expect

- A `~` suffix makes a version older, "older than anything, including the end of the
  string" (`internal/discover/version.go:13-15`), except after another `~`: `1~~x` is
  newer than `1~` (`TildeIsOlder` says exactly when).
- When a rollback's own detaches and the teardown of the workspace fail, an overlay
  stays mounted at its staging point `ws/overlay/<h>`. A later refresh that switches h
  removes the metadata layer of that overlay and then fails, although no call fails of
  itself: removing `ws/overlay/<h>` is refused. An operation that commits next to a live
  merge and in which no call fails of itself spares the layers of all overlays at
  staging points if and only if none is left in the workspace itself for a hierarchy it
  switches, and none uses the work directory that an old merge recorded; and it succeeds
  if and only if the former (`Outcomes`, `Leftover`).
- With `ChaseNonexistent`, what follows a missing component does not climb out of it:
  `missing/../x` becomes `missing/x`. The result is the path cleaned as a whole exactly
  when the rest does not climb (`MissingKept`, `internal/fsutil/chase.go:62-70`).
- The hierarchies `/foo/bar` and `/foo.bar` share the name of their mutable and work
  directories, so unmerging one removes the recorded work directory of the other
  (`NamesCollide`, `WorkdirShared`). `/usr` and `/usr/` do too, being one hierarchy
  configured twice. The engine model assumes distinct names.
- A mount whose mount point the new overlay lacks makes a merge fail: with a tmpfs on
  `/usr/lib/foo`, the first merge of an extension that ships `usr/lib/foo` as a symlink
  gets as far as its overlay and fails, although no call does; it is rolled back
  (`Corners.SymlinkInTheWay`). The exact condition is `Fitting` in `Verdict`.
- `unmergeInPlace` and `restoreHost` give up mounts that cannot be attached again. If no
  call fails of itself, `unmergeInPlace` gives up exactly the mounts that the bare
  hierarchy has no place for, such as one on a directory that only the extension brought;
  `Unmerge` and the rollback keep all mounts exactly when there is none (`AllFitBare` in
  `Unmerge`, `Abort` and `Verdict`). At an input: `Corners.UnmergeGivesUp`,
  `UnmergeFails` and `RollbackGivesUp`.
- `cunescape(cescape(s))` fails exactly when s holds a NUL byte (`RoundTrip`).
- `Unchanged` speaks of one hierarchy only, the first with a readable origin. If all
  merged hierarchies carry one origin, as every run leaves them, it holds for each of them
  (`UnchangedMeans`); one that is not merged stays so (`UnchangedHalf`).

## Model

| member | source | states |
|---|---|---|
| KernelModel.RemovedKeeps | internal/overlay/mounts.go:260-269 | a removal that reaches any part of a set of directories no overlay on a hierarchy needs leaves all of those with all their layers |
| KernelModel.RemovalSpares | internal/overlay/mounts.go:260-269 | a removal spares the layers of every overlay at a staging point when nothing is staged in the place of what it reaches |
| KernelModel.RemovalHits | internal/overlay/mounts.go:260-269 | and removing its metadata directory does not |
| KernelModel.GenerationRemovedKeeps | internal/overlay/engine.go:796 | the same for a whole next.* directory, removed fully or in part |
| KernelModel.StoreRemovedKeeps | internal/overlay/overlay.go:411-415 | removing a work directory is safe when no merged hierarchy has its name |
| KernelModel.UnmountedKeeps | internal/overlay/engine.go:668-678 | a lazy detach of the workspace keeps the layers of overlays on hierarchies |
| KernelModel.Kernel.RemoveDirs | internal/overlay/mounts.go:260-269 | refuses while something is mounted below; otherwise reaches only what it was given, and fails only of itself; demands that no overlay on a hierarchy needs it |
| KernelModel.Kernel.AttachClone | internal/overlay/mounts.go:131-189 | attaches one clone; fails of itself, or exactly where the files have no place for it |
| KernelModel.Kernel.MoveOverlay | internal/overlay/engine.go:222-234 | moves an overlay onto a hierarchy; demands that it has none and that all others on hierarchies are of the same merge, and then leaves the world sound |
| Naming.NamesCollide | internal/overlay/markers.go:291-293 | two paths have one component name exactly when, slashes at their ends aside, they differ only in slashes for dots |
| Naming.DotlessNamesDistinct | internal/overlay/markers.go:291-299 | hierarchies without dots have distinct names exactly when no two differ only in slashes at their ends |
| Naming.CollidingNames | internal/overlay/markers.go:291-293 | two pairs of paths, all accepted as hierarchies, that share a name |
| Naming.WorkdirShared | internal/overlay/overlay.go:395-415 | removing the work directory recorded for one hierarchy keeps another merged one intact if and only if their names differ |
| Carry.TakeSubmounts | internal/overlay/mounts.go:83-106 | holds exactly the visible mounts below a directory as clones, or, when a call before that fails, changes nothing; each is in only one place exactly when none could not be detached |
| Carry.SingleExactly | internal/overlay/mounts.go:83-106 | in a transaction too, each mount is in only one place after a take exactly when none stayed behind |
| Carry.AttachSubmounts | internal/overlay/mounts.go:131-189 | exactly the clones that are no longer pending are mounted; success if and only if none is pending; if no call fails of itself, the ones that stay pending are exactly those the place has no room for |
| Carry.Closed | internal/overlay/mounts.go:153-160 | afterwards no clone is pending |
| Carry.MarkAttached | internal/overlay/mounts.go:131-151 | attaching one clone takes its mount out of the pending ones |
| Carry.ConservedTake | internal/overlay/mounts.go:83-106 | taking the visible mounts loses none, also when some stay behind |
| Carry.ConservedMove | internal/overlay/engine.go:222-234 | moving an overlay that holds all mounts onto a hierarchy loses none, also when some are hidden by it |
| Carry.BackIsSame | internal/overlay/engine.go:722-741 | mounts that are back are the same ones at the same relative paths |
| Submounts.SelectSubmounts | internal/overlay/mounts.go:30-56 | returns exactly the visible mounts inside dir, not skipped, that lie in no other such mount; each once, in path order |
| Submounts.TravelsOnce | internal/overlay/mounts.go:30-56 | every carried mount lies inside exactly one selected mount |
| Submounts.PathOrder | internal/overlay/mounts.go:58-62 | comparePaths is antisymmetric, zero only for equal paths |
| Submounts.SortPaths | internal/overlay/mounts.go:54-55 | a sorted permutation |
| Submounts.KeepTop | internal/overlay/mounts.go:41-53 | keeps exactly the paths inside no other of the list |
| Unmerging.UnmergeHierarchy | internal/overlay/overlay.go:384-417 | whatever fails, the hierarchy has its merge or none, each mount below it is visible or a clone in hand, and nothing else is touched but the recorded work directory; success means bare |
| Unmerging.UnmergedSpares | internal/overlay/overlay.go:411-415 | unmerging a hierarchy spares the layers of overlays at staging points if and only if none uses its work directory |
| Unmerging.UnmergeInPlace | internal/overlay/engine.go:801-808 | the mounts are back below the hierarchy unless one could not be attached; if no call fails of itself the merge is off, exactly the mounts that fit the bare hierarchy stay, and it succeeds if and only if all do |
| Unmerging.Unmerge | internal/overlay/overlay.go:340-379 | goes through all hierarchies; success means none is merged, all mounts are kept and the workspace is gone; if no call fails of itself it keeps all mounts, and succeeds, exactly when they fit the bare hierarchies |
| Unmerging.LoosenStore | internal/overlay/overlay.go:407-415 | the recorded work directory is removed only after the overlay that used it |
| Unmerging.AttachBack | internal/overlay/engine.go:801-808 | attaching all clones again restores the mounts below a hierarchy |
| Unmerging.LoosenedFit | internal/overlay/engine.go:801-808 | clones in hand fit below a merge that is still there, and below the bare hierarchy if the mounts fit it |
| Unmerging.GivenUp | internal/overlay/engine.go:801-808 | of the mounts below an unmerged hierarchy exactly those that fit it stay |
| Transaction.SwapStep | internal/overlay/engine.go:196-234 | a step on one hierarchy that keeps its part of the transaction invariant keeps all of it |
| Transaction.SwapTake | internal/overlay/engine.go:439-446 | taking mounts conserves them: from visible or staged to pending |
| Transaction.SwapAttach | internal/overlay/engine.go:211-216 | attaching clones conserves mounts |
| Transaction.PendingPresent | internal/overlay/engine.go:722-741 | clones in hand have a hierarchy to go back to |
| Transaction.SwapStage | internal/overlay/engine.go:416-420 | mounting a new overlay at its staging point keeps the invariant |
| Transaction.SwapMove | internal/overlay/engine.go:222-234 | moving a staged overlay with its mounts onto a bare hierarchy keeps the invariant |
| Transaction.SwapUnmerge | internal/overlay/engine.go:197-210 | unmerging a hierarchy, fully or in part, keeps the invariant |
| Merging.MergeOp.Take | internal/overlay/mounts.go:83-106 | new clones join those in hand; only hierarchy i is touched; on error nothing is |
| Merging.MergeOp.Attach | internal/overlay/mounts.go:131-151 | only hierarchy i is touched; success leaves no clone pending; it fails only when a call fails of itself or a clone does not fit |
| Merging.MergeOp.BuildLayers | internal/overlay/engine.go:355-414 | the new overlay uses only directories made by this operation in its own generation or persistent ones of its own hierarchy, none of them dead; `MadeOf` says which of them for every mutable mode |
| Merging.MergeOp.UpperLayers | internal/overlay/mutable.go:137-203 | in the ephemeral modes the upper directory is in the workspace, with yes, or auto if it exists, the persistent one; the import modes use that as a layer only |
| Merging.MergeOp.WriteDev | internal/overlay/engine.go:516-547 | remounts the staged overlay as often as it may, with hierarchy and mounts untouched; success leaves it staged |
| Merging.MergeOp.MountStaged | internal/overlay/engine.go:355-437 | the hierarchy itself is untouched; success leaves its overlay at the staging point |
| Merging.MergeOp.MergeHierarchy | internal/overlay/engine.go:355-447 | only hierarchy i is touched; success leaves its overlay staged with all its mounts, none below the bare hierarchy and none pending; it fails only when a call fails of itself or a mount does not fit the new overlay |
| Merging.MergeOp.UnmergeOld | internal/overlay/engine.go:197-210 | keeps the invariant; success leaves every hierarchy bare |
| Merging.MergeOp.StageNew | internal/overlay/engine.go:211-221 | keeps the invariant; success leaves every hierarchy staged, or bare with its mounts back; it fails only when a call fails of itself or a mount does not fit where the plan puts it |
| Merging.MergeOp.MoveNew | internal/overlay/engine.go:222-234 | keeps the invariant; a hierarchy has its new overlay or none; the reported ones are those planned |
| Merging.SwapRecording | internal/overlay/engine.go:196-234 | when an overlay is moved, those on all other hierarchies record the same origin |
| Merging.MergeOp.SwapMerges | internal/overlay/engine.go:196-234 | whatever fails, the state can be rolled back and hierarchies do not mix old and new; if no call fails of itself it fails only for a mount that does not fit, with every old merge taken off |
| Merging.MergeOp.RestoreHost | internal/overlay/engine.go:722-741 | leaves a hierarchy nothing was done to alone; otherwise touches no other one, and with its calls succeeding restores the old merge or none, with all mounts; if no call fails of itself it falls short only for a mount of an old merge that does not fit the bare hierarchy |
| Merging.MergeOp.TakeDown | internal/overlay/engine.go:722-736 | the new overlay goes, its mounts become clones |
| Merging.MergeOp.Discard | internal/overlay/engine.go:681-695 | no hierarchy changes and no staged overlay loses a layer; unless a call fails of itself nothing the operation mounted stays |
| Merging.MergeOp.Abort | internal/overlay/engine.go:700-716 | after the commit nothing; while swapping each hierarchy is restored and the workspace is released; before that no hierarchy changes and the layers are dropped; no overlay loses a layer in any case; if none of its calls fails of itself, it falls short of this exactly when a merge that was taken off had a mount that does not fit the bare hierarchy |
| Merging.ReturnFits | internal/overlay/engine.go:722-741 | once its new overlay is down, the clones of a hierarchy fit it unless its old merge is gone and had one that does not |
| Merging.MergeOp.Promote | internal/overlay/engine.go:745-797 | whatever fails, no hierarchy changes and no overlay on one loses a layer; on success the generation is gone, and its images and every new layer are at their final names; if no call fails of itself it succeeds, and staged overlays keep their layers, exactly when none is in the place of a replaced layer |
| Merging.MergeOp.RemoveReplaced | internal/overlay/engine.go:756-765 | removes only layers of replaced merges; what that means for staged overlays, both ways |
| Merging.LayerRemoved | internal/overlay/engine.go:760-764 | removing one layer hits exactly an overlay staged in its place |
| Merging.MergeOp.RenameLayers | internal/overlay/engine.go:779-795 | moves every new layer to its final name; the leftovers back no overlay |
| Merging.CarriedStep | internal/overlay/engine.go:779-795 | one rename moves one layer and no other |
| Merging.ReplacedUnneeded | internal/overlay/engine.go:756-765 | an old directory of a hierarchy this operation switched backs no overlay on a hierarchy |
| Merging.LeftoverUnneeded | internal/overlay/engine.go:796 | after the renames nothing in next.* backs an overlay on a hierarchy |
| Merging.MergeOp.Resolve | internal/overlay/engine.go:105-128 | records which hierarchies exist and are merged, from the state under the lock; a plain merge fails on a merged one |
| Merging.MergeOp.ResetWorkspace | internal/overlay/engine.go:613-622 | a new, empty workspace, or no hierarchy changed |
| Merging.MergeOp.UseWorkspace | internal/overlay/engine.go:629-649 | a generation that was not in use, in a live workspace |
| Merging.MergeOp.MountAll | internal/overlay/engine.go:139-144 | every accepted image is mounted in the operation's own generation, in the order given, and no other stays mounted there; the rejected ones are counted |
| Merging.MergeOp.MountImage | internal/overlay/engine.go:559-601 | an image the check accepts stays mounted, one it rejects is unmounted and counted |
| Merging.PlacesAre | internal/overlay/engine.go:139-144 | each accepted image is merged as often as it was given, and no other is |
| Merging.AcceptedIs | internal/overlay/engine.go:139-144 | and none overtakes another |
| Merging.MergeOp.OldOrigin | internal/overlay/engine.go:297-307 | that of the first merged hierarchy whose origin can be read; none exactly when no read succeeds |
| Merging.MergeOp.UpToDate | internal/overlay/engine.go:181-190 | a refresh stops only when some merged hierarchy records the same origin, and if no call fails of itself exactly when the first merged one does; no hierarchy changes |
| Merging.MergeOp.Plan | internal/overlay/engine.go:251-293 | the states of the hierarchies follow the design: mounted exactly when an extension contributes or the mode is not no |
| Merging.MergeOp.UnmergeFound | internal/overlay/engine.go:163-175 | unmerges up to the first failure, other hierarchies untouched |
| Merging.MergeOp.NothingToMerge | internal/overlay/engine.go:152-175 | drops what was built, then unmerges |
| Merging.MergeOp.SwapAndCommit | internal/overlay/engine.go:195-246 | without commit the state can be rolled back; with it every hierarchy carries the new merge or none as planned with all its mounts, which then fit, whatever the cleanup does |
| Merging.MergeOp.CleanUp | internal/overlay/engine.go:235-246 | after the commit no hierarchy changes; if no call fails of itself it succeeds, and staged overlays keep their layers, exactly as `Outcomes` says of the world before |
| Merging.MergeOp.Replace | internal/overlay/engine.go:195-246 | committed: every hierarchy has the new merge or none, with its mounts, and those reported are those merged; else the state can be rolled back |
| Merging.MergeOp.PlanAndReplace | internal/overlay/engine.go:177-246 | the same from the plan on |
| Merging.MergeOp.Run | internal/overlay/engine.go:105-247 | for each stage it can end in, the state of all hierarchies; what it reports as merged are the accepted images, the rest is counted; the hierarchies reported are exactly those merged, which are those the plan gives an overlay; when it can fail although no call fails of itself |
| Merging.RestoreStep | internal/overlay/engine.go:700-716 | restoring one hierarchy keeps the rollback invariant of the others |
| Merging.CommitFacts | internal/overlay/engine.go:222-238 | when all are moved, every hierarchy carries the new origin and the mounts it had |
| Merging.CommitStaged | internal/overlay/engine.go:196-238 | after the swap the overlays left at staging points are those of before, and have their layers if and only if none shares the work directory of an old merge |
| Merging.CommitSuits | internal/overlay/engine.go:196-238 | what is committed has room for all mounts, so that a merge whose mounts do not fit never commits |
| Merging.PromoteSpared | internal/overlay/engine.go:745-797 | what promoting means for the overlays left at staging points, both ways |
| Runs.Operate | internal/overlay/engine.go:68-103 | one Merge or Refresh with its rollback has the effect `Ran`, whatever fails; what it reports as merged are the accepted images, all mounted in the end; if no call fails of itself, `Verdict` says from the world before how it ends, and `Outcomes` what staged overlays lose; with one such failure and mounts that fit the rollback is exact; after each of its calls the world is sound, if it was at first |
| Runs.ReturnedFit | internal/overlay/engine.go:700-741 | with every old merge taken off, all of its mounts can go back exactly when they fit the bare hierarchies |
| Runs.ReplacedEnds | internal/overlay/engine.go:681-741 | a rollback during the swap gives back the old merge or none, with all mounts |
| Runs.StepKeepsUniform | internal/overlay/engine.go:81-126 | an operation that starts with one origin on all merged hierarchies ends with one |
| Runs.StepStaged | internal/overlay/engine.go:624-797 | an operation leaves staged overlays their layers unless one is exposed, and none behind if it drops what it built |
| Runs.AllRunsSafe | internal/overlay/engine.go:624-797 | over every sequence of runs with any failures: overlays on hierarchies alive, at most one per hierarchy, one origin |
| Runs.NothingStaysStaged | internal/overlay/engine.go:624-797 | from nothing staged, while every run drops what it built, nothing is staged between runs and no overlay mounted anywhere loses a layer |
| Runs.MountsOutliveRuns | internal/overlay/engine.go:681-741 | while no run gives mounts up, the mounts below every hierarchy are the same from the first run to the last |
| Runs.CalmRunsKeepMounts | internal/overlay/engine.go:681-808 | if the mounts of the first world fit the bare hierarchies, no run in which no call fails of itself gives one up, in any sequence, whether it succeeds or not |
| Runs.Serve | internal/overlay/engine.go:68-103 | the operations themselves, in any sequence, take exactly the steps that speaks of, and the world is sound after every single call; if no call fails of itself all runs are calm, and mounts that fit the bare hierarchies at first are there in the end |
| Runs.UnchangedMeans | internal/overlay/engine.go:181-190 | with one origin on all merged hierarchies, an unchanged refresh has found it on each of them |
| Leftover.ReplacedSpares | internal/overlay/engine.go:756-765 | removing the replaced layers of a hierarchy spares staged overlays if and only if none is in their place |
| Leftover.StuckLosesLayer | internal/overlay/engine.go:700-797 | a world, left by a failed rollback, in which a removal the engine may do takes a layer from a mounted overlay |
| Leftover.StuckRefresh | internal/overlay/engine.go:700-797 | a refresh from there that merges the hierarchy fails without a failing call, and does so |
| Corners.SymlinkInTheWay | internal/overlay/mounts.go:162-189 | a first merge over a mount that its extension has as a symlink fails with no failing call, nothing merged and nothing staged, and puts everything back |
| Corners.UnmergeGivesUp | internal/overlay/engine.go:799-809 | unmerging a hierarchy with a mount on a directory only the merge had gives the mount up without a failing call |
| Corners.UnmergeFails | internal/overlay/overlay.go:340-379 | so does Unmerge |
| Corners.RollbackGivesUp | internal/overlay/engine.go:722-741 | and a rollback of a refresh that has taken this merge off, for whatever reason it failed |
| Corners.UnchangedHalf | internal/overlay/engine.go:181-190 | a refresh that would record what one merged hierarchy records stops and leaves the other without a merge, even if it is to get one |
| Corners.WithoutLock | internal/overlay/lock.go:26-43 | an interleaving that differs only in not waiting for the lock, with two overlays on one hierarchy |
| Locking.OneInside | internal/overlay/lock.go:26-43 | mutual exclusion |
| Locking.OnlyHolderActs | internal/overlay/lock.go:26-43 | while a process is inside, every action is its own |
| Locking.SectionStart | internal/overlay/lock.go:26-43 | every visit began when the lock was free, and nobody else acted since |
| Locking.SafeWhenFree | internal/overlay/lock.go:26-43 | for every interleaving, whenever the lock is free: overlays on hierarchies alive, at most one each, one origin |
| Locking.AlwaysSound | internal/overlay/lock.go:26-43 | for every interleaving and at every moment, inside critical sections too: overlays on hierarchies alive, at most one each, one origin; from mutual exclusion and what an operation left alone keeps after each of its calls |
| Locking.NeverTwo | internal/overlay/lock.go:26-43 | in particular no hierarchy carries two of our overlays at any moment |
| Locking.MountsWhenFree | internal/overlay/lock.go:26-43 | for every interleaving whose runs give no mounts up, the mounts below a hierarchy are the same whenever the lock is free |
| Layering.UsedLayers | internal/overlay/engine.go:311-330 | exactly the contributing extensions, last first; fails exactly when one cannot be read |
| Layering.UsedDescends | internal/overlay/engine.go:311-330 | contributing extensions, each once, in descending order |
| Layering.Assemble | internal/overlay/engine.go:360-389 | the layers mounted, and exactly when that fails |
| Layering.StackDescends | internal/overlay/engine.go:365-389 | metadata, what is imported, extensions from the last to the first, the host: in this order |
| Layering.AllDescends | internal/overlay/engine.go:365-395 | and with the upper directory above them all |
| Layering.TopmostFound | internal/overlay/engine.go:365-389 | in merged directories with whiteouts: what is found stands above all else that has the path, and something is found unless it is hidden |
| Layering.TopmostWins | internal/overlay/engine.go:365-389 | so in the stack of a hierarchy with its upper directory: that wins over all layers, and the metadata is found wherever it has the path and the upper directory neither has nor hides it |
| Layering.NewestWins | internal/discover/discover.go:355-362 | with sorted images no path is found in an extension when a strictly newer contributing one has it, merged directories and whiteouts included |
| Layering.HostOnce | internal/overlay/mutable.go:141-203 | in every mutable mode a non-empty host directory is in the stack exactly once, as last layer or as upper directory |
| Versions.CompareVersions | internal/discover/version.go:21-106 | equals the lexicographic order of two independently read segment streams; the laws of `VersionLaws` say what that order is |
| Versions.VersionOrder | internal/discover/version.go:21-106 | total, antisymmetric in sign, zero exactly for equal streams |
| Versions.VersionTransitive | internal/discover/version.go:21-106 | transitive |
| Versions.NumbersByValue | internal/discover/version.go:74-88 | length of the zero-stripped run, then its bytes, is the order of the integers |
| Versions.StripZeros | internal/discover/version.go:74-77 | leading zeros do not change the value |
| Versions.NumbersCompare | internal/discover/version.go:15-16 | numbers of any length compare by value |
| Versions.TildeIsOlder | internal/discover/version.go:13-15 | a `~` suffix is older than its absence unless it follows a `~`, and newer then |
| VersionLaws.PrefixDrops | internal/discover/version.go:16-22 | a common beginning does not matter, as long as no segment goes on behind it |
| VersionLaws.FirstDecides | internal/discover/version.go:18-22 | first characters of different kinds decide: a tilde before the end, then `-`, `^`, `.`, letters, digits |
| VersionLaws.WordsBeforeNumbers | internal/discover/version.go:21-22 | words are older than numbers, behind any common beginning that ends in neither |
| VersionLaws.NumbersFirst | internal/discover/version.go:74-88 | numbers compare by value, then what follows decides |
| VersionLaws.WordsFirst | internal/discover/version.go:89-103 | words compare bytewise, longer is newer, then what follows decides |
| VersionLaws.LongerIsNewer | internal/discover/version.go:18-20 | the longer of two versions is newer unless the rest begins with a tilde |
| VersionLaws.Dropped | internal/discover/version.go:16-18 | other characters in front do not count |
| VersionLaws.DocumentedChain | internal/discover/version.go:23-26 | the documented chain, for all numbers and words |
| Versions.PrefixThenLength | internal/discover/version.go:89-103 | common prefix, then length, is the byte order |
| Versions.CompareSeparatorsAt | internal/discover/version.go:56-64 | both strings pass the same separators, or the first difference decides |
| VersionPick.BetterOrder | internal/discover/vpick.go:126-147 | antisymmetric in sign; zero exactly when all criteria tie |
| VersionPick.BetterTransitive | internal/discover/vpick.go:126-147 | transitive, hence a total preorder |
| VersionPick.NewerWins | internal/discover/vpick.go:122-125 | tries left beat exhausted entries, then the newer version wins |
| VersionPick.PickVersion | internal/discover/vpick.go:67-120 | the first best matching entry; none exactly when none matches; an error exactly when an entry fails to resolve |
| VersionPick.PickUnique | internal/discover/vpick.go:67-120 | there is one such pick |
| VersionPick.PickIsFirstBest | internal/discover/vpick.go:67-120 | the pick, name by name, is that one |
| VersionPick.OrderIrrelevant | internal/discover/vpick.go:67-120 | the same up to ties for every enumeration order |
| VersionPick.SamePick | internal/discover/vpick.go:67-120 | the same pick for every order when entries keep their names |
| VersionPick.TriesExactly | internal/discover/vpick.go:149-194 | accepts exactly `+n` and `+n-m` with 32-bit numbers, decimal or with leading zero octal |
| VersionPick.ParseTries | internal/discover/vpick.go:150-180 | computes that |
| VersionPick.NameReadsBack | internal/discover/vpick.go:50-100 | a name of the prescribed form gives back its version, architecture and counters, or is passed over for a foreign architecture |
| Discovery.Discover | internal/discover/discover.go:143-230 | the first image of each name in search order, stably sorted by version; an error exactly when something cannot be read |
| Discovery.VersionedIsPicked | internal/discover/discover.go:191-208 | a versioned directory stands for its first best entry, or for nothing |
| Discovery.FirstOfEachName | internal/discover/discover.go:215-224 | an image is found if and only if it is the first of its name; names are distinct |
| Discovery.SortedIsStable | internal/discover/discover.go:355-362 | ordered, with ties in their old order |
| Discovery.StableSortUnique | internal/discover/discover.go:355-362 | that determines the result |
| Discovery.ExtractBasename | internal/discover/discover.go:255-282 | name and tail make up the file name, and the name is valid |
| Dissecting.ArchByRank | internal/image/gpt.go:219-240 | compareArch is the order of native, secondary, other |
| Dissecting.PreferOrder | internal/image/dissect.go:141-167 | preference among candidates is a total preorder |
| Dissecting.FirstBestUnique | internal/image/dissect.go:141-167 | there is one first best candidate |
| Dissecting.NewestIsBest | internal/image/dissect.go:138-167 | the first best candidate is the one with no better architecture, no newer label and no equal one before it |
| Dissecting.Dissection.Consider | internal/image/dissect.go:141-167 | keeps the first best candidate of one designator, touches no other; fails exactly when the policy wants it absent |
| Dissecting.Dissection.PickGPT | internal/image/dissect.go:62-130 | the first best candidate for every designator; fails exactly for a partition that is not admissible |
| Dissecting.Dissection.PickMBR | internal/image/dissect.go:169-196 | the first partition of type 0xea and the first bootable Linux partition, and exactly when the policy forbids |
| Dissecting.Dissection.Finish | internal/image/dissect.go:200-284 | succeeds exactly on selections that pass every check, taking the generic partition as root if there is no other |
| Dissecting.Dissection.Dissect | internal/image/dissect.go:47-167 | what is used is the best candidate, native before secondary before others, then the newest label, then the first in the table, or the generic root; nothing is used and ignored; a GPT or an MBR is accepted exactly when the policy admits its partitions and the selection is acceptable |
| Dissecting.SelectionUnique | internal/image/dissect.go:62-130 | a GPT yields one selection |
| Dissecting.MBRUnique | internal/image/dissect.go:169-196 | an MBR yields one selection |
| Dissecting.SameAcceptable | internal/image/dissect.go:200-284 | so acceptance depends on the table alone |
| Dissecting.ProtectedData | internal/image/dissect.go:200-284 | a policy that allows only verity, signed or absent implies a verity partition beside a used one, and signed only a signature |
| Gpt.ParseGPT | internal/image/gpt.go:391-409 | 64-bit code equals the format over unbounded integers: no product, sum or difference wraps |
| Gpt.ParseGPTAt | internal/image/gpt.go:411-485 | the same for one header |
| Gpt.PartitionsInImage | internal/image/gpt.go:459-485 | every partition is non-empty and lies in the image, indices increase, for either header |
| Gpt.PartitionsInRange | internal/image/gpt.go:459-485 | partitions lie in the usable range |
| GptTables.SlotReads | internal/image/gpt.go:459-485 | an entry reads back: type and own GUID, position, attributes, name |
| GptTables.HeadReads | internal/image/gpt.go:416-448 | each header field stands where the format puts it |
| GptTables.HeadUnsealed | internal/image/gpt.go:424-429 | the CRC is taken of the header with zero in place of the CRC |
| GptTables.TableReads | internal/image/gpt.go:411-485 | a table written by the format reads back as the partitions it lists |
| Ber.CheckBERDepth | internal/image/signature.go:307-355 | accepts exactly when the recursive reader succeeds with constructed nesting at most maxDepth |
| Ber.BerHeader | internal/image/signature.go:360-406 | reads the header at an offset, or finds it malformed, for every input |
| Ber.PushFrame | internal/image/signature.go:321-332 | descending into a constructed object leaves what is to be read unchanged |
| Ber.NextChild | internal/image/signature.go:334-351 | so does going on to the next child |
| Ber.PopFinished | internal/image/signature.go:334-351 | so does leaving finished objects, although the offset can move back |
| BerObjects.HeaderIs | internal/image/signature.go:357-406 | a header is read exactly when identifier and length octets of X.690 8.1.2 and 8.1.3 stand there, and says what they say |
| BerObjects.DefiniteReads | internal/image/signature.go:360-406 | every class, tag and definite length of up to 31 bits reads back |
| BerObjects.IndefiniteReads | internal/image/signature.go:379-386 | the indefinite form reads back for a constructed encoding and is refused for a primitive one |
| BerObjects.EncodedAccepted | internal/image/signature.go:303-355 | the encoding of any object is accepted exactly when its constructed objects nest at most maxDepth deep |
| Levenshtein.LeastCost | cmd/sysext/cli.go:420-453 | the distance is the least cost of all edit scripts with adjacent swaps |
| Levenshtein.LastEditCosts | cmd/sysext/cli.go:438-449 | the last edit of a cheapest script costs what the distance grows by |
| Levenshtein.MetricLaws | cmd/sysext/cli.go:420-453 | symmetric, zero exactly for equal strings, between the length difference and the longer length |
| Levenshtein.ComputeDistance | cmd/sysext/cli.go:422-453 | the three rotating rows compute it |
| Levenshtein.FillRow | cmd/sysext/cli.go:439-449 | one row from the two before it |
| Levenshtein.ClosestVerb | cmd/sysext/cli.go:400-418 | the first verb with the shortest rest after the name, else the first nearest within 5, else none |
| ImagePolicy.ParsePolicyFlags | internal/image/policy.go:259-275 | the union of the flags named, or the first error |
| ImagePolicy.ParsePolicy | internal/image/policy.go:211-257 | the rules in order, no designator twice, one default |
| ImagePolicy.FlagsRoundTrip | internal/image/policy.go:107-144 | printing flags and reading them gives the flags without both-on-and-off pairs |
| ImagePolicy.PolicyRoundTrip | internal/image/policy.go:188-257 | the same for policies, read strictly |
| ImagePolicy.SameRequirements | internal/image/policy.go:277-337 | dropping those pairs changes no requirement, derived ones included |
| ImagePolicy.StrictIsLenient | internal/image/policy.go:205-275 | what the strict parser accepts the lenient one reads the same |
| ImagePolicy.NormalizeKeepsRequirements | internal/image/policy.go:184-203 | for all the lenient parser accepts: the normal form is accepted strictly, requires the same of every partition, and is a fixed point |
| ImagePolicy.NormalizePolicy | internal/image/policy.go:188-203 | computes that form |
| PolicyMeaning.SpecialPolicies | internal/image/policy.go:211-222 | `*` admits everything, `-` ignores, `~` demands absence, for every designator |
| PolicyMeaning.RuleMeans | internal/image/policy.go:277-303 | a rule says exactly which findings pass; one that names none admits all |
| PolicyMeaning.AttributesMean | internal/image/policy.go:360-372 | read-only and growfs are demanded exactly when a rule names one of the two values |
| PolicyMeaning.DerivedMeans | internal/image/policy.go:305-328 | what follows for a verity or signature partition from the rule for its data |
| EnvFile.Parse | internal/release/envfile.go:49-199 | equals feeding the bytes to the state machine |
| EnvFile.ParsedGood | internal/release/envfile.go:49-199 | keys start and end without blanks, hold no `=` or newline, and keys and values are valid text without NUL |
| EnvFile.StepOk | internal/release/envfile.go:79-199 | every byte keeps the recorded fields well formed, and the mark of a key cuts exactly the whitespace it ends in |
| EnvFile.ValueTail | internal/release/envfile.go:116-137 | the mark of a value cuts exactly the whitespace that the unescaped text read last ends in, and is unset when there is none |
| EnvFile.FeedLine | internal/release/envfile_test.go:173-210 | a serialized assignment sets exactly its key to its value |
| EnvFile.ParseSerializeParse | internal/release/envfile_test.go:173-210 | parsing what was parsed and serialized gives the same fields |
| EnvLines.FileMeans | internal/release/envfile.go:41-199 | a file of lines of the grammar gives the fields its lines mean: quoted and unquoted values, escapes, continued lines, blanks, comments; the last assignment of a key wins |
| EnvLines.UnquotedReads | internal/release/envfile.go:101-137 | an unquoted value is what stands between the blanks |
| EnvLines.SingleQuotedReads | internal/release/envfile.go:146-151 | between single quotes every character stands for itself |
| EnvLines.EscapedReads | internal/release/envfile.go:139-144 | a backslash takes the meaning from the character behind it |
| Chasing.Chase | internal/fsutil/chase.go:31-94 | the loop equals the component-wise walk, asks about exactly the paths `Inspected` lists, and terminates on every file system |
| Chasing.InspectsInside | internal/fsutil/chase.go:31-94 | every path inspected has only real directories above it, inside the root |
| Chasing.ResultInside | internal/fsutil/chase.go:31-94 | so has the result |
| Chasing.ChaseConfined | internal/fsutil/chase.go:31-94 | both from the root on, with and without ChaseNonexistent; a result resolves to itself |
| Chasing.OnlyMissingDiffers | internal/fsutil/chase.go:62-70 | ChaseNonexistent changes nothing but the error for a missing component |
| Chasing.WalksToMissing | internal/fsutil/chase.go:62-70 | what follows the first missing component is appended |
| Chasing.WalksStraight | internal/fsutil/chase.go:31-94 | a resolved path is walked without detour |
| Chasing.MissingKept | internal/fsutil/chase.go:62-70 | a missing component stays in the result whatever follows, which is the path cleaned as a whole exactly when the rest does not climb |
| Chasing.CleanBelow | internal/fsutil/chase.go:62-70 | cleaning a path below a place and cleaning it alone agree exactly when it does not climb |
| Chasing.LinkStandsFor | internal/fsutil/chase.go:31-94 | a relative symlink stands for its target in the directory it is in, an absolute one for its target from the root, unless there are too many |
| Chasing.DotsStandFor | internal/fsutil/chase.go:31-94 | `..` leads to the parent and nowhere from the root, `.` stays |
| MountOptions.EscapeLayer | internal/overlay/mounts.go:401-411 | escapes backslash, comma and colon |
| MountOptions.SplitOptions | internal/overlay/mounts.go:333-350 | cuts at commas that no backslash protects |
| MountOptions.OptionsSplit | internal/overlay/mounts.go:414-427 | the options split into the lowerdir word, the upperdir and workdir words, and those of extra |
| MountOptions.LayersReadBack | internal/overlay/mounts.go:401-427 | splitting and unescaping lowerdir gives the layers |
| MountOptions.FlagsFromExtra | internal/overlay/mounts.go:314-331 | the mount flags depend on extra alone, and no layer word is dropped |
| MountOptions.MangleMountOptions | internal/overlay/mounts.go:314-331 | flags set and cleared word by word; the rest is passed on |
| MountOptions.MangledOnce | internal/overlay/mounts.go:314-350 | what is passed on holds no generic option any more: mangling it again changes nothing |
| MountOptions.PlainOptions | internal/overlay/mounts.go:314-350 | options without backslashes and without generic, empty or x- words are passed on unchanged |
| Markers.Cescape | internal/overlay/markers.go:161-195 | escapes character by character |
| Markers.Cunescape | internal/overlay/markers.go:200-269 | reads escapes one by one, or fails |
| Markers.RoundTrip | internal/overlay/markers.go:161-269 | unescaping gives back the text, exactly when it holds no NUL |
| Markers.NumericReads | internal/overlay/markers.go:197-269 | hexadecimal escapes stand for their byte or rune; zero and what is no rune is refused |
| Markers.RuneReads | internal/overlay/markers.go:241-253 | a rune is written in UTF-8 |
| Markers.RuneForm | internal/overlay/markers.go:241-253 | in the shortest form, which its first byte marks |
| Markers.EscapedPrintable | internal/overlay/markers.go:161-195 | the escaped form is printable |
| Markers.MarkerReadsBack | internal/overlay/markers.go:119-128 | the work directory marker read as its first line gives back the path |
| Text.SplitJoin | internal/image/policy.go:225-264 | splitting what was joined gives the parts |
| Text.JoinSplit | internal/overlay/mounts.go:314-350 | joining what was split gives the text: what was cut at commas is joined with commas again |

## Left out

- Assumptions on the configuration: hierarchies are distinct, do not lie inside one
  another and do not share names (`NamesDistinct`). The code accepts duplicates
  (`internal/overlay/overlay.go:71-90`).
- A clone that fails because the mount is gone, and mounts by other programs during a run.
- Runs.Operate: says nothing about where mounts are when the rollback falls short (`clean`
  is false then), because the code ignores those errors
  (`internal/overlay/engine.go:731-740`). The layers of overlays on hierarchies and the one
  origin are safe in any case.
- What a tree has a place for is a parameter: for an overlay by hierarchy and set of images,
  for a bare hierarchy the same during a run and over all runs of a sequence (`Home`,
  `MountsOutliveRuns`, `CalmRunsKeepMounts`). That what is mounted has its mount point is
  part of `Inv`.
- Carry.TakeSubmounts: a mount covered by another one at the same path is not in the model.
  `selectSubmounts` passes it over (`internal/overlay/mounts.go:30-40`), the clone holds the
  top one only, and the covered one goes with the overlay that is detached. "Every mount
  below a hierarchy" means the visible ones throughout.
- Unmerging.UnmergeHierarchy: starts from at most one of our overlays on a hierarchy, as
  every run leaves it; the loop would take off more. The read-only bind mount on the
  marker directory, gone when unmerging fails half-way, is not restored by the code; "the
  same merge" disregards it.
- Merging.MergeOp.BuildLayers: stale markers in upper directories are not part of the
  world model.
- Merging.MergeOp.Plan: the origin document is a function of the images, a parameter;
  comparing origins is equality, and collecting identities of images is left out. Whether
  the check accepts an image is a parameter too.
- `HierarchyState` is a datatype in a sequence field of `MergeOp`, where the code keeps
  pointers; states are reached through the operation only, so no aliasing is lost.
- Submounts are sets of relative paths with mount identities; that deeper ones are
  attached later is covered only by `Submounts.SelectSubmounts`.
- A process that dies or panics while it holds the lock; `lock.dfy` takes it that a
  critical section left alone has the effect of one operation and leaves a sound world
  after each of its calls, which `Runs.Operate` and `Unmerging.Unmerge` prove.
- Layering.TopmostWins: redirected directories are not modelled.
- VersionPick.NameReadsBack: takes it that architecture names hold neither `_` nor `+`, as
  all in the table do; the table is not part of the model.
- Discovery.Discover: the rule for valid names and the file system are parameters.
- Dissecting.Dissection.Dissect: root hash and UUID derivation, signature verification and
  the machine ID of /var are parameters; loading a root hash from a signature partition
  is left out.
- Gpt.ParseGPT: CRC-32 is a parameter; entries carry GUIDs and names as stored, formatting
  them is left out, as are the sector size probe and the MBR parser.
- EnvFile.Parse: which byte strings are valid UTF-8 is a parameter.
- ImagePolicy.NormalizeKeepsRequirements: the empty text, which stays empty, is not a
  policy and is excluded.
- Ber.CheckBERDepth: 64-bit overflow of a length cannot occur, since a length beyond the
  data is refused while it is read.
- Loop devices, device-mapper, PKCS#7 and certificates, xattrs, capabilities, services,
  reading files and all user interface but the nearest verb: little logic of their own.
