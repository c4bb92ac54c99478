# Verified models of QEMU's block layer, image tool, jobs and exclusive sections

This project models the parts of QEMU whose correctness is hardest to see from the code and
proves, for all inputs, all interleavings and all runs, what they are for.  It is written for
Dafny 4.11; `dafny verify dfyconfig.toml` checks all of it.

* **Exclusive sections** (`ExclusiveSections`, `ExclusiveEntry`, `ExclusiveProgress`,
  after `qemu/cpu-common.c`).  An interleaving step
  system for any number of CPUs over `pending_cpus`, the per-CPU `running` and `has_waiter` flags, the
  list lock and the two condition variables.  The reads and writes that the code makes outside the lock
  are separate steps.  Proved: mutual exclusion, the counting invariant, no lost wake-up, no deadlock,
  that the section can be entered, and that from every state of every run each call can return.
* **Image rewriting** (`ImageBuffers`, `SparseWrites`, `ImageCompare`, `ImageRebase`, `ImageConvert`,
  `ConvertRuns`, `ConvertOrder`, `ConvertTheorems`, after `qemu/qemu-img.c`).  Block status and I/O are
  methods with a contract and a nondeterministic body, so that callers know nothing but the contract:
  a positive count, a uniform status, ZERO reads as zeroes, unallocated in the whole chain reads as
  zeroes.  The convert coroutines are a step system.  Proved: compare decides equality of the visible
  images; safe rebase keeps the guest's view after every write; a successful convert copies every
  sector under every schedule; in-order mode writes front to back; every run of convert ends, and
  without errors it ends in success.
* **Block graph** (`BlockGraph`, `BlockPerms`, `BlockLoosening`, `BlockEdits`, `BlockTransactions`,
  `BlockStore`, `BlockSteps`, `BlockRefresh`, `BlockMoves`, `BlockInherits`, `BlockBacking`,
  `BlockLayer`, `BlockOperations`, after `qemu/block.c`).  Nodes, edges and the transaction log are values in the
  field of a `Layer` object; the C lists are sets, so every loop runs in any order.  An abort undoes
  the log newest first; the graph it would restore is a function of graph and log, and every step is
  proved to leave that graph alone.  Proved: the permission refresh is sound and complete, taking
  permissions back fails exactly where a size or a driver refuses, each operation succeeds exactly if
  its checks pass and the result can be settled, edits roll back exactly, references are conserved,
  and no edit closes a loop.
* **AioContexts** (`AioContexts`, after `qemu/block.c` and `qemu/blockjob.c`).  The edge-marking
  search moves exactly a connected component, or nothing.
* **Jobs** (`Jobs`, `JobTransactions`, `JobRuns`, `JobFailures`, `JobTheorems`, `JobWakes`,
  `JobProgress`, `JobMixed`, after `qemu/job.c` and `qemu/blockjob.c`).  Each section under `job_mutex` is a step; the coroutines, timers, drained
  sections, monitor commands and the completion of the group interleave freely, also while an abort
  waits for a job.  Where the code asserts, the model records a failure, and no run records one.
  Proved besides: no wake-up is lost, when a group fails as a whole, and exactly when an open group can
  still commit.

## Findings

* `is_allocated_sectors`: its comment (qemu/qemu-img.c:1150-1159) promises the state of the first
  sector.  The code does not keep that: `FirstSectorDoesNotDecide` gives an input, and
  `FirstSectorDecides` the exact condition.
* `img_rebase`: the assertion at qemu/qemu-img.c:4086 holds for every allocation layout exactly if
  the write alignment divides the allocation unit (`WidenedIsFree`).  Compression on an image with
  subclusters does not meet that.
* `img_rebase`: the loop is sure to get on exactly if the write alignment is not larger than the
  buffer of 2 MiB (`WidenedAdvances`); beyond that the widened region may end at or before the offset
  it was made for.
* `bdrv_child_try_set_perm`: its comment expects a loosening not to fail.  It can: taking back `resize`
  while writing is refused on an image whose size is not aligned, nothing changes, and success is
  reported (`MisalignedLooseningFails`).  `LooseningFails` and `DoTrySetPerm` state exactly when: if and
  only if a size or a driver refuses while permissions are handed down.
* `job_do_finalize_locked`: when a prepare callback fails for a job other than the one the call was
  made for, that job still commits (`MixedOutcome`); `AllOrNothing` states exactly when this happens,
  in terms of the answers of the callbacks.

## Model

| member | source | states |
|---|---|---|
| ExclusiveSections.StepKeeps | qemu/cpu-common.c:183-325 | every step of every thread keeps the protocol's invariant |
| ExclusiveSections.RunKeeps | qemu/cpu-common.c:183-325 | the invariant holds in every state of every run, for any number of CPUs |
| ExclusiveSections.MutualExclusion | qemu/cpu-common.c:191-289 | while a CPU is in its exclusive section no other is, and no other executes between `cpu_exec_start` and `cpu_exec_end` |
| ExclusiveSections.CountsWaiters | qemu/cpu-common.c:205-247 | with the list lock free, `pending_cpus` is 0 with nobody counted, or one more than the number of CPUs with `has_waiter` |
| ExclusiveSections.CountedNeverIdles | qemu/cpu-common.c:250-325 | a CPU with `has_waiter` set is never blocked in `exclusive_idle` |
| ExclusiveSections.NoLostWakeUp | qemu/cpu-common.c:183-247 | with the lock free, whoever sleeps on a condition variable still waits for a condition that does not hold |
| ExclusiveSections.NoDeadlock | qemu/cpu-common.c:183-325 | while some thread sleeps, some other thread inside the protocol can take a step of its own |
| ExclusiveEntry.CanEnter | qemu/cpu-common.c:191-233 | for any number of CPUs and any of them there is a run in which it enters the exclusive section |
| ExclusiveProgress.CanReturn | qemu/cpu-common.c:183-325 | from every state of every run, whoever is inside one of the four functions, asleep or not, can be brought to its return, without leaving it in between |
| ExclusiveProgress.StaysInside | qemu/cpu-common.c:183-325 | no step of any thread takes a CPU out of a call, except to where that call returns |
| ExclusiveProgress.CanExecute | qemu/cpu-common.c:250-289 | for any number of CPUs and any of them there is a run in which it executes |
| ExclusiveProgress.NestingCancels | qemu/cpu-common.c:191-247 | an `end_exclusive` after a nested `start_exclusive` restores the state exactly |
| ImageBuffers.FindNonzero | qemu/qemu-img.c:1134-1148 | -1 exactly for a buffer of zeroes, and otherwise the start of the first sector with a non-zero byte, the last one possibly short |
| ImageBuffers.CompareBuffers | qemu/qemu-img.c:1265-1290 | a positive count, chunk-aligned unless it reaches the end, over which the chunks agree uniformly, and whether they differ |
| SparseWrites.IsAllocatedSectors | qemu/qemu-img.c:1160-1211 | progress, ends at the end or on a boundary, a "zero" answer covers only zero sectors, and which answer is given |
| SparseWrites.FirstSectorDoesNotDecide | qemu/qemu-img.c:1150-1211 | an input whose answer is not the state of its first sector |
| SparseWrites.FirstSectorDecides | qemu/qemu-img.c:1150-1211 | exactly when the answer is the state of the first sector |
| SparseWrites.IsAllocatedSectorsMin | qemu/qemu-img.c:1218-1255 | the merging loop keeps that, and "data" swallows only zero gaps shorter than the minimum |
| ImageCompare.CheckEmptySectors | qemu/qemu-img.c:1309-1330 | decides whether a range reads as zeroes, in pieces of the buffer size |
| ImageCompare.CompareRest | qemu/qemu-img.c:1603-1624 | decides whether the part past the shorter image reads as zeroes |
| ImageCompare.Compare | qemu/qemu-img.c:1497-1628 | without I/O errors returns 0 exactly if the visible images are equal after zero padding, else 1, for any segmentation; in strict mode 0 exactly if size, contents and all block status flags reported side by side are equal; these reports are what the images answered, and before a 0 they cover every common byte |
| ImageRebase.WriteEffect | qemu/qemu-img.c:4121-4139 | what a write with copy-on-write of whole units does to the guest's view over any backing |
| ImageRebase.CopyDifferences | qemu/qemu-img.c:4121-4142 | after every single write the view over the old backing is unchanged; afterwards no byte of the region shows a different backing |
| ImageRebase.WidenedIsFree | qemu/qemu-img.c:4074-4088 | the loop's assertion about the widened range holds for all layouts exactly if the write alignment divides the allocation unit |
| ImageRebase.WidenedAdvances | qemu/qemu-img.c:4074-4088 | the widened region reaches beyond the present offset in every case exactly if the write alignment fits the buffer |
| ImageRebase.RebaseRegion | qemu/qemu-img.c:4050-4142 | one turn of the loop keeps the view over the old backing and moves the rebased prefix on |
| ImageRebase.Rebase | qemu/qemu-img.c:3977-4150 | the view over the old backing never changes, also between writes; on success the view over the new backing equals it at every byte, also past either backing's end; it terminates |
| ImageConvert.SelectPart | qemu/qemu-img.c:1701-1711 | the source image that holds a sector of the concatenation, and where it starts |
| ImageConvert.StatusCache.IterationSectors | qemu/qemu-img.c:1713-1818 | chooses a positive range of uniform meaning for the target, data ranges no longer than the buffer, whole clusters for compressed targets; the kind of range is what the block status answer calls for |
| ImageConvert.CoRead | qemu/qemu-img.c:1820-1871 | the buffer holds the sectors of the concatenated sources, across image borders |
| ImageConvert.PieceIsRight | qemu/qemu-img.c:1874-1936 | whichever way a piece is written, in any mode, the target then reads as the source |
| ImageConvert.PlanPiece | qemu/qemu-img.c:1874-1936 | data is written exactly where the buffer offers no aligned stretch of zeroes worth skipping; such a stretch becomes one request for zeroes, or none |
| ImageConvert.CoWrite | qemu/qemu-img.c:1874-1936 | on success the target reads as the source over the range; nothing else changes; every request made is one that `PlanPiece` allows |
| ConvertRuns.StepKeeps | qemu/qemu-img.c:1969-2090 | every step of every coroutine keeps the copy's invariant: each claimed sector is right or owed by its claimer |
| ConvertRuns.StepKeepsLock | qemu/qemu-img.c:1993-2018 | one coroutine at a time asks for a block status; while it does there is something left to claim, and nobody records success |
| ConvertRuns.RunKeeps | qemu/qemu-img.c:1969-2153 | the invariant holds in every state of every run, for any number of coroutines, also where a claim follows an error of another coroutine |
| ConvertTheorems.SuccessCopies | qemu/qemu-img.c:1969-2153 | if the copy reports success every target sector reads as the same sector of the concatenated sources |
| ConvertTheorems.ClaimsPartition | qemu/qemu-img.c:1993-2015 | the claimed ranges ascend without gap or overlap over [0, sector_num), and over the whole image on success |
| ConvertTheorems.ReadFitsBuffer | qemu/qemu-img.c:1820-1827 | the assertion at the head of the reader always holds |
| ConvertOrder.StepKeepsOrder | qemu/qemu-img.c:2037-2081 | every step, errors included, keeps the order invariant: a live predecessor for whoever waits |
| ConvertTheorems.OneWriterAtATime | qemu/qemu-img.c:2037-2081 | in in-order mode at most one coroutine writes, before and after errors |
| ConvertTheorems.WritesInOrder | qemu/qemu-img.c:2037-2081 | before the turn everything is copied, behind the range at the turn nothing is touched, and only the coroutine at the turn writes |
| ConvertTheorems.NoStrandedWaiter | qemu/qemu-img.c:2037-2081 | no two coroutines wait for one offset, and each waiter's predecessor is live, also after an error |
| ConvertTheorems.PredecessorWakes | qemu/qemu-img.c:2065-2081 | when the predecessor finishes, the waiter goes on and does not wait again |
| ConvertTheorems.FinishedHasResult | qemu/qemu-img.c:2083-2090 | the last coroutine to leave records a result |
| ConvertTheorems.RunsAreBounded | qemu/qemu-img.c:1969-2153 | every run is finite: at most 40 steps a sector and 4 a coroutine |
| ConvertTheorems.StuckMeansDone | qemu/qemu-img.c:1969-2153 | a state without a next step has all coroutines finished and a result recorded |
| ConvertTheorems.NoErrorMeansSuccess | qemu/qemu-img.c:1969-2153 | a copy that can go on only by an error, and has recorded none, is finished and successful |
| ConvertTheorems.CanSucceed | qemu/qemu-img.c:1969-2153 | every run without a recorded error can be continued to success |
| ConvertTheorems.ErrorStopsClaims | qemu/qemu-img.c:1993-2018 | after an error at most one more range is claimed, by the coroutine that was asking for it |
| BlockGraph.RecurseHasChild | qemu/block.c:4340-4356 | decides reachability; ends because the graph has no loop |
| BlockGraph.ShouldUpdateChild | qemu/block.c:5241-5318 | false exactly for edges tied to their node and edges below the new node |
| BlockGraph.TopologicalDfs | qemu/block.c:2312-2335 | without duplicates, closed under children, parents before children, adding only the subtree, also across repeated calls |
| BlockPerms.GetCumulativePerm | qemu/block.c:2646-2662 | what some parent requires and what every parent shares |
| BlockPerms.ParentPermsConflict | qemu/block.c:2227-2281 | true exactly if one parent requires what another does not share |
| BlockPerms.RefreshSettles | qemu/block.c:2521-2622 | after a successful refresh every listed node asks of its children what its driver says about its final cumulative permissions, grants those, and has no conflicting parents |
| BlockPerms.RefreshIsComplete | qemu/block.c:2521-2622 | if any choice of permissions settles all listed nodes, the refresh succeeds and finds it; the choice is unique |
| BlockPerms.SettledMeans | qemu/block.c:2521-2558 | a node is settled if and only if its parents share what the others require, nobody writes to it while read-only, nor while unaligned unless somebody may resize it, its driver accepts, and its child edges ask for what the driver says |
| BlockLoosening.RolePromises | qemu/block.c:2773-2921 | exactly what the default functions require and share for each role, permission by permission |
| BlockLoosening.DefaultPermsMonotone | qemu/block.c:2773-2921 | the default permission functions are monotone for every role and node |
| BlockLoosening.DefaultsAreMonotone | qemu/block.c:2283-2299 | a driver that uses them is monotone on all its edges |
| BlockLoosening.LooseningFails | qemu/block.c:2539-2565 | in a settled graph with monotone drivers, the refresh of any looser graph succeeds if and only if no size and no driver check refuses on the way down, and then nothing becomes tighter |
| BlockEdits.AttachAssertsHold | qemu/block.c:1441-1481 | the assertions of the attach callback hold for a child that fits its driver and whose link is free |
| BlockEdits.PointedLinks | qemu/block.c:1441-1499 | `file` and `backing` keep naming exactly the children of the matching roles |
| BlockEdits.LinksName | qemu/block.c:1441-1481 | which link names a child, for each role and kind of driver, and that no other child is named |
| BlockEdits.PointBack | qemu/block.c:2444-2470 | pointing an edge back restores the graph exactly, without tripping an assertion |
| BlockEdits.OneMoreKeepsAcyclic | qemu/block.c:3204-3236 | a new edge closes no loop if its start is not below its end |
| BlockEdits.RedirectClosesLoop | qemu/block.c:5241-5318 | redirecting an edge closes a loop if and only if the edge hangs below the new node |
| BlockTransactions.Recorded | qemu/block.c:2358-2374 | a step whose record undoes it changes nothing about what an abort restores |
| BlockTransactions.UndoneParents | qemu/block.c:2436-2470 | undoing a record moves references between edges, the record and the outside; none is lost |
| BlockStore.PermittedValid | qemu/block.c:2343-2374 | changing an edge's permissions can be rolled back |
| BlockStore.ReplacedValid | qemu/block.c:2431-2512 | so can pointing an edge elsewhere; counts, links and the absence of loops are kept |
| BlockStore.AttachedValid | qemu/block.c:3033-3190 | so can attaching a child |
| BlockStore.InheritedValid | qemu/block.c:3353-3387 | so can changing `inherits_from` |
| BlockSteps.Abort | qemu/block.c:2444-2470 | an abort restores the graph exactly, trips over no assertion, keeps the counts, and drops no node's last reference |
| BlockSteps.Commit | qemu/block.c:2436-2442 | a commit frees exactly the removed edges and schedules the references that records held |
| BlockSteps.NodeRefreshPerm | qemu/block.c:2521-2591 | succeeds exactly if the node may grant its cumulative permissions, and then sets all its child edges |
| BlockSteps.LeafSettleable | qemu/block.c:2521-2591 | a node without children can be settled if and only if it serves its parents as they are |
| BlockSteps.DoRefreshPerms | qemu/block.c:2600-2622 | agrees with the functional refresh, result and failure |
| BlockSteps.SortBelow | qemu/block.c:2632-2644 | the completed list is exactly the roots and all below them, topologically sorted |
| BlockSteps.RefreshDecides | qemu/block.c:2600-2644 | whatever the order of the list, the refresh has one result: the only graph in which all at or below the roots is settled, or failure if there is none |
| BlockSteps.ListRefreshPerms | qemu/block.c:2632-2644 | succeeds exactly if some choice of permissions settles all at or below the roots, and finds it; nothing else changes |
| BlockRefresh.SafeRefresh | qemu/block.c:2699-2752 | after a loosening of a settled subtree it can be settled again exactly if no size and no driver refuses; nothing becomes tighter |
| BlockRefresh.RefreshSubtree | qemu/block.c:2699-2718 | succeeds exactly if the subtree can be settled, and settles it |
| BlockRefresh.LooseningNeverFails | qemu/block.c:2720-2752 | with aligned sizes and accepting driver checks a loosening of a settled subtree always takes effect |
| BlockMoves.AttachChildNoperm | qemu/block.c:3091-3236 | fails exactly for a loop or an inactive child, without effect; otherwise one new edge |
| BlockMoves.AttachClosesLoop | qemu/block.c:3204-3236 | a new edge closes a loop if and only if the parent is at or below the child |
| BlockMoves.AttachAllowedMeans | qemu/block.c:3091-3236 | an attach is allowed if and only if the result has no loop, and an inactive child is only read, and only by an inactive parent |
| BlockMoves.SubtreeKept | qemu/block.c:5359-5391 | redirecting edges that do not hang below the new node does not change its subtree |
| BlockMoves.ReplaceNodeNoperm | qemu/block.c:5359-5391 | fails exactly if an edge to move is frozen or one may not be skipped; otherwise exactly the movable edges move |
| BlockMoves.ReplaceMeans | qemu/block.c:5359-5391 | edge by edge, what a replacement moves and what it leaves; it is possible if and only if no parent that may go is frozen and, unless skipping is allowed, all may go |
| BlockInherits.InheritsFromRecursive | qemu/block.c:3450-3459 | decides whether one node inherits from another over any number of steps |
| BlockInherits.UnsetInheritsFrom | qemu/block.c:3394-3418 | clears exactly the links to root of nodes below the edge that root does not have as a child otherwise |
| BlockBacking.SetFileOrBackingNoperm | qemu/block.c:3493-3578 | succeeds exactly if no stated reason for refusal holds and the new child, in the role the code computes, closes no loop and is not inactive; the resulting graph |
| BlockBacking.LinkSetMeans | qemu/block.c:3493-3578 | in that graph the old edge points nowhere, the parent's link names the new edge, and every other edge is as it was |
| BlockBacking.LinkAllowedMeans | qemu/block.c:3493-3578 | the success condition for a new child, in terms of the graph before the call alone |
| BlockBacking.LinkSetRole | qemu/block.c:3466-3578 | the new edge is a filter's, a backing edge, or takes over the role of the old file edge |
| BlockBacking.LinkSetInherits | qemu/block.c:3353-3578 | for every node, the `inherits_from` it has afterwards |
| BlockLayer.DoAppend | qemu/block.c:5481-5517 | succeeds exactly if the edge can be made, no parent that would move is frozen, and the result can be settled; otherwise the graph is as before |
| BlockLayer.AppendMoves | qemu/block.c:5481-5517 | after an append the new node is directly above the old top, in the role and under the link its driver calls for; every other eligible parent points to it, all other edges are where they were, and its subtree is settled |
| BlockLayer.AppendAsks | qemu/block.c:5481-5517 | with the default permission functions an overlay only ever reads its backing file, and a filter asks below what is asked of it |
| BlockLayer.DoReplaceNode | qemu/block.c:5359-5441 | succeeds exactly if the edges may move and the result can be settled; otherwise the graph is as before |
| BlockLayer.DoSetBacking | qemu/block.c:3493-3607 | succeeds exactly if the link may be changed and the result can be settled; otherwise the graph is as before |
| BlockLayer.BackingMeans | qemu/block.c:3493-3607 | afterwards the old backing edge is gone, the new one is in its place, and all others are where they were |
| BlockLayer.BackingSettled | qemu/block.c:3586-3607 | afterwards the subtree is settled |
| BlockOperations.DoTrySetPerm | qemu/block.c:2720-2752 | takes effect exactly if the result can be settled, otherwise changes nothing; an error is reported only for a tightening; a loosening of a settled subtree takes effect exactly if no size and no driver refuses |
| BlockOperations.MisalignedLooseningFails | qemu/block.c:2545-2558 | a valid graph and a loosening that has no effect although success is reported |
| BlockOperations.DoUnrefChild | qemu/block.c:3326-3351 | the edge is gone, all others are where they were, and the subtree is settled if that is possible: after a settled graph exactly if no size and no driver refuses |
| BlockOperations.DoAttachChild | qemu/block.c:3288-3319 | succeeds exactly if the edge can be made and the result can be settled, otherwise no change; the caller's reference is taken over either way |
| BlockOperations.Layer.constructor | qemu/block.c:411-440 | nodes just opened, with one reference each and nothing attached, form a valid layer |
| BlockOperations.Layer.Append | qemu/block.c:5481-5517 | the same on the object, which stays valid: no loop, exact links, exact reference counts |
| BlockOperations.Layer.ReplaceNode | qemu/block.c:5403-5447 | the same, with the success condition of `DoReplaceNode` |
| BlockOperations.Layer.SetBackingHd | qemu/block.c:3586-3607 | the same, with that of `DoSetBacking` |
| BlockOperations.Layer.AttachChild | qemu/block.c:3288-3319 | the same, with that of `DoAttachChild`; one outside reference less |
| BlockOperations.Layer.RootUnrefChild | qemu/block.c:3326-3351 | the same, with the permissions as `DoUnrefChild` leaves them |
| BlockOperations.Layer.ChildTrySetPerm | qemu/block.c:2720-2752 | the same for a change of permissions, as `DoTrySetPerm` states it |
| BlockOperations.Layer.DropScheduled | qemu/block.c:7162-7195 | a scheduled unref that is not the last keeps the layer valid and the graph as it is |
| BlockOperations.Layer.NoLoop | qemu/block.c:2436-2512 | in a valid layer there is no loop, and each count is the incoming edges plus outside and scheduled references |
| AioContexts.ChangeNode | qemu/block.c:7653-7689 | the search keeps its marking invariant, schedules only what is connected, and fails only for somebody who cannot follow; each recursion marks a new edge |
| AioContexts.ParentChange | qemu/block.c:7569-7595 | the same for a parent edge and the callback of its class |
| AioContexts.JobChange | qemu/blockjob.c:147-171 | the same for all nodes of a job |
| AioContexts.WholeComponent | qemu/block.c:7653-7739 | a finished search has scheduled exactly the connected component, users included |
| AioContexts.MovedUniform | qemu/block.c:7627-7689 | moving a component keeps joined nodes in one context |
| AioContexts.Contexts.TryChangeAioContext | qemu/block.c:7702-7739 | all or nothing: fails exactly if somebody attached cannot follow, and then changes nothing |
| Jobs.EnterIsSafe | qemu/job.c:538-561 | a wake-up goes only to a coroutine suspended in the job layer that has none under way |
| Jobs.PauseValid | qemu/job.c:697-740 | pausing keeps the job's invariant and records exactly one more request |
| Jobs.PauseRoundTrip | qemu/job.c:697-765 | a pause, by a drained section or the user, is undone by its resume |
| Jobs.ResumeValid | qemu/job.c:711-765 | resuming keeps it, the callback's assertion included |
| Jobs.ErrorStopValid | qemu/blockjob.c:578-622 | stopping on an I/O error keeps it, and leaves the error status set and the job paused by the user |
| Jobs.CancelAsyncValid | qemu/job.c:895-931 | a cancel request keeps it and never weakens force |
| Jobs.CancelAsyncMeans | qemu/job.c:895-931 | a cancel request ends the user's pause only, and a soft one after the job is done is ignored |
| Jobs.PauseStepValid | qemu/job.c:609-649 | the pause point keeps it |
| Jobs.PausePointHolds | qemu/job.c:609-649 | a pause point lets the coroutine go on if and only if nobody asks for a pause or it is cancelled by force |
| Jobs.WakeStepValid | qemu/job.c:578-649 | resuming from a yield keeps it, and finds the job busy |
| Jobs.DriverStepValid | qemu/job.c:657-689 | yielding, sleeping, becoming ready and ending keep it |
| Jobs.TimerFiresValid | qemu/job.c:384-389 | a timer keeps the invariant and wakes the coroutine that set it |
| Jobs.SleepsUndisturbed | qemu/job.c:657-689 | a driver is put to sleep only without a request to pause and not after a cancel by force |
| JobRuns.FinalizeFirstKeeps | qemu/job.c:936-976 | a turn of the abort loop keeps the group's invariant |
| JobRuns.PrepareAllRight | qemu/job.c:979-1015 | the jobs are prepared in list order: those before the first callback that fails without error, that one fails, the later ones are not asked |
| JobRuns.DoFinalizeKeeps | qemu/job.c:1003-1015 | finalization keeps the group's invariant, and the answers of the callbacks decide between success and which failure |
| JobRuns.CompletedKeeps | qemu/job.c:1044-1082 | so does the completion of a job |
| JobRuns.CancelKeeps | qemu/job.c:1144-1178 | so does a cancel command, in any state of the group |
| JobRuns.RunKeeps | qemu/job.c:391-1170 | the invariant holds in every state of every run, plain `job_enter` calls included, and a decided group stays decided |
| JobFailures.StaysSunk | qemu/job.c:1044-1103 | a started job that was cancelled by force or ended with an error stays so, whatever else happens, until its group has failed |
| JobFailures.ExitDecides | qemu/job.c:1044-1103 | an exit in an open group: failed on error or force, finalized as the answers say if it was the last and nobody waits for the user, otherwise still open |
| JobFailures.PrepareFailsByFinalizing | qemu/job.c:979-1068 | nothing but the call of `job_do_finalize_locked` leaves a group with a failed prepare |
| JobTheorems.StatusAssertionsHold | qemu/job.c:59-221 | no assertion fails in any run, those against the transition table included; a started job is paused exactly in PAUSED and STANDBY |
| JobTheorems.PauseConservation | qemu/job.c:697-765 | `pause_count` is 1 if not started, plus 1 if paused by the user, plus the open drained sections; an I/O error status implies paused by the user |
| JobTheorems.WakeHandshake | qemu/job.c:538-606 | at most one wake-up per yield, none to a coroutine in its driver or past its end, and `busy` on resumption |
| JobWakes.NoLostWakeUp | qemu/job.c:538-765 | in every state of every run a coroutine suspended in a pause point without a wake-up under way is still asked to pause or cancelled by force, and a sleeping one without a wake-up under way is not asked to pause |
| JobWakes.ResumeKicks | qemu/job.c:711-765 | the end of the last request wakes a suspended coroutine, and leaves one alone that sleeps on a timer |
| JobWakes.FinalizedStatus | qemu/job.c:802-888 | a finalized job is concluded, and gone at once exactly if it dismisses itself or never started |
| JobWakes.ConcludedStays | qemu/job.c:768-798 | in every run a concluded job stays so until it is dismissed |
| JobTheorems.ErrorFailsGroup | qemu/job.c:1071-1103 | if a started job was cancelled by force, or has ended with an error, while the group is open, no job of the group commits in any state of the run |
| JobTheorems.ForceCancelFailsGroup | qemu/job.c:1144-1170 | after a cancel by force of any job of an open group, started or not, no job of the group ever commits; if it was not started or had ended the group has failed at once |
| JobTheorems.FailedNeverCommits | qemu/job.c:853-976 | in a group that failed that way no job commits, before or after |
| JobTheorems.CommitMeansAll | qemu/job.c:853-1068 | if a job commits, all do, having completed and prepared with 0; or a prepare failed and it is the job the finalization was called for |
| JobTheorems.AllOrNothing | qemu/job.c:936-1015 | a finalized group is all or nothing if and only if no prepare callback fails or the first that does is that of the job the finalization is called for |
| JobTheorems.MixedOnlyByFinalizing | qemu/job.c:936-1015 | a group that was not all or nothing went through such a call, in which the first failing callback was another job's |
| JobTheorems.AbortWaitsForCancelled | qemu/job.c:965-972 | the abort loop only waits for jobs that were cancelled by force |
| JobProgress.CanEnd | qemu/job.c:538-765 | from every state of every run a job that has not completed can be brought to its end |
| JobProgress.CanCommit | qemu/job.c:979-1103 | a run of an open group that nothing stands against can be continued to its commit |
| JobProgress.CommitPossible | qemu/job.c:936-1103 | an open group can still commit if and only if no job was cancelled by force or failed, and one is still at work or awaits finalization |
| JobMixed.MixedOutcome | qemu/job.c:955-1015 | there is a run in which one job of the group aborts and the other commits |

## Left out

- Opening, probing, reopening, filenames and options of block nodes, and `bdrv_replace_child_bs`, which relies on its callers for the absence of loops.
- Drained sections and polling in the graph code: everything is taken to be drained as the comments require.
- Moves between AioContexts inside an attach: the graph edits take one context, moves are modelled on their own, without an ignored child.
- Block limits: the image size is aligned or not, once and for all; `bdrv_refresh_limits` is not modelled.
- Updates in place inside a graph operation: the steps of an operation pass the store on as a value, and the `Layer` object takes the result.
- The order of the C lists of parents and children, op blockers, node names and the freeing of nodes whose last reference is dropped.
- Nodes without a driver that still have children: edits take such nodes to have none; the refresh handles them.
- BlockOperations.DoUnrefChild: leaves out the move of the node back to the main AioContext.
- BlockBacking.SetFileOrBackingNoperm: for filters, callers ask for the link that the driver uses, which the code leaves to an assertion.
- CPU hotplug during the exclusive protocol, weak memory below the explicit barriers, and work queues.
- Salvage mode, bitmaps, progress and rate limits of convert; convert works on whole sectors and block status is asked in whole sectors.
- ImageRebase.Rebase: takes the write alignment to be no larger than the buffer, since otherwise the loop need not end (`WidenedAdvances`).
- ImageConvert.StatusCache.IterationSectors: leaves out the retries of salvage mode, and takes the lengths of block status answers to be whole sectors.
- `qemu-img` option parsing, `bench`, `dd`, `resize`, `amend`, `measure`, and the printing of results.
- Job reference counts, the `complete` verb, `set-speed` and `change`, internal jobs, events, and jobs added to a running transaction.
- Liveness of aborting a group with jobs that were never started: the code waits for a coroutine that does not exist.
- JobTheorems.AllOrNothing: speaks only of the jobs that were not dropped before they started.
