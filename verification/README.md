# A model of the LVM LocalPV provisioning protocol

LVM LocalPV is a CSI driver for Kubernetes that provisions logical volumes (LVs) on the volume
groups of cluster nodes. This project models how it does so and proves what it promises.

The centre is the provisioning protocol, which three parties run over one store of `LVMVolume`
records. The CSI controller creates, awaits, reschedules, expands and deletes records. The
Kubernetes store accepts a write only against the current resource version, and keeps a deleted
record, marked, until its finalizer goes. The agent on each node turns a Pending record into an
LV, and records the volume group before it creates the LV there, so that a crash leaks nothing.

`Protocol.dfy` states this as a step relation. A step is one access to the store or one LVM
command, by one party, about one volume name; syncs of several nodes, controller calls, crashes,
restarts, expansions and deletions interleave between any two steps, and deleted names may come
back on other nodes. What each sync and call remembers between its steps is part of the state.
Around it sit the joint protocol of volumes and snapshots (`Snapshots.dfy`) and of volumes and
mounts (`MountSafety.dfy`), the agents' syncs as the code runs them (`Agent.dfy`, `BestFit.dfy`,
`SnapshotAgent.dfy`), and the pieces the protocol relies on: rounding and snapshot sizes, double
precision included, device names, volume group selection, scheduler weights and reported capacity,
the topology index, and node expansion.

## Premises

- P1: LVM is exact. Existence checks are right, a failing lvcreate leaves no LV, a failing
  lvremove removes none, a mounted LV is not removed, and only an LV that is there can be mounted.
  Snapshot LVs outlast their origin, as thin ones do; removing a thick origin takes its snapshots
  along (pkg/lvm/lvm_util.go:254-262), which the steps do not do. P1 is part of the steps themselves.
- P2: a sync starts from the stored record, and two syncs of one key on one node do not overlap;
  both are part of the steps. A key on a node's queue names a record that node may sync
  (`CanStart`, `SnapCanStart`).
- P3: a record is deleted only when nothing of it can be left behind (`CanDelete`, `CanDrop`); it
  suffices that it has left Pending.
- P4: CSI calls about one volume do not overlap, as "Concurrency" under RPC Interactions in the CSI
  specification v1.2.0 asks of callers. Expand calls may overlap each other all the same.
- P5: no snapshot is taken of a volume that is marked for deletion and still has its LV
  (`CanTake`).

For volumes `Rules` says which of them a run keeps to: `Code` none but P1, `Premises` P2 and P3,
`Serial` P4 as well. For volumes and snapshots together `WorldRules` does: `Open` none but P1,
`Unchecked` P2 to P4 for volumes while snapshots do as the code does, `Checked` P2, P3 and P5 for
snapshots as well.

## What the code does not see to

Where a promise fails, the model does what the code does, a lemma shows the failure, and another
says exactly when the promise holds.

- P3 is not enforced: a Pending record has no finalizer, so a delete call removes it while its
  agent may be about to create the LV (`DeleteSafeIff`, `DeletableSuffices`, `DeletableIsTight`,
  `DeletingPendingLeaks`).
- P2 is not enforced: the event handlers compare the owner, but the sync itself does not, and a key
  queued by a delete event can meet a re-created record that another node owns (`StartSafeIff`,
  `StaleKeyLeaks`).
- The same holds of snapshots. Deleting a Pending one leaves its LV without a record, and then lets
  its origin be deleted under it (`DropSafeIff`, `LeftPendingCanDrop`, `PendingDropIsTight`,
  `DroppingPendingOrphans`). A stale key lets another node release a record whose LV remains, or keep
  a sync of a Pending snapshot until the origin's name has come back on that node
  (`SnapStartSafeIff`, `StaleSnapKeyLeaks`, `StalePendingKeyLeaks`). The exceptions are origins that
  cannot move: one that a stuck snapshot holds where it is, and, for the key, one that is not where
  the snapshot is to be made.
- P5 is not enforced: taking a snapshot does not look at the origin's deletion mark (`TakeSafeIff`,
  `TakingMarkedOrphans`).
- Creating a snapshot's LV does not look for it first, so a crash before the record's update leaves
  the snapshot stuck: it never becomes Ready (`SnapshotReadyIff`, `StuckForGood`,
  `CrashMakesStuck`), it cannot be deleted without a trace (`SnapshotDeletableIff`), and deleting it
  all the same leaves its LV behind (`StuckDropLeaks`).
- Rounding overflows beyond MaxInt64-Gi+1 (`RoundedCoversRequestIff`).
- An absolute snapshot size goes through a double. Beyond 2^63-513 bytes it is lost, as if none had
  been given (`AbsoluteSizeIsLostIff`, `SnapSizeBounds`), and above 2^53 it falls short of what was
  asked for when it is a little above a multiple of Gi (`AbsoluteSizeFallsShortIff`,
  `SmallSizesAreCovered`).
- The topology index is registered with the informer of LVM nodes (pkg/driver/controller.go:224) and
  looked up in that of Kubernetes nodes (pkg/driver/controller.go:831, 855), where it is never found.
  So the code always scans; that the path through an index would answer alike is
  `IndexRefinesScan`.
- LV names that start with a hyphen are confused (`LeadingHyphenIsConfused`), and snapshot names
  that differ in the prefix alone share an LV name (`SnapLvNamesCollideIff`).
- docs/storageclasses.md:203 says that the volume group with the largest free capacity is used; the
  code tries the one with the least first, and the model follows the code.

## Operations

The functions below are the operations that the lemmas speak of.

| operation | source |
|---|---|
| `Protocol.DoStart` and the queue updates in `Removed`, `Write`, `ApiDelete` | pkg/mgmt/volume/volume.go:46-136 |
| `Protocol.DoDestroy`, `DoFinalize` | pkg/mgmt/volume/volume.go:171-177 |
| `Protocol.DoCreate`, `DoList`, `DoAssign`, `DoPublish` | pkg/mgmt/volume/volume.go:190-225 |
| `Protocol.Requeue` | pkg/mgmt/volume/volume.go:326-377 |
| `Protocol.CallStep` for create calls, with `Processed` | pkg/driver/controller.go:147-336 |
| `Protocol.CallStep` for delete calls | pkg/driver/controller.go:411-435 |
| `Protocol.CallStep` for expand calls | pkg/driver/controller.go:505-585 |
| `Protocol.DoValidate` with `Snapshots.NoSnapshotOf` | pkg/driver/controller.go:517-538, 882-925 |
| `Snapshots.DoTake`, `DoDrop` | pkg/driver/controller.go:590-735 |
| `Snapshots.DoSnapStart`, `DoSnapDestroy`, `DoSnapFinalize`, `DoSnapCreate`, `DoSnapPublish` | pkg/mgmt/snapshot/snapshot.go:42-103 |
| `Capacity.RoundedCapacity` | pkg/driver/controller.go:126-139 |
| `SnapshotSize.AskedSize`, `SnapSize`, `RecordedSize` | pkg/driver/controller.go:641-700 |
| `Names.VolumeDevPath`, `SnapLvName` | pkg/lvm/lvm_util.go:367-376, 557-559 |
| `Mounts.Verify`, `Published`, `Unpublished`, `MountSafety.MountNext` | pkg/lvm/mount.go:84-220 |
| `Resize.Resized` | pkg/lvm/lvm_util.go:401-437 |
| `Agent.Site.Update`, `SnapshotAgent.SnapSite.Update`, `SnapshotAgent.SnapSite.CreateSnapshot`, on which the sync methods rest | pkg/lvm/volume.go:205-309, pkg/lvm/lvm_util.go:508-525 |

## Model

| member | source | states |
|---|---|---|
| Theorems.LeakFreedom | pkg/mgmt/volume/volume.go:190-225 | Under P2 and P3, in every reachable state of every run, with crashes, retries, reschedules, deletions and re-creations: an LV exists only where a record of its name says, on its owner and in its volume group; so a name has at most one LV in the whole cluster |
| Theorems.CarefulRunsAreLeakFree | pkg/driver/controller.go:424-429 | The same for every run of the code in which deleted records have left Pending, or have no volume group yet, and syncs start on the owner: conditions visible in the record alone |
| Theorems.StatesMeanWhatTheySay | pkg/lvm/volume.go:180-202 | In every state reachable under P2 and P3: Ready and unmarked means finalizer, a recorded volume group that the pattern accepts, and exactly the one LV; Failed means an error, no finalizer and no LV anywhere; a marked record is Ready and has its finalizer |
| Theorems.DeletionOrder | pkg/mgmt/volume/volume.go:171-177 | Every step of every run under P2 and P3: a record leaves the store only without an LV, an LV goes only from a marked record, a marked record gets no new LV |
| Theorems.MarkedOnlyShrinks | pkg/mgmt/volume/volume.go:171-177 | Once a record is marked, no run under P2 and P3 adds an LV to it |
| Theorems.DeletionIsRepairable | pkg/lvm/volume.go:215-220 | From any state with a marked record, restarting the owner's agent and re-running the same sync is a legal run that ends with neither record nor LV |
| Theorems.RunKeepsInv | pkg/mgmt/volume/volume.go:168-226 | The inductive invariant behind the above is kept by every run |
| Safety.StepSound | pkg/mgmt/volume/volume.go:168-226 | Every single step of agent, controller and store keeps the invariant of its volume |
| Safety.DestroySound | pkg/lvm/lvm_util.go:314-349 | lvremove takes an LV only from a record that is marked at that moment |
| Safety.CreateSound | pkg/lvm/lvm_util.go:286-311 | lvcreate runs only where the stored record points: written before created |
| Safety.AssignSound | pkg/lvm/volume.go:205-212 | Recording the next volume group keeps the invariant whatever other nodes' syncs are in flight |
| Safety.PublishSound | pkg/lvm/volume.go:180-202 | Publishing Ready or Failed keeps the invariant whatever other nodes' syncs are in flight |
| Versions.NoLostUpdates | pkg/lvm/volume.go:205-229 | With no premise at all, over any run of the code: a record that is still the same one kept its owner, pattern and flags, stayed marked if it was, and its capacity did not shrink |
| Versions.CapacityIsPeak | pkg/driver/controller.go:540-580 | In every reachable state a record's capacity is the maximum of the created size and the sizes of all successful expansions, in any order, and a fixed point of rounding when the requests are in range |
| Records.PeakIsMaximum | pkg/driver/controller.go:562-580 | The running maximum is the maximum, so it does not depend on the order of expansions |
| Provenance.RecordsComeFromRequests | pkg/driver/controller.go:309-328 | With no premise, in every reachable state a record has the pattern, flags and created size of one create request about its name, and an owner that the scheduler chose in a step of a create call that provisions |
| Provenance.KeysComeFromChoices | pkg/mgmt/volume/volume.go:74-136 | With no premise, in every reachable state only nodes that the scheduler chose for a name have its key or a sync of it |
| WorkQueue.NoWorkForgotten | pkg/mgmt/volume/volume.go:326-377 | With no premise, in every reachable state of every run of the code, a Pending or marked record is on its owner's queue, in its owner's hands, or its owner's agent is down |
| WorkQueue.OwnersAreNotified | pkg/mgmt/volume/volume.go:74-136 | With no premise, every step by which a record appears, changes while marked, or goes puts its key on its owner's queue |
| WorkQueue.RestartFindsWork | pkg/mgmt/volume/volume.go:74-90 | A crash of the owner's agent leaves a record that wants work done unattended, and listing it at the restart mends that: the exception above is needed |
| WorkQueue.DeletingAgainChangesNothing | pkg/driver/controller.go:424-429 | A delete request marks a record that has its finalizer and removes any other; asking again changes nothing |
| PremisesExact.DeleteSafeIff | pkg/driver/controller.go:171-183 | A delete request keeps the cluster leak free for ever if and only if `CanDelete` holds: the record has a finalizer, or there is no LV and no agent is about to create one |
| Safety.DeletableSuffices | pkg/driver/controller.go:424-429 | Seen from the record alone: having left Pending, or having no volume group recorded, suffices for `CanDelete` |
| PremisesExact.DeletableIsTight | pkg/lvm/volume.go:185-190 | Nothing weaker can be read off the record: otherwise a run that leaves the very same record leads to a state where deleting it leaks |
| PremisesExact.StartSafeIff | pkg/mgmt/volume/volume.go:46-72 | Starting a sync keeps the cluster leak free for ever if and only if `CanStart` holds: the node owns the record or the sync has nothing to do |
| Scenarios.DeletingPendingLeaks | pkg/driver/controller.go:411-435 | A concrete run of non-overlapping calls in which the code deletes a Pending record and an LV without a record follows |
| Scenarios.StaleKeyLeaks | pkg/mgmt/volume/volume.go:109-136 | A concrete run in which a key queued by a delete event makes the old node sync the re-created record of another node, and an LV on the wrong node follows |
| Calls.RepliesAreTrue | pkg/driver/controller.go:147-336 | In every reachable state under P2 to P4: Provisioned means the record read is Ready and unmarked with its LV on its owner and the rounded capacity asked for, which holds the request if and only if that is at most MaxInt64-Gi+1; ResourceExhausted and Deleted mean that neither record nor LV remains; AlreadyExists means an unmarked record of another capacity; the branch for a Failed record without an error is never taken; an expand reply is the record's new capacity, at least the rounded request, at least the request when that is at most MaxInt64-Gi+1, and leaves the record as it is when its capacity was enough; an error has one of three causes: no pattern, nothing to expand, or a record that changed under an expansion. Whether there is a reply, and which, follows from the record and the call |
| Calls.RescheduleMeetsP3 | pkg/driver/controller.go:171-183 | The delete inside a create call always meets P3, so P3 asks something of delete calls only |
| Calls.CreateProvisionsOnce | pkg/driver/controller.go:266-336 | Over any run a create call puts at most one record into the store, and while it runs what it has provisioned and what it may still provision add up to one |
| Calls.ExhaustedAfterProvisioning | pkg/driver/controller.go:266-336 | A create call reports resources exhausted only after it has itself provisioned a record, so a record that it found failed is tried elsewhere first |
| Calls.ValidationDecides | pkg/driver/controller.go:505-540 | A delete or expand call that fails its validation is over with nothing done; one that passes goes on to read the record, with its own size |
| Calls.RunKeepsSerialInv | pkg/driver/controller.go:266-336 | The invariant about calls in flight is kept by every run in which calls do not overlap |
| Progress.CreateCanSucceed | pkg/driver/controller.go:266-336 | From every state the cluster can get into, whatever the record, the half-finished syncs and the calls, once those are given up a create call can report the volume provisioned, unless an unmarked record has another capacity |
| Progress.DeleteCanSucceed | pkg/driver/controller.go:411-435 | From every such state a delete call of a deletable record can report Deleted with neither record nor LV left |
| Progress.ExpandCanSucceed | pkg/driver/controller.go:505-585 | From every state with a record, whatever its syncs and calls, once those calls are given up an expand call can reply with a capacity that covers its rounded size, however often it is repeated |
| Exhaustion.CreateCanExhaust | pkg/driver/controller.go:147-186 | From every state the cluster can get into without an LV of the volume or with its record marked, once other calls are given up a create call can report resources exhausted with neither record nor LV left, unless an unmarked record has another capacity |
| Overlap.OverlappingExpandsCollide | pkg/driver/controller.go:562-580 | Of two expand calls that read the same record the first to write goes through, and the other gets an error |
| Progress.PendingCanGetReady | pkg/mgmt/volume/volume.go:190-219 | A Pending record can become Ready with its only LV on its owner, in the recorded volume group or in one that the pattern accepts |
| Progress.MarkedCanGo | pkg/mgmt/volume/volume.go:171-177 | A marked record can go, with its LV |
| Moving.EmptyCanMove | pkg/driver/controller.go:147-186 | A volume without an LV, whatever its record and the calls and syncs in flight, can get one on any node and in any volume group that some pattern accepts |
| Agent.Site.SyncVol | pkg/mgmt/volume/volume.go:168-226 | An uninterrupted sync is a path of the protocol, and its key is back on the queue if it returns an error and otherwise not. A Pending record ends Ready in the first volume group that hosts the LV, of the recorded and then the listed ones, if there is one, and otherwise Failed with the error of the last attempt, after at most one attempt more than candidates; a failed listing stops it with an error and nothing changed, a listed volume group without a name with an error and the record Pending; nothing else of the record changes. A marked record loses LV and record, or lvremove's error is returned and both stay. Anything else is left alone |
| BestFit.SyncOnNode | pkg/mgmt/volume/volume.go:199-267 | With the listing made of the node's own volume groups: of those that match, have the space and accept the LV it ends Ready in one with the least free space, and Failed if there is none; a recorded volume group that hosts the LV comes first; marked and finished records as in `SyncVol` |
| BestFit.FirstHostIsBestFit | pkg/mgmt/volume/volume.go:262-265 | In the sorted list the first that hosts the LV has the least free space of all that do |
| Agent.Site.TryGroups | pkg/mgmt/volume/volume.go:206-219 | The loop stops at the first volume group that hosts the LV, or with an error at the first without a name, and leaves the LVs alone if it finds no host; the record names the last one tried, and the failure is that of the last attempt |
| Agent.Site.TryGroup | pkg/mgmt/volume/volume.go:212-218 | The volume group is recorded before lvcreate runs in it; one without a name is an error and changes nothing |
| Agent.Site.ProvisionPending | pkg/mgmt/volume/volume.go:190-225 | First the recorded volume group, then the listed ones |
| Agent.Site.Provision | pkg/mgmt/volume/volume.go:199-225 | A failed listing ends the sync with nothing changed; otherwise it is concluded Ready or Failed |
| Agent.Site.Remove | pkg/mgmt/volume/volume.go:171-177 | The LV goes first; the record goes only if the LV went |
| Agent.Site.StartSync | pkg/mgmt/volume/volume.go:46-72 | A sync starts from the stored record, or is over when there is nothing to do |
| Agent.Site.ListGroups | pkg/mgmt/volume/volume.go:199-207 | A failed listing is an error; an empty one makes the volume Failed |
| Agent.Site.CreateVolume | pkg/lvm/lvm_util.go:286-311 | Succeeds if and only if the LV is there or lvcreate works; creates at most that LV |
| Agent.Site.DestroyVolume | pkg/lvm/lvm_util.go:314-349 | Fails if and only if there is an LV and lvremove fails; removes at most that LV |
| Agent.Site.UpdateVolGroup | pkg/lvm/volume.go:205-212 | An empty name or a copy that is not current is an error and changes nothing; otherwise the stored record is the copy with the volume group, under the same version if it had that one already |
| Agent.Site.UpdateVolInfo | pkg/lvm/volume.go:180-202 | An error if and only if the copy is not current and has no finalizer; otherwise Ready with a finalizer or Failed with the error, and everything else kept |
| Agent.Site.RemoveVolFinalizer | pkg/lvm/volume.go:215-220 | An error if and only if the copy is not current; otherwise a marked record that had its finalizer is gone, and one that had none stays |
| SnapshotSafety.OriginOutlivesSnapshots | pkg/driver/controller.go:891-912 | In every reachable state of volumes and snapshots together, under P2 to P5, every snapshot LV has its origin's LV beside it and a record that names its node, volume group and origin |
| SnapshotSafety.CarefulWorldRunsAreSafe | pkg/driver/controller.go:590-735 | The same for every run of the code in which snapshots are taken of unmarked volumes, deleted after they left Pending and synced on their owner: conditions visible in the records alone |
| SnapshotSafety.WorldRunKeepsInv | pkg/mgmt/snapshot/snapshot.go:84-103 | The joint invariant of volumes and snapshots is kept by every run under P2 to P5 |
| SnapshotSafety.SnapStepAnchored | pkg/mgmt/snapshot/snapshot.go:84-103 | Under P2, P3 and P5 no step of a snapshot parts it from a safe origin |
| SnapshotSafety.StepSparesOrigin | pkg/mgmt/volume/volume.go:171-177 | No step of the volume protocol marks or destroys a volume that has a snapshot, unless its delete call passed the snapshot check |
| SnapshotPremise.TakeSafeIff | pkg/driver/controller.go:614-660 | Taking a snapshot keeps all snapshots safe for ever, with their origins and records, if and only if the volume is not marked for deletion or has no LV left; the code does not check it |
| SnapshotPremise.UnsafeTakeOrphans | pkg/driver/controller.go:614-660 | A snapshot taken of a marked volume that still has its LV can lose its origin |
| SnapshotPremise.CheckedStepIsSafe | pkg/mgmt/snapshot/snapshot.go:84-103 | Every step of a snapshot that keeps to P2, P3 and P5 keeps all snapshots safe for ever, whatever is there of the origin |
| SnapshotPremise.DropSafeIff | pkg/driver/controller.go:705-735 | Deleting a snapshot keeps all snapshots safe for ever if and only if `CanDrop` holds (its record has a finalizer, or it has no LV and no agent is about to make one), or it has no LV and a stuck snapshot holds the origin where the agent does not look; the code checks neither |
| SnapshotPremise.LeftPendingCanDrop | pkg/lvm/volume.go:278-301 | Seen from the record alone: having left Pending suffices for `CanDrop` |
| SnapshotPremise.PendingDropIsTight | pkg/driver/controller.go:660-668 | Nothing weaker can be read off the record: a run that leaves a Pending record as it is leads to a state where `CanDrop` fails, and deleting it is unsafe unless a stuck snapshot holds the origin away |
| SnapshotPremise.SnapStartSafeIff | pkg/mgmt/snapshot/snapshot.go:42-67 | Starting a sync of a snapshot keeps all snapshots safe for ever if and only if `SnapCanStart` holds (the node owns it or the sync has nothing to do), or the snapshot is Pending and its origin's LV is not where the sync looks and cannot get there: it is where the snapshot itself cannot be made, or a stuck snapshot holds it; the code checks neither |
| SnapshotRogue.RogueIsSafe | pkg/mgmt/snapshot/snapshot.go:84-103 | A sync of a snapshot on a node that should not run it does no harm, in any run, while the origin's LV is elsewhere and held there |
| SnapshotMoving.StandingMoves | pkg/driver/controller.go:411-435 | A volume that is there and has no snapshot can be deleted and made anew on any node and in any volume group that some pattern accepts, while the snapshots of other volumes stay as they are |
| SnapshotMoving.OthersGo | pkg/driver/controller.go:705-735 | All other snapshots of a volume can be deleted without a trace when none of them is stuck |
| SnapshotScenarios.DroppingPendingOrphans | pkg/driver/controller.go:705-735 | For any names and nodes, a run of the code from the start, with calls that do not overlap, that ends with a snapshot LV without a record and without its origin |
| SnapshotScenarios.StaleSnapKeyLeaks | pkg/mgmt/snapshot/snapshot.go:140-168 | For any names and nodes, a run under the premises after which the code lets another node sync a marked snapshot, and its LV is left without a record |
| SnapshotScenarios.StalePendingKeyLeaks | pkg/mgmt/snapshot/snapshot.go:140-168 | The same with a Pending snapshot whose origin stands on its owner: the sync on the other node is not safe |
| SnapshotScenarios.TakingMarkedOrphans | pkg/driver/controller.go:614-660 | For any names and nodes, a run under the premises after which the code takes a snapshot of a volume that is marked for deletion and still has its LV, and that is not safe |
| SnapshotReach.SnapshotCanGo | pkg/mgmt/snapshot/snapshot.go:87-91 | Whatever a snapshot's deletion was interrupted at, the owner's agent can finish it |
| SnapshotReach.SnapshotGoes | pkg/driver/controller.go:705-735 | A snapshot that is not stuck can be deleted without a trace, from whatever it was interrupted at and with everything else untouched |
| SnapshotProgress.SnapshotReadyIff | pkg/mgmt/snapshot/snapshot.go:92-101 | A Pending snapshot becomes Ready in some run that does not delete it if and only if it is not stuck, and its LV is there, or its origin has no LV yet, or has it where a sync looks for it: on the owner under the premises, and, as the code does not compare the owner, on any node with a key or a sync of the snapshot otherwise |
| SnapshotProgress.SnapshotDeletableIff | pkg/driver/controller.go:705-735 | Some run under the premises leaves neither the snapshot's record nor its LV if and only if it is not stuck |
| SnapshotProgress.StuckDropLeaks | pkg/driver/controller.go:725-725 | The code deletes a stuck snapshot's record at once and leaves its LV, and the snapshots are not safe after that |
| SnapshotStuck.StuckForGood | pkg/lvm/lvm_util.go:508-525 | In every run of the code that does not delete it, whatever syncs of other nodes interfere, a stuck snapshot stays stuck with its record as it is, because creation does not look for the LV first |
| SnapshotAway.AwayRun | pkg/mgmt/snapshot/snapshot.go:92-101 | A Pending snapshot whose origin stands where no sync looks for it holds the origin there and is not made in any run that does not delete it, under the premises or not |
| SnapshotProgress.CrashMakesStuck | pkg/mgmt/snapshot/snapshot.go:95-98 | A crash between lvcreate and the record's update makes a snapshot stuck |
| SnapshotAgent.SnapSite.SyncSnap | pkg/mgmt/snapshot/snapshot.go:84-103 | An uninterrupted sync does what the protocol's steps do, and its key is back on the queue if it returns an error and otherwise not: a marked snapshot loses its LVs on the node and its record, or lvremove's error is returned and all stays; a Pending one becomes Ready with its LV if and only if lvcreate can make it, and is left alone with an error otherwise; anything else is left alone |
| SnapshotQueue.NoSnapshotForgotten | pkg/mgmt/snapshot/snapshot.go:42-103 | With no premise, in every reachable state a Pending or marked snapshot is on its owner's queue, in its owner's hands, or its owner's agent is down |
| SnapshotQueue.SnapOwnersAreNotified | pkg/mgmt/snapshot/snapshot.go:105-168 | Every step by which a snapshot record appears, is marked, or goes puts its key on its owner's queue |
| SnapshotQueue.SnapKeysStay | pkg/mgmt/snapshot/snapshot.go:105-168 | A step brings the key of a snapshot to no node but its owner and those that have it or a sync |
| SnapshotQueue.SnapRestartFindsWork | pkg/mgmt/snapshot/snapshot.go:105-118 | A crash of the owner's agent leaves a snapshot that wants work done unattended, and listing it at the restart mends that |
| SnapshotQueue.DroppingAgainChangesNothing | pkg/driver/controller.go:725-725 | Deleting a snapshot marks a record that has its finalizer and removes any other; asking again changes nothing |
| SnapshotAgent.SnapSite.DestroySnapshot | pkg/lvm/lvm_util.go:528-553 | Fails if and only if there is an LV and lvremove fails; removes at most that LV |
| SnapshotAgent.SnapSite.UpdateSnapInfo | pkg/lvm/volume.go:278-301 | An error if and only if the copy is not current and has no finalizer; nothing happens when it has one; otherwise the record is Ready with a finalizer and else as it was |
| SnapshotVersions.SnapshotFitsOrigin | pkg/driver/controller.go:632-668 | With no premise at all, in every reachable state: the size in a snapshot record is within the capacity of its origin while that is the volume it was taken of, also when an expansion overtook the snapshot, and positive if its created size was, when the requests that succeeded on it are in range |
| SnapshotVersions.ExpansionOvertakes | pkg/driver/controller.go:505-585 | Without P4, an expand call that was validated before a snapshot was taken lands after it, and the capacity of a volume with a snapshot changes |
| SnapshotVersions.SnapshotsHoldCapacity | pkg/driver/controller.go:530-538 | Under P2 to P4, and with snapshots as the code handles them, no step of any run changes the capacity of a volume while it has a snapshot record |
| SnapshotVersions.SnapshotRecordsLast | pkg/lvm/volume.go:278-309 | With no premise at all, over any run: a snapshot record that is still the same one kept its origin, owner, volume group and size, and stayed marked or Ready if it was |
| SnapshotVersions.RecordsComeFromTakes | pkg/driver/controller.go:614-668 | A snapshot record appears only when a snapshot is taken, names that volume by name and uid and where it is, and its size is none, the whole capacity or the least that covers what was asked for |
| SnapshotSize.SnapSizeBounds | pkg/driver/controller.go:687-700 | In double precision, for every accepted argument: the computed size is positive, allocatable and at most the capacity if and only if a percentage or an absolute size of at most 2^63-513 was given; it is 0 if and only if none was given, and negative for larger ones |
| SnapshotSize.SnapSizeIsLeast | pkg/driver/controller.go:687-700 | It is the least allocatable size that covers the share or absolute size that double precision makes of the argument, capped at the capacity |
| SnapshotSize.ShareIsClose | pkg/driver/controller.go:687-692 | The share computed in double precision is the true percentage of the capacity up to one part of the capacity in 2^52 |
| SnapshotSize.ShareIsNearest | pkg/driver/controller.go:690-690 | The share is the double nearest to the capacity times a factor, and the factor the double nearest to the percentage over a hundred |
| SnapshotSize.ShareBounds | pkg/driver/controller.go:687-692 | That share is at least one byte and at most the capacity for every percentage from 1 to 100 |
| SnapshotSize.AbsoluteSizeIsLostIff | pkg/driver/params.go:125-135 | An absolute size comes out of the conversion to a double and back positive and right up to one part in 2^53 if it is at most 2^63-513 bytes, and as the smallest integer otherwise |
| SnapshotSize.AbsoluteSizeIsCoveredIff | pkg/driver/controller.go:693-700 | An absolute size within the capacity is provided in full if and only if the double does not fall to an allocatable size below it |
| AbsoluteSize.AbsoluteSizeFallsShortIff | pkg/driver/controller.go:693-700 | In bytes: an absolute size between 2^(52+k) and 2^(53+k), within the capacity, falls short if and only if it is at least 1 and at most 2^(k-1) above a multiple of Gi |
| AbsoluteSize.SmallSizesAreCovered | pkg/driver/controller.go:693-700 | An absolute size of at most 2^53 within the capacity is provided in full |
| AbsoluteSize.AbsoluteSizeFallsShort | pkg/driver/controller.go:693-700 | 2^53+1 bytes of a larger volume yield 2^53 |
| Floats.RoundedIsMonotone | pkg/driver/controller.go:690-690 | Rounding to double precision keeps the order |
| Floats.RoundedIsClose | pkg/driver/controller.go:690-690 | It is off by at most half a unit in the last of 53 places |
| Floats.RoundsToNearest | pkg/driver/controller.go:690-690 | It yields a value of 53 significant bits, and none of those is nearer |
| SnapshotSize.RecordedSizeCovers | pkg/driver/controller.go:641-655 | Unless it is beyond 2^63-513: no size is recorded if and only if none was given and the volume is thin; otherwise it covers what was asked for, the whole capacity when nothing was |
| SnapshotSize.NewSnapshotParams | pkg/driver/params.go:103-139 | Accepts exactly percentages from 1 to 100 and positive absolute sizes of 64 bits, and yields the parsed percentage, the double of the size, or no size |
| Names.DevPathIsInjective | pkg/lvm/lvm_util.go:352-376 | Equal device paths belong to the same volume, for all volume group names and all LV names without a leading hyphen |
| Names.DecodeInverts | pkg/lvm/lvm_util.go:367-376 | The device name decodes back to the same pair |
| Names.LeadingHyphenIsConfused | pkg/lvm/lvm_util.go:367-376 | Every LV name with a leading hyphen shares its device path with another volume |
| Names.SnapLvNamesCollideIff | pkg/lvm/lvm_util.go:557-559 | Two snapshots share an LV name if and only if their names differ in the prefix alone |
| Capacity.RoundedIsLeast | pkg/driver/controller.go:126-139 | Up to MaxInt64-Gi+1 the result is the least allocatable size that holds the request |
| Capacity.RoundedIsClosure | pkg/driver/controller.go:126-139 | Rounding is monotone across the Gi threshold and idempotent, and its fixed points are the allocatable sizes |
| Capacity.RoundedCoversRequestIff | pkg/driver/controller.go:126-139 | In wrapping 64-bit arithmetic the result holds the request if and only if the request is at most MaxInt64-Gi+1 |
| Capacity.RoundUpIsExact | pkg/driver/controller.go:126-139 | Below the bound no intermediate wraps |
| Capacity.RoundedInBytes | pkg/driver/controller.go:126-139 | The steps in bytes: 1048576 up to 1073741824, and 1073741824 above |
| VolumeGroups.GetVgPriorityList | pkg/mgmt/volume/volume.go:231-267 | The list is the stable, ascending sort of exactly the volume groups that match and, unless the volume is thin, have the space, each as often as the node lists it; so its head is the best fit |
| VolumeGroups.SortByFree | pkg/mgmt/volume/volume.go:262-265 | Sorting in place yields a stable sort |
| VolumeGroups.Insert | pkg/mgmt/volume/volume.go:262-265 | One insertion keeps the order among equals |
| VolumeGroups.StableSortIsUnique | pkg/mgmt/volume/volume.go:262-265 | There is only one stable sort, so the sorting algorithm does not matter |
| VolumeGroups.StableSortIsPermutation | pkg/mgmt/volume/volume.go:262-265 | A stable sort loses and adds nothing |
| VolumeGroups.FilteredIsExact | pkg/mgmt/volume/volume.go:247-260 | The filter keeps exactly the volume groups that match and, for thick volumes, have the space, each as often as listed |
| VolumeGroups.FilteredAppends | pkg/mgmt/volume/volume.go:247-260 | The filter keeps the order |
| Scheduling.ControllerAndAgentAgree | pkg/driver/schd_helper.go:114-129 | A thick volume of positive capacity has a candidate on a node if and only if the node is in the scheduler's map with enough space |
| Scheduling.CapacityMatchesWeights | pkg/driver/controller.go:799-823 | The reported capacity is MaxInt64 minus the least weight over the same nodes, or 0 for an empty map |
| Scheduling.GetSpaceWeightedMap | pkg/driver/schd_helper.go:103-132 | The running maxima yield the weights that the lemmas speak of |
| Scheduling.SpaceWeightsAreExact | pkg/driver/schd_helper.go:114-129 | A node is in the map if and only if it has space, with MaxInt64 minus its largest free volume group |
| Scheduling.GetCapacity | pkg/driver/controller.go:799-823 | One running maximum over all volume groups is the maximum over nodes of their maxima |
| Scheduling.AvailableIsMaximum | pkg/driver/controller.go:799-823 | That value bounds every node's free space and is reached by one |
| Scheduling.MaxFreeIsMaximum | pkg/driver/schd_helper.go:115-123 | The running maximum is the most free space in a matching volume group |
| Scheduling.GetVolumeWeightedMap | pkg/driver/schd_helper.go:48-68 | The map holds exactly the owners of matching volumes, each with the number of places they take in the list, and the entries add up to all matching volumes |
| Scheduling.GetCapacityWeightedMap | pkg/driver/schd_helper.go:75-98 | Each owner's entry is the wrapped sum of its matching volumes' parsable capacities; where nothing overflows the entries add up to all of them |
| Scheduling.WeightsConserve | pkg/driver/schd_helper.go:59-65 | The weights of all nodes add up to the weight of all volumes |
| Scheduling.WeightIsCount | pkg/driver/schd_helper.go:59-65 | Without capacities a node's weight is the number of its matching volumes |
| Scheduling.CapacityAddsUp | pkg/driver/schd_helper.go:86-95 | From the empty map on, each matching volume with a capacity adds it to its owner's weight, and no other volume does |
| Scheduling.CapacityConserves | pkg/driver/schd_helper.go:86-95 | The same for capacities, when each node's sum fits 64 bits |
| Scheduling.OwnersAreExact | pkg/driver/schd_helper.go:59-65 | The nodes in the map are exactly those that own a volume that counts |
| Topology.FilterNodesByTopology | pkg/driver/controller.go:830-869 | The paths without segments, through the index and by full scan all return the nodes that match all segments |
| Topology.IndexRefinesScan | pkg/driver/controller.go:1091-1104 | Any index that the index function builds answers like the scan |
| Topology.FilterNodes | pkg/driver/controller.go:836-849 | Returns exactly the names of the matching nodes, in order, each once |
| Resize.ExpansionIsRetriable | pkg/lvm/lvm_util.go:401-437 | Over any sequence of calls and modes neither the LV nor its file system shrinks; what a call reported done stays provided, and repeating the call without a file system issues no lvextend |
| Resize.NeverShrinks | pkg/lvm/lvm_util.go:401-437 | No sequence of calls shrinks the LV or its file system |
| Resize.LogicalVolume.ResizeLVMVolume | pkg/lvm/lvm_util.go:401-437 | After success the LV, and with `resizefs` the file system, has at least the record's capacity; without a file system lvextend is issued only when the LV is too small, with one always, as the LV may have grown when the file system did not |
| Resize.FileSystemCatchesUp | pkg/lvm/lvm_util.go:401-437 | Whatever calls failed half way, the next one that works leaves LV and file system with the capacity asked for |
| Mounts.PublishedIsMounted | pkg/lvm/mount.go:186-220 | A publish leaves the path mounted, and repeating it changes nothing |
| MountSafety.MountsAreExclusive | pkg/lvm/mount.go:133-220 | Over every run of the provisioning protocol under P2 and P3, of publishes, unpublishes and reboots, with records created, changed and deleted in between: every mount of a volume is on its owner and of its one LV, so two nodes never have it mounted, and one that is not shared is mounted at no more than one path in the cluster |
| MountSafety.MountRunKeepsInv | pkg/lvm/mount.go:84-220 | The invariant behind it is kept by every run |
| MountSafety.ReadyCanBePublished | pkg/lvm/mount.go:133-220 | In every reachable state a Ready volume can be published on its owner, at a first path or, if shared, at any; that adds exactly this mount and leaves the other nodes and the cluster alone |
| MountSafety.UnpublishFreesPath | pkg/lvm/mount.go:84-131 | An unpublish takes exactly the topmost mount at the path off the node's table |
| MountSafety.PublishAdds | pkg/lvm/mount.go:186-220 | A publish adds a mount to no device but that of its own volume |
| MountSafety.LvsLeaveByDestroy | pkg/lvm/lvm_util.go:314-349 | No step but lvremove takes an LV away, and it takes only the one it is told to |
| Mounts.PublishRoundTrip | pkg/lvm/mount.go:84-131 | A publish goes through on the owner of a ready, unmounted volume, and an unpublish restores the table |
| Mounts.UnmountOnlyRemoves | pkg/lvm/mount.go:84-131 | An unmount takes the path from the one device that is topmost there, and leaves the mounts of every device in place and in order otherwise |
| Mounts.RemovesTopmost | pkg/lvm/mount.go:116-116 | The table after an unmount is the old one without its last entry at the path |
| Mounts.VerifyIsExact | pkg/lvm/mount.go:133-183 | A request is already served if and only if it is sound and this very mount is in the table, and may be served if and only if it is sound, the mount is not there, and the volume is shared or mounted nowhere on the node |
| Mounts.NodeMounts.VerifyMountRequest | pkg/lvm/mount.go:133-183 | The search through the current mounts decides: already mounted if and only if the request is on the owner, for a ready volume and a path, and mounted there; free to mount if and only if it is so, not mounted there, and shared or mounted nowhere; refused otherwise |
| Mounts.NodeMounts.MountVolume | pkg/lvm/mount.go:186-220 | No error if and only if the request is on the owner, for a ready volume and a path, and it is mounted there already, or mounting works and the volume is shared or mounted nowhere; then, and only then, exactly this mount is added, if it was missing |
| Mounts.NodeMounts.UmountVolume | pkg/lvm/mount.go:84-131 | Takes away the topmost mount at the path, and only that, if unmounting works; an error if and only if there was one and unmounting failed |
| Mounts.NodeMounts.GetMounts | pkg/lvm/mount.go:158-158 | The paths a device is mounted at, in table order, each as often as the table has it |

## Left out

- Kubernetes clients, informers, listers, the gRPC server, flags, analytics and Prometheus collectors: plumbing.
- Reads from a cache that lags behind the store at the start of a sync: P2 excludes them.
- The scheduler library: the owner of a new record is any node.
- The leak-protection callback (pkg/driver/controller.go:252-257), which deletes without the check for snapshots; it is library code otherwise.
- Running lvcreate, lvremove, lvextend, wipefs and mount, and decoding their output: each is an outcome the environment chooses, within P1.
- Existence checks that fail with an error: excluded by P1. DestroySnapshot skips the deletion when its check fails (pkg/lvm/lvm_util.go:531-535).
- Regular expressions: an uninterpreted predicate on patterns and volume group names. A pattern that does not compile, or a capacity that does not parse, is a failed listing.
- `transformLVMError`: the error code of a failed lvcreate is any code.
- The size of an LV in the provisioning protocol: LVM rounds to extents, and an expansion can land between lvcreate and Ready.
- The NodeExpansionRequired flag of expand replies: it differs between a call and its retry.
- The builders' error lists (pkg/builder/volbuilder/volume.go): in-place edits of a record are record updates here; the only errors kept are an empty volume group and an empty pattern.
- Labels on volume records, and events lost by watchers other than through a crash.
- The controller's polling loops as loops: each poll is a step that leaves the call where it is, or moves it on; a deadline is a `Cancel` at any time.
- Fairness: progress is stated as what can always still happen, not as what must.
- SnapshotPremise.DropSafeIff: asks that some pattern accepts the snapshot's volume group, without which no volume could come back there.
- SnapshotPremise.SnapStartSafeIff: asks the same.
- SnapshotPremise.PendingDropIsTight: asks the same.
- SnapshotProgress.SnapshotReadyIff: asks the same; runs in which calls overlap (`Open`) are not considered.
- Snapshot LV names: snapshot LVs are kept per snapshot name; names that differ in the prefix alone are assumed not to meet.
- Names.DevPathIsInjective: asks that LV names do not start with a hyphen, as LVM does; `LeadingHyphenIsConfused` shows that it must.
- MountSafety.MountsAreExclusive: volume names do not start with a hyphen, reading the mount table never fails, and a bind mount of a mount is not a mount of the device.
- Mounts.NodeMounts.MountVolume: I/O limits are not modelled; a failure to set them is only logged.
- Block-mode mounting (pkg/lvm/mount.go:232-265), which does not verify the request.
- Scheduling.GetVolumeWeightedMap: counts are exact; a list of 2^63 volumes is not considered.
- SnapshotSize.SnapSizeBounds: not-a-number, which the parser's bounds let through, is not modelled; a conversion out of range yields the smallest integer, as it does on amd64, where the Go specification leaves it open.
- BestFit.SyncOnNode: asks that the node's volume groups have names, as LVM's do.
- I/O limits and cgroups, `parseVolumeGroup`, thin-pool sizes and the collectors: easy, or not decisive.
