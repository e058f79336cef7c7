# lbsync: replication, file replacement and rollback

lbsync keeps files (certificate bundles and plain blobs) the same on a group of load
balancers. Every node runs a reconcile tick: it reads its local files, compares each
with the cluster's copy, publishes the newer one, applies the winner to its serving
files, runs a verify-and-reload hook, and rolls the files back if the hook fails. The
cluster copy lives either in one shared map (the LAN store) or in one store per node
connected by pushes between peers (the WAN backend).

This project models that logic in Dafny and proves what the protocol keeps over all
runs, when it converges, and exactly when a rollback restores what was there.
`dafny verify dfyconfig.toml` checks all of it.

## How it is modelled

- Concurrent code is a state machine. A step is labelled by everything the environment
  chooses: the node that moves, the key visited next, which peers answer, whether a
  lock, read or write succeeds, which message arrives, is duplicated or is lost. A
  label that is not enabled changes nothing, so "every run" is every sequence of
  labels. Environment assumptions are predicates on runs, stated as hypotheses.
- Code that changes state in place is a class or a method with loops, proved equal to
  a function on values. The laws are then proved about that function. `Refinement`
  and `Index.PutIsItsSteps` connect the methods with the state machines.
- A Go string is a Dafny string with one character per byte, so string order is byte
  order. The file system is a map from paths to contents. The gob codec is the
  identity. SHA-256 and modification times are arbitrary function parameters.
- The WAN and LAN machines describe one resource kind. `WanStore.GuardedView` and
  `WanStore.WrittenView` show that a store shared by several kinds acts on each kind
  separately.

| file | content |
|---|---|
| `versions.dfy`, `certversion.dfy` | the engine's version order, the bundle's, and the embedding between them |
| `wan.dfy`, `wansafety.dfy`, `wanconvergence.dfy` | the WAN protocol, what every run keeps, convergence |
| `wanfixed.dfy`, `wanmissed.dfy`, `wancounter.dfy`, `wanrenewal.dfy` | its fixed points, when a missed version arrives after all, and runs that end in permanent disagreement of stores and of what is served |
| `wanstore.dfy` | one WAN backend: composite keys, handlers, lookup and listing |
| `lan.dfy`, `lanraces.dfy`, `lanrounds.dfy`, `lanbusy.dfy`, `lanapplied.dfy`, `lancounter.dfy` | publishing to the shared store: safety under the lock, how a copy can get older without it, convergence with and without it, and what is then served |
| `index.dfy`, `indexrepair.dfy` | the key index of the shared store, and when a lost entry comes back |
| `atomicfile.dfy`, `bundle.dfy`, `partial.dfy`, `providers.dfy` | file replacement, bundle writing, half-written bundles, the blob and certificate providers |
| `engine.dfy`, `ticklaws.dfy`, `tickrollback.dfy`, `certrollback.dfy`, `fleet.dfy` | the tick, its order independence, rollback over runs, certificate lineages in failing ticks, convergence of a fleet |
| `refinement.dfy`, `tickrefinement.dfy`, `wantick.dfy` | the state machines and the sequential code agree, key by key and for whole ticks |

## Where the code does not do what its comments say

The model follows the code. Each of these is proved, with the condition under which
the comment does hold.

- `internal/wan/wan.go:9-15` says that a missed fan-out is corrected on the next tick
  and that concurrent origins converge through the re-check. A node whose own store
  holds its record does not publish it again (`internal/engine/engine.go:218`).
  `WanMissed.MissedForeverIff` gives the exact condition, for any number of meshed nodes
  at rest: a node that misses a version of a key stays without it for good if and only
  if every node whose files have that version, or a newer one, already has its own
  record in its own store. So a lost fan-out is not corrected
  (`WanDisagreement.LostFanOutIsPermanent`), nor is a delivery between re-check and put
  (`WanDisagreement.RaceIsPermanent`). What the node serves is another matter: with
  nothing in its store it reads the record from a peer
  (`WanRenewal.LostFanOutStillServed`), but with an older record there it looks no
  further and serves that one for ever (`WanRenewal.LostRenewalIsPermanent`,
  `WanFixedPoints.RestServesOwn`). `WanConvergence.KeyConverges` says when agreement on
  a key is reached: only losses and overwrites of its newest version matter.
- `internal/cluster/cluster.go:145-146` says that the index converges even if an
  update is lost. `Index.UnlockedIndexLosesKey` loses an entry.
  `IndexRepair.LostEntryRepairedIff` says when it comes back: if and only if some node
  publishes that key with a record newer than the one stored by then, or with both its
  reads failing, and gets that index update through. Publishing the same record again
  does not repair it (`IndexRepair.SameRecordNeverRepairs`).
- `internal/engine/engine.go:55-57` promises that a rollback restores the pre-tick
  copy. For certificates this holds if and only if nothing was due to be written or
  `CanUndoIn` held of each served file before (`CertRollback.FailedCertTickIff`). It
  fails for ordinary renewals, because backups outlive a good tick: after two good
  renewals and a failed third that keeps the chain, the rollback serves the second
  certificate with the first one's chain (`CertRollback.RollbackMixesRenewals`).
- `internal/modules/certs/certs.go:122-126` embeds the bundle's version in the
  engine's. The orders disagree exactly on the pairs `Reversed` describes
  (`CertVersion.OrdersAgreeIff`), for example serials 1 and 10 with equal times.

## What the best-effort lock is for

`internal/engine/engine.go:222-223` publishes even when the lock is not obtained, and
relies on every tick publishing again for convergence. That convergence holds.
`LanBusy.BusyRoundsConverge` proves it from any state, with ticks overlapping in any
way, whatever locks fail or expire: once every node has ticked often enough after the
last file change, the cluster copy is at least as new as every local one.
`LanRounds.UnlockedRoundsConverge` needs fewer rounds, but asks that the nodes are all
idle between one round and the next, which independent tickers do not guarantee. What
the lock adds is that the copy never gets older on the way (`Lan.ClusterNeverFalls`) and
that one round is enough (`LanRounds.LockedRoundConverges`). Both can fail without it
(`LanUnlocked.ClusterFallsWithoutLock`, `LanUnlocked.OneUnlockedRoundFallsShort`), and
`LanRaces.ClusterFallsIff` and `LanRaces.FallMeansRace` say when and why a copy gets
older.

## Model

| member | source | states |
|---|---|---|
| `Versions.LessIffSmallerAt` | internal/engine/engine.go:30 | the string comparison of the tiebreak is lexicographic byte order: less if and only if, at the first difference, one string has ended or has the smaller byte |
| `Versions.NewerIff` | internal/engine/engine.go:22-31 | newer if and only if the primary is greater, or it ties and the secondary is greater, or both tie and the tiebreak is greater at the first difference |
| `Versions.NewerTransitive` | internal/engine/engine.go:15-31 | newer is transitive |
| `Versions.NewerTrichotomy` | internal/engine/engine.go:15-31 | of two versions exactly one is newer, or they are equal: a strict total order |
| `Versions.PickNewerIsMaximum` | internal/engine/engine.go:242-254 | the choice is one of the two copies, is missing only if both are, no copy is newer than it, and a tie gives the second |
| `CertVersion.NewerBundleIff` | internal/bundle/bundle.go:85-107 | newer if and only if validity starts later, or on a tie ends later, or on a tie of both the serial, and then the hash, is greater at the first difference |
| `CertVersion.CompareAntisymmetric` | internal/bundle/bundle.go:85-104 | comparing the other way round negates the result, and zero means equal versions |
| `CertVersion.NewerBundleTransitive` | internal/bundle/bundle.go:85-107 | the bundle order is transitive, so with antisymmetry a strict total order |
| `CertVersion.JoinLess` | internal/modules/certs/certs.go:125 | how serials and hashes joined by a colon compare: as pairs, except when one serial is a proper prefix of the other with a decimal digit next |
| `CertVersion.EmbedInjective` | internal/modules/certs/certs.go:122-126 | for hexadecimal serials and whole-second times (sections 4.1.2.2 and 4.1.2.5 of RFC 5280), engine versions are equal exactly when bundle versions are |
| `CertVersion.EmbedOrder` | internal/modules/certs/certs.go:122-126 | the engine order is the bundle order, turned round exactly on the reversed pairs |
| `CertVersion.OrdersAgreeIff` | internal/modules/certs/certs.go:122-126 | two different certificates compare alike in both orders if and only if they are not a reversed pair |
| `CertVersion.ReversedPairExists` | internal/modules/certs/certs.go:122-126 | a reversed pair of certificates exists |
| `Wan.FanOut` | internal/wan/wan.go:191-208 | a fan-out holds exactly one record's messages to exactly the peers |
| `WanSafety.WindowsRun` | internal/engine/engine.go:228-234 | in every run, a node about to put without a delivery since its re-check has an own store with no record, or with an older one |
| `WanSafety.StoredVersionFallsIff` | internal/wan/wan.go:184-186 | in every run no step removes a stored key, and a node's stored version falls exactly at an own put of an older record, which then follows a delivery inside the window |
| `WanSafety.RacedMeansDelivered` | internal/wan/handler.go:34-45 | the mark for such a race is history: a delivery to that node and key happened at an earlier step, and the node has been between re-check and put ever since |
| `WanSafety.NothingInvented` | internal/wan/wan.go:138-210 | with loss, duplication and races, every record stored, applied, in flight or held by a tick was read as some node's local record at an earlier step, and is kept under its own key |
| `WanConvergence.CoveredStep` | internal/wan/handler.go:34-45 | a version that a node has stored or on the way to it stays so over every step that is calm for that key and version |
| `WanConvergence.PutCovers` | internal/wan/wan.go:179-210 | in a full mesh, a put makes its version present or in flight at every node |
| `WanConvergence.InvRun` | internal/engine/engine.go:214-240 | for any key and version, over every run calm for it: once stored or seen anywhere it is present or in flight everywhere, and a node whose tick has dealt with a local record that new is covered |
| `WanConvergence.BoundsRun` | internal/wan/wan.go:138-210 | while local versions of a key never fall, no version of it stored, in flight or read by a tick exceeds all nodes' local ones |
| `WanConvergence.VersionSpreads` | internal/wan/wan.go:138-210 | any number of meshed nodes: once nothing is in flight and every node has finished a tick begun after its last change, a version that some node's files have is in every store, if no message carrying it was lost to an uncovered node and no such file or stored record was replaced by an older one; other keys and older versions may suffer anything |
| `WanConvergence.KeyConverges` | internal/wan/wan.go:138-210 | so every store holds the key at exactly the greatest local version, whatever earlier versions of it lost |
| `WanConvergence.CalmRunsConverge` | internal/wan/wan.go:138-210 | any number of meshed nodes: if losses leave the receiver covered, local versions never fall and no put replaces a newer record, then once nothing is in flight and every node has finished a tick begun after its last change, every store holds exactly the keys some node has, each at the greatest local version |
| `WanConvergence.OrderlyIsCalm` | internal/engine/engine.go:228-234 | without loss, with local versions never falling and no delivery between re-check and put, a run is calm |
| `WanConvergence.OrderlyRunsConverge` | internal/wan/wan.go:9-15 | such runs converge |
| `WanConvergence.CalmRunsAgree` | internal/wan/wan.go:9-15 | if equal versions also mean equal contents, all stores of a settled calm run hold the same version and contents at every key, whichever host published them |
| `WanFixedPoints.RestIsFixed` | internal/engine/engine.go:218-220 | with nothing in flight and every own store at least as new as the local files, every sequence of steps without file changes leaves all stores as they are, whether or not they agree |
| `WanFixedPoints.FixedIff` | internal/engine/engine.go:218-220 | an idle system with nothing in flight never changes a store again if and only if every own store is at least as new as the node's files |
| `WanFixedPoints.ConvergenceLasts` | internal/wan/wan.go:138-148 | a converged settled state of a calm run stays converged |
| `WanFixedPoints.ApproachReaches` | internal/engine/engine.go:150-154 | a node with a local record newer than its own store can always reach its put |
| `WanFixedPoints.RestServesOwn` | internal/wan/wan.go:138-148 | from such a state, whatever ticks follow, a node that stores a key applies its own stored record of it and nothing else, however new its peers' records are |
| `WanMissed.MissedForeverIff` | internal/wan/wan.go:9-10 | any number of meshed nodes, idle, nothing in flight: a node without a version of a key stays without it over every run without file changes if and only if every node whose files have that version or a newer one has its own local record in its own store |
| `WanMissed.OriginReaches` | internal/engine/engine.go:214-240 | an origin that has not published yet can bring its version to any node: its tick puts it and the fan-out arrives |
| `WanDisagreement.LostFanOutIsPermanent` | internal/wan/wan.go:9-10 | for every key and record: losing one fan-out ends in a settled state that is not converged and in which, whatever ticks follow, two stores differ and the second never gets the version |
| `WanDisagreement.LossyRunOtherwiseCalm` | internal/wan/wan.go:191-208 | that run has no file change, no delivery and no other loss |
| `WanDisagreement.RaceIsPermanent` | internal/wan/wan.go:12-15 | for every key and two versions: one delivery between re-check and put, with no loss, ends in a settled state in which, whatever ticks follow, the first node never gets the newer version, and one node serves the older record and the other the newer |
| `WanDisagreement.RacyRunOtherwiseCalm` | internal/wan/wan.go:12-15 | that run has no file change and no loss |
| `WanRenewal.LostFanOutStillServed` | internal/wan/wan.go:150-171 | after that lost fan-out the second node, whose store is empty, applies the record in its next tick if the first node lists and answers |
| `WanRenewal.LostRenewalIsPermanent` | internal/wan/wan.go:138-148 | for every key and two versions: when a renewal's fan-out to a node holding the older record is lost, the settled end state is not converged, and whatever ticks follow that node never gets the newer version and serves the older record |
| `WanRenewal.RenewalRunOtherwiseCalm` | internal/wan/wan.go:191-208 | in that run only one message is lost, the files change once, and the receiving node publishes nothing |
| `WanStore.StoreKeyInjective` | internal/wan/wan.go:64 | composite keys of NUL-free kinds are equal exactly when kind and key are |
| `WanStore.NulKindCollides` | internal/wan/wan.go:64 | a kind containing a NUL shares composite keys with another kind |
| `WanStore.GuardedView` | internal/wan/handler.go:32-44 | an incoming record acts on its own kind as the protocol's guarded write and leaves every other kind alone |
| `WanStore.WrittenView` | internal/wan/wan.go:184-186 | a local put replaces the record of its own kind and key only |
| `WanStore.ScanListsKind` | internal/wan/handler.go:67-76 | in a store filed under its own keys, a composite key is present exactly when a record of that kind and key is stored |
| `WanStore.ListedIffFound` | internal/wan/wan.go:138-176 | a non-empty key is listed if and only if a lookup with the same peers answering finds it |
| `WanStore.FoundIsFiled` | internal/wan/wan.go:138-176 | a lookup returns a record of the kind and key asked for |
| `WanStore.Backend.constructor` | internal/wan/wan.go:69-133 | a backend starts with an empty store |
| `WanStore.Backend.Put` | internal/wan/wan.go:178-210 | the store gets the record with no version check and stays filed under its own keys, and each peer is sent the record once, in order |
| `WanStore.Backend.HandlePutRecord` | internal/wan/handler.go:21-46 | the store changes only for a missing key or a strictly newer record, and stays filed under its own keys |
| `WanStore.Backend.HandleGetRecord` | internal/wan/handler.go:50-63 | the own record under that kind and key, or not found |
| `WanStore.Backend.HandleGetKeys` | internal/wan/handler.go:67-89 | each non-empty key stored under the kind, exactly once |
| `WanStore.Backend.Get` | internal/wan/wan.go:138-176 | the own record, else that of the first answering peer that has one |
| `WanStore.Backend.Keys` | internal/wan/wan.go:213-258 | the union of own keys and those of answering peers, without duplicates |
| `WanStore.GuardedAllMerges` | internal/wan/handler.go:34-45 | any sequence of incoming records leaves at each key one of the records offered, with the greatest version of all offered |
| `WanStore.StoredStays` | internal/wan/handler.go:36-43 | a stored record stays if no incoming record of its key is strictly newer |
| `WanStore.FirstOfEqualsStays` | internal/wan/handler.go:36-44 | among equal versions the first to arrive is the one stored in the end |
| `WanStore.MergeOrderIndependent` | internal/wan/handler.go:34-45 | reordering or duplicating the records changes no version, no record if equal versions mean equal records, and no contents if they mean equal contents |
| `Lan.ExclusiveRun` | internal/cluster/cluster.go:227-239 | with every lock obtained and held and the re-check reading, each publishing node holds its key's lock and is about to put only a record newer than the cluster's |
| `Lan.EveryPutIsNewer` | internal/engine/engine.go:214-240 | in every such interleaving each put makes the cluster copy strictly newer, and no other step changes it |
| `Lan.ClusterNeverFalls` | internal/engine/engine.go:214-240 | the cluster version at a key never decreases between any two points of a run |
| `Lan.CurrentRun` | internal/engine/engine.go:150-160 | what a node has applied, and the snapshot it decides on, are never newer than the cluster copy, and the snapshot is never older than what was applied before |
| `Lan.AppliedNeverFalls` | internal/engine/engine.go:150-160 | the versions a node applies for a key never decrease over a run, although it applies the snapshot from before the re-check and files may change arbitrarily |
| `LanRaces.ClusterFallsIff` | internal/engine/engine.go:228-234 | with any failures, no step removes a key from the cluster, and its version falls exactly at the put of a node past its re-check whose record is older |
| `LanRaces.StaleMeansRace` | internal/engine/engine.go:228-234 | in every run, a node about to put something older had its re-check fail to read at a step j, or was overtaken by another node's put at a step j while already past its re-check, and has been there ever since |
| `LanRaces.FallMeansRace` | internal/engine/engine.go:222-234 | so every fall of the cluster version, in every run with failed locks, expired locks and failed reads, is a put with that history |
| `LanRounds.FinishedMeets` | internal/engine/engine.go:147-171 | from any state, with re-checks and puts working, a node that begins and finishes a tick brings the cluster copy to every goal its own record reaches, provided the goal stays met once met |
| `LanRounds.LockedRoundConverges` | internal/engine/engine.go:214-240 | under the lock, over all interleavings from any state at rest: once every node has finished a tick the cluster holds at each key the greatest version of its old copy and all local copies, and no other keys |
| `LanRounds.UnlockedRoundRises` | internal/engine/engine.go:222-234 | without the lock a round from a state with all nodes idle never ends with an older copy, ends with a newer one if any node has one, and never with a record nobody had |
| `LanRounds.UnlockedRoundsConverge` | internal/engine/engine.go:222-223 | whatever locks fail or expire, after as many rounds as nodes are ahead of the cluster copy, each starting with all nodes idle, it is the greatest version of the old copy and all local copies |
| `LanBusy.FloorStep` | internal/engine/engine.go:228-234 | without the lock, a version below which neither the copy nor any record about to be put lies stays such over every step with working re-checks and puts |
| `LanBusy.TwoRoundsShrink` | internal/engine/engine.go:222-234 | over any two rounds of overlapping ticks, without the lock and without a moment of rest, at least one node fewer has a version above that floor |
| `LanBusy.BusyRoundsConverge` | internal/engine/engine.go:222-223 | from any state at all: after one round and twice as many more as there are nodes, with ticks overlapping in any way and any locks failing, the cluster copy and everything about to be put is at least as new as every local copy, and the copy is a local one or was there after the first round |
| `LanApplied.TickServes` | internal/engine/engine.go:150-160 | once the copy is as new as every local one and nobody is about to put, a node that ticks with the key in its list serves exactly the shared copy, over all interleavings |
| `LanApplied.TwoLockedRoundsServe` | internal/engine/engine.go:138-182 | after a locked round and a second one in which every node visits the key, all nodes serve the same record, the greatest version that was anywhere |
| `LanRounds.NobodyLagsForever` | internal/engine/engine.go:218-220 | once no node is ahead, no run without file changes, with re-checks and puts working, changes the copy again |
| `LanUnlocked.OneUnlockedRoundFallsShort` | internal/engine/engine.go:222-234 | for any key and two versions: a whole round in which only lock attempts fail can end without the newest copy |
| `LanUnlocked.ClusterFallsWithoutLock` | internal/engine/engine.go:222-234 | for any key and two versions: two nodes that fail to lock can replace the newer cluster copy by the older |
| `LanUnlocked.OtherwiseOrderly` | internal/engine/engine.go:222-234 | in that run nothing but the lock attempts fails |
| `Index.IndexAlwaysSafe` | internal/cluster/cluster.go:192-217 | in every interleaving, locked or not and with any failures, the index has no duplicates and names only keys that hold a record |
| `Index.IndexComplete` | internal/cluster/cluster.go:152-217 | with the index lock always obtained and held, the stored keys are exactly the indexed keys and those of puts that have written their record but not yet the index |
| `Index.Cluster.constructor` | internal/cluster/cluster.go:95-99 | the map starts empty |
| `Index.Cluster.Get` | internal/cluster/cluster.go:118-139 | the record under the key, or none if it is absent, no record, or the read fails |
| `Index.Cluster.ListKeys` | internal/cluster/cluster.go:168-190 | the index list, empty if there is none, or an error if it cannot be read or decoded |
| `Index.Cluster.AddToIndex` | internal/cluster/cluster.go:192-217 | with any failing lock, read or write: exactly when there is no error the key is appended unless it is there; otherwise nothing changes; the lock is released again |
| `Index.Cluster.Put` | internal/cluster/cluster.go:152-166 | with any failures: the record is stored unless its write fails, stays stored when the index update fails, and success means both were done |
| `Index.PutIsItsSteps` | internal/cluster/cluster.go:152-217 | the steps of one uninterrupted call, whatever fails in it, amount to the method |
| `Index.PutKeepsComplete` | internal/cluster/cluster.go:152-166 | a put keeps a complete index complete |
| `Index.PutsAreListed` | internal/cluster/cluster.go:168-217 | from an empty map, the keys are listed in the order of their first put |
| `Index.LastPutIsStored` | internal/cluster/cluster.go:152-166 | under each key stands, unchanged, the last record put there |
| `Index.UnlockedIndexLosesKey` | internal/cluster/cluster.go:192-217 | for any two records: two puts whose lock attempts fail leave one record stored but not indexed, with no call pending |
| `IndexRepair.TriedIsPublish` | internal/engine/engine.go:214-240 | on the records of the map, an attempt to publish is the engine's publish step, with any failing reads and writes and whatever happens to the index |
| `IndexRepair.LostEntryRepairedIff` | internal/cluster/cluster.go:145-146 | a stored key missing from the index is in it after any attempts to publish if and only if one of them is for that key, its put works, it carries a record newer than the one stored by then or has both its reads fail, and its index read and write work |
| `IndexRepair.SameRecordNeverRepairs` | internal/cluster/cluster.go:145-146 | attempts with records that are not newer, and with working reads, never bring it back |
| `IndexRepair.LostUpdateRepairedIff` | internal/cluster/cluster.go:192-217 | the same of the state that the two unlocked puts end in |
| `AtomicFile.FileSystem.WriteAtomic` | internal/atomicfile/atomicfile.go:17-52 | equal contents are left alone, a replaced file's contents go to its backup, a new file makes no backup, and what each failure leaves behind |
| `AtomicFile.WriteAt` | internal/atomicfile/atomicfile.go:17-52 | path by path and for every fault: when a write succeeds, when it reports a change, what the file, the file with `.bak` added and every other path hold |
| `AtomicFile.FileSystem.CopyFile` | internal/atomicfile/atomicfile.go:91-100 | the copy, or what a failed copy leaves |
| `AtomicFile.FileSystem.Restore` | internal/atomicfile/atomicfile.go:54-67 | the backup, if any, moves over the file; a failure leaves everything and is reported |
| `AtomicFile.RestoredAtPath` | internal/atomicfile/atomicfile.go:54-67 | the backup is moved: the file has its contents, the backup is gone, every other path is as before, and without a backup nothing changes |
| `AtomicFile.BackupSortsLater` | internal/atomicfile/atomicfile.go:71-78 | in directory order every file comes before its backup |
| `AtomicFile.RestoreOne` | internal/atomicfile/atomicfile.go:78-87 | a round of the loop finds its backup with its original contents and extends the pointwise description of the directory by one entry |
| `AtomicFile.FileSystem.RestoreDir` | internal/atomicfile/atomicfile.go:69-89 | every entry that has a backup gets that backup's original contents, and a backup without a backup of its own is gone, up to the first entry whose rename fails, which a bare-suffix entry's always does; that or an unreadable directory is exactly an error |
| `AtomicFile.RestoreDirAt` | internal/atomicfile/atomicfile.go:69-89 | path by path, by the names themselves: what each entry holds, is or is not left, according to the first entry in name order whose rename fails |
| `Bundles.WriteBundle` | internal/bundle/bundle.go:109-140 | the four files are written in order, empty ones skipped, stopping at the first error |
| `Bundles.BundleWrites` | internal/bundle/bundle.go:118-132 | the due writes are exactly the non-empty members, to different files none of which is a backup of another |
| `Bundles.WriteAllAt` | internal/bundle/bundle.go:128-139 | each file and its backup end as that file's own write alone would leave them |
| `Bundles.BundleWrittenAt` | internal/bundle/bundle.go:114-140 | the contents of each served file and backup after an error-free write |
| `Bundles.BundleFilesByName` | internal/bundle/bundle.go:114-140 | by the literal file names, which part of the bundle ends in which file |
| `Bundles.UndoneAt` | internal/bundle/bundle.go:142-146 | a served file is back at its contents from before the write if and only if `CanUndoIn` held of it |
| `Bundles.RollbackExactIff` | internal/bundle/bundle.go:109-146 | write and rollback give back all served files if and only if beforehand each file to be written existed, each file left alone had no different backup, and, with a bare-suffix entry, none was to be written |
| `PartialWrites.HalfWrittenAt` | internal/bundle/bundle.go:128-139 | a write that fails at its i-th file leaves the files before as if each were written alone, the i-th as its failure leaves it, and the later ones untouched |
| `PartialWrites.HalfWrittenUndoneIff` | internal/bundle/bundle.go:128-146 | a rollback would give the j-th file back if and only if a condition on the state before the write, the failure and the order of i and j holds |
| `Providers.BundleRoundTrip` | internal/modules/certs/certs.go:118-152 | a bundle survives conversion to a record and back, except for its version; the record's kind, key, version, serial, hash and source |
| `Providers.CertFilesByName` | internal/modules/certs/certs.go:86-100 | by literal names, which contents of a record end in which file below the serving directory |
| `Providers.LineagesSeparate` | internal/modules/certs/certs.go:89 | different lineages own different paths |
| `Providers.BlobsSeparateIff` | internal/modules/blob/blob.go:49-64 | blob resources own different paths if and only if destinations differ and none is another's backup |
| `Providers.BlobProvider.constructor` | internal/modules/blob/blob.go:42-67 | the destination of each name is that of its last configured resource |
| `Providers.DestIsLast` | internal/modules/blob/blob.go:49-64 | a configured name has the destination of the last resource under it |
| `Providers.DestsAreConfigured` | internal/modules/blob/blob.go:49-64 | exactly the configured names have one |
| `Providers.BlobProvider.Local` | internal/modules/blob/blob.go:87-113 | the pending set is emptied and the result is the list of local records |
| `Providers.LocalRecordAt` | internal/modules/blob/blob.go:87-113 | one record per readable source, in order: kind `blob`, the resource's name as key, the source's bytes as contents, their hash as tiebreak, secondary 0, and as primary the modification time unless the strategy is `sha`, then 0 |
| `Providers.SourceReachesDest` | internal/modules/blob/blob.go:103-130 | applying the record read from a resource puts exactly its source's bytes at the destination of its name |
| `Providers.LaterReadIsNewer` | internal/modules/blob/blob.go:97-102 | of two reads under another strategy than `sha` the later modified is newer |
| `Providers.BlobProvider.Apply` | internal/modules/blob/blob.go:115-131 | an unconfigured name changes nothing; a changed destination, and only that, is added to the pending set |
| `Providers.BlobProvider.Flush` | internal/modules/blob/blob.go:133-149 | the hook of each configured pending resource runs once; success means none failed, and only then is the set emptied |
| `Providers.BlobProvider.Rollback` | internal/modules/blob/blob.go:151-164 | each configured key's destination is restored from its backup, a failing restore leaves its key alone and does not stop the others, and success means that none failed |
| `Providers.CertsProvider.constructor` | internal/modules/certs/certs.go:38-54 | the serving directory is kept as configured |
| `Providers.CertsProvider.Apply` | internal/modules/certs/certs.go:86-100 | the record's bundle is written into the lineage's directory; a failed write is not reported as a change |
| `Providers.CertsProvider.Rollback` | internal/modules/certs/certs.go:107-116 | every key's directory is restored as far as its reading and renames go, an error does not stop the others, and success means that no directory stopped |
| `Engine.ByKey` | internal/engine/engine.go:187-193 | local records indexed by their own keys, with exactly the keys that were read |
| `Engine.ByKeyHoldsLast` | internal/engine/engine.go:187-193 | the last record read for a key stands under it, unchanged |
| `Engine.ByKeyIsRead` | internal/engine/engine.go:187-193 | every value is a record that was read, the last of its key |
| `Engine.GatherKeys` | internal/engine/engine.go:184-212 | each local or listed key exactly once, also when one of the two reads fails |
| `Engine.Store.Get` | internal/engine/engine.go:152 | the record under the key, or none if it is absent or the read fails |
| `Engine.Store.Put` | internal/engine/engine.go:234 | the record is stored under its key, or nothing changes on failure |
| `Engine.MaybePublish` | internal/engine/engine.go:214-240 | the store after the check, the re-check and the put, with every combination of failed reads and writes |
| `Engine.ChangedAreVisited` | internal/engine/engine.go:149-171 | the changed list names visited keys, each once |
| `Engine.VisitKeys` | internal/engine/engine.go:149-171 | the loop equals the fold over keys, and the blob provider's pending set equals the changed list |
| `Engine.TickProvider` | internal/engine/engine.go:138-182 | the whole tick: gathered keys, final store and files, hooks run for exactly the changed blobs, and on an error the undoing of exactly those, with any failing restores |
| `Engine.TickUndoneWithoutFaults` | internal/engine/engine.go:176-181 | with no failing restores the undoing is the rollback that the laws below are about |
| `TickLaws.VisitAllAt` | internal/engine/engine.go:149-171 | a visited key ends as if it alone had been visited |
| `TickLaws.VisitAllOther` | internal/engine/engine.go:149-171 | a key not visited keeps its record and files |
| `TickLaws.RollbackOrder` | internal/engine/engine.go:177 | rollback does not depend on the order of keys |
| `TickLaws.TickOrderIrrelevant` | internal/engine/engine.go:147-181 | for any two orders of the same keys, with any failures, a tick leaves the same store, the same files and the same changed keys |
| `TickLaws.TickServesWinner` | internal/engine/engine.go:156-160 | after a tick without write faults whose hook, if it runs, succeeds, the files hold for every key visited what the newer of the local and the stored record writes, the stored one on a tie |
| `TickLaws.UndoAllAt` | internal/modules/blob/blob.go:151-164 | failures of a rollback stay with their keys: a key whose restore works ends as its rollback alone leaves it, and one that cannot be restored stays as it was |
| `TickLaws.TickUndoneAt` | internal/engine/engine.go:176-181 | the same of every changed key of a failing tick |
| `TickRollback.FailedBlobTickIff` | internal/modules/blob/blob.go:116-164 | after a failed tick a destination is as before if and only if it existed, or the tick's inputs give no winning record to write there or a failing replace, whatever backups lie around |
| `TickRollback.BlobRollbackExact` | internal/modules/blob/blob.go:116-164 | in any run of good and failed ticks, each failed one leaves every destination that existed at its start as it was |
| `TickRollback.FailedTicksLeaveNoTrace` | internal/engine/engine.go:149-181 | once all destinations exist, the served blobs after any run are those of the same run with its failed ticks left out |
| `TickRollback.FailingBlobTick` | internal/modules/blob/blob.go:116-164 | a failing tick without write faults, over destinations that exist and have no backups, changes no file at all: the backups it makes are moved back |
| `TickRollback.FailedApplyStays` | internal/engine/engine.go:160-163 | an apply that fails half-way is not among the changes, so even a failing tick leaves its lineage exactly as the failed write left it |
| `TickRollback.FailingCertTick` | internal/engine/engine.go:160-181 | a failing tick over any number of clean lineage directories with every written file in place changes no file at all, backups included, whatever reads and puts fail |
| `TickRollback.FailingCertTicks` | internal/engine/engine.go:160-181 | so does any number of failing ticks, each with any winning bundles |
| `CertRollback.CertTickArea` | internal/modules/certs/certs.go:86-116 | whatever else a tick visits, it leaves in a lineage's directory the winner's files if the hook succeeds, what a rollback makes of them if it fails, and the directory untouched if nothing was due |
| `CertRollback.FailedCertTickIff` | internal/modules/certs/certs.go:86-116 | a lineage visited by a failing tick has its served files back if and only if, before the tick, none was due to be written or each met the single-directory condition |
| `CertRollback.RollbackMixesRenewals` | internal/engine/engine.go:55-57 | for all bundles with different certificates, the third keeping the second's chain, over any directory without a bare-suffix entry: two good renewals and a failed third end with the second certificate served with the first one's chain |
| `Fleet.TickRecords` | internal/engine/engine.go:147-171 | an error-free tick leaves at every key the newer of the stored and the local record |
| `Fleet.RecordsRun` | internal/engine/engine.go:147-171 | after any turns, stored records come from the old store or some node, nothing stored gets older, and all local records of nodes that ticked are covered |
| `Fleet.FirstRound` | internal/engine/engine.go:138-182 | once every node has ticked, in any order, the store holds at each key the greatest version of the old store and all local copies, and no other keys |
| `Fleet.TickBringsUpToDate` | internal/engine/engine.go:156-160 | with everything published, a node's tick leaves its files serving exactly what every stored record writes |
| `Fleet.TickIdle` | internal/atomicfile/atomicfile.go:20-28 | an up-to-date node's tick publishes nothing, changes no file and flushes nothing |
| `Fleet.TwoRoundsSettle` | internal/engine/engine.go:138-182 | after every node has ticked and then ticked again, in any order, everything is published and every node serves the store's records |
| `Fleet.StableForever` | internal/engine/engine.go:138-182 | from then on no tick of any run changes the store or a file, or has anything to flush |
| `Refinement.LanVisitRefines` | internal/engine/engine.go:150-160 | the steps of one key's visit, uninterrupted, with any failing reads, lock, put and apply, publish and apply what the sequential code does and leave the locks as they were |
| `TickRefinement.LanTickRefines` | internal/engine/engine.go:147-171 | the steps of a whole tick, uninterrupted, over its keys in any order and with any failing reads, locks, puts and applies: the cluster ends with the records of the engine's loop, each key's winner is applied unless that fails, and nothing else changes |
| `Refinement.WanGetRefines` | internal/wan/wan.go:138-176 | the protocol's lookup steps find what the backend's lookup finds, for every choice of answering peers |
| `Refinement.WanPublishRefines` | internal/engine/engine.go:214-240 | the protocol's publish steps over the WAN backend, uninterrupted: exactly when the local record is newer than the copy seen and the copy a second lookup finds, it goes to the own store and to every peer; otherwise nothing changes |
| `Refinement.WanPutRefines` | internal/wan/wan.go:179-210 | the put step is the backend's put: its store seen through the kind's view, and one message per peer |
| `WanTick.AppliedIsNewest` | internal/engine/engine.go:156-160 | in any state, the record a WAN node applies is the tick's local one or the copy first seen, neither is newer than it, and a tie gives the copy |
| `WanTick.WanVisitRefines` | internal/engine/engine.go:150-160 | one key's steps over the WAN backend, uninterrupted: the newer of the local record and what the backend's lookup finds is applied, and a local record newer than what both lookups find goes to the own store and to every peer |
| `WanTick.WanTickRefines` | internal/engine/engine.go:147-171 | a whole tick over the WAN backend, its local and listed keys in any order and any peers answering: every key ends as if visited alone, exactly the published records are sent, and nothing else changes |

## Left out

- HTTP, TLS, URL escaping, timeouts and server lifecycle: a push is a message, a peer read is atomic and may fail.
- The olric library: the shared store is one linearizable map with an abstract lock; partitions, replication, quorum and expiry times are not modelled, except that a lock may expire at any step.
- The gob codec: taken as the identity; a stored value of the wrong type is undecodable, other corruption is not modelled.
- Certificate and key parsing, `ReadLineage` and the certbot directory scan: the certificate provider's local records are an input of the tick.
- Hook execution: succeeds or fails arbitrarily per resource.
- Metrics, logging, flags, the module registry, the process entry point, `Members` and `reconcile`'s loop over providers: would only add easy members.
- The `not_after` entry of a certificate record and the metric fed from it: not part of the record model.
- File permissions, temporary files and crashes inside a replace.
- Directories below a serving directory whose name ends in the backup suffix: a directory holds files only.
- Nodes that restart with an emptied WAN store: `Wan.Init` starts all nodes together, and stores only grow.
- Liveness: convergence is stated of settled states; that fair delivery and ticking reach one is not.
- WanConvergence.KeyConverges: one direction only; a run with a harmful loss or overwrite of the newest version may still converge, so its hypotheses are sufficient and not necessary. What a loss leads to from a state at rest is exact (`WanMissed.MissedForeverIff`).
- Index.IndexComplete: keys equal to a reserved key or beginning with the lock prefix are excluded in the state machine; the methods of `Index.Cluster` do handle them.
- TickRollback.FailingCertTick: assumes no write error and no failing restore; `PartialWrites` and `TickRollback.FailedApplyStays` say what a failed write leaves.
- Fleet.TwoRoundsSettle: ticks run one at a time; over interleaved ticks `LanRounds`, `LanBusy` and `LanApplied` prove convergence of the store and of the records applied, without the files.
- Providers.LineagesSeparate: paths are joined without the cleaning of `filepath.Join`, under which keys such as `a` and `a/` share a directory; lineage keys are directory names, which are single clean components.
