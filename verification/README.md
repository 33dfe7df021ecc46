# Verified model of the mitos control plane and snapshot store

This project models, in Dafny, the parts of the microVM sandbox system whose
correctness is hard to see from the code, and proves what they promise.

- **Husk claims and live forks** (`HuskClaims`, `HuskRelease`, `HuskForks`,
  `HuskForkReports`). The reconcilers are steps of workers over an API server with versioned objects. Any
  number of passes interleave, any pass may stop after any step, a write may take
  effect although its reply is lost, and reads may be old. The theorems are about
  every state of every run.
- **Content-addressed store** (`Utf8`, `Json`, `Manifests`, `ManifestText`,
  `Chunking`, `CasStore`). Strings are sequences of Unicode scalar values. The hash is an
  arbitrary function, so conclusions read "the bytes are equal, or two different
  byte strings share a digest".
- **Placement, connections and distribution** (`Registry`, `Distribution`). The
  registry, its node records and their connections are objects on the heap.
  Memory headroom, admission and fork counts are arbitrary functions of a node.
- **Garbage collector** (`GarbageCollector`): the orphan sweep and the argument
  from listing times to safety.
- **Guest kernel** (`KernelDriver`, `KernelAgent`): the Python driver and the Go
  agent composed over their pipe, against an adversarial kernel, clock and pipe.
- **Tar transfer** (`Paths`, `TarDir`, `TarMembers`), **pool scoping** (`PoolScope`), **warm
  pool** (`WarmPool`) and **bounded capacity wait** (`CapacityWait`).

`Sorting`, `Names`, `Wrappers`, `Clock` and `Outside` are shared helpers. What
comes of a file operation or an API call is an input where a theorem speaks of it;
elsewhere a method of `Outside` returns an arbitrary reply.

Verify with `dafny verify dfyconfig.toml`.

## Where the code decides otherwise than its comments or the obvious reading

- The comment at `internal/cas/manifest.go:129-130` leaves the creation time out
  of a manifest's identity; the code writes it into the canonical bytes
  (`CreatedUnixIsIdentity`).
- A fork snapshot is a directory on one node, named after the fork without its
  namespace, and a child pod is pinned to the node the source is on in the pass
  that creates it. "All children restore one snapshot" is therefore not true of
  every run: `MovingSourceSplitsFork` and `OtherNamespaceSplitsFork` give runs
  that break it. `RestoresRecordedExactly` and `SameSnapshotExactly` say exactly
  which children restore the recorded snapshot and which two restore the same
  one; `ForkCoherence` proves the claim for sources that stay on their node and
  names that are unique across namespaces.
- The sweep compares whole seconds with the truncated grace.
  `SweepSafeExactlyInTime` gives the exact bound on the time between the two
  listings, which is the grace itself when that is whole seconds, and
  `FractionalGraceFallsShort` shows a grace that is not.
- When no node is there to place on, the capacity stamp is dropped in memory only;
  the status write that follows does not store that. A claim whose chosen node
  turns it down is stamped afresh each time, so its wait is not bounded: `RunAll`
  says when a claim fails in any run, `WaitsWithoutBound` gives runs in which it
  never does.
- The comment at `internal/cas/store.go:299-302` says that a failed verification
  never leaves bytes behind; the removal is best effort. `MaterializeFile` says
  exactly when they stay and `PartialBytesRemain` gives a case.
- A pass over a claim copy that has the finalizer and is already Restoring labels
  a pod without writing the claim first, so an old copy of a claim that is gone
  strands a pod (`StaleCopyStrandsPod`, and exactly when in
  `StrandsExactlyWithoutFinalizer`); `ReleaseConserves` allows every other case.
- A release deletes the pods it listed by name. If a name passes to another pod
  between the listing and the deletion, that pod goes, whoever labelled it
  (`ReusedNameReleasesOther`); `ReleasesOwnExactly` says exactly when the pod
  removed is the claim's own, and `ReleasesOnlyOwn` that it always is while no
  name is given to two pods.
- A fork records a slot once, by name. If the pod of a recorded slot is replaced,
  the slot stays recorded and the new pod is never activated (`RecordedForGood`).
- The untar handler checks the cleaned path and then makes the path as given, one
  prefix after the other, so an allowed path can leave a directory outside the
  workspace (`OutsideIsMade`). `TransferWithinExactly` says exactly when it does.
  A target that is not in clean form accepts no archive member
  (`TargetMustBeClean`).
- A pin whose manifest cannot be read in an eviction pass protects nothing in that
  pass, whatever the reason (`UnreadPinLosesChunk`).
- `reconcileHuskPods` counts a call that answers an error as not done. Its report
  is one off when that call took effect (`ReportedIsLeft`, `ReportedOneOff`).

## Model

| member | source | states |
|---|---|---|
| `Utf8.DecodeEncode` | internal/cas/manifest.go:115-118 | text survives its UTF-8 encoding, for every sequence of scalar values |
| `Utf8.LessIsStrictTotal` | internal/cas/manifest.go:49 | the byte order names are sorted in is a strict total order |
| `Utf8.LessIsScalarOrder` | internal/cas/manifest.go:49 | the byte order of encoded text is the order of its code points |
| `Utf8.EncodesAsSpecified` | internal/cas/manifest.go:115-118 | a character of each encoded length is written as section 3 of RFC 3629 has it, and ASCII as itself |
| `Json.ParseEscapedAll` | internal/cas/manifest.go:115-118 | every string written with Go's JSON escapes parses back to itself |
| `Json.ParsePrint` | internal/cas/manifest.go:47-118 | any printed JSON value, followed by nothing or by text that does not begin with a digit, a dot, an e or an E, parses back to that value and the rest |
| `Json.ParseTextPrint` | internal/cas/store.go:359-401 | a whole printed JSON document parses to the value printed |
| `Manifests.DecodeCanonical` | internal/cas/store.go:359-401 | decoding the canonical bytes gives the manifest with its files in name order |
| `Manifests.RecodeCanonical` | internal/cas/manifest.go:47-108 | encoding what was decoded gives the same bytes |
| `Manifests.CanonicalIdentifies` | internal/cas/manifest.go:122-124 | with unique names, canonical bytes are equal if and only if the manifests agree up to file order |
| `Manifests.CreatedUnixIsIdentity` | internal/cas/manifest.go:65-66 | two manifests that differ only in creation time have different canonical bytes |
| `Manifests.WriteChunk` | internal/cas/manifest.go:80-84 | the buffer gains exactly `{"digest":`, the quoted digest, `,"size":`, the size and `}`, which is the printed chunk object |
| `Manifests.WriteChunks` | internal/cas/manifest.go:75-86 | the buffer gains exactly the printed chunk list |
| `Manifests.WriteFile` | internal/cas/manifest.go:74-91 | the buffer gains exactly the printed file object |
| `Manifests.WriteFiles` | internal/cas/manifest.go:69-93 | the buffer gains exactly the printed file list |
| `Manifests.WriteCanonical` | internal/cas/manifest.go:47-108 | the writer's buffer is the encoding of the canonical text, whose characters `ManifestText` gives |
| `ManifestText.CanonicalIsWritten` | internal/cas/manifest.go:47-108 | the canonical text of any manifest is the template of seven literal keys in the source's order, filled in with the quoted strings, the decimal numbers and, separated by commas, the files in ascending order of name with their chunks |
| `ManifestText.CanonicalKeysAscend` | internal/cas/manifest.go:54-56 | in every object of the document a canonical text parses to, the keys ascend in byte order |
| `ManifestText.CanonicalSafe` | internal/cas/manifest.go:115-118 | no raw `<`, `>`, `&`, U+2028, U+2029 or control character occurs in a canonical text |
| `ManifestText.EscapeExactly` | internal/cas/manifest.go:115-118 | the escape of every character: short forms, `\u` forms with four hexadecimal digits, and every other character as it is |
| `ManifestText.HexDigitsSpelled` | internal/cas/manifest.go:115-118 | the hexadecimal digits of escapes are lower case |
| `ManifestText.OneFileWrittenOut` | internal/cas/manifest.go:47-108 | the canonical text of a manifest with one file of one chunk, as a literal |
| `ManifestText.DecimalExactly` | internal/cas/manifest.go:110-113 | numbers are decimal, most significant digit first, after the sign |
| `ManifestText.EmptyDecodes` | internal/cas/store.go:377-400 | an empty object decodes to a manifest of zero fields, and no bytes to an error |
| `Chunking.ConcatBlocks` | internal/cas/chunk.go:56-82 | the blocks of a file put together are the file |
| `Chunking.RefsExactly` | internal/cas/chunk.go:56-82 | the chunk list in closed form: every full 4194304 bytes and then what is left, each with its digest and length |
| `Chunking.RebuiltIsOriginal` | internal/cas/chunk.go:56-82 | bytes made of blocks with the recorded digests are the original file, or two different byte strings share a digest |
| `Chunking.ChunkFile` | internal/cas/chunk.go:56-82 | succeeds exactly when opening the file and every read of it do, and then lists the digest and size of every 4 MiB block in order |
| `Chunking.DescribesUnique` | internal/cas/manifest.go:143-184 | a file map has one manifest |
| `Chunking.BuildManifest` | internal/cas/manifest.go:143-169 | succeeds exactly when every file can be looked at, opened and read, and then lists exactly the given files, in name order, with their chunk lists |
| `Chunking.CompareChunks` | internal/cas/verify.go:50-60 | accepts exactly equal chunk lists |
| `Chunking.VerifyFiles` | internal/cas/verify.go:26-45 | accepts exactly when every given file can be read and its chunks are those the manifest records under its name; calls files tampered only if some file's are not, and unreadable only if some file cannot be read |
| `Chunking.VerifyDetectsTampering` | internal/cas/verify.go:26-60 | files accepted against another file map's manifest have that map's contents, or a collision exists |
| `CasStore.Store.PutChunk` | internal/cas/store.go:165-181 | stores a stream only under the digest of its bytes, with the time of the write; a failure changes nothing |
| `CasStore.Store.PutManifest` | internal/cas/store.go:191-198 | the canonical bytes are stored under their digest |
| `CasStore.Store.PutFileChunks` | internal/cas/store.go:116-149 | on success all blocks of the file are present and the entry is the file's; on any exit chunks are only added and new ones hash to their names |
| `CasStore.Store.PutSnapshot` | internal/cas/store.go:90-111 | returns the one manifest of the file map, stored and complete; without an I/O failure it succeeds |
| `CasStore.Store.MissingChunks` | internal/cas/store.go:232-247 | lists each referenced digest the store lacks, once |
| `CasStore.Store.Pull` | internal/cas/transport.go:31-66 | against any peer: nothing is removed and new chunks hash to their names on every exit; on success the manifest asked for is stored and complete; each missing digest is fetched once and none already held; with an honest peer and no I/O failure it succeeds |
| `CasStore.Store.CopyVerified` | internal/cas/store.go:340-357 | succeeds exactly when the chunk is read and matches its digest; a copy that fails may have written any part of the stored chunk |
| `CasStore.Store.MaterializeFile` | internal/cas/store.go:310-337 | success means a file made of verified blocks; after a failure the file is gone, and it stays, holding verified blocks and then part of a stored chunk, exactly when its removal failed too |
| `CasStore.Store.Materialize` | internal/cas/store.go:252-269 | success puts at the path of every file of the manifest verified contents of a file that goes there; failure leaves verified files and at most one file, whose removal failed; without an I/O failure it succeeds when every chunk is intact; the store keeps its data, and of the times only those of the manifest's chunks change, all of them when it succeeds without an I/O failure |
| `CasStore.Store.StoreAndRestore` | internal/cas/store.go:90-149 | storing a file map, any corruption or loss of chunks, then restoring: a restore that succeeds brings every file back byte for byte if and only if files that go to one path have the same contents; one that fails leaves only correct files and at most one it could not remove; or a collision exists; without damage or I/O failure it succeeds |
| `CasStore.NamesShareAPath` | internal/cas/store.go:303-305 | two names that go to one path under the target |
| `CasStore.PlainNameKept` | internal/cas/store.go:303-305 | below a clean absolute directory a name of ordinary components goes to the directory, a slash and the name |
| `CasStore.PlainNamesConsistent` | internal/cas/store.go:303-305 | so files with such names never share a path, and a restore that succeeds brings them all back |
| `CasStore.Store.Touch` | internal/cas/store.go:405-411 | a used chunk gets the time of the use, if the update succeeds; nothing else changes |
| `CasStore.Store.CopyChunks` | internal/cas/store.go:322-328 | the copies of one file change nothing in the store but the times of its chunks, each of which is a time of these operations; on success without an I/O failure all its chunks have been used |
| `CasStore.Store.PartialBytesRemain` | internal/cas/store.go:317-321 | a chunk that does not match and a removal that fails: bytes no block vouches for stay behind |
| `CasStore.Store.Pin` | internal/cas/evict.go:15-17 | the manifest is pinned, or nothing changes |
| `CasStore.Store.Unpin` | internal/cas/evict.go:21-26 | the pin is gone, present before or not, or nothing changes |
| `CasStore.Store.PinnedChunks` | internal/cas/evict.go:34-61 | exactly what the pins contribute whose manifests are read without a failure, in listing order |
| `CasStore.ProtectedExactly` | internal/cas/evict.go:43-60 | a chunk is protected if and only if the manifest of some pin that was read refers to it |
| `CasStore.Store.ScanChunks` | internal/cas/evict.go:72-97 | lists every stored chunk once with its size and time |
| `CasStore.Store.TotalSize` | internal/cas/evict.go:100-110 | the sum over a listing is the total size of the stored chunks |
| `CasStore.Store.EvictToFit` | internal/cas/evict.go:117-155 | the bytes freed are the drop in total; what is evicted are the chunks not protected by a pin read in the pass, from the shortest stretch, from the least recently used, that brings the total within the budget; on success the total fits or only protected chunks remain; without an I/O failure, other than in reading pins, it succeeds |
| `CasStore.LastWasNeeded` | internal/cas/evict.go:136-153 | if anything is evicted, putting the most recent eviction back would exceed the budget |
| `CasStore.ShortestIsLeastRecent` | internal/cas/evict.go:131-153 | nothing evicted is pinned or newer than an unpinned survivor |
| `CasStore.Store.PinnedStaysComplete` | internal/cas/evict.go:34-155 | a pinned manifest that was complete before an eviction and was read in it is complete after it |
| `CasStore.Store.UnreadPinLosesChunk` | internal/cas/evict.go:48-53 | reading a pinned, complete manifest fails, the eviction succeeds, and the manifest has lost its chunk |
| `CasStore.Store.RestoreThenEvict` | internal/cas/evict.go:112-155 | with a clock that moves on and no I/O failure, an eviction after a restore removes a chunk of the restored snapshot only when every chunk left is pinned or of that snapshot |
| `HuskClaims.SelectDormant` | internal/controller/huskpod.go:1010-1039 | the chosen pod is a usable dormant one of the pool with the lowest name; none is chosen only if there is none |
| `HuskClaims.SelectsLowestUsable` | internal/controller/huskpod.go:1010-1039 | in fields: a pod is found if and only if one is ready, not terminating, not labelled and of the pool, and it is the one of those with the lowest name |
| `HuskClaims.LabelKeeps` | internal/controller/huskpod.go:1052-1062 | the version-guarded label patch keeps the protocol invariant even when the pod was read stale |
| `HuskClaims.ActivateKeeps` | internal/controller/sandboxclaim_controller.go:748-771 | the answer to Activate keeps the invariant, by which a pass goes on to write Ready only with an ok answer of the pod it labelled |
| `HuskClaims.LastWriteKeeps` | internal/controller/sandboxclaim_controller.go:794-809 | the writes that end a pass, Ready among them, keep the invariant whether or not they or their replies get through |
| `HuskClaims.StepKeeps` | internal/controller/sandboxclaim_controller.go:601-813 | every step of every pass, of pods and of users keeps the invariant |
| `HuskClaims.ClaimsAreExclusive` | internal/controller/huskpod.go:1010-1062 | in every run each pod is labelled at most once and activated at most once, only by the claim in its label, and no two Ready claims hold one pod; every Ready claim is bound to an incarnation that it labelled under the bound name and that answered its Activate with ok |
| `HuskClaims.LabelsOnlyUsable` | internal/controller/huskpod.go:1010-1062 | in every run a label goes only on a pod that at that moment is ready, not terminating, not labelled and of the claim's pool |
| `HuskClaims.ReleasesOwnExactly` | internal/controller/sandboxclaim_controller.go:959-969 | in every run a release deletes only names some stored pod of which carried its claim's label, and the pod removed carries it if and only if it is an incarnation that did |
| `HuskClaims.ReleasesOnlyOwn` | internal/controller/sandboxclaim_controller.go:959-969 | in every run in which no name has been given to two pods, a release removes no pod but those labelled by its claim |
| `HuskClaims.ClaimServed` | internal/controller/sandboxclaim_controller.go:601-813 | a pass whose reads are current and whose writes go through labels the chosen pod and nothing else; the claim is Ready and bound to it if it answers ok, and Pending again if not |
| `HuskClaims.ClaimPends` | internal/controller/sandboxclaim_controller.go:615-649 | with no usable pod listed the claim is left Pending and unbound, and every pod as it is |
| `HuskClaims.RependsExactlyWhenLost` | internal/controller/huskdrain.go:85-132 | a Ready claim is given up if and only if the pod read is gone, terminating or not labelled by the claim |
| `HuskClaims.ClaimRepends` | internal/controller/huskdrain.go:140-200 | it is then Pending and unbound, and no pod is touched |
| `HuskClaims.ClaimExpires` | internal/controller/sandboxclaim_controller.go:1056-1090 | a claim past its lifetime is Terminated, and no pod is touched |
| `HuskClaims.ClaimFails` | internal/controller/sandboxclaim_controller.go:661-685 | a claim whose secrets cannot be had before the label is Failed, and no pod is touched |
| `HuskRelease.FreshStepKeeps` | internal/controller/sandboxclaim_controller.go:937-985 | every step keeps: a labelled pod's claim is in the API with its finalizer |
| `HuskRelease.ReleaseConserves` | internal/controller/sandboxclaim_controller.go:937-985 | in every run with one pass per claim at a time, whose releases list the pods the claim has labelled and whose copies of the claim may be old, except that a pass over a Restoring copy with the finalizer that is not deleting begins only while the claim has its finalizer: a claim that has left the API has left no labelled pod, however many passes failed before; what a release may remove is in `ReleasesOwnExactly` |
| `HuskRelease.ClaimReleased` | internal/controller/sandboxclaim_controller.go:937-985 | a release whose reads are current and whose writes go through removes the claim and exactly the pods that carry its label |
| `HuskRelease.ReusedNameReleasesOther` | internal/controller/sandboxclaim_controller.go:959-969 | a run in which a listed name passes to another pod, which another claim takes and the release may remove |
| `HuskRelease.StaleCopyStrandsPod` | internal/controller/sandboxclaim_controller.go:654-708 | a run in which a pass over an old Restoring copy of a claim already gone writes nothing before it labels a pod, which no claim then owns |
| `HuskRelease.StrandsExactlyWithoutFinalizer` | internal/controller/sandboxclaim_controller.go:654-708 | from any state of any run with one pass per claim at a time in which a pod of the pool is dormant, a pass begun on such a copy can label that pod for a claim without its finalizer if and only if the claim does not have its finalizer when the pass begins |
| `HuskForks.SlotNameInjective` | internal/controller/sandboxfork_controller.go:410 | no two slots, of one fork or of two, share a pod name |
| `HuskForks.StepKeeps` | internal/controller/sandboxfork_controller.go:291-488 | every step keeps: a snapshot directory holds the last snapshot written to it by any fork of its name, and no fork snapshots again once its taken flag is set |
| `HuskForks.SnapshotOnce` | internal/controller/sandboxfork_controller.go:329-360 | in every run no snapshot is taken for a fork after its taken flag is persisted, and what the flag stands for never changes |
| `HuskForks.RestoresRecordedExactly` | internal/controller/sandboxfork_controller.go:329-382 | in every run an activated child restores the snapshot its fork recorded if and only if its pod is on that snapshot's node and no fork of the same name in another namespace has taken a snapshot there since |
| `HuskForks.SameSnapshotExactly` | internal/controller/sandboxfork_controller.go:329-469 | in every run two activated children of one fork restore the same snapshot if and only if their pods are on the same node and no fork of the same name in another namespace took a snapshot there in between |
| `HuskForks.ForkCoherence` | internal/controller/sandboxfork_controller.go:329-469 | when the source stays on its node and no other namespace has had a fork of that name, all children ever activated for one fork restore the same snapshot, through crashes and lost replies |
| `HuskForks.MovingSourceSplitsFork` | internal/controller/sandboxfork_controller.go:362-382 | a run in which the source changes node and two children of one fork restore different snapshots |
| `HuskForks.OtherNamespaceSplitsFork` | internal/controller/sandboxfork_controller.go:329-347 | a run in which a fork of the same name in another namespace takes a snapshot and two children of one fork on one node restore different snapshots |
| `HuskForks.OtherNamespaceRemovesSnapshot` | internal/controller/sandboxfork_controller.go:529-560 | a run in which deleting a fork of the same name in another namespace removes the recorded snapshot |
| `HuskForks.RecordedNotReactivated` | internal/controller/sandboxfork_controller.go:411-425 | a slot the object records as ready is not activated by a pass that finds its pod; what the object records is in `ReportsExactly` |
| `HuskForkReports.ReportsExactly` | internal/controller/sandboxfork_controller.go:402-474 | in every run the list a pass stores has an entry for exactly the slots below the replica count whose pod it found and that were recorded before or that it activated with success, each once, in slot order, with the child's name and node |
| `HuskForkReports.RecordedForGood` | internal/controller/sandboxfork_controller.go:400-425 | in every run a slot recorded while no pass is under way, and whose pod every later pass finds, stays recorded while the object exists and keeps more replicas, and no pod of that slot is activated again |
| `HuskForkReports.ForkServed` | internal/controller/sandboxfork_controller.go:384-488 | a pass over a fork with a snapshot and no child, whose calls go through, makes and activates one pod in every slot from that snapshot, no other, and records them all in slot order |
| `HuskForks.ChildPodsFitReplicas` | internal/controller/sandboxfork_controller.go:402-522 | in every run a fork's child pods carry slot names below the largest replica count it asked for, and are never more than that |
| `Registry.NodeRegistry.OpenExactlyWhileHeld` | internal/controller/node_registry.go:132-159 | a dialed connection is open if and only if a registered node holds it, one node only, and otherwise was closed exactly once |
| `Registry.NodeRegistry.Register` | internal/controller/node_registry.go:132-147 | a node that returns at the same endpoint keeps its connection; at another the old one is closed |
| `Registry.NodeRegistry.Unregister` | internal/controller/node_registry.go:150-159 | the node is gone and its connection closed; nothing else changes |
| `Registry.NodeRegistry.GetConnection` | internal/controller/node_registry.go:399-431 | a node is dialed once, exactly when it is registered, has no connection and dialing works; later calls get the same connection |
| `Registry.NodeRegistry.PruneStale` | internal/controller/node_registry.go:462-477 | exactly the nodes without a recent heartbeat go, their connections closed, and their number is returned |
| `Registry.RunOps` | internal/controller/node_registry.go:132-477 | for any sequence of operations: each call is given the connection that a ledger of the operations says, all connections are distinct, and each was closed once if the ledger has it closed and otherwise is open and held |
| `Registry.AfterSound` | internal/controller/node_registry.go:132-477 | after any operations a dialed connection is closed or held by exactly one node, never both |
| `Registry.SharedUntilReleased` | internal/controller/node_registry.go:138-143 | a node's callers share one connection through re-registration at the same endpoint and prunings that leave it, until the node goes, moves or is pruned |
| `Registry.DenserIsTotal` | internal/controller/node_registry.go:244-270 | of two nodes with distinct names exactly one is denser |
| `Registry.DenserIsTransitive` | internal/controller/node_registry.go:244-270 | denser is transitive |
| `Registry.BestIsUnique` | internal/controller/node_registry.go:214-222 | at most one node beats all others, so the choice does not depend on map order |
| `Registry.BestPacks` | internal/controller/node_registry.go:209-270 | in fields: with a holder of the snapshot among the nodes the best node is a holder that runs the most forks of it; with none it has the most free memory known; the lowest name decides between equals |
| `Registry.HealthyExactly` | internal/controller/node_registry.go:485-490 | a node is healthy if and only if fewer than three probes in a row failed and its last heartbeat is less than two minutes old |
| `Registry.PackBest` | internal/controller/node_registry.go:214-222 | the fold returns the node that beats every other |
| `Registry.NodeRegistry.SelectNode` | internal/controller/node_registry.go:170-207 | each error exactly in its case; the preferred node wins exactly when healthy and admitted; otherwise the best admitted healthy node |
| `Registry.NodeRegistry.TemplateSource` | internal/controller/node_registry.go:292-314 | the lowest-named healthy holder with a digest and a chunk endpoint, whenever there is one |
| `Registry.NodeRegistry.AddTemplateWithDigest` | internal/controller/node_registry.go:338-357 | one node's list gains the template once and its digest is refreshed; no other node changes |
| `Distribution.SecondDigestBuildNeedsLapse` | internal/controller/sandboxpool_controller.go:446-460 | a second build that yields a digest comes only after the node of the first, if it has a chunk endpoint, has lapsed |
| `Distribution.Ask` | internal/controller/sandboxpool_controller.go:446-500 | a node is asked to pull exactly when the template is distributed and some node serves it at that time; otherwise it is asked to build exactly if it can be reached |
| `Distribution.CreateSnapshotsOnNodes` | internal/controller/sandboxpool_controller.go:425-505 | for any node order and any time of each visit: nodes added never exceed the deficit and equal the growth in holders; with fewer added every node was visited, and one healthy then that lacked the template was asked or cannot be reached; an encrypted template is never pulled; nothing is built at a time at which a healthy holder serves it; the pass fails exactly when some visited node was due and nothing was added |
| `GarbageCollector.DesiredAlive` | internal/controller/gc.go:110-136 | exactly the node and id pairs of Ready claims and Ready fork children |
| `GarbageCollector.LiveIds` | internal/controller/gc.go:149-170 | exactly the names of claims and the ids of fork children in phase Pending, Restoring, Ready or Terminating |
| `GarbageCollector.RunOnce` | internal/controller/gc.go:80-205 | termination is asked for exactly the VMs on healthy reachable nodes, past the grace in whole seconds, that nothing answers for: every claim of that name and every fork child of that id is Terminated or Failed, and no Ready claim is bound to it; a VM past the grace whose claims and children are all Terminated or Failed is asked for |
| `GarbageCollector.SpareLive` | internal/controller/gc.go:172-205 | a VM whose claim has been there since the fork, Pending, Restoring, Ready or Terminating, is spared when the listings are close enough |
| `GarbageCollector.RunInTime` | internal/controller/gc.go:80-205 | given the phase of every claim at every time: when each node lists its VMs truthfully and within the grace, in whole seconds, of the claim listing, termination is asked only for VMs whose claim was gone, Terminated or Failed at some time from the fork to those listings |
| `GarbageCollector.SweepSafeExactlyInTime` | internal/controller/gc.go:193 | that holds for all VMs if and only if the VM listing comes within the grace, in whole seconds, of the claim listing |
| `GarbageCollector.WholeSecondsGrace` | internal/controller/gc.go:27-30 | with a grace of whole seconds every lag below the grace is safe |
| `GarbageCollector.FractionalGraceFallsShort` | internal/controller/gc.go:193 | a grace of 1.5 s and a lag of 1.4 s for which a live claim's VM is terminated |
| `KernelDriver.Driver.DrainToIdle` | guest/rootfs/kernel_driver.py:77-92 | the drain reads on to the cell's idle, a dead kernel or its own deadline, and emits nothing |
| `KernelDriver.Driver.Poll` | guest/rootfs/kernel_driver.py:107-170 | the loop emits exactly what its own execution publishes before its idle, its deadline or the kernel's death, in order, and leaves the turns after that one |
| `KernelDriver.EndStops` | guest/rootfs/kernel_driver.py:107-170 | the turn a loop ends at is the first that finds time up, a dead kernel or the idle status of its own execution |
| `KernelDriver.CellExactly` | guest/rootfs/kernel_driver.py:107-171 | a cell is finished, dead or timed out by the turn its loop ends at, and its messages are exactly those of its own execution in the turns before |
| `KernelDriver.Driver.RunOne` | guest/rootfs/kernel_driver.py:95-171 | then what a timeout or a dead kernel adds, then exactly one done; a timed-out cell is drained over turns of its own |
| `KernelAgent.RunTranslates` | guest/agent/kernel.go:119-160 | line by line translation of the driver's lines gives the frames the kernel's messages call for |
| `KernelAgent.KernelManager.EnsureStarted` | guest/agent/kernel.go:172-220 | starts once, and never after the kernel has died |
| `KernelAgent.KernelManager.Read` | guest/agent/kernel.go:119-169 | the scan loop stops at the done, at an undecodable line or at the end of the stream, and marks the kernel dead exactly in the last two cases |
| `KernelAgent.KernelManager.Run` | guest/agent/kernel.go:82-169 | nothing is left unread between requests while the kernel lives; an unsupported language or a dead kernel is reported as unavailable without running anything |
| `KernelAgent.KernelManager.Handle` | guest/agent/kernel.go:235-248 | the reply and the new state are those of the request's own execution and its transport faults |
| `KernelAgent.Serve` | guest/agent/kernel.go:82-248 | agent and driver answer any sequence of requests with the reply each one's state calls for, one exit frame each and last |
| `KernelAgent.SessionReply` | guest/agent/kernel.go:82-248 | over any session: a request that runs gets frames of its own execution only, or the protocol's own errors, all of them while the kernel lives; one that does not run is told the kernel is unavailable |
| `KernelAgent.SessionApart` | guest/agent/kernel.go:82-248 | no two requests share an execution, and once the kernel is dead every later request is refused |
| `KernelAgent.LeftoversAfterTimeout` | guest/rootfs/kernel_driver.py:77-171 | a session in which a timed-out cell's output arrives during the next cell: each reply holds its own cell's frames |
| `KernelAgent.ServesPythonOnly` | guest/agent/kernel.go:82-118 | a request in another language, or to a dead kernel, runs nothing and is told so; one to a live kernel over a sound pipe gets all its cell's frames |
| `KernelAgent.EveryKind` | guest/rootfs/kernel_driver.py:146-168 | the frame of each kind of kernel message |
| `KernelAgent.FailingCell` | guest/rootfs/kernel_driver.py:131-171 | the frames of a cell that writes and fails, and of one whose kernel dies: exit 1 |
| `KernelAgent.FaultsWrittenOut` | guest/agent/kernel.go:119-169 | when the pipe fails after some lines: the frames of those lines, then an error and exit 127 if the driver went away or exit 1 if it could not be read; the kernel is dead |
| `Paths.PartsShape` | guest/agent/tardir.go:221 | a cleaned path has only ordinary components unless it is relative and climbs at its start |
| `TarDir.PathAllowedExactly` | guest/agent/tardir.go:28-37 | a path is allowed if and only if it is absolute and lexically in the workspace |
| `TarDir.SafeJoinConfines` | guest/agent/tardir.go:214-231 | with a clean target a name is accepted if and only if it is relative and does not climb, and then means the target's components followed by the name's |
| `TarDir.TargetMustBeClean` | guest/agent/tardir.go:225-229 | a target that accepts any member is in clean form |
| `TarDir.UntarDir` | guest/agent/tardir.go:156-190 | extraction makes every prefix of the target text that is missing, then applies the members in order up to the first refused one |
| `TarDir.UntarConfined` | guest/agent/tardir.go:156-231 | into a clean target, for any archive and any point where extraction stops, every path written is the target or below it |
| `TarDir.TransferConfined` | guest/agent/tardir.go:138-231 | for every allowed target, clean or not, and any archive: the target is in the workspace, and apart from directories missing along the target text every path written is the target or below it |
| `TarDir.TransferWithinExactly` | guest/agent/tardir.go:138-190 | nothing outside the workspace changes if and only if every prefix of the target text, up to one that is a file, exists or is in the workspace |
| `TarDir.CleanStaysWithin` | guest/agent/tardir.go:28-37 | which is so for every allowed target in clean form |
| `TarDir.OutsideIsMade` | guest/agent/tardir.go:138-157 | an allowed target that is not in clean form, for which a directory outside the workspace is made |
| `TarDir.HandleUntar` | guest/agent/tardir.go:138-149 | for any path and any archive nothing outside the workspace changes exactly if the request is refused or the prefixes of its path are as just said; a refused request changes nothing; it is accepted exactly if the path is allowed and the archive has at most 64 MiB |
| `TarDir.MemberAccepted` | guest/agent/tardir.go:95-118 | every name an archive of a tree contains is accepted and means its own path |
| `TarDir.Replant` | guest/agent/tardir.go:61-190 | extracting the members of a tree adds exactly the tree |
| `TarDir.RoundTrip` | guest/agent/tardir.go:61-190 | untarring the tar of a tree into an empty clean target recreates exactly its directories and regular files with their contents |
| `TarMembers.AcceptsExactly` | guest/agent/tardir.go:156-231 | a member is accepted if and only if it is a directory or a regular file with a relative name that does not climb, no file is in the way, and a regular file does not come where a directory is |
| `TarMembers.LastWriteWins` | guest/agent/tardir.go:156-212 | after an archive was extracted whole, every member was a directory or a regular file, every directory member is there, and a path that file members mean holds the first 64 MiB of what the last of them carries, whatever was there before |
| `TarMembers.Untouched` | guest/agent/tardir.go:156-190 | a path that no file member means keeps what it held |
| `TarMembers.MembersWrittenOut` | guest/agent/tardir.go:82-130 | the members of a small tree, as a literal: relative names, a slash after directories, no link |
| `PoolScope.Sweep` | cmd/kubectl-sandbox/tree.go:63-77 | one round either keeps a new fork or finds the scope closed |
| `PoolScope.ScopeToPool` | cmd/kubectl-sandbox/tree.go:48-79 | terminates on any listing, cycles included; the claims kept are those whose pool it is, in order, and the forks kept are, by name, exactly those that descend from them, each name once |
| `PoolScope.ScopeIsExact` | cmd/kubectl-sandbox/tree.go:48-79 | with unique fork names every reached fork is kept exactly once and no other |
| `WarmPool.PodApi.Count` | internal/controller/huskpod.go:839-866 | in fields: owned are the husk pods of the pool's name and uid that are not terminating, and dormant are those of them that no claim has |
| `WarmPool.PodApi.Reconcile` | internal/controller/huskpod.go:868-981 | stops at the first call that answers an error; the count reported is the old count moved by the calls before it, the count left is one further exactly when that call took effect all the same; without an error exactly the wanted dormant pods; a pod that is claimed, terminating, of another pool or owner, or not a husk, is untouched; new pods are unclaimed husks of the pool; the number in use is that of the claimed pods among the owned ones; deletions from the end of the name order; nothing changes when the count is right |
| `WarmPool.ReportedIsLeft` | internal/controller/huskpod.go:918-980 | the count reported is the count left if and only if the call that ended the pass had no effect; otherwise it is one too low for a pool that was short and one too high for one that had too many |
| `WarmPool.ReportedOneOff` | internal/controller/huskpod.go:949-975 | a creation and a deletion, each carried out while its answer is lost, after which the report is off by one |
| `WarmPool.PodApi.ReconcileTwice` | internal/controller/huskpod.go:868-981 | a pass succeeds exactly when its calls do, and a second pass then changes nothing |
| `CapacityWait.PendingClaim.ReconcileNoCapacity` | internal/controller/sandboxclaim_controller.go:831-898 | the stamp is written only when absent; the claim fails exactly when the wait counted from a readable stamp has reached the bound |
| `CapacityWait.PendingClaim.Reconcile` | internal/controller/sandboxclaim_controller.go:418-528 | what each outcome of placement does to the stamp and the phase |
| `CapacityWait.RunAll` | internal/controller/sandboxclaim_controller.go:418-898 | over any run: the wait is counted from the first shortage since a node was last chosen, a rejection by that node included; the claim fails at the first shortage found at selection that is at least the bound after the whole second of that moment, or never; the stamp is written at exactly those moments |
| `CapacityWait.NeverPlacedFails` | internal/controller/sandboxclaim_controller.go:831-898 | while no node is chosen the stamp is written once, at the first shortage, and the claim fails exactly at a later shortage past the bound |
| `CapacityWait.RestartedInTime` | internal/controller/sandboxclaim_controller.go:441-448 | a node chosen within the bound, less a second, keeps the claim waiting |
| `CapacityWait.WaitsWithoutBound` | internal/controller/sandboxclaim_controller.go:519-528 | runs of any length, with shortages and rejections in turn, in which the claim never fails |
| `CapacityWait.WithinASecond` | internal/controller/sandboxclaim_controller.go:846 | counted from the first shortage itself, that is never more than a second early and never late |
| `CapacityWait.RejectedForever` | internal/controller/sandboxclaim_controller.go:519-528 | a claim whose node turns it down every time never fails |

## Left out

- SHA-256, TLS, tokens, secrets, key management, HTTP, gRPC and vsock framing: the hash is a parameter, and calls appear as arbitrary replies.
- The reconcilers are modelled on values, as transition systems: interleaving, crashes and lost replies are the point there, so updates of status fields in place and the order of writes within one API call are not captured.
- HuskClaims.ClaimsAreExclusive: the controller's own workspace, lifetime and secret handling appear only as the writes they make to the claim; pod lists may hold any version ever stored of any pod.
- HuskClaims.ActivateKeeps: Activate is addressed to the incarnation of the pod that was labelled; the code dials the pod's IP, and that an IP may be reused by another pod is not modelled.
- The status write a claim makes while its workspace is busy, before the finalizer is added, has no step of its own.
- HuskClaims, HuskRelease and WarmPool speak of one namespace: a claim, its pool and the pool's pods share one.
- HuskForks.ForkCoherence: a child reads its directory when it is activated, not when its pod mounts it; a snapshot that reported failure may have been made, but not later than the reply; conditions such as Rejected are not modelled.
- HuskForks.ChildPodsFitReplicas: speaks of the largest replica count the object ever asked for, because the count may be edited while pods exist.
- The raw-forkd fork path, workspace hydration, metrics, events, the autoscaler's formula and the pod templates: no algorithm of their own, or not part of this model.
- JSON as the library reads it beyond RFC 8259: case-insensitive keys, the nesting limit, and reuse of earlier array elements by a repeated key.
- Manifests.CanonicalIdentifies: for unique file names; with repeated names the order the sort leaves them in is not fixed by the code.
- CasStore.Store.Materialize: file modes, and directories inside file names, which have to exist already.
- The temporary file that a failed atomic write may leave when its removal fails as well.
- A digest shorter than two characters, for which the chunk path panics, and operations of two processes on one store at once.
- Deletion of finished claims and marking of lost nodes in the garbage collector, and whether a termination request succeeds.
- GarbageCollector.SpareLive: takes the claim listing as the claims at one moment; a cached listing counts from the moment it reflects.
- Distribution.CreateSnapshotsOnNodes: heartbeats and probe counts do not change during the pass, and whether a node can be reached, its mTLS included when the template is encrypted, is an input rather than a call into the registry.
- Registry.NodeRegistry.Register: for records that are not registered yet and carry no connection of their own, as discovery makes them; registering one record twice is not covered.
- WarmPool.PodApi.Reconcile: the pods do not change between the listing and the last call, so a pod that is already gone is not met.
- KernelAgent.Serve: lines that other processes write into the driver's pipe count as undecodable; the wording of errors is fixed text.
- KernelDriver.Driver.RunOne: whether time is up is an input of each turn of a loop, so the default timeout and the drain's ten seconds are not captured.
- TarDir.RoundTrip: contents, directories and names; permission bits, symbolic links already in the target and the encoding of archives are not modelled, and each file fits the 64 MiB limit the handlers put on the whole archive.
- `setCondition`, BuildLineage and the command line tools.
- CapacityWait.RunAll: all writes succeed, the stamp starts absent, and a run ends where the claim is placed for good or fails for another reason.
