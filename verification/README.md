# A model of oras-go in Dafny

oras-go moves content-addressed graphs of manifests and blobs between stores: remote registries, OCI layout
directories, memory. This project models the parts of it where correctness is hard to see from the code, and proves
what they are for. Every claim is about all inputs, all interleavings or all reachable states.

## What is modelled

**Concurrent graph copy** (`CopyProtocol`, `CopySafety`, `CopyResults`, `CopyProgress`, `CopyReturns`, `CopyFaults`).
`copyGraph` starts one goroutine per descriptor. A goroutine claims its node in a tracker, gives its permit back before
it spawns and awaits its successors, and pushes its node after them. A state holds all goroutines, all calls of
`syncutil.Go`, the claims, the closed done channels, the free permits and the destination. A step is one atomic action
of one goroutine, a fault or a cancellation. Safety holds in every state of every run, including failed and cancelled
ones. Over an acyclic graph every run returns and leaves no goroutine behind, whatever fails. It returns nil only if
nothing failed, and an error only if something did or the caller cancelled. A fault-free run copies everything, also
when several roots share one limiter and one tracker.

**Extended copy** (`ExtendedCopy`). The depth-first search for roots above a node, as the imperative loop over a stack,
and what an extended copy that returns nil has brought over.

**Referrers index updates** (`Referrers`, `MergeProtocol`, `MergeSafety`, `MergeResults`, `MergeOutcomes`,
`MergeBatches`, `MergeLists`, `BatchOrders`, `MergeOrders`, `MergeFaults`). The list algorithm with tombstones is
proved against a plain fold over the changes. The protocol around it (a pool of merge objects, batching with status
channels, read-modify-write of one tag) is a state machine over its critical sections, channel operations and registry
requests. The registry follows the OCI distribution specification v1.1.0, section "Referrers Tag Schema".

**OCI layout store** (`GraphMemory`, `IndexFile`, `GarbageCollection`, `Resolver`, `Cascades`, `DeleteOrders`,
`DeleteFailures`, `DeleteExamples`, `OciStore`, `StoreExamples`). The predecessor graph, the tag resolver,
`index.json`, cascading delete and garbage collection, as classes with the fields the store updates. Their
representation invariant `Valid` ties the graph, the resolver and the storage together. Every operation keeps it, but
for `Tag` in one case that its contract names, and opening a saved store establishes it. The orders in which a
cascading delete may take its queue are a transition system of their own, which the method follows.

**Canonical forms** (`Strings`, `Scopes`, `ScopeLaws`, `References`). The cleaning of authorization scopes, and parsing
and printing of artifact references.

**Small protocols** (`VerifyingReader`, `TokenCache`, `TokenSafety`, `TokenResults`, `TokenCaching`). The verifying
reader over every chunking of a stream, and the single-flight token cache.

`Descriptors`, `Reachability`, `Sequences` and `Sums` hold what the others share.

## Assumptions

- A descriptor's key is (mediaType, digest, size), and what a key stands for never changes. In the OCI store, which
  addresses blobs by digest alone, a digest has one media type and one size (`keyOf`).
- Copying, mounting or skipping a node is one atomic step with two results: whether the node is stored and whether the
  call succeeded. Success implies that it is stored. Nobody else writes to the destination.
- One client writes a referrers tag. A push or a delete may take effect and still report a failure.
- A map iteration is an arbitrary choice (`:|`) or an arbitrary order given as a parameter. Every result holds for all
  of them.
- Digests in the OCI store have the shape of a SHA-256, SHA-384 or SHA-512 digest. A tag is any non-empty string, colons
  included; the other operations of a valid store assume that none is the digest of other content.
- A stream makes progress: it does not return zero bytes without an error for ever.
- JSON, hashing, URL parsing, regular expressions and digest parsing are functions given as parameters. What is needed
  of them is stated where they are used (`References.Sane`).

## What the proofs found

- `gcIndex` declares a second `subject` inside its loop, so the loop reads the same manifest again and again. If the
  subject of an untagged manifest is not indexed yet, the loop never ends. `GarbageCollection.EndsIffAnchored` gives
  the exact condition under which it ends in every iteration order, and `StoreExamples.SignatureFirstHangs` a store on
  which it does not.
- `Delete` queues referrers without looking at their tags, although the documentation of `AutoGC` says that tagged
  manifests stay. `DeleteExamples.TaggedSignatureGoes` gives a store where that happens in every order, and
  `OciStore.Store.Delete` states exactly which tagged nodes go: the target and the referrers of what goes.
- `Delete` can queue a node twice, once as a referrer and once as an orphan, and then fails with "not found" after
  part of the work (`DeleteExamples.BundleFirstFails`). `DeleteFailures.SucceedsIff` gives the exact condition under
  which it succeeds in every order: all that has to go is stored, and no node loses its subject and its last lister in
  the same round.
- `resolver.Tag` leaves a moved tag in the tag set of its old digest, so `isTagged` may protect a manifest that lost
  its tag (`Resolver.MoveTag`). As long as tag sets are exact, tagging keeps them exact if and only if it does not move
  a reference to other content (`Resolver.StaysExactIff`), and it leaves exactly that content stale from which it
  takes the only tag (`Resolver.StaleAfterTagIff`).
- `Tag` accepts a reference that is the digest of other content, and that is exactly when it leaves the store
  inconsistent (`OciStore.Store.Tag`).
- `GC` replaces the resolver without writing `index.json` (`StoreExamples.ForgottenImage`). The file still stands for
  the resolver if and only if every untagged manifest has a subject (`OciStore.Store.GC`,
  `GarbageCollection.StillSaved`).
- Batched referrers updates are sequential on the set of keys, but not always on lists: removing and adding a referrer
  in one batch leaves the list alone, which no order of the two does (`MergeLists.BatchIsNotSequential`). A batch gives
  every list what its changes give one by one if and only if it does not remove a referrer and then add it to stay
  (`BatchOrders.AlwaysInSequenceIff`). The stored list is the sequential one in every run from every index if and only
  if no referrer is both added and removed by the callers (`MergeOrders.SequentialIff`).
- `applyReferrerChanges` reports an update for an added empty descriptor that leaves the list as it was
  (`Referrers.EmptyAddReportsNoChange`); its callers pass none. A reported update that changes nothing can only have
  added the empty key to those of a clean list.
- `CleanScopes` treats a scope with exactly one colon differently in its fast path and in its slow path
  (`Scopes.FastDiffers`). The two agree if and only if the scope has not exactly one colon, or what follows the colon is
  a list of actions in canonical form (`Scopes.FastAgreesIff`).
- With a negative size, `Verify` accepts an empty stream whose digest matches
  (`VerifyingReader.NegativeSizePasses`). `ReadAll` rejects negative sizes.

## Model

| member | source | states |
|---|---|---|
| `CopySafety.StepKeepsInv` | copy.go:209-275 | every step of every goroutine, fault or cancellation keeps the global invariant over claims, done channels, permits, groups and destination |
| `CopySafety.RunKeepsInv` | copy.go:182-276 | the invariant holds in every state of every interleaving |
| `CopyResults.DestinationStaysClosed` | copy.go:243-275 | a destination that starts closed under non-foreign successors is closed in every state, also of failed and cancelled runs |
| `CopyResults.CopiedAtMostOnce` | copy.go:211-263 | a node is stored at most once and only if missing, a done channel is closed at most once and only for a stored node, and the "successor not committed" error is unreachable |
| `CopyResults.OneWorkerPerNode` | internal/status/tracker.go:39-43 | two goroutines never work on the same node |
| `CopyResults.ClaimsAreFinal` | internal/status/tracker.go:39-43 | a node claimed by a goroutine is claimed by the same one in every later state |
| `CopyResults.OneWorkerPerRun` | internal/status/tracker.go:39-43 | two goroutines that work on the same node at any two times of a run are the same |
| `CopyResults.PermitsAreConserved` | internal/syncutil/limit.go:46-63 | free permits plus started regions equal the limit; nobody holds a permit while spawning or waiting, and everybody does while copying and until a successful end |
| `CopyResults.NilReachesDown` | internal/syncutil/limit.go:70-94 | a nil return of the outermost Go means that every nested Go returned nil |
| `CopyResults.NilMeansAllReturned` | internal/syncutil/limit.go:70-94 | a nil return of the outermost Go means that every goroutine returned nil |
| `CopyResults.NilMeansClaimedIsDone` | copy.go:215-220 | after a nil return every claimed node is done and stored |
| `CopyResults.NilMeansCopied` | copy.go:182-276 | after a nil return everything reachable from a requested node through non-foreign successors is in the destination |
| `CopyResults.OnlyRequestedIsStored` | copy.go:236-247 | nothing outside the requested graphs is ever stored |
| `CopyResults.SuccessorsAreOffered` | copy.go:236-240 | the successors followed are exactly the descriptors the source lists that are not foreign layers |
| `CopyResults.ForeignIsNeverStored` | copy.go:240 | a foreign layer is never stored, unless it was asked for by itself |
| `CopyProgress.StepLowers` | copy.go:209-275 | every step lowers a potential, on a finite set of nodes |
| `CopyProgress.RunsAreBounded` | copy.go:182-276 | no run has more steps than the initial potential |
| `CopyProgress.NeverStuck` | internal/syncutil/limit.go:46-94 | with at least one permit, no cycle and no fault, a copy that has not returned always has an enabled step |
| `CopyProgress.RunKeepsClean` | copy.go:209-275 | without faults no goroutine fails and no context is cancelled |
| `CopyProgress.MaximalRunCopiesEverything` | extendedcopy.go:126-139 | a fault-free run that cannot be continued has returned nil and copied everything below every root, with several roots on one limiter and tracker |
| `CopyReturns.RunKeepsFailed` | internal/syncutil/limit.go:70-94 | in every state of every run, a Go that returned an error had its context cancelled or waited for all its goroutines |
| `CopyReturns.FailureGoesOn` | internal/syncutil/limit.go:70-94 | a failed goroutine below a call that has not returned leaves a step possible: the failure reaches a running Go, whose context it cancels |
| `CopyReturns.CancelledGoesOn` | copy.go:248-262 | below a cancelled Go that has not returned, some goroutine can give up, some context can be cancelled or some Go can return |
| `CopyReturns.AlwaysGoesOn` | copy.go:209-275 | with at least one permit and no cycle, and whatever has failed or was cancelled, a step is possible until the outermost Go has returned and every goroutine has ended, without a new fault and without the caller cancelling |
| `CopyReturns.EveryMaximalRunReturns` | copy.go:182-276 | a run that cannot go on by itself has returned and left no goroutine behind, whatever failed |
| `CopyFaults.LossIsFinal` | copy.go:223-262 | a goroutine that met a failed storage call or hook, or gave up, returns an error in every continuation |
| `CopyFaults.NilMeansNoFault` | copy.go:223-275 | a nil return means that before it no storage call or hook failed, nobody gave up and no Go was cut short |
| `CopyFaults.FaultNeverCloses` | copy.go:215-220 | the done channel of a node is never closed once its goroutine has met a fault or given up |
| `CopyFaults.FailureHasACause` | copy.go:209-275 | an error return means that before it a storage call or hook failed, or the caller cancelled |
| `CopyFaults.CallerCanCancel` | internal/syncutil/limit.go:70-94 | the caller can cancel at any time, which changes nothing but the outermost context |
| `CopyFaults.WaitingGivesUp` | copy.go:252-261 | under a done context a goroutine that waits for a successor or a permit can give up at once, with no permit free |
| `CopyFaults.SpawningGivesUp` | internal/syncutil/limit.go:73-80 | under a done context a Go that waits for a permit can return an error at once |
| `Descriptors.NonForeignKeepsExactly` | copy.go:508-520 | exactly the descriptors that are not foreign layers are kept |
| `Descriptors.RemoveForeignLayers` | copy.go:508-520 | the in-place compaction leaves the non-foreign layers in their order |
| `Descriptors.ManifestKinds` | internal/descriptor/descriptor.go:68-79 | five media types are manifests, and exactly those that are not Docker's can have a subject |
| `ExtendedCopy.PushAll` | extendedcopy.go:197-203 | every predecessor that was not visited ends up on the stack, one level deeper |
| `ExtendedCopy.Visit` | extendedcopy.go:162-204 | one turn of the search keeps what is known of visited nodes, roots and stack, and makes progress |
| `ExtendedCopy.FindRoots` | extendedcopy.go:143-211 | the search ends; without a depth limit it returns exactly the ancestors-or-self without predecessors; with one every root has no predecessors or a path of exactly the limit up to it, and none is further; roots are returned as they were found; it fails only if the lookup of an ancestor within the limit failed |
| `ExtendedCopy.RootAbove` | extendedcopy.go:143-211 | in an acyclic graph every visited node lies at or below a returned root |
| `ExtendedCopy.VisitedIsCopied` | extendedcopy.go:109-139 | a nil return has copied everything below every visited node, whatever the depth limit |
| `ExtendedCopy.AncestorsAreCopied` | extendedcopy.go:109-139 | without a depth limit a nil return has copied all ancestors of the node and everything below them |
| `Referrers.Load` | registry/remote/referrers.go:147-164 | the first loop drops empty and duplicate entries, records the positions and notices exactly whether the list was clean |
| `Referrers.ApplyWithTombstones` | registry/remote/referrers.go:166-185 | list and positions with tombstones stand for the plain list after folding append-if-absent and remove |
| `Referrers.AnyMissing` | registry/remote/referrers.go:190-199 | finds out whether some stored referrer did not survive |
| `Referrers.RemoveEmptyDescriptors` | registry/remote/referrers.go:207-221 | the compaction keeps the non-empty entries in their order, and how many of them is given exactly for every hint |
| `Referrers.ApplyReferrerChanges` | registry/remote/referrers.go:147-203 | reports no update exactly if the list was clean and the changes leave its key set as it was, and else returns what the plain algorithm returns |
| `Referrers.UpdateChangesList` | registry/remote/referrers.go:186-203 | a reported update really changes the list, unless it was clean and all the changes do to its keys is to add the empty one |
| `Referrers.EmptyAddReportsNoChange` | registry/remote/referrers.go:166-203 | adding an empty descriptor reports an update that changes nothing |
| `MergeSafety.StepKeepsInv` | internal/syncutil/merge.go:67-140 | every step keeps the invariant over pool, reference count, batches and status channels |
| `MergeSafety.RunKeepsInv` | internal/syncutil/merge.go:67-140 | the invariant holds in every state of every run |
| `MergeResults.UpdateEffect` | registry/remote/repository.go:1469-1493 | written or suppressed, an update leaves the stored keys as the changes ask; a written list differs from the old one |
| `MergeResults.NoUpdateIsLost` | registry/remote/repository.go:1450-1512 | in every state the stored referrers are the initial ones with the logged changes applied in sequence, and every caller told nil is in the log, nobody twice |
| `MergeResults.AllNilMeansAllApplied` | registry/remote/repository.go:1450-1512 | if all callers are told nil, the stored keys are those after all changes in some sequential order |
| `MergeResults.OneMergeOneMain` | internal/syncutil/pool.go:39-64 | active callers share one merge object, and at most one is between prepare and complete |
| `MergeResults.DeleteKeepsNewIndex` | registry/remote/repository.go:1495-1507 | deleting the old index never takes the tag from the index just pushed |
| `MergeResults.NeverStuck` | internal/syncutil/merge.go:67-140 | while a caller has not returned, some step is possible |
| `MergeResults.RunsAreBounded` | internal/syncutil/merge.go:67-140 | every run is finite |
| `MergeResults.MaximalRunReturnsAll` | internal/syncutil/merge.go:67-140 | a run that cannot be continued without a fault has let every caller return |
| `MergeOutcomes.OneOutcomePerBatch` | internal/syncutil/merge.go:114-140 | two callers of one batch return the same outcome |
| `MergeBatches.ResolveSeesTheBatch` | internal/syncutil/merge.go:67-112 | while a caller works for its batch, the items it resolves are exactly the callers assigned to that batch |
| `MergeBatches.OneMainPerBatch` | internal/syncutil/merge.go:114-140 | over a whole run a batch has only one main caller |
| `MergeLists.StoredListIsFold` | registry/remote/repository.go:1450-1512 | in every state the stored list, with its order and annotations, is the initial one after one update per logged batch, and the logged batches are the log |
| `MergeLists.BatchIsNotSequential` | registry/remote/referrers.go:186-203 | for any two referrers, removing and adding the first in one batch differs from both sequential orders |
| `BatchOrders.InSequenceIff` | registry/remote/referrers.go:147-203 | for one list, a batch gives what its changes give one by one if and only if its update is written or the changes leave the list as it is |
| `BatchOrders.MovesNothingSuffices` | registry/remote/referrers.go:147-203 | a batch that never removes a referrer and adds it to stay gives every list what its changes give one by one |
| `BatchOrders.AlwaysInSequenceIff` | registry/remote/referrers.go:147-203 | a batch gives every list what its changes give one by one if and only if it never removes a referrer and adds it to stay |
| `MergeOrders.UnmixedIsSequential` | registry/remote/repository.go:1450-1512 | if no referrer is both added and removed, the stored list is in every state of every run the initial one after the logged changes one by one, in order and with annotations |
| `MergeOrders.AllNilMeansAllInSequence` | registry/remote/repository.go:1450-1512 | if moreover all callers are told nil, it is the list after all changes one by one, each once |
| `MergeOrders.MixedRun` | registry/remote/repository.go:1450-1512 | if a referrer is both added and removed, some run from some index stores a list that is not the sequential one |
| `MergeOrders.SequentialIff` | registry/remote/repository.go:1450-1512 | the stored list is the sequential one in every run from every index if and only if no referrer is both added and removed |
| `MergeFaults.ErrorIffFault` | registry/remote/repository.go:1456-1512 | in every run, a caller returns an error if and only if a registry request failed for its batch |
| `MergeFaults.MaximalRunStoresAll` | registry/remote/repository.go:1450-1512 | a run without faults that cannot be continued has told every caller nil and stored all changes, as a list in sequence if no referrer is both added and removed |
| `MergeFaults.NoEmptyIndexIsLeft` | registry/remote/repository.go:1477-1498 | in every state, without SkipReferrersGC no update has left an empty index under the tag, and with it nothing is deleted |
| `MergeFaults.OldIndexIsDeleted` | registry/remote/repository.go:1495-1507 | without SkipReferrersGC, a caller that pushed over an old index and returned nil has deleted that index |
| `GraphMemory.AddLink` | internal/graph/memory.go:164-191 | adds one pair to a relation kept as a map of sets and leaves no empty entry |
| `GraphMemory.DropLink` | internal/graph/memory.go:125-149 | removes one pair, and the entry exactly when the pair was its last |
| `GraphMemory.SuccessorsAreNamed` | content/graph.go:50-122 | the successors of a manifest are exactly the descriptors it lists, and its subject if its type can have one |
| `GraphMemory.BelowUnfolds` | internal/graph/memory.go:75-100 | what is below a root: manifests have to be stored, other content not, and all but the root is named by a stored manifest below it |
| `GraphMemory.Memory.Index` | internal/graph/memory.go:164-191 | indexing keeps predecessors the exact inverse of successors |
| `GraphMemory.Memory.IndexStored` | internal/graph/memory.go:69-72 | after indexing, the predecessors of every key are exactly the indexed manifests that name it |
| `GraphMemory.Memory.IndexAll` | internal/graph/memory.go:75-100 | exactly the nodes below the root are added, in any order of the goroutines, and the predecessors of every key are exactly the indexed manifests that name it |
| `GraphMemory.Memory.Remove` | internal/graph/memory.go:125-149 | removes the node and returns exactly the indexed nodes it leaves without predecessors |
| `GraphMemory.Memory.Predecessors` | internal/graph/memory.go:107-122 | returns exactly the indexed nodes that list the key |
| `IndexFile.SaveIndex` | content/oci/oci.go:409-440 | whatever the iteration order, every tag is written as a copy of its descriptor under its name, every untagged digest as one without a name, with all other annotations and fields, and nothing else |
| `IndexFile.SaveUntagged` | content/oci/oci.go:430-440 | the second loop adds the digests that no tag leads to |
| `IndexFile.RoundTrip` | content/oci/readonlyoci.go:171-187 | loading what was saved restores every reference: a tag to its descriptor under its name, an untagged digest to its descriptor without one, the digest of tagged content to that of one of its tags, each with all other annotations and fields |
| `IndexFile.SameReferences` | content/oci/readonlyoci.go:171-187 | loading what was saved gives no reference more or less |
| `IndexFile.SavedAgain` | content/oci/readonlyoci.go:171-187 | a loaded index file stands for what was loaded from it, so it can be opened again and again |
| `Resolver.IsTaggedMeans` | content/oci/oci.go:568-574 | counting the tag set decides whether a reference other than the digest is in it |
| `Resolver.Memory.Tag` | internal/resolver/memory.go:57-68 | adds the reference to the index and to the tag set of the digest, and keeps the tag sets over the index |
| `Resolver.Memory.Untag` | internal/resolver/memory.go:71-86 | removes the reference from the index and from the tag set of the digest it resolved to |
| `Resolver.StaysExactIff` | internal/resolver/memory.go:57-68 | tagging keeps the tag sets exactly the references to their digest if and only if it does not move a reference to other content |
| `Resolver.StaleAfterTagIff` | content/oci/oci.go:568-574 | from exact tag sets, tagging makes content count as tagged without a tag if and only if it takes its only tag for other content |
| `Resolver.MoveTag` | internal/resolver/memory.go:57-68 | moving a tag leaves the old content without a tag, but counted as tagged |
| `Cascades.CascadeTurn` | content/oci/oci.go:170-195 | one turn of a cascading delete keeps everything gone or queued justified and forgets nothing that must go |
| `DeleteOrders.SafeNeverFails` | content/oci/oci.go:170-195 | if all that has to go is stored and there is no conflict, no order of the queue runs into a missing blob |
| `DeleteOrders.SameOutcome` | content/oci/oci.go:170-195 | all orders that succeed remove the same nodes: those gone after the last round |
| `DeleteOrders.TwiceFails` | content/oci/oci.go:170-195 | once a node is queued twice the delete fails in every continuation: none empties the queue, and all are short |
| `DeleteOrders.MissingFails` | content/oci/oci.go:170-221 | if something that has to go is not stored, some order fails |
| `DeleteOrders.TaggedGoOnlyAsReferrers` | content/oci/oci.go:170-195 | a tagged node goes if and only if it is the target or a referrer of something that goes |
| `DeleteFailures.ConflictFails` | content/oci/oci.go:170-195 | a node that loses its subject and its last lister in the same round is queued twice in some order, which fails |
| `DeleteFailures.SucceedsIff` | content/oci/oci.go:164-199 | a cascading delete succeeds in every order if and only if all that has to go is stored and there is no conflict |
| `DeleteExamples.BundleFirstFails` | content/oci/oci.go:170-195 | an image, its signature and an index that refers to the image and lists the signature, all stored: once the index is queued before the signature, deleting the image fails in every continuation, with all three gone |
| `DeleteExamples.SignatureFirstSucceeds` | content/oci/oci.go:170-195 | with the signature queued first the same delete succeeds |
| `DeleteExamples.TaggedSignatureGoes` | content/oci/oci.go:170-195 | deleting an image takes its signature with it in every order, although the signature is tagged |
| `OciStore.Store.DeleteOne` | content/oci/oci.go:201-221 | one node leaves resolver, graph and storage together; its orphans are returned exactly |
| `OciStore.Store.UntagAll` | content/oci/oci.go:202-209 | every reference to the node goes, and no other, in any order |
| `OciStore.Store.Referrers` | registry/repository.go:147-226 | fails for anything but a manifest; else returns exactly the indexed manifests with the given subject and artifact type, each once, with artifact type and annotations taken from its content |
| `OciStore.Store.Delete` | content/oci/oci.go:164-221 | without AutoGC it succeeds exactly if the target is stored and takes nothing else; with it, on success target and transitive referrers are gone, everything else gone was an untagged orphan, every surviving orphan is tagged, and what is gone does not depend on the order; it succeeds if all that has to go is stored without conflict, and fails only where some order may fail; the loop ends; the store stays valid on every outcome |
| `OciStore.Store.Push` | content/oci/oci.go:133-148 | fails exactly if the blob is stored; else stores and indexes it and tags a manifest by its digest |
| `OciStore.Store.Tag` | content/oci/oci.go:226-243 | succeeds exactly for stored content and a non-empty reference; the reference and the digest resolve to it; the store stays valid if and only if the reference is not the digest of other content |
| `OciStore.Store.TagBoth` | content/oci/oci.go:246-261 | tags by reference and by digest, and saves the index if asked to; the store stays valid if and only if the reference is not the digest of other content |
| `OciStore.Store.Untag` | content/oci/oci.go:293-314 | succeeds exactly for known tags, never for digests |
| `OciStore.Store.Open` | content/oci/readonlyoci.go:171-187 | loading rebuilds the resolver from index.json and indexes exactly what is below its manifests; over a consistent directory the store is valid |
| `OciStore.Store.Reopen` | content/oci/readonlyoci.go:171-187 | a store opened over the same directory is valid, has its index saved, and resolves the same references to the same content, tags with all their annotations |
| `OciStore.Store.RebuildTagged` | content/oci/oci.go:518-534 | all tags are kept and exactly what is below them is indexed, in any order |
| `OciStore.Store.RebuildReferrers` | content/oci/oci.go:536-561 | for the given order the second loop returns, fails or hangs as specified, and keeps what the accepted manifests need |
| `OciStore.Store.GcIndex` | content/oci/oci.go:511-565 | resolver and graph are replaced by what is kept, or left alone |
| `OciStore.Store.GC` | content/oci/oci.go:456-507 | the surviving blobs are exactly those without a valid digest and those below tagged manifests or accepted untagged ones, so every stored blob that a stored tagged manifest lists survives, and a blob with a valid digest survives exactly if it is indexed; if all untagged manifests are anchored it returns and accepts exactly those with a subject; the index file still stands for the resolver if and only if every untagged manifest has a subject |
| `GarbageCollection.StillSaved` | content/oci/oci.go:511-565 | the index file written before still stands for the rebuilt resolver if and only if every untagged manifest has a subject |
| `GarbageCollection.KnownAlgorithms` | content/oci/oci.go:470-484 | blobs with a valid digest are of a known algorithm, those of any algorithm but the three are not |
| `IndexFile.DigestsAreEncoded` | content/oci/oci.go:485-493 | exactly 64, 96 or 128 hexadecimal digits after the name of the algorithm make a valid digest |
| `GarbageCollection.AnchoredEnds` | content/oci/oci.go:536-561 | if every untagged manifest is anchored the rebuild ends and accepts exactly those with a subject |
| `GarbageCollection.UnanchoredFirst` | content/oci/oci.go:541-549 | a manifest that is not anchored spoils the rebuild when it comes first, by hanging if it can be read |
| `GarbageCollection.EndsIffAnchored` | content/oci/oci.go:536-561 | the rebuild ends in every iteration order if and only if every untagged manifest is anchored |
| `StoreExamples.SignatureFirstHangs` | content/oci/oci.go:541-549 | a store with an untagged image and its signature, on which collecting with the signature first never returns |
| `StoreExamples.ForgottenImage` | content/oci/oci.go:511-565 | a store with an untagged image, whose index file does not stand for its resolver after collecting |
| `Scopes.CleanActions` | registry/remote/auth/scope.go:289-325 | the in-place sort and compaction yields the non-empty actions in ascending order without repetition, or the wildcard alone |
| `Scopes.MergeScopes` | registry/remote/auth/scope.go:221-262 | the merging loop collects exactly the actions requested for each resource and keeps the unrecognized scopes |
| `Scopes.Reconstruct` | registry/remote/auth/scope.go:264-282 | one canonical scope for each resource something is granted on, in any iteration order |
| `Scopes.CleanScopes` | registry/remote/auth/scope.go:197-287 | the outcome is sorted and consists of the unrecognized scopes and one canonical scope per granted resource, in the fast paths and the slow path |
| `Scopes.FastIsClean` | registry/remote/auth/scope.go:202-215 | the one-scope fast path does what the slow path does, unless the scope has exactly one colon |
| `Scopes.SingleColonAgreesIff` | registry/remote/auth/scope.go:202-215 | on a scope with exactly one colon the paths agree if and only if its actions are in canonical form |
| `Scopes.FastAgreesIff` | registry/remote/auth/scope.go:202-215 | for every scope, the fast path agrees with the slow path if and only if the scope has not exactly one colon or its actions are in canonical form |
| `Scopes.SingleColonStays` | registry/remote/auth/scope.go:234-238 | for a scope with exactly one colon the slow path's outcome is the scope itself |
| `Scopes.FastDiffers` | registry/remote/auth/scope.go:202-215 | a single-colon scope on which the fast path differs |
| `ScopeLaws.CleanKeepsMeaning` | registry/remote/auth/scope.go:190-197 | cleaning preserves the granted relation, with the wildcard absorbing, and the unrecognized scopes |
| `ScopeLaws.SameMeaningSameOutput` | registry/remote/auth/scope.go:190-197 | inputs that grant the same give identical output |
| `ScopeLaws.OrderDoesNotMatter` | registry/remote/auth/scope.go:190-197 | permuted inputs grant the same |
| `ScopeLaws.CleanIsIdempotent` | registry/remote/auth/scope.go:190-197 | cleaning again changes nothing |
| `ScopeLaws.NoSingleColonMade` | registry/remote/auth/scope.go:190-197 | cleaning makes no single-colon scope, so a second pass is covered by the same laws |
| `ScopeLaws.CleanIsDistinct` | registry/remote/auth/scope.go:190-197 | if every scope has two colons the outcome is sorted and free of duplicates |
| `Strings.LeIsLexicographic` | registry/remote/auth/scope.go:284-286 | the order of the outcome: a prefix comes first, else the smaller character where two strings first differ |
| `References.ParseIffSpells` | registry/reference.go:119-177 | parsing yields a reference exactly if it is valid and the string is one of its spellings |
| `References.PrintParses` | registry/reference.go:264-276 | a valid reference reads back as itself after printing |
| `References.PrintsRegistryFirst` | registry/reference.go:264-276 | every printed reference starts with the registry, and is the registry alone exactly if there is no repository |
| `References.Canonical` | registry/reference.go:119-177 | printing what was parsed keeps its meaning |
| `VerifyingReader.VerifyReader.Read` | content/reader.go:58-71 | hands out the next part of the stream, notices an early end, and repeats a failure for ever |
| `VerifyingReader.VerifyReader.EnsureEOF` | content/reader.go:137-144 | succeeds exactly at a clean end of the stream |
| `VerifyingReader.VerifyReader.Verify` | content/reader.go:74-98 | succeeds exactly if the bytes handed out are all of a stream of the right size and digest; failures other than an early call are sticky |
| `VerifyingReader.NegativeSizePasses` | content/reader.go:74-98 | for every negative size and every hash, an empty stream with the digest of nothing is accepted |
| `VerifyingReader.ReadFull` | content/reader.go:120-128 | fills the buffer with what was handed out, or reports how the stream ended |
| `VerifyingReader.ReadAll` | content/reader.go:116-133 | for every chunking of an unbroken stream the result depends on the stream alone: the content if size and digest match, else the right error; a broken stream always fails |
| `TokenCache.StatusKeyInjective` | registry/remote/auth/cache.go:105-109 | requests for registries without spaces have different status keys |
| `TokenSafety.StepKeepsInv` | internal/syncutil/once.go:49-74 | every step keeps the invariant over onces, status entries, cache entries and callers |
| `TokenSafety.RunKeepsInv` | registry/remote/auth/cache.go:103-141 | the invariant holds in every state of every run |
| `TokenResults.OneFetchAtATime` | internal/syncutil/once.go:56-72 | at most one fetch is in flight for each registry, scheme and key |
| `TokenResults.OutcomeIsFinal` | internal/syncutil/once.go:61-69 | a stored outcome is never replaced |
| `TokenResults.LaterCallsSeeIt` | internal/syncutil/once.go:57-60 | every caller that receives from a once gets what its one successful call returned |
| `TokenResults.SetReturnsOwnToken` | registry/remote/auth/cache.go:103-141 | a token that Set returns was fetched for the same registry, scheme and key |
| `TokenResults.GetTokenReturnsOwnToken` | registry/remote/auth/cache.go:84-97 | a token that GetToken returns was fetched for the same registry, scheme and key, also if the cache changes between its two lookups |
| `TokenResults.NeverStuck` | internal/syncutil/once.go:49-74 | a caller that is not done can go on, or another one can, without any context ending |
| `TokenResults.RunsAreBounded` | internal/syncutil/once.go:49-74 | no run has more than seven steps for each call |
| `TokenResults.MaximalRunAnswersAll` | registry/remote/auth/cache.go:103-141 | a run that cannot be continued has answered every call |
| `TokenCaching.WinnerGetsOwnOutcome` | internal/syncutil/once.go:61-72 | the caller whose fetch ended returns what its own fetch returned, an error included |
| `TokenCaching.FetchedIsCached` | registry/remote/auth/cache.go:124-140 | a caller that fetched a token and has returned has cached it: GetToken finds one for the request from then on, unless somebody changes the scheme of the registry |
| `TokenCaching.OneSchemeKeepsTokens` | registry/remote/auth/cache.go:124-140 | with one scheme per registry the scheme is never changed, so no fetched token is lost from the cache |
| `TokenCaching.LaterSetFetchesAnew` | registry/remote/auth/cache.go:110-117 | once the winner of a fetch has deleted its status entry, a call for the same key waits on a fetch that starts later |
| `TokenCaching.WaitingCanLeave` | internal/syncutil/once.go:57-60 | a caller whose context ends can leave at once, and changes nothing for the others |
| `TokenCaching.CancelledFetchPassesOn` | internal/syncutil/once.go:61-72 | a cancelled fetch leaves the next waiting caller free to fetch |

## Left out

- HTTP transport, authentication requests, retries, pagination and URL building.
- File-system work: content/file, tarfs, credential stores, and I/O errors of the OCI layout other than missing blobs.
- JSON, hashing, regular expressions, URL and digest parsing: parameters of the model.
- `mountOrCopyNode`, the caching proxy and the user hooks: one atomic copy step stands for them. On the mount path a
  hook that returns SkipNode makes the call fail; the copy step covers that as a fault.
- Completeness of `findRoots` within a depth limit: the code does not give it.
- Packing, platform selection, backoff, `Resolve` and the other straight-line parts: short code whose
  behaviour can be read off it.
- Source and destination as live stores: the source content is a function of the key, and the destination a set.
- `OciStore.Store.Delete`: on failure it promises only that what is gone was justified, since how far it got depends on
  the order. The exact conditions on failure assume that content lists form no cycle, which hashing rules out.
- `OciStore.Store.GC`: deletion errors of the file system and a cancelled context are not modelled.
- `OciStore.Store.Referrers`: the way through a store that lists referrers itself is not modelled; the OCI store does
  not.
- `Referrers.UpdateChangesList`: the condition is sufficient. With the empty key added it also depends on the order of
  the entries whether the stored list comes out again.
- `MergeResults.AllNilMeansAllApplied`: is about keys. `MergeOrders.SequentialIff` says when it holds for lists.
- `Scopes.FastIsClean`: leaves out scopes with exactly one colon; `Scopes.FastAgreesIff` covers them.
- `CopyProgress.NeverStuck`: assumes that nothing failed; `CopyReturns.AlwaysGoesOn` does not.
- `VerifyingReader.ReadAll`: for a broken stream it does not say which of the errors is returned, as that depends on
  the chunking.
- `TokenCache.StatusKeyInjective`: registries with spaces are excluded; they could share a status key.
