# sops-secrets-operator: a verified model

A Dafny model of the sops-secrets-operator, a Kubernetes operator that fetches
SOPS-encrypted files from git or object storage, decrypts them with age keys and
writes the result into Secrets. `dafny verify dfyconfig.toml` checks the project.

## What is modelled

**Ownership and finalizers** (`Secrets`, `Targets`, `SecretObjects`, `ApiServers`,
`ConsumerControllers`, `Ownership`, `OwnershipRuns`, `OwnershipTheorems`, `OrphanTheorems`,
`ReleaseTheorems`, `PassTheorems`, `OwnershipLimits`). Any number of resources of three
kinds compete for target Secrets. `Secrets` holds the guard, the owner keys and the
stamps as functions on values; `SecretObjects` and `ApiServers` are the same code as
objects changed in place (the mutate closures, `CreateOrUpdate`, the finalizer's
deletions), proved against those functions, and `ConsumerControllers` is a whole
reconcile of each kind. `Ownership` interleaves all resources step by step: read,
add finalizer, derive, Get, compare-and-swap write, status update, list, delete one by
one, drop finalizer, with abandoned attempts, user edits and external writers in
between. The client reads through a cache, so every Get and List, of resources and of
Secrets, may show past versions and miss present ones; where a guarantee needs a read to
be fresh, that is a hypothesis with a name (`NoGhosts`, `CompleteListing`, `FreshRead`),
`OwnershipLimits` has the run that fails without it, and
`OwnershipTheorems.ExclusiveOwnershipExact`, `OrphanTheorems.NoOrphansStepExact` and
`ReleaseTheorems.ReleaseStrandsExactly` say, without any such hypothesis, exactly what fails.

**Git cache** (`GitRegistry`, `GitCache`, `GitCoherence`, `GitHeads`, `GitTheorems`,
`GitReads`, `GitLimits`).
`GitRegistry` is the mutex table, the clone state machine of `EnsureCloned` and the
registry as objects; `GitCache` interleaves lock-granular steps of one writer for each key and any
number of readers over a heap of entries and a disk from which directories disappear
file by file. Directories may pass from one repository to another.

**Object cache** (`ObjectEntries`, `ObjectCache`, `ObjectCacheTheorems`, `ObjectLimits`):
the same for URL and bucket mode, with conditional GET as in sections 8.8.3, 13.1.2 and 15.4.5 of
RFC 9110.

`SerialCalls` shows that a call which nothing disturbs takes both caches' concurrent models
to where the sequential specifications say.

**Source reconcilers** (`Conditions`, `SourceSync`, `SourceControllers`): status
conditions, the readiness scans, and force-sync as a state machine with stale reads,
conflicts, abandoned attempts, restarts and recreated resources.

**Decryption** (`Decrypt`, `Formats`): the lock, set, decrypt, restore protocol over the one
environment variable from which SOPS reads the age key.

**Pure parts** (`Flat`, `Manifests`, `Collisions`, `SecretRef`, `GoStrings`): mapping,
stringData merge, the canonical byte streams behind the hashes and which of them have
several readings, reference resolution and its index.

## Where the code and its documentation disagree

- SECURITY.md (line 33) says that a Secret without this operator's managed-by value is
  refused unless adopted. The code refuses only an empty value
  (`internal/controller/sopssecret_controller.go:238`); any other value passes.
  `Secrets.AdoptionOptInExact` states what is refused.
- README.md (line 274) says that every reconcile compares the stamped content hash. The
  code stamps the hash and never reads it; each reconcile derives the Secret anew and the
  client library skips the update if nothing changed. The owner UID, too, is stamped and
  never checked.
- Coherence of reads from the git cache holds with two exceptions. After `Forget`, or when a
  repository is edited away from a directory and back, a slow reader still holds the lock
  of the old entry, which no longer guards the directory; and a new clone whose HEAD cannot
  be read stays on disk although the refresh failed. `GitLimits` has both runs from the
  start, `GitReads.ReadCoherentInRun` says exactly when a read is coherent, and
  `GitRegistry.EnsureKeepsSound` the inputs of the second exception.
- A directory may be asked for while another repository's removal of it is still running; the
  removal then deletes it under the new entry (`GitLimits.RemovalMeetsEntry`,
  `GitTheorems.ConservationExact`).
- A comment (`internal/git/git.go:68-69`) says that different pins have different clone
  directories. Two pins of one URL whose branch or revision contains a number sign can share
  one (`GitRegistry.PinsCollideExactly`).
- The comment on `EnsureCached` promises an update with the given configuration. An entry
  whose directory stays keeps the credentials of its first configuration, so a rotated
  credential is unused until the entry is forgotten (`GitRegistry.CredentialsPinned`).
- Exclusive ownership and the absence of orphans end where users go outside the protocol or
  the client's cache lags: a changed `spec.target` strands the old Secret; a listing that
  misses a Secret strands it; a resource read after it was released is written again; and
  Delete carries no precondition, so a Secret deleted by hand or shown by an old listing,
  and created by another resource, is deleted by the first one's finalizer
  (`OwnershipLimits`). `OrphanTheorems.NoOrphansStepExact` lists every step that makes an
  orphan, `OwnershipTheorems.ExclusiveOwnershipExact` every step that takes a Secret away.

## Model

| member | source | states |
|---|---|---|
| Secrets.OwnerKeyText | internal/controller/sopssecretmanifest_controller.go:270 | the owner annotation of each kind, as text |
| Secrets.OwnerKeyInjective | internal/controller/sopssecret_controller.go:231 | owner keys of resources with slash-free namespaces are equal exactly for equal resources |
| Secrets.OwnerKeyAmbiguousWithSlash | internal/controller/sopssecret_controller.go:231 | with a slash in a namespace two different resources share a key |
| Secrets.OneOwner | internal/controller/sopssecret_controller.go:236-242 | no Secret is owned by two resources |
| Secrets.GuardProtectsOwner | internal/controller/sopssecret_controller.go:235-245 | the guard refuses every other resource a Secret that has an owner, adopt or not |
| Secrets.AdoptionOptInExact | internal/controller/sopssecret_controller.go:235-258 | an apply makes an existing Secret the resource's own if and only if it is not (unlabelled without adopt) and not managed for another owner; another manager's label does not stop it; each refusal names its reason |
| Secrets.StampedOwner | internal/controller/sopssecret_controller.go:247-258 | a stamped Secret belongs to the resource that stamped it and to no other, whatever the Secret or manifest carried |
| Secrets.ManifestCannotRelabel | internal/controller/sopssecretmanifest_controller.go:235-247 | operator label and stamps win over copied labels and annotations; the rest is copied |
| Secrets.StampedExact | internal/controller/inlinesopssecret_controller.go:247-294 | for each kind: which type wins, the data is the derived data, the stamps, and outside the operator's own keys every label and annotation of the Secret stays, overlaid with the manifest's |
| Secrets.StampedIdempotent | internal/controller/sopssecretmanifest_controller.go:234-255 | stamping a stamped Secret with the same inputs changes nothing |
| Secrets.ApplyConverges | internal/controller/sopssecret_controller.go:226-270 | from every Secret state the guard admits, one apply reaches the derived data, stamps and owner, and the next one has nothing to write |
| Targets.ModeExact | internal/controller/inlinesopssecret_controller.go:103-170 | mappings for every SopsSecret, the manifest for every SopsSecretManifest, and what `spec.mode` says, or nothing, for an InlineSopsSecret |
| Targets.ReachExact | internal/controller/inlinesopssecret_controller.go:296-334 | the finalizer considers exactly the Secrets in the spec's namespace, else the resource's, with the spec's name, else the resource's if it uses mappings, else any |
| Targets.WriteTarget | internal/controller/sopssecretmanifest_controller.go:126-138 | the namespace is the spec's, else the resource's; the name is the spec's, else the resource's for mappings, else the manifest's; it is missing exactly when none of them gives one; the target lies in the finalizer's reach |
| SecretObjects.SecretObject.NormalizeSecretData | internal/transform/manifest.go:77-85 | the in-place merge yields the right-biased union and leaves a nil map nil only if there was nothing to merge |
| SecretObjects.SecretObject.MutateMapping | internal/controller/sopssecret_controller.go:234-268 | the closure refuses exactly as the guard does and then changes nothing, otherwise yields the stamped Secret |
| SecretObjects.SecretObject.MutateInlineMapping | internal/controller/inlinesopssecret_controller.go:208-240 | the same without a source commit |
| SecretObjects.SecretObject.MutateManifest | internal/controller/sopssecretmanifest_controller.go:222-257 | the same for a manifest; stringData is cleared |
| SecretObjects.SecretObject.MutateInlineManifest | internal/controller/inlinesopssecret_controller.go:257-294 | the same for an inline manifest, with its own choice of type |
| ApiServers.ApiServer.CreateOrUpdate | internal/controller/sopssecret_controller.go:234-269 | get, mutate, write: the planned Secret or no change at all; a plan that keeps the Secret writes nothing |
| ApiServers.ApiServer.DeleteIfOwned | internal/controller/sopssecretmanifest_controller.go:295-304 | deletes the Secret exactly if label and owner match, and no other |
| ApiServers.ApiServer.DeleteOwnedByScan | internal/controller/sopssecretmanifest_controller.go:276-292 | the scan removes every managed Secret of the namespace that names the resource and touches nothing else, also when it stops half-way |
| ApiServers.ApiServer.Release | internal/controller/inlinesopssecret_controller.go:302-334 | clean-up by name or by scan: on success nothing in reach is owned any more |
| ApiServers.ApiServer.ListManaged | internal/controller/sopssecretmanifest_controller.go:276-282 | the listing holds exactly the managed Secrets of the namespace |
| ConsumerControllers.Consumer.Reconcile | internal/controller/sopssecretmanifest_controller.go:60-165 | nothing is written before the finalizer is stored; the finalizer goes only when nothing in reach is owned; in between a pass does exactly what its content derives |
| ConsumerControllers.Consumer.ApplyFlat | internal/controller/sopssecret_controller.go:129-143 | mapping, hash and write: a missing key leaves every Secret unchanged |
| ConsumerControllers.Consumer.ApplyManifest | internal/controller/sopssecretmanifest_controller.go:119-149 | normalise, name, hash and write, against the derivation of the protocol |
| Ownership.InitInv | internal/controller/sopssecret_controller.go:63-93 | every cluster with no reconcile under way satisfies the invariant |
| Ownership.InvStep | internal/controller/sopssecret_controller.go:63-157 | every step of every resource, user and external writer, whatever versions it reads, keeps it: resource versions identify contents, copies are versions of the resource, nothing is applied for a version without finalizer, a release deletes what it listed |
| Ownership.WriteOwner | internal/controller/sopssecret_controller.go:247-258 | a Secret gains an owner only through that resource's own write, in the target its controller read |
| OwnershipTheorems.ForeignStepExact | internal/controller/sopssecretmanifest_controller.go:220-257 | another controller's step disturbs an owned Secret if and only if it is the delete of a Secret it had read as its own; no write does, however stale its read |
| OwnershipTheorems.ExclusiveOwnership | internal/controller/sopssecret_controller.go:226-270 | in every interleaving a Secret keeps its owner and only the owner's controller changes it, until the owner's finalizer deletes this very Secret; reads and listings may be stale, but no listing shows as a resource's own what is not (no ghosts) |
| OwnershipTheorems.ExclusiveOwnershipFromInit | internal/controller/sopssecret_controller.go:226-270 | the same after any quiet run from any cluster |
| OwnershipTheorems.ExclusiveOwnershipExact | internal/controller/sopssecretmanifest_controller.go:220-304 | whatever reads and listings show: along a run without forged owners only the owner's controller changes a spared Secret if and only if no external writer goes for it and no other finalizer deletes it from a listing that showed it as its own |
| OrphanTheorems.NoOrphansStepExact | internal/controller/sopssecret_controller.go:68-143 | a step makes an orphan if and only if it is a write that lands for a resource that is gone, without finalizer or pointed elsewhere, the end of a resource that still owns something, a target moved away from what is owned, or an external write naming an owner that does not answer for it |
| OrphanTheorems.NoOrphansExact | internal/controller/sopssecret_controller.go:68-143 | a run without forged owners passes through no state with an orphan if and only if no step of it is of that kind |
| OrphanTheorems.NoOrphansFromInit | internal/controller/sopssecretmanifest_controller.go:71-90 | where targets move only within reach of what is owned, owners are not forged, applies start from a resource that is there, and the listing of a current deleting resource misses nothing: in every state of every run a managed Secret that names a resource has that resource, with its finalizer and in its reach |
| OrphanTheorems.TidyAnswers | internal/controller/sopssecret_controller.go:74-93 | under those conditions no step makes an orphan |
| OrphanTheorems.CoveredStep | internal/controller/sopssecretmanifest_controller.go:275-292 | after a complete listing everything that a finalizer still able to drop itself has left to delete is on its list, whoever writes meanwhile |
| ReleaseTheorems.ReleaseStrandsExactly | internal/controller/sopssecretmanifest_controller.go:83-88 | whatever was listed: of the Secrets owned when the finalizer lists, a release leaves exactly those out of reach of the target it read or missing from the listing |
| ReleaseTheorems.ReleaseLeavesNothingListed | internal/controller/sopssecretmanifest_controller.go:283-291 | in every reachable state, whoever disturbs it, nothing listed as owned is still owned when the finalizer is dropped |
| PassTheorems.AppliesExactly | internal/controller/inlinesopssecret_controller.go:103-170 | for each kind and mode: when something is applied, where, with which content, hash, type and revision, in terms of spec and input |
| PassTheorems.FinalizerFirst | internal/controller/sopssecret_controller.go:74-93 | a live resource without the finalizer is given it before anything else, one with it derives; a deleting one releases while it has it and does nothing afterwards |
| PassTheorems.PassRuns | internal/controller/sopssecret_controller.go:124-156 | an undisturbed pass runs through the protocol to a known end state |
| PassTheorems.WriteLands | internal/controller/sopssecret_controller.go:226-270 | a pass carries out the plan for the Secret as it stands and changes no other |
| PassTheorems.PassSettles | internal/controller/sopssecret_controller.go:226-270 | a pass the guard admits leaves derived data, stamps and owner, and nothing more to send |
| PassTheorems.PassConverges | internal/controller/sopssecret_controller.go:124-156 | from any admitted state one pass settles the Secret, and a second pass with the same inputs leaves every Secret and version as it is |
| PassTheorems.MappingHashMatches | internal/controller/sopssecret_controller.go:124-136 | after an admitted pass in mapping mode the hash annotation of the Secret is the hash of the data in that Secret, which is what the mappings ask for |
| PassTheorems.ManifestHashMatches | internal/controller/sopssecretmanifest_controller.go:119-145 | after one in manifest mode it is the hash of the manifest's type and of the data in that Secret, which is data overlaid with stringData |
| PassTheorems.MissingKeyWritesNothing | internal/controller/sopssecret_controller.go:129-133 | a mapping from a missing key ends the pass without a write |
| PassTheorems.ReportingWritesNoSecret | internal/controller/sopssecret_controller.go:290-296 | reporting a failure leaves every Secret unchanged |
| PassTheorems.ManifestCannotRedirect | internal/controller/sopssecretmanifest_controller.go:126-138 | a manifest's own namespace has no influence on whether, where and what is written; the data is the right-biased merge |
| OwnershipLimits.RetargetLeavesOrphan | internal/controller/sopssecret_controller.go:83-91 | a run in which a changed target strands a Secret, however complete the listing |
| OwnershipLimits.LaggingListStrands | internal/controller/sopssecretmanifest_controller.go:275-292 | a run in which a listing that lags strands a Secret |
| OwnershipLimits.StaleReadOrphans | internal/controller/sopssecret_controller.go:68-92 | a run in which a released resource is read once more and its Secret written again |
| OwnershipLimits.GhostListingBreaksOwnership | internal/controller/sopssecretmanifest_controller.go:283-291 | a run in which an old listing makes a finalizer delete another resource's Secret |
| OwnershipLimits.ExternalDeleteBreaksOwnership | internal/controller/sopssecretmanifest_controller.go:295-304 | a run from rest in which a hand-made delete lets a finalizer delete another resource's Secret |
| Flat.ApplyMapping | internal/transform/flat.go:74-84 | the loop computes the mapping of the whole list or the first missing key |
| Flat.MappingIsFailClosed | internal/transform/flat.go:74-84 | success if and only if every source key exists; then the keys are exactly the mapped ones and each value is that of the last mapping of its key; the error names the first missing one |
| Flat.MappingOrderIrrelevant | internal/transform/flat.go:74-84 | with distinct target keys the order of the mappings does not matter |
| GoStrings.LessExact | internal/transform/flat.go:89-93 | the order of the keys is byte order: the first difference decides, and a proper prefix comes first |
| Flat.CollectKeys | internal/transform/flat.go:89-93 | sorted keys, whatever order the runtime iterates the map in |
| Flat.HashSecretData | internal/transform/flat.go:88-102 | the hash of the canonical stream, independent of iteration order |
| Flat.DecodeUndoesEncode | internal/transform/flat.go:95-100 | a decoder that yields NUL-free maps recovers the data from the hashed bytes, for all NUL-free maps |
| Flat.EncodeInjective | internal/transform/flat.go:95-100 | NUL-free maps with equal streams are equal |
| Flat.EncodeAmbiguousWithNul | internal/transform/flat.go:95-100 | a family of pairs of different maps, one of them with NULs in its value, that share a stream |
| Collisions.EncodeExact | internal/transform/flat.go:88-101 | the stream hashed is nothing for an empty map, else the least key in byte order, its value, each ended by a NUL, and the stream of the rest |
| Collisions.EncodeCollidesExactly | internal/transform/flat.go:95-100 | some other map has the same stream if and only if the map has at least two entries or contains a NUL |
| Collisions.ManifestCollidesExactly | internal/transform/manifest.go:97-106 | some other type and data have the same stream if and only if there is data or the type has at least two NULs |
| Collisions.CountEncode | internal/transform/flat.go:95-100 | a stream has at least two NULs for each entry, and no more exactly if the map contains none |
| Manifests.NormalizedMerges | internal/transform/manifest.go:77-85 | the merge is right-biased, loses and invents no key, and is idempotent |
| Manifests.HashManifestSecret | internal/transform/manifest.go:90-108 | the hash of type header and canonical data stream |
| Manifests.DecodeUndoesEncodeManifest | internal/transform/manifest.go:97-106 | a decoder that yields NUL-free manifests recovers type and data, for all NUL-free ones |
| Manifests.EncodeManifestInjective | internal/transform/manifest.go:97-106 | NUL-free manifests with equal streams have equal type and data |
| Formats.FormatExact | internal/decrypt/decrypt.go:71-82 | the format is decided by how the path ends, in whatever case, and is binary otherwise |
| Decrypt.ExpectedIsDeserved | internal/decrypt/decrypt.go:36-67 | success with what SOPS makes of content, format of the path and the caller's own key, exactly if it does and content and key are usable; which of the four errors comes when |
| Decrypt.Environment.DecryptAge | internal/decrypt/decrypt.go:31-68 | a call returns exactly that, and leaves the variable as it was, on every exit |
| Decrypt.InvStep | internal/decrypt/decrypt.go:48-67 | every step of every caller keeps the lock and variable invariant |
| Decrypt.DecryptIsolation | internal/decrypt/decrypt.go:27-68 | in every run of any number of callers each decryption sees its own caller's key, only one runs at a time, an unlocked variable has its initial value or absence, and every result is exactly what SOPS makes of the caller's own content, path and key, or the caller's own error |
| ObjectEntries.RefreshedExact | internal/source/object_entry.go:74-100 | the tag sent along, and content, tag and result for each answer and mode |
| ObjectEntries.ConditionalGetExact | internal/source/object_entry.go:84-96 | a conditional GET leaves the upstream body if and only if the stored tag is not the upstream tag for other content |
| ObjectEntries.ObjectEntry.Refresh | internal/source/object_entry.go:74-100 | both fields on 200, neither on 304 and errors |
| ObjectEntries.ObjectRegistry.EnsureObjectCached | internal/source/object_entry.go:54-101 | the key's entry is refreshed or made anew on a mode change; no other entry changes |
| ObjectEntries.ObjectRegistry.ReadObject | internal/source/object_entry.go:107-138 | every outcome of a read; URL mode never serves empty content |
| ObjectEntries.ObjectRegistry.ForgetObject | internal/source/object_entry.go:141-145 | the key is gone and every other entry is as before |
| ObjectCache.InvStep | internal/source/object_entry.go:64-138 | every lock-granular step keeps the lock, map and pair invariants |
| ObjectCache.ReaderExcludesWriter | internal/source/object_entry.go:115-123 | under the read lock no writer is inside and the pair is whole |
| ObjectCacheTheorems.FrozenOutsideMap | internal/source/object_entry.go:64-70 | a step changes an entry's pair only while the entry is in the map |
| ObjectCacheTheorems.PairWasCurrent | internal/source/object_entry.go:107-123 | the pair a read works on was, since the read began, the map entry's pair |
| ObjectCacheTheorems.LinearizableRead | internal/source/object_entry.go:107-123 | every completed URL-mode read returns a non-empty pair of one single response, held in the map at a moment between its lookup and its end |
| ObjectCacheTheorems.ConditionalGetRefinesGet | internal/source/object_entry.go:74-96 | where tags identify bodies and no refresh takes a stored tag to another URL than it came from: a refresh that succeeds holds body and tag of the upstream at the fetch, one that fails leaves the pair |
| ObjectLimits.UrlEditServesStaleContent | internal/source/object_entry.go:66-90 | a run from the start in which a URL edited under a kept tag is answered 304 and keeps the content of the first URL |
| GitRegistry.PinsCollideExactly | internal/git/git.go:68-84 | a pin has the key of another pin of its URL if and only if its branch or revision contains a number sign |
| GitRegistry.New | internal/git/git.go:70-85 | which error comes when; keeps URL, revision and credentials, defaults to the branch main, and names the directory after URL, branch and revision |
| GitRegistry.MutexTable.RepoMutex | internal/git/git.go:110-124 | one stable mutex for each directory, distinct ones for distinct directories |
| GitRegistry.Disk.CheckoutRevision | internal/git/git.go:212-222 | success exactly if the revision resolves and the work tree can be checked out, and then the tree of the resolved commit; a failure may spoil the clone but no other directory |
| GitRegistry.Disk.UpdateAndResolve | internal/git/git.go:175-210 | exactly when an update succeeds, and which commit it returns and leaves: the one the checkout resolved, else what the pull received, else the one before |
| GitRegistry.OutcomeReturns | internal/git/git.go:128-222 | in terms of configuration and answers: exactly when a call succeeds and which error comes when; a pinned revision is always the commit that a checkout resolved; SSH without known hosts never gets to the remote |
| GitRegistry.Disk.EnsureCloned | internal/git/git.go:128-173 | returns just that; success leaves exactly the tree of the returned commit; bad credentials leave the directory, a failed clone or checkout leaves none, an unreadable HEAD leaves the new clone at the pinned revision; no other directory changes |
| GitRegistry.GitEntry.Refresh | internal/source/registry.go:77-84 | the published commit moves only on success |
| GitRegistry.CredentialsPinned | internal/source/registry.go:66-80 | an entry whose directory stays goes on with its first credentials, and every call ends as with those |
| GitRegistry.EnsureKeepsSound | internal/source/registry.go:51-85 | a call keeps every key coherent and every directory owned, if and only if the answers do not make it clone, without a readable HEAD, another commit than the published one |
| GitRegistry.HeadLostMisreads | internal/source/registry.go:77-106 | in that case the next read returns the file of the new clone with the commit published before |
| GitRegistry.ForgetKeepsSound | internal/source/registry.go:110-119 | so does `Forget`, in which the directory goes with the entry |
| GitRegistry.Registry.Install | internal/source/registry.go:66-75 | the entry stays if its directory does, else the old directory is removed and a new entry made |
| GitRegistry.Registry.EnsureCached | internal/source/registry.go:51-85 | the whole new registry and disk after a call |
| GitRegistry.Registry.Read | internal/source/registry.go:90-106 | which error comes when, else the file in the directory and the published commit; for a coherent key the bytes are those of the returned commit |
| GitRegistry.Registry.Forget | internal/source/registry.go:110-119 | entry and directory are gone, everything else is as before |
| GitCache.LocksStep | internal/source/registry.go:66-106 | every step keeps writers, readers and mutexes exclusive, even where repositories share a directory |
| GitCoherence.InvStep | internal/source/registry.go:51-119 | every step keeps what directories hold, who uses them and what readers may have seen, when it asks only for directories nobody else uses at that moment, whether HEADs can be read or not |
| GitHeads.InStepStep | internal/source/registry.go:77-84 | a step keeps the published commit the one whose files are in the directory, if it does not leave another clone without a readable HEAD |
| GitTheorems.CloneMutualExclusion | internal/git/git.go:128-131 | no two bodies of `EnsureCloned` for one directory overlap |
| GitTheorems.DirectoryConservation | internal/source/registry.go:66-119 | every directory on disk is held by exactly one key, through a live entry or a removal under way, never both; directories may change hands |
| GitTheorems.ConservationExact | internal/source/registry.go:66-119 | a step keeps directories apart if and only if it does not ask for one that another key uses, waits for or is still removing |
| GitTheorems.EnsureClonedOutcome | internal/git/git.go:128-173 | under concurrency: on success the directory holds the tree of the returned commit, on error it is absent, what it was at the start, or a clone that this call made and whose HEAD could not be read |
| GitReads.ReadCoherence | internal/source/registry.go:90-106 | a completed read of a directory at rest is coherent if and only if the commit brought into it last has the same file as the returned one; a read through the directory's latest entry is always of this kind, and coherent where no new clone of another commit was left without a readable HEAD |
| GitReads.ReadCoherentInRun | internal/source/registry.go:90-106 | if no later entry was made for its directory between its lookup and its reading of the file, a read returns the commit then published with the bytes of the commit then in the directory; coherent if and only if both have the same file, and always where HEADs could be read up to then |
| GitReads.ReadRecords | internal/git/git.go:288-295 | what the history variables of a read stand for at the moment the file is read |
| GitReads.HeldIsBrought | internal/git/git.go:128-173 | the commit a directory holds, as history has it, is the one that the last update or clone brought, its HEAD readable or not |
| GitReads.LatestIsNewest | internal/source/registry.go:66-75 | latest means that no later entry was made for the directory |
| GitReads.CoherentWithoutReuse | internal/source/registry.go:90-106 | where no directory is taken into use twice and HEADs can be read every completed read is coherent |
| GitLimits.ForgetTearsRead | internal/source/registry.go:90-119 | a read that spans `Forget` and a new clone is coherent if and only if both commits have the same file |
| GitLimits.TornReadHappens | internal/source/registry.go:51-119 | a run from the start, with directories kept apart and all HEADs read, in which such a read is incoherent |
| GitLimits.RemovalMeetsEntry | internal/source/registry.go:66-119 | a run from the start in which a directory belongs to a new entry and to a removal that deletes it |
| GitLimits.HeadlessCloneMisreads | internal/git/git.go:158-173 | a run from the start, with directories kept apart, in which a clone without a readable HEAD makes the next read incoherent |
| SerialCalls.UndisturbedRefresh | internal/source/object_entry.go:64-100 | an undisturbed refresh in URL mode, step by step, ends with the pair and result of the sequential one |
| SerialCalls.UndisturbedProbe | internal/source/object_entry.go:64-82 | so does one in bucket mode |
| SerialCalls.UndisturbedRead | internal/source/object_entry.go:107-138 | an undisturbed read, step by step, ends with the pair or error of the sequential one, in both modes |
| SerialCalls.ForgottenIsGone | internal/source/object_entry.go:141-145 | after the key is forgotten a read of it fails, and no other key has changed |
| SerialCalls.UndisturbedEnsureCloned | internal/git/git.go:128-173 | an undisturbed clone or update, step by step, ends with the result and directory of the sequential one |
| SecretRef.ParseGlobal | internal/secretref/secretref.go:55-69 | blank means not configured; otherwise it fails exactly if the text is not two non-blank parts around its first slash, and yields those parts |
| GoStrings.TrimSpaceExact | internal/secretref/secretref.go:56-104 | trimming removes white space, only from the ends, and all of it |
| SecretRef.NewResolver | internal/secretref/secretref.go:101-114 | the allowlist is exactly the trimmed non-empty entries |
| SecretRef.ResolveExact | internal/secretref/secretref.go:135-168 | exactly when a reference resolves, to which namespace, name and data key and with which origin, and which error comes otherwise |
| SecretRef.AllowlistMonotone | internal/secretref/secretref.go:135-168 | a larger allowlist changes no success, and what it adds lies in the namespaces it adds |
| SecretRef.ResolutionConfined | internal/secretref/secretref.go:135-168 | a success lies in the resource's namespace, the global's, or an allowed one it named |
| SecretRef.IndexKeyInjective | internal/secretref/secretref.go:180-182 | index keys of slash-free namespaces identify the Secret |
| SecretRef.IndexIgnoresAllowlist | internal/secretref/secretref.go:189-199 | the index is the same under every allowlist |
| SecretRef.IndexAgreesWithResolution | internal/secretref/secretref.go:189-199 | a source is indexed under a Secret if and only if it resolves to it or its rejected reference names it |
| SecretRef.MapSecretToSources | internal/controller/gitrepository_controller.go:249-265 | no source that reads the Secret is missed, and exactly those that name it are enqueued |
| Conditions.IsSourceReady | internal/controller/sopssecret_controller.go:312-328 | the scan answers for the first condition of the type |
| Conditions.FirstMatchIsLookup | internal/controller/sopssecret_controller.go:312-328 | with unique types that is the keyed lookup |
| Conditions.UpsertExact | internal/controller/gitrepository_controller.go:268-275 | position by position, what setting a condition changes |
| Conditions.UpsertSets | internal/controller/gitrepository_controller.go:268-275 | types stay unique and only the type set is affected |
| Conditions.StatusReports | internal/controller/objectsource_controller.go:105-163 | status, reason and message of both conditions after each outcome; other conditions stay; the observed generation is taken over exactly by a sync |
| Conditions.StatusInvariant | internal/controller/gitrepository_controller.go:108-152 | after every outcome the flag is the SourceReady condition, true exactly after a sync; only a sync takes over the token |
| Conditions.SourceStatus.SetCondition | internal/controller/gitrepository_controller.go:268-275 | the in-place search and update is the upsert |
| Conditions.SourceStatus.SetAuthFailure | internal/controller/objectsource_controller.go:250-254 | the three writes of a failure before the fetch |
| Conditions.SourceStatus.Record | internal/controller/objectsource_controller.go:105-163 | the status a reconcile writes, in order again if it was before |
| SourceSync.InvStep | internal/controller/objectsource_controller.go:75-163 | every step keeps versions, statuses and the attempt under way in order |
| SourceSync.PersistedStatusOk | internal/controller/objectsource_controller.go:105-163 | in every version ever stored the flag, the keyed lookup and the first-match scan agree |
| SourceSync.ForceSyncSafety | internal/controller/objectsource_controller.go:97-149 | a token becomes the processed one only through one attempt that read it pending, dropped the cache, and completed a refresh without a tag (or a new clone); the version recorded is the one that clone or refresh brought |
| SourceSync.FailureKeepsPending | internal/controller/objectsource_controller.go:130-141 | the status a failed attempt writes leaves the token pending |
| SourceSync.PendingGetIsUnconditional | internal/controller/gitrepository_controller.go:101-104 | no refresh for a pending token uses the cache |
| SourceSync.RecreatedIsFetchedAnew | internal/controller/objectsource_controller.go:81-92 | the first refresh after a resource was seen missing or deleting uses nothing of what was cached before |
| SourceControllers.UndisturbedExact | internal/controller/objectsource_controller.go:97-163 | in terms of resource, cached entry and answers: a URL is fetched with the cached tag, or with none if a force-sync is pending or no URL entry is there, and 200, 304 and errors do what they should; a bucket is probed; a bad spec or credential fetches nothing |
| SourceControllers.ObjectSourceReconciler.Reconcile | internal/controller/objectsource_controller.go:75-163 | a failed read changes nothing; a missing or deleting resource has its entry dropped; otherwise the entry is what the previous row says, and flag, conditions, version, token and generation of the status say how it ended; no other entry changes |
| SourceControllers.ObjectSourceReconciler.Attempt | internal/controller/objectsource_controller.go:97-141 | the same entry and outcome for the part before the status; force-sync drops the entry before anything can fail |

## Left out

- GitReads.ReadCoherence: says nothing about the bytes of a read through an older entry while a later entry of the directory is being refreshed, because the directory then holds arbitrary files; its unconditional half assumes that no new clone of another commit is left without a readable HEAD (`GitTheorems.HeadsKnown`), because `GitLimits.HeadlessCloneMisreads` is a run that fails otherwise.
- GitReads.ReadCoherentInRun: its unconditional half makes the same assumption, up to the moment the file is read.
- GitReads.CoherentWithoutReuse: makes the same assumption.
- GitHeads.InStepStep: makes the same assumption for its step.
- GitTheorems.DirectoryConservation: assumes that a directory is asked for only while no other key uses it, as do `GitTheorems.EnsureClonedOutcome`, `GitCoherence.InvStep` and the theorems about reads; `GitTheorems.ConservationExact` says that this is needed, `GitLimits.RemovalMeetsEntry` is a run that fails otherwise.
- OwnershipTheorems.ExclusiveOwnership: assumes that external writers leave Secrets with the operator's label alone and that listings show no ghosts, because Delete carries no precondition; `OwnershipTheorems.ExclusiveOwnershipExact` does without.
- OrphanTheorems.NoOrphansFromInit: its assumptions (`KeepsReach`, `NotForged`, `FreshRead`, `CompleteListing`) are enough and not always necessary; `OrphanTheorems.NoOrphansStepExact` and `NoOrphansExact` say exactly when there are no orphans.
- ObjectCacheTheorems.ConditionalGetRefinesGet: assumes tags that identify bodies and no edit of the URL under a stored tag, because the tag is kept.
- go-git, SOPS and age, minio, HTTP and SHA-256 are represented by their answers or by fixed functions about which nothing is assumed.
- YAML parsing: `ParseFlatYAML`, `ParseManifest` and `scalarToString` are not part of this model; mapping and manifests start from their results.
- API version conversions, deepcopy, metrics, tracing, logging, flags and RBAC: field copying and wiring.
- Finalizers of other controllers, users who remove the finalizer by hand, and Secrets of immutable type (a rejected write is an API failure).
- Status contents of the consumer resources, and the indexes from sources to consumers, which would add easy members.
- The map aliasing of `secret.Data = data`: maps are values here, and nothing writes to them afterwards.
- Bucket mode reads outside the fetcher: S3 stat and get are two requests, so linearizability is stated for URL mode only.
- In the concurrent git model directories are absent at the start and `RemoveAll` succeeds.
- `filepath.Clean` in `ReadFile` is a fixed function, symbolic links and file modes are not part of this model.
- White space trimmed in references and letter case in file endings are those of ASCII; `Setenv` fails only on NUL; object modes other than URL and bucket do not occur.
- Timers, requeue intervals and wall-clock fields, except the transition times of conditions.
