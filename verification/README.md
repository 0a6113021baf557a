# A verified model of Sealed Secrets

Sealed Secrets lets a Kubernetes Secret be encrypted on a client (`kubeseal`) and decrypted only by a
controller in the cluster. This project models three cooperating parts of it in Dafny and proves what they
promise each other. `dafny verify dfyconfig.toml` checks the whole project.

**The sealing codec.** `Crypto` is the hybrid frame (length, RSA part, AES part) and the trial of every key on
a ring; `Scope` the labels that bind an item to its place; `Sealing` turns a Secret into sealed items and back;
`SealingLaws` holds the round trip, order independence and renaming; `Rotation` re-seals with the newest key;
`Merge` is the in-memory part of `kubeseal`. RSA-OAEP (sections 7.1.1 and 7.1.2 of RFC 8017), AES-GCM
(sections 7.1 and 7.2 of NIST SP 800-38D), Base64 (section 4 of RFC 4648) and the key fingerprint are a record
of functions; lemmas that need their contracts require `Crypto.Sound`. The contracts are idealised: an OAEP
ciphertext opens under no other key or label, and fingerprints do not collide. `CryptoInstance.ToyIsSound`
shows that the assumptions can be met together. Go's map iteration is a nondeterministic pick from the
remaining keys, so every contract holds for every order. `Witness` shows that the premises of sealing,
round trip and rotation are met by a sample Secret.

**The key registry.** `KeyStore` is the cluster's side, `Registry` the registry object, `Startup` loading and the
renewal set-up, `Reload` what start-up makes of a store a registry has been running on, `Durability` runs with
crash and restart, `Scheduler` the timer, runner and trigger goroutines.

**The controller.** `Reconcile` is what one pass does to the stored Secret, `Status` the Synced condition,
`WorkQueue` the client-go queue by its contract, `Informer` the cache that trails behind the API server,
`Controller` the object with its handlers and worker and the step relation around it (each attempt to unseal may
return whatever unsealing allows with any of a set of key rings, and the status a turn writes may be anything),
`Convergence` and `Quiescence` the invariants over runs and the way to rest,
`Ownership` the frame. `EndToEnd` joins the key life cycle and the controller.

Where a promised property holds only under a condition, the condition is stated exactly:
the frame parses back iff the RSA part is shorter than 65536 bytes (`FrameSplits`); labels separate places up to
one clash (`LabelsSeparate`) and need slash-free namespaces (`SlashInNamespaceCollides`); the iteration order is
invisible iff no item is ambiguous (`AmbiguityShows`); a restart is sure to keep the sealing key iff every stored
key that no other is ahead of is that key (`RestartKeepsSealingKeyIff`, with a run that loses it in
`OverlapChangesSealingKey`); a reconcile leaves the exact content iff it did not patch over keys of the Secret's own
(`DoneIsExactIff`), and rests unless a patch switched itself off (`AgreementRestsIff`); the stored status message is
current iff the last error has the text last written (`StoredMessageIsCurrentIff`); an edit is noticed iff it changes
the spec (`EditIsNoticedIff`); a deleted Secret is noticed iff the handler's look-up is answered and the Secret is
controlled or managed (`DeletionIsNoticedIff`); a merge into a named original opens iff the scopes are equal
(`MergedOnTheCommandLine`).

The code and its own words disagree in two places; the model follows the code. The comment on `Rotate`
(pkg/controller/controller.go:560-562) says that an already current input is returned; it is always re-sealed.
docs/developer/crypto.md:63 gives the strict label as namespace and name joined; the code puts a `/` between them.

## Model

| member | source | states |
|---|---|---|
| Crypto.HybridEncrypt | pkg/crypto/crypto.go:36-73 | the result is the hybrid ciphertext of the plaintext for this key and label made with the coins it was handed; it fails exactly when the random source or RSA does |
| Crypto.HybridDecrypt | pkg/crypto/crypto.go:77-85 | whatever the key order: a returned plaintext is one some key opens, and an error means that no key opens the text |
| Crypto.FrameLayout | pkg/crypto/crypto.go:59-69 | on the wire: the length of the RSA part in two bytes, the more significant first and cut to 16 bits, then the two parts |
| Crypto.SingleDecryptOpensIff | pkg/crypto/crypto.go:88-124 | a text opens exactly when the bytes its length field counts decrypt to a key of 16, 24 or 32 bytes under which the rest authenticates with the zero nonce |
| Crypto.FrameSplits | pkg/crypto/crypto.go:59-64 | the frame is split back into its RSA and AES parts exactly when the RSA part fits the 16-bit length |
| Crypto.SplitFrames | pkg/crypto/crypto.go:89-98 | every byte string is rejected as too short or is the frame of the two parts it is split into |
| Crypto.SingleDecryptInverts | pkg/crypto/crypto.go:88-124 | the owner's key opens a hybrid ciphertext to its plaintext |
| Crypto.OnlyOwnKeyOpens | pkg/crypto/crypto.go:88-124 | a hybrid ciphertext opens only with its own key and label, and only to its own plaintext |
| Crypto.RingOpensHybrid | pkg/crypto/crypto.go:77-85 | a ring opens a hybrid ciphertext, to exactly its plaintext, iff it holds the key and the label matches |
| Crypto.OpensIsMonotone | pkg/crypto/crypto.go:77-85 | more keys never take a decryption away |
| Crypto.DecryptionsAgreeIff | pkg/crypto/crypto.go:77-85 | two decryptions of one sealed text, whatever their rings, labels and key orders, return the same exactly when both may open it or neither may |
| CryptoInstance.OrderShowsOnOtherTexts | pkg/crypto/crypto.go:77-124 | on a text no encryption made, two key orders may return different plaintexts, even with sound primitives |
| Scope.UpdateScopeAnnotations | pkg/apis/sealedsecrets/v1alpha1/sealedsecret_expansion.go:173-187 | the annotations rewritten, from nil or not, so that the scope read back is the scope written |
| Scope.StripLastAppliedAnnotations | pkg/apis/sealedsecrets/v1alpha1/sealedsecret_expansion.go:193-204 | removes the two last-applied annotations and nothing else |
| Scope.ScopeWrittenIsScopeRead | pkg/apis/sealedsecrets/v1alpha1/sealedsecret_expansion.go:112-120 | SecretScope returns the scope written and no other annotation is touched |
| Scope.ScopeMeans | pkg/apis/sealedsecrets/v1alpha1/sealedsecret_expansion.go:106-120 | cluster-wide outdoes namespace-wide, and only the value "true" counts |
| Scope.LabelLayout | pkg/apis/sealedsecrets/v1alpha1/sealedsecret_expansion.go:91-104 | a strict label is namespace, slash and name, a namespace-wide one the namespace, a cluster-wide one empty |
| Scope.LabelsSeparate | pkg/apis/sealedsecrets/v1alpha1/sealedsecret_expansion.go:91-104 | for slash-free namespaces labels agree iff the scopes and the components the scope uses agree, or a namespace-wide label of the empty namespace meets a cluster-wide one |
| Scope.SlashInNamespaceCollides | pkg/apis/sealedsecrets/v1alpha1/sealedsecret_expansion.go:91-104 | with a slash in the namespace two different places share a label |
| Scope.OverlayKeepsScope | pkg/kubeseal/kubeseal.go:463-465 | overlaying annotations of the same scope keeps the scope |
| Sealing.NewSealedSecret | pkg/apis/sealedsecrets/v1alpha1/sealedsecret_expansion.go:209-263 | every item, string data over data, is sealed for the key under the Secret's label, each with its own draw of the random source, with cleaned metadata; a missing namespace is the only refusal when the random source delivers and RSA takes session keys |
| Sealing.Unseal | pkg/apis/sealedsecrets/v1alpha1/sealedsecret_expansion.go:266-357 | for every order of keys, items and templates the result is the one the item outcomes add up to, with all failures reported |
| SealingLaws.UnsealMeans | pkg/apis/sealedsecrets/v1alpha1/sealedsecret_expansion.go:266-357 | success is exactly that every item opens and every template parses and executes on the decrypted items; the Secret has the template's metadata with name, namespace and owner set, the executed templates and the other plaintexts; the failures are exactly what did not open or execute |
| SealingLaws.TemplatesSeePlaintexts | pkg/apis/sealedsecrets/v1alpha1/sealedsecret_expansion.go:297-317 | for honest items templates are executed on all the plaintexts and nothing else |
| SealingLaws.RoundTrip | pkg/apis/sealedsecrets/v1alpha1/sealedsecret_expansion.go:209-357 | sealed, deployed and unsealed with any ring holding the key, a Secret comes back: data overridden by string data, type, immutable flag, place, labels and scope, annotations minus two, owner references as the skip annotation says |
| SealingLaws.UnsealedKeepsPlace | pkg/apis/sealedsecrets/v1alpha1/sealedsecret_expansion.go:337-339 | whatever its template says, what is unsealed has the sealed secret's name and namespace |
| SealingLaws.WrongKeyOrPlace | pkg/apis/sealedsecrets/v1alpha1/sealedsecret_expansion.go:270-274 | a Secret with items unseals iff the key is held and the label of its place is unchanged; otherwise every item is reported |
| SealingLaws.UnsealHeld | pkg/apis/sealedsecrets/v1alpha1/sealedsecret_expansion.go:286-318 | honest items under any mix of held keys have one result: plaintexts overridden by templates rendered from plaintexts only |
| SealingLaws.UnsealIsAllOrNothing | pkg/apis/sealedsecrets/v1alpha1/sealedsecret_expansion.go:286-318 | success is exactly that every item opens and every template renders from the opened items |
| SealingLaws.UnsealIsOrderIndependent | pkg/apis/sealedsecrets/v1alpha1/sealedsecret_expansion.go:286-318 | two runs over unambiguous items give equal results, failures included |
| SealingLaws.AmbiguityShows | pkg/apis/sealedsecrets/v1alpha1/sealedsecret_expansion.go:286-299 | when all items open, results are independent of the order iff no item opens to two plaintexts |
| SealingLaws.RenamingCommutes | pkg/apis/sealedsecrets/v1alpha1/sealedsecret_expansion.go:287-299 | without templates, renaming the items one to one and unsealing is unsealing and renaming |
| Rotation.AttemptUnseal | pkg/controller/controller.go:597-607 | unseals with exactly the private keys of the registry |
| Rotation.Rotate | pkg/controller/controller.go:563-595 | the output seals, for the most recent key, what the input with aligned metadata unseals to; an unsealing error is passed on, and a sealing error means that unsealing worked |
| Rotation.RotationPreservesMeaning | pkg/controller/controller.go:563-595 | with only the most recent key the output unseals to the input's data, type, immutable flag, name, namespace, labels, annotations minus two, and scope |
| Rotation.RotationKeepsPlaintext | pkg/controller/controller.go:563-595 | for honest items that data is the plaintexts with the rendered templates |
| Rotation.RotatedUnsealsWithRegistry | pkg/controller/keyregistry.go:81-92 | the output unseals with the registry's own ring, now and after any further registrations |
| Merge.PrepareAndSeal | pkg/kubeseal/kubeseal.go:233-278 | one turn of the sealing loop: refused for empty data, missing name or namespace mismatch, in that order; otherwise the prepared Secret is sealed, and only a missing namespace, the random source or RSA can prevent that |
| Merge.RefusalMeans | pkg/kubeseal/kubeseal.go:234-258 | which input is refused and why, in the order of the checks |
| Merge.PreparedMeans | pkg/kubeseal/kubeseal.go:238-272 | what is sealed is the input with the overrides, the client's namespace where one is missing, the wanted scope, and no server-side identity |
| Merge.SealAll | pkg/kubeseal/kubeseal.go:223-285 | every Secret of the batch is sealed as prepared, or the batch stops at the first one that is refused or cannot be sealed, with its error and with all before it sealed |
| Merge.SealedOnTheCommandLine | pkg/kubeseal/kubeseal.go:233-278 | what `kubeseal` sealed unseals to the input's items under the overridden name, the final namespace and the wanted scope |
| Merge.MergeInto | pkg/kubeseal/kubeseal.go:459-471 | entries of the update override the original's in the four maps; it panics exactly when it would write into a map that is nil |
| Merge.MergedMeans | pkg/kubeseal/kubeseal.go:459-471 | a merge puts the update's entries over the original's in four maps and touches nothing else |
| Merge.SealMergingInto | pkg/kubeseal/kubeseal.go:430-471 | the written object is the original overlaid with the input sealed under the original's name and namespace; a refusal of the input is passed on, and any other rejection is a sealing error |
| Merge.MergeLabels | pkg/kubeseal/kubeseal.go:450-457 | into a named original the labels match iff the scopes do |
| Merge.MergePreservesDecryptability | pkg/kubeseal/kubeseal.go:459-471 | under the union of the keys the merge unseals to the original's items overridden by the new ones, the original's templates rendered from the merged items |
| Merge.MergeNeedsMatchingLabels | pkg/kubeseal/kubeseal.go:459-462 | with differing labels every new item fails under any keys |
| Merge.MergeKeepsScope | pkg/kubeseal/kubeseal.go:463-465 | place and scope of the original are unchanged |
| Merge.MergedOnTheCommandLine | pkg/kubeseal/kubeseal.go:430-471 | what `SealMergingInto` writes unseals, with equal scopes, to the original's items overridden by the input's; with differing scopes every new item fails under any keys |
| KeyStore.WriteKey | pkg/controller/keys.go:56-111 | stores, unless the API refuses, one Secret with this private key, these certificates, the label saying that it is active, and for every other label and annotation the last value asked for |
| KeyStore.LastPairWins | pkg/controller/keys.go:83-89 | of several values for an extra annotation the last one is kept |
| KeyStore.ExtrasNeverHideTheKey | pkg/controller/keys.go:67-81 | whatever extra labels are asked for, the key label stays active and each other label gets its last value |
| Registry.KeyRegistry.RegisterNewKey | pkg/controller/keyregistry.go:69-88 | appends to the history; map and sealing key stay those of the history |
| Registry.KeyRegistry.GenerateKey | pkg/controller/keyregistry.go:50-67 | the generated pair and certificate are stored first, and registered only if the write was acknowledged |
| Registry.KeyRegistry.LatestPrivateKey | pkg/controller/keyregistry.go:90-92 | the elected key's private key |
| Registry.KeyRegistry.GetCert | pkg/controller/keyregistry.go:95-103 | the elected key's certificate, or an error exactly when nothing was registered |
| Registry.Election | pkg/controller/keyregistry.go:69-88 | over any history the sealing key is the one first registration of maximal ordering time, it is in the map, and the map holds exactly the fingerprints ever registered |
| Registry.LastRegistrationWins | pkg/controller/keyregistry.go:81 | the map and the key ring keep, for each fingerprint, its last registration |
| Registry.OlderReRegistration | pkg/controller/keyregistry.go:81-85 | registering a known key again with an older time replaces its entry and keeps the sealing key |
| Registry.ElectionIgnoresOrder | pkg/controller/main.go:88-96 | the elected time and the key set do not depend on the order of registration |
| Registry.DisjointIntervalsFixElection | pkg/controller/keyregistry.go:83-85 | ordering times may move inside disjoint intervals without changing who is elected |
| Startup.RegistryNewKeyWithSecret | pkg/controller/main.go:99-113 | registers the stored key, private key and first certificate, with the ordering time the priority selects |
| Startup.InitKeyRegistry | pkg/controller/main.go:69-97 | the history holds exactly the keys of the labelled Secrets and the legacy one, as stored, sorted by creation time in some order of ties |
| Startup.LoadHoldsStored | pkg/controller/main.go:69-125 | every registered key is read from a labelled Secret or the one named by the prefix, and all of these are read |
| Startup.WrittenKeyReloads | pkg/controller/keys.go:56-111 | what a key generation stored is registered again by a later start-up, private key and certificate |
| Startup.LoadedElectsNewest | pkg/controller/main.go:88-125 | after loading, the sealing key is a stored key that no active key is ahead of, by NotBefore or creation time as configured, ties going to the one created first |
| Startup.LoadElectsExactlyNewest | pkg/controller/main.go:88-125 | a key can be the sealing key after some load iff it is stored in a Secret that no loadable one is ahead of; which of those tied in both times is up to the sort |
| Startup.InitKeyRenewal | pkg/controller/main.go:145-172 | generates exactly when no key was ordered at the cutoff or later, storing what it registers; the first delay lasts until the sealing key is one period old, never negative |
| Durability.InvAlways | pkg/controller/main.go:69-97 | in every run registered keys come from the store and every served certificate is registered again after a restart |
| Durability.SealedItemsStayReadable | pkg/controller/keyregistry.go:50-88 | an item sealed with any certificate ever served decrypts to its plaintext, and nothing else, in every later running state, across crashes and restarts |
| Durability.RestartKeepsSealingKeyIff | pkg/controller/main.go:69-125 | for either priority every reload elects the key that seals now iff every stored key Secret that no loadable one is ahead of holds it |
| Durability.RestartKeepsSealingKey | pkg/controller/main.go:69-125 | with NotBefore priority and each key ordered last before the next one's NotBefore, a reload in any order elects the key that was sealing before |
| Durability.RestartedIsInOrder | pkg/controller/main.go:69-125 | that condition holds after every restart, however many keys it loads, if no two pairs share a NotBefore |
| Durability.NextRestartKeepsSealingKey | pkg/controller/main.go:69-125 | over a whole run between two restarts, if each key enters the registry with a NotBefore after everything ordered so far (or is entered again no later than before) and all stored keys are in it at the end, the next restart keeps the sealing key |
| Durability.RestartKeepsLatestNotBefore | pkg/controller/main.go:115-125 | without ties a restart keeps the sealing key iff no registered key has a later NotBefore |
| Durability.OverlapChangesSealingKey | pkg/controller/main.go:115-125 | for any two key pairs a run in which the one generated first but registered after the other one's NotBefore seals up to a crash, and the other one after every reload |
| Scheduler.JobsAreSerial | pkg/controller/funcs.go:12-30 | in every interleaving started jobs are the completed sends, at most one is unfinished, and scheduled sends keep the initial delay and the period |
| Scheduler.SendsAreSparse | pkg/controller/funcs.go:20-25 | scheduled sends i and j are at least j - i periods apart |
| Scheduler.SealingKeyAge | pkg/controller/main.go:164-171 | from the first success on the sealing key is never older than one period plus one for each scheduled job failed in a row |
| Scheduler.TriggersNeverRaiseAge | pkg/controller/funcs.go:27-29 | an early trigger, whatever its outcome, and a key from elsewhere never make the sealing key older |
| Scheduler.AgeBoundIsTight | pkg/controller/funcs.go:20-25 | from any start with a key that is not stale, for every number of failures, some run reaches the age bound |
| Status.SealedSecretStatus.UpdateConditions | pkg/controller/controller.go:488-520 | the first Synced condition, appended if missing, is refreshed in place; an update is required exactly on a flip |
| Status.SealedSecretStatus.Update | pkg/controller/controller.go:474-485 | the generation is recorded and a write is asked for exactly on a flip or a new generation |
| Status.AfterMeans | pkg/controller/controller.go:474-520 | one reconcile makes the first Synced condition, or a new one at the end, tell status, message and times, touches no other, and needs a write exactly on a flip or a new generation |
| Status.OnlySyncedChanges | pkg/controller/controller.go:490-500 | over any history at most one condition is appended and the others are untouched |
| Status.SyncedTellsLastOutcome | pkg/controller/controller.go:502-511 | status, message, update time and generation are those of the last reconcile |
| Status.TransitionIsLastFlip | pkg/controller/controller.go:512-517 | the transition time is that of the last flip |
| Status.TransitionBeforeUpdate | pkg/controller/controller.go:511-517 | with a monotone clock it is never later than the update time |
| Status.WritesExactlyOnChange | pkg/controller/controller.go:478-483 | in any history the API is written exactly on a flip or a generation change |
| Status.StoredIsCurrent | pkg/controller/controller.go:478-483 | if the writes made succeed, the stored status, transition time and generation are always current |
| Status.StoredMessageIsCurrentIff | pkg/controller/controller.go:478-519 | the stored message is that of the last flip or new generation, so it is current iff the last error has the same text |
| Status.StoredMessageCanBeStale | pkg/controller/controller.go:506-519 | any failure with a new text on a status already false leaves the stored message behind |
| Reconcile.MakeTarget | pkg/controller/controller.go:399-433 | the copy is patched or overwritten as annotated |
| Reconcile.ControllerIsFirst | pkg/controller/controller.go:392 | a Secret is controlled by the UID of its first owner reference marked as controller |
| Reconcile.ReconcileMeans | pkg/controller/controller.go:382-447 | an existing Secret is refused exactly when it is not controlled, managed or patched; else it is patched or overwritten field by field, unless the update fails or would change immutable data |
| Reconcile.CreateMeans | pkg/controller/controller.go:382-397 | a missing Secret is created as unsealed, and reported when it then is not the controller's |
| Reconcile.OwnedSecretIsUpdated | pkg/controller/controller.go:392-447 | a controlled, managed or patched Secret that is not immutable takes the new content |
| Reconcile.ReconcileReachesFixpoint | pkg/controller/controller.go:382-447 | any number of reconciles, whatever fails, changes the Secret at most twice, and at most once if it was absent |
| Reconcile.SettledForGood | pkg/controller/controller.go:382-447 | after two reconciles without fault no further one changes anything |
| Reconcile.FixpointIsAgreementOrRefusal | pkg/controller/controller.go:392-447 | a Secret is a fixpoint iff it agrees, may not be written, or its data is immutable; agreement is exact content unless it is annotated to be patched |
| Reconcile.TwoChangesHappen | pkg/controller/controller.go:402-431 | two changes do occur |
| Reconcile.DoneMeansAgreement | pkg/controller/controller.go:402-450 | success leaves a superset, still to be patched unless switched off, when the stored Secret was patched, and the exact content otherwise; a managed Secret is owned |
| Reconcile.DoneIsExactIff | pkg/controller/controller.go:399-450 | after success the content is exactly the sealed one iff the stored Secret was not patched, or had no key of its own and the owner references come out equal |
| Reconcile.AgreementRestsIff | pkg/controller/controller.go:392-447 | what a success left is a fixpoint iff it was not a patch that switched patching off and left something that may and can be overwritten |
| Reconcile.PatchSwitchedOffLeavesKeys | pkg/controller/controller.go:402-425 | for every patched Secret and every patch that switches patching off, each data key the sealed secret does not name is left after success, until a further reconcile that may write |
| Reconcile.PatchDropsNothing | pkg/controller/controller.go:402-425 | patching keeps every data key, label and annotation the sealed secret does not name |
| Reconcile.WriteKeepsIdentity | pkg/controller/controller.go:399-447 | a write changes neither identity nor immutability, nor the data of an immutable Secret |
| Reconcile.ForeignSecretIsUntouched | pkg/controller/controller.go:392-397 | a Secret neither controlled, managed nor patched is left alone and the failure reported |
| WorkQueue.QueueIsFair | pkg/controller/controller.go:298-304 | keys are taken in the order in which they were queued |
| Informer.ConvertedMeans | pkg/controller/controller.go:453-466 | missing type information is filled in, nothing else changes |
| Informer.NewsMeans | pkg/controller/controller.go:154-199 | an event matters exactly when the object is new, gone, or has another spec |
| Informer.OneMoreEvent | pkg/controller/controller.go:154-199 | one more event on the watch changes what the cache will become, and notifies its key exactly when it adds, removes or changes the spec |
| Informer.UnnotifiedIsCurrent | pkg/controller/controller.go:163-199 | an object no event on its way will queue is cached as the API server has it, up to its status |
| Informer.FoldIgnoresStatus | pkg/controller/controller.go:189-199 | the statuses of cached objects never decide what is queued |
| Controller.Controller.constructor | pkg/controller/controller.go:101-134 | starts where runs start: nothing cached, and the first list of all sealed secrets on its way in any order |
| Controller.Controller.DeliverNextNote | pkg/controller/controller.go:156-182 | add and delete queue the key, an update only when the spec differs |
| Controller.NotifyMeans | pkg/controller/controller.go:156-182 | additions and deletions queue the key, and updates do when the spec is another one |
| Controller.Controller.DeliverNextDeletion | pkg/controller/controller.go:204-236 | a deleted Secret queues its sealed secret iff the look-up is answered and it is controlled or managed |
| Controller.Controller.UpdateSealedSecretStatus | pkg/controller/controller.go:468-486 | with the flag off no status changes; with it on the status of the object in hand, and of the cached one if it is that, advances, and is sent exactly when needed; if the API takes it, it is stored and comes back on the watch |
| Controller.Controller.ApplySecret | pkg/controller/controller.go:382-447 | creates, refuses, patches or overwrites exactly as the reconcile function says, at the address made of the sealed secret's namespace and the unsealed name, touching nothing else |
| Controller.TurnMeans | pkg/controller/controller.go:327-451 | how each way a turn can go ends: nothing on a failed look-up, nothing or a deletion for an absent object, failure for what does not unseal, a reconcile at its address otherwise |
| Controller.DisposeMeans | pkg/controller/controller.go:304-322 | only a failure below the limit is retried; whatever else happened, the retries are forgotten |
| Controller.Controller.UnsealWork | pkg/controller/controller.go:327-451 | the whole effect of unsealing a key on Secrets, deletions, cache, stored object and watch, for some result of the attempt; with the flag on the status says "True" exactly if it worked and names the failure otherwise, and is sent exactly when that is news |
| Controller.Controller.ProcessNextItem | pkg/controller/controller.go:298-325 | one turn is the two steps of a run: it takes the oldest key, and ends its work with forget, retry or give up, and release, reporting how it went |
| Convergence.AgreeOrPendingAlways | pkg/controller/controller.go:154-325 | in every reachable state each sealed secret, as cached and as stored in the cluster, is pending, was given up, or its Secret agrees |
| Convergence.QuietMeansConverged | pkg/controller/controller.go:298-451 | at rest every sealed secret of the cluster was given up, or its Secret agrees with what it unseals to and is a fixpoint of reconciling, exactly unless a patch switched itself off and left something behind |
| Convergence.GivenUpMeansLastAttemptWas | pkg/controller/controller.go:306-322 | given up means exactly that the last finished attempt was immutable or failed with no retry left, and patched that it found a Secret to be patched |
| Convergence.SealedSecretsReachTheCluster | pkg/controller/controller.go:327-451 | from sealing to cluster: at rest, a deployed sealed secret not given up has all its plaintext items in its Secret, whichever rings holding the key the attempts found |
| Convergence.EditIsNoticedIff | pkg/controller/controller.go:163-199 | an edit at rest leads to a reconcile exactly when the spec changed |
| Convergence.DeletionIsNoticedIff | pkg/controller/controller.go:217-235 | a deletion at rest leads to a reconcile exactly when the look-up is answered and the Secret was controlled or managed |
| Quiescence.OwnStepsDescend | pkg/controller/controller.go:298-325 | every step of the controller's own lowers the pair (unseals left, distance), whatever the API answers |
| Quiescence.EchoAddsNothing | pkg/controller/controller.go:189-199 | what the watch brings back of a status write, whatever the status, has the stored spec and queues nothing |
| Convergence.EchoIsQuiet | pkg/controller/controller.go:189-199 | it leaves the cache bound for the stored objects, up to their status, and notifies no key |
| Quiescence.UnsealsPerEvent | pkg/controller/controller.go:314-322 | at most maxRetries + 1 unseals for each listed sealed secret and each external event |
| Quiescence.RetriesExactly | pkg/controller/controller.go:314-322 | in any run without news for it, a key whose attempts all fail is tried exactly maxRetries + 1 times, has one queue entry until then, and is then given up with its retries forgotten |
| Quiescence.NoEndlessRun | pkg/controller/controller.go:292-325 | without external events the controller cannot go on forever |
| Quiescence.StuckOnlyAtRest | pkg/controller/controller.go:298-303 | as long as anything is outstanding a step is possible, whatever the object in work |
| Ownership.OnlyOwnKeyIsTouched | pkg/controller/controller.go:327-451 | in every run no step changes a Secret other than that of the key in work |
| Convergence.AttemptKeepsAddress | pkg/controller/controller.go:382-384 | the address a Secret is stored at is the key of its sealed secret, because unsealing pins name and namespace |
| Ownership.ForeignSecretsSurvive | pkg/controller/controller.go:382-431 | over any run a Secret neither controlled nor annotated is never changed |
| Ownership.OldGCDeletesForeignSecrets | pkg/controller/controller.go:336-353 | no step changes a foreign Secret, and one removes it iff it is an outside deletion or the old garbage collection at work on an absent sealed secret with all calls answered |
| EndToEnd.ServedCertificatesReachTheCluster | pkg/controller/controller.go:597-607 | what was sealed with any certificate ever served reaches the cluster through a controller each of whose attempts finds the registry at any later moment, across registrations, crashes and restarts |

## Left out

- HTTP server, rate limiter, metrics, events, logging, signals, flags, certificate fetching and validation through the service proxy: plumbing around the modelled parts.
- JSON, YAML, PEM and X.509 codecs: objects are handed over decoded, and a stored key Secret is readable; start-up on an unreadable one is outside the model.
- Template language: a text parses or not and executes to bytes or not, as a function of its key, text and the decrypted items.
- Nil and empty maps are one value, except in `MergeInto`, which takes as a parameter which maps exist.
- Resource versions, timestamps of objects, finalizers and API-server defaulting; the API rejects only data changes on immutable Secrets and may fail arbitrarily.
- Sealing.Unseal: the deprecated single-blob form is always rejected, as with `--accept-deprecated-v1-data=false`. The controller accepts it by default (cmd/controller/main.go:41, 111) and then decodes a whole Secret from the blob, which belongs to the codecs.
- The informer's relist after a lost watch.
- Registry operations are atomic steps; a race between registration and `getCert` is not modelled.
- Aliasing: that the worker writes status and type information into the cached object is modelled; Go's `Unseal`, `NewSealedSecret`, `MergeInto` and `MakeTarget` write into maps and structs through pointers, the model's reassign local values; `SortByCreationTimestamp` returns a sorted sequence instead of sorting in place.
- One worker, whose API calls within a reconcile form one step; events interleave before and after it.
- `removeDuplicates` and the splitting of the extra label and annotation flags, which panics on a pair without `=`: `WriteKey` takes the resulting pairs.
- SealMergingInto: takes at most one input Secret, because what a buffer of several documents decodes to belongs to the codec.
- Durability.SealedItemsStayReadable: key Secrets are neither deleted nor relabelled, names are unique, and the certificate of a key stored from elsewhere belongs to its private key.
- Convergence.AgreeOrPendingAlways: surroundings are as `Orderly` says; what happens outside them is stated by `EditIsNoticedIff` and `DeletionIsNoticedIff`.
- Quiescence.NoEndlessRun: with the old garbage collection off, as that mode deletes Secrets by itself.
- Scheduler.SealingKeyAge: an ideal clock and instantaneous jobs.
