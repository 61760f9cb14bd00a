# Managed Velero Operator: verified model

The operator keeps one object-store bucket per cluster for Velero backups, on S3 or GCS, and installs Velero next
to it. All it remembers between reconciles are three fields of the `VeleroInstall` status: the bucket's name,
whether it is provisioned, and when it was last synced. Every reconcile may be cut short at any remote call. This
project models that protocol and proves what survives, together with bucket discovery, the level-triggered
installation of Velero's objects, and the generator of the operator's OLM bundle.

## How the protocol is modelled

A `World` (`Cloud.dfy`) holds the buckets, every persisted version of the status, a clock that never goes back, a
dated log of what the operator saw and did, and a schedule with one `Turn` for each remote call to come. A turn says what outsiders do
just before the call (delete buckets, take free names, rewrite settings), how much time passes, the order in which
a listing comes out, how far a cached read lags, and the fate of the call: served, refused, lost (it takes effect
but is answered by an error) or hidden (a lookup does not see an existing bucket). A theorem over all worlds is
therefore a theorem over every failure at every call and every interference. Theorems about calm weather assume
that from some point on calls are served and outsiders stay away, and that names still to be proposed are unused;
they start from a status that opens the gate, since otherwise there is nothing to do. `NoDeletion` means only that
no outsider deletes a bucket. Nothing but the operator writes the status.

The drivers, the controller, the Kubernetes client and the bundle generator are classes whose methods assign fields
step by step, as in the source. Each method is proved equal to a function on worlds (`StorageStep`,
`FullStep`, `EnsureAll`, ...) or to the result it should have; the theorems are about those functions and about
`Run` and `RunAll`, any number of reconciles.

| file | contents |
|---|---|
| `Cloud.dfy` | the world, remote calls, the status and its only persistence point |
| `S3Bucket.dfy`, `GcsBucket.dfy` | discovery, tags, labels, label sanitising |
| `Phases.dfy` | the abstract machine: propose, recover, lose, sync, release |
| `S3.dfy`, `Gcs.dfy` | the two drivers, and that both implement the machine |
| `Controller.dfy` | the freshness gate, the reconcile, runs |
| `Safety.dfy`, `OneBucket.dfy`, `Ownership.dfy` | invariants over all runs |
| `Convergence.dfy`, `Recovery.dfy` | self-healing, exact stuck states, recovery round trips |
| `ObjectSync.dfy`, `ObjectConvergence.dfy` | Velero's objects and CRDs, and their fixed point |
| `Adoption.dfy`, `Outcomes.dfy` | which bucket gets named, how creations and reconciles end, told from the calls' answers |
| `Operator.dfy` | whole reconciles, buckets and objects together |
| `Bundle.dfy` | bundle generation |

## What the proofs show about the code

- **GCS can get stuck; S3 cannot in the same way.** A GCS creation that took effect in a call that then failed before
  persisting the sync leaves a name that is not marked provisioned although the bucket exists
  (`GcsInterruptedCreationSticks`). As long as nobody else deletes the bucket, the status then never changes again,
  whatever fails or lags (`GcsNeverUnsticks`), and in calm weather every reconcile fails (`GcsStuckForever`).
  `GcsGetsStuck` shows a run where one failed lookup is enough, and `GcsConvergesExactly` gives the exact condition.
  S3 tolerates the bucket it already owns.
- **Both drivers are stuck, in calm weather and once the gate opens, on a provisioned name that somebody else holds**
  (second case of `GcsStuck`; `Hijacked` on S3). Without outside deletions this state is unreachable
  (`ProvisionedIsOurs`); with one it is reached (`S3GetsHijacked`, `GcsGetsHijacked`).
- **Re-tagging on S3 clears the tags first.** A bucket that was created and tagged can be found again from an empty
  status whatever fails afterwards, with one exception: the same call verifies the bucket, enforces its other settings,
  clears the tags and does not get to write them (`S3CreationMayLoseTags`; `S3CreationIsRecoverable` has the exact
  condition). GCS has no such gap (`GcsCreationIsRecoverable`).
- **The S3 matcher accumulates its flags across buckets.** Its comment speaks of "any of the buckets", but the two
  tags may come from two different ones (`StrayTagsMislead`). Over all map orders, the result is a bucket carrying both
  tags if and only if no bucket carries just one of them while the other is in use (`MatchIsPerBucket`); it is the same
  in every order, and the only such bucket, if and only if one tag is absent everywhere or exactly one bucket carries
  either (`MatchOrderIndependent`, `MatchIsTheOneBucket`).
- **`provisionVelero` never gets past a stored CredentialsRequest whose provider spec is absent or undecodable.** An
  undecodable one makes the comparison return an error; an absent one is a nil pointer that the comparison
  dereferences, so the reconcile panics. Either way it ends before the object could be overwritten. `TwoPassesInstall`
  has this as its exact exception.
- **Labels of a stored Service are never corrected**, because only specs are compared, and the ServiceMonitor's
  selector follows the stored labels.
- **The bundle generator's check for orphaned bindings never fires.** It looks for left-over ClusterRoles, which have
  just been removed: `Generate` never ends with that failure, and `OrphansAreBundled` says exactly which
  ClusterRoleBindings are bundled instead. Bindings are looked up by role name alone, so Roles of the same name in
  different namespaces share the binding loaded last. Deployments after the second are dropped, and documents that go
  neither into the bundle nor into the CSV are exactly accounted for (`DocumentsConserved`).
- **`filename_for` is not always unique.** `FilenamesCollideExactly` says when two names are equal: with namespaces free
  of underscores, only when a resource without a namespace has a name that starts with another one's namespace and an
  underscore (`PlainSpacesCollide`). `BundleIntactExactly` turns that into an exact condition on the loaded documents.

## Model

| member | source | states |
|---|---|---|
| Cloud.Save | api/v1alpha2/reconcile.go:28-36 | A status update is persisted only from the latest version, exactly once, and success implies it was; on failure the working copy keeps its version. |
| Cloud.VeleroInstall.StatusUpdate | api/v1alpha2/reconcile.go:28-36 | The mutable copy performs exactly that update. |
| Cloud.Head | pkg/storage/s3/s3.go:164-193 | A lookup changes nothing of ours; it logs the bucket as seen, with the time, or as missed, exactly when it answered so. |
| Cloud.Put | pkg/storage/s3/bucket.go:66-138 | A settings call is logged, with the time, exactly when it was acknowledged and never affects ownership. |
| Cloud.Create | pkg/storage/s3/bucket.go:16-39 | At most one log entry: a creation that took effect (ours afterwards, free before) or a name held by others; acknowledged answers imply it. |
| S3Bucket.LocationRoundTrip | pkg/storage/s3/bucket.go:22-31 | For every region the constraint sent on creation reads back as that region; exactly us-east-1 is sent as no constraint. |
| S3Bucket.OurTags | pkg/storage/s3/bucket.go:140-157 | Whatever the map order, the tag set is the two operator tags, each once. |
| S3Bucket.TagBucket | pkg/storage/s3/bucket.go:159-183 | Clears, then writes our tags; stops at the first failure. |
| S3Bucket.InRegion | pkg/storage/s3/bucket.go:202-228 | Filtering a listing writes nothing, keeps only listed buckets, and cannot fail in calm weather on buckets of ours. |
| S3Bucket.ListBucketsInRegion | pkg/storage/s3/bucket.go:195-229 | The loop computes exactly the listing function, errors included. |
| Recovery.InRegionIsExact | pkg/storage/s3/bucket.go:195-229 | With buckets vanishing between listing and lookup, an error-free listing is the order-preserving subsequence of exactly those buckets still there whose normalised location is the region. |
| Recovery.InRegionFailsExactly | pkg/storage/s3/bucket.go:203-220 | It fails exactly when some lookup is answered by an error other than "no such bucket". |
| S3Bucket.Store | pkg/storage/s3/bucket.go:235-257 | Adding an entry to the tag map adds exactly its key. |
| S3Bucket.StoreIsExact | pkg/storage/s3/bucket.go:257 | It replaces or adds the entry of that bucket, with the tag set given, and touches no other. |
| S3Bucket.TagList | pkg/storage/s3/bucket.go:231-260 | Reading tags writes nothing; keys come only from the given buckets. |
| S3Bucket.ListBucketTags | pkg/storage/s3/bucket.go:231-260 | The loop fills exactly that map, errors included. |
| Recovery.TagListIsExact | pkg/storage/s3/bucket.go:231-260 | An error-free result has a key for exactly the buckets that existed and had a tag set when asked. |
| Recovery.TagListHoldsAnswers | pkg/storage/s3/bucket.go:236-257 | Every tag set in it is what that very bucket answered with. |
| Recovery.TagListFailsExactly | pkg/storage/s3/bucket.go:240-256 | It fails exactly when some request is answered by an error other than a missing bucket or tag set. |
| S3Bucket.FindMatchingTags | pkg/storage/s3/bucket.go:262-288 | The nested loops with flags that persist across buckets compute `Match`. |
| S3Bucket.LastCarrierIsLast | pkg/storage/s3/bucket.go:268-279 | The candidate is the last visited bucket carrying either tag. |
| S3Bucket.MatchFindsLastCarrier | pkg/storage/s3/bucket.go:265-288 | A name is returned exactly when both tags occur somewhere, possibly on different buckets; it is then the last visited bucket carrying either. |
| S3Bucket.VisitLast | pkg/storage/s3/bucket.go:268-279 | Any bucket carrying either tag can be the result, in some iteration order, once both tags occur. |
| S3Bucket.MatchOrderIndependent | pkg/storage/s3/bucket.go:265-288 | Over all map iteration orders the result is the same if and only if one tag is absent everywhere or exactly one bucket carries either. |
| S3Bucket.MatchIsPerBucket | pkg/storage/s3/bucket.go:262-288 | Over all iteration orders the result is a bucket carrying both tags, or nothing when there is none, if and only if no bucket carries just one tag while the other is in use. |
| S3Bucket.MatchIsTheOneBucket | pkg/storage/s3/bucket.go:262-288 | Over all iteration orders it is the only bucket carrying both tags if and only if one tag is absent everywhere or exactly one bucket carries either. |
| S3Bucket.StrayTagsMislead | pkg/storage/s3/bucket.go:266-284 | Two buckets with one tag each: one of them is returned although no bucket carries both. |
| Adoption.MatchMeans | pkg/storage/s3/bucket.go:262-288 | A name comes out exactly when a tag naming this cluster and a backup-location key both occur among the tag sets, and it is a bucket with one of them. |
| GcsBucket.SanitizeIsScan | pkg/storage/gcs/bucket.go:84-89 | Lower-casing and replacing maximal runs equals a one-pass scanner. |
| GcsBucket.SanitizeShape | pkg/storage/gcs/bucket.go:84-89 | Only allowed characters come out, nothing grows, and sanitising is idempotent. |
| GcsBucket.SanitizeConcat | pkg/storage/gcs/bucket.go:84-89 | It distributes over a concatenation if and only if no run of disallowed characters spans the join. |
| GcsBucket.LettersMap | pkg/storage/gcs/bucket.go:84-89 | Lower-casing and upper-casing exchange the letters of the alphabet and nothing else; exactly small letters, digits, dash and underscore are allowed. |
| GcsBucket.LabelNames | pkg/storage/gcs/bucket.go:91-96 | The label keys are velero-io-backup-location and velero-io-infrastructurename, the default location stays default. |
| GcsBucket.LabelsDiffer | pkg/storage/gcs/bucket.go:91-96 | The two sanitised label keys are different, so the label map has two entries. |
| GcsBucket.MergedLabelsMatch | pkg/storage/gcs/bucket.go:29-37 | Whatever labels a bucket had, enforcing ours makes it carry both, and those of another cluster exactly when the infrastructure names sanitise alike; every other label and setting stays. |
| GcsBucket.MatchMeans | pkg/storage/gcs/bucket.go:66-76 | The two label tests together mean: both keys present, the location being default and the infrastructure name this cluster's, sanitised. |
| GcsBucket.ListAll | pkg/storage/gcs/bucket.go:39-57 | The iterator loop, in which any step may fail and buckets may come and go between steps, collects what the listing function does, partial results discarded. |
| GcsBucket.ListBuckets | pkg/storage/gcs/bucket.go:39-57 | A listing writes nothing, records exactly what it returned and, without outside deletions, returns only buckets of ours; it cannot fail in calm weather. |
| Recovery.PagesAreExact | pkg/storage/gcs/bucket.go:43-56 | It fails exactly when some step of the iterator does, and otherwise holds exactly the buckets the steps yielded. |
| GcsBucket.FindVeleroBucket | pkg/storage/gcs/bucket.go:59-82 | For every label-map iteration order the flags find the first match, and a name returned is that of a listed bucket carrying both labels with both values. |
| GcsBucket.FirstMatchIsFirst | pkg/storage/gcs/bucket.go:62-82 | The result is the first bucket in listing order whose labels hold both keys with both values, and empty exactly when none does. |
| Phases.ProposalWasFree | pkg/storage/s3/s3.go:227-240 | A proposed name is persisted only after a lookup did not find it. |
| Phases.AdoptOrProposeIsTail | pkg/storage/gcs/gcs.go:76-97 | Recovering a name that was listed, or proposing one that a lookup missed, is a single move that creates nothing. |
| S3.EnforcingSetsAll | pkg/storage/s3/s3.go:118-153 | Enforcement succeeds only if encryption, public-access block, lifecycle, tag clearing and our tags were all acknowledged, in that order, on the named bucket. |
| S3.EnforceEffects | pkg/storage/s3/s3.go:118-159 | A status is persisted only after all of that, once, with the time of the last setting as its sync time. |
| S3.NameStepIsTail | pkg/storage/s3/s3.go:204-241 | Discovery and naming end in at most one persisted status and create nothing. |
| Adoption.S3NamesByAnswers | pkg/storage/s3/s3.go:207-240 | In any weather: without a complete listing and all tag answers nothing is persisted; otherwise a persisted name is adopted exactly when both tags were answered, from a bucket that answered with one, and is else a proposal that a lookup missed. |
| Adoption.AnswersAreGenuine | pkg/storage/s3/s3.go:209-217 | Every tag set the choice rests on is what that very bucket, listed by then, answered with. |
| Adoption.S3AdoptsExactly | pkg/storage/s3/s3.go:219-240 | In calm weather a bucket is adopted if and only if some bucket of ours in the region names this cluster and some has the backup-location key; otherwise a free name is proposed and no bucket is touched. |
| S3.CreateStepIsCall | pkg/storage/s3/s3.go:75-116 | The creation branch makes at most one move: a sync, a loss after a missed lookup, or giving up a name the cloud says is not ours. |
| Outcomes.S3CreationOutcome | pkg/storage/s3/s3.go:75-116 | A made or already owned bucket is tagged, with the two tags written out, before it is looked up or any status is persisted for it; a name held by others is given up; any other answer ends the call with an error and nothing done. |
| Outcomes.VerifyKeepsRecoverable | pkg/storage/s3/s3.go:103-159 | Verifying and enforcing, whatever fails, leaves a bucket that an empty status would find, if and only if its tags were not cleared without being written again. |
| Outcomes.S3CreationIsRecoverable | pkg/storage/s3/s3.go:75-159 | The round trip through the driver, with the same exact exception: a creation whose first three calls were served leaves such a bucket. |
| Outcomes.S3CreationMayLoseTags | pkg/storage/s3/bucket.go:169-183 | A schedule with one failed call on which the exception occurs. |
| S3.UnnamedIsCall | pkg/storage/s3/s3.go:68-116 | From an unnamed status a call is at most two moves: naming, then verifying what was named. |
| S3.StorageStepIsCall | pkg/storage/s3/s3.go:53-161 | Every S3 call, whatever fails, is at most two moves of the abstract machine, each resting on what the call observed, only from the latest version; it creates at most the bucket its status named, and succeeds only if it persisted its last move. |
| S3.Driver.SetInstanceBucketName | pkg/storage/s3/s3.go:201-241 | The method performs the naming step on the working copy and the world. |
| S3.Driver.CreateStorage | pkg/storage/s3/s3.go:51-116 | The method, with its switch and fall-through, is the S3 step: same world, same working copy, same outcome. |
| S3.Driver.VerifyAndEnforce | pkg/storage/s3/s3.go:103-161 | The verification and enforcement tail does exactly the verify step. |
| Gcs.ListingFinds | pkg/storage/gcs/gcs.go:69-82 | What discovery adopts was listed and, without outside deletions, is a bucket of our own project. |
| Adoption.GcsNamesByAnswers | pkg/storage/gcs/gcs.go:69-97 | In any weather: without a complete listing nothing is persisted; otherwise a persisted name is adopted exactly when a listed bucket carries both labels, from such a bucket, and is else a proposal that a lookup missed. |
| Adoption.GcsAdoptsExactly | pkg/storage/gcs/gcs.go:76-97 | In calm weather a bucket is adopted if and only if some bucket of the project carries both labels; otherwise a free name is proposed. |
| Outcomes.GcsCreationOutcome | pkg/storage/gcs/gcs.go:100-109 | Any answer but a new bucket ends the call with an error and nothing done. |
| Outcomes.GcsCreationIsRecoverable | pkg/storage/gcs/bucket.go:18-37 | A creation that took effect leaves a bucket, in the upper-cased region, that an empty status would find again, whatever fails. |
| Gcs.EnforceIsTail | pkg/storage/gcs/gcs.go:127-138 | Status is persisted only after the labels were acknowledged on the named bucket, as a sync move. |
| Gcs.StorageStepIsCall | pkg/storage/gcs/gcs.go:53-140 | Every GCS call is at most one move of the same machine, and never gives a name up. |
| Gcs.Driver.CreateStorage | pkg/storage/gcs/gcs.go:52-140 | The method is the GCS step, with its early returns and every creation error fatal. |
| Controller.VeleroInstallReconciler.Reconcile | controllers/velero/veleroinstall_controller.go:42-90 | With its driver created on first use and kept, the method is the whole reconcile: the bucket step, or provisioning Velero for the bucket the status names. |
| Controller.PastTheGate | controllers/velero/veleroinstall_controller.go:81-89 | A reconcile at the gate either makes one driver call and leaves the objects alone, or provisions and leaves buckets and status alone. |
| Outcomes.ReconcileEndsEarly | controllers/velero/veleroinstall_controller.go:49-79 | A resource that is gone is no error and has no effect; an unreadable resource, unreadable infrastructure or unusable platform is an error and has none. |
| Outcomes.NewDriverMeans | pkg/storage/storage.go:22-48 | Drivers exist exactly for AWS with a region and for GCP with region and project, and carry just those and the infrastructure name. |
| Safety.ReconcileCases | controllers/velero/veleroinstall_controller.go:49-89 | A reconcile only reads, and then makes at most one driver call or one provisioning, on a version that was persisted. |
| Safety.CallKeepsInv | pkg/storage/s3/s3.go:84-159 | Any driver call keeps the invariant, also in branches that clear the name or the provisioned flag and keep the old sync time. |
| Safety.RunKeepsInv | controllers/velero/veleroinstall_controller.go:42-90 | In every run every persisted status is stale or records a complete enforcement pass, follows its predecessor by a machine move for which the log has the evidence, no event is dated in the future, and the log is justified. |
| Safety.JustNow | api/v1alpha2/reconcile.go:12-26 | A status that passes the gate records a pass whose last setting was acknowledged at most the reconcile period ago. |
| Safety.ProvisioningIsJustified | controllers/velero/veleroinstall_controller.go:81-89 | In every run, whenever Velero is provisioned, the log holds an uninterrupted, complete enforcement pass on exactly the bucket the status names, over by then, whose last setting was acknowledged at most 60 minutes before. |
| Safety.NamingIsWriteAhead | pkg/storage/s3/s3.go:75-80 | Every bucket ever created had its name persisted, as unprovisioned, by an earlier update. |
| Safety.NamesAreOnlyClearedWhenDenied | pkg/storage/s3/s3.go:84-87 | A chosen name is never replaced; it is cleared only on S3, only after the cloud said that somebody else holds it. |
| Safety.NoDriverNoEffect | pkg/storage/storage.go:22-48 | With missing or unsupported platform details no run persists or does anything. |
| OneBucket.CallKeepsSingle | pkg/storage/s3/s3.go:75-101 | Any driver call keeps: at most one bucket created, and it is ours and the current one. |
| OneBucket.AtMostOneBucket | controllers/velero/veleroinstall_controller.go:81-86 | Without outside deletions at most one bucket is created in any run; from then on it is ours and stays the one the status names. |
| OneBucket.NamesAreOnlyLeftToOthers | pkg/storage/s3/s3.go:84-87 | Every name ever persisted is still the current one or is held by somebody else. |
| Ownership.ProvisionedIsOurs | pkg/storage/s3/s3.go:219-225 | Without outside deletions every status ever marked provisioned names a bucket of ours. |
| Convergence.CalmReconcileProvisions | api/v1alpha2/reconcile.go:12-26 | In calm weather a reconcile goes on to Velero, leaving buckets and status alone, if and only if the status is named, provisioned and synced within the period. |
| Convergence.S3UnnamedFallsThrough | pkg/storage/s3/s3.go:66-116 | From an unnamed status one calm S3 reconcile either syncs completely or persists a free proposal twice. |
| Convergence.GcsUnnamedReturns | pkg/storage/gcs/gcs.go:65-97 | From an unnamed status one calm GCS reconcile persists exactly one adopted or proposed name and does nothing else. |
| Convergence.S3CalmReconcile | pkg/storage/s3/s3.go:53-161 | Each calm reconcile that is not yet synced afterwards lowers the rank over name, provisioned flag, existence and owner. |
| Convergence.S3SelfHeals | pkg/storage/s3/s3.go:53-161 | Three calm reconciles sync S3 from any pending state, two unless somebody else holds the name, one if the named bucket is ours. |
| Convergence.S3SyncedStays | pkg/storage/s3/s3.go:103-161 | Once synced, all settings and the status stay so through further calm reconciles. |
| Convergence.S3HijackedIsStuck | pkg/storage/s3/s3.go:103-111 | From a provisioned name held by others every calm reconcile fails and changes nothing. |
| Convergence.S3GetsHijacked | pkg/storage/s3/s3.go:219-225 | On every AWS platform, a bucket found again and taken over before it is verified leads there, and to failing for ever. |
| Convergence.S3HealsExactly | pkg/storage/s3/s3.go:53-161 | From any state with an open gate, three or more calm reconciles sync S3 if and only if the name is not provisioned and held by others. |
| Convergence.S3HealsAfterAnyRun | controllers/velero/veleroinstall_controller.go:81-86 | After any run without outside deletions, whatever failed in it, an open gate leads to a synced S3 within three calm reconciles. |
| Convergence.GcsCalmReconcile | pkg/storage/gcs/gcs.go:65-140 | One calm reconcile: fails unchanged when stuck, syncs when ready, becomes ready otherwise. |
| Convergence.GcsStuckForever | pkg/storage/gcs/gcs.go:100-116 | From a stuck state with an open gate every calm reconcile fails and leaves status and buckets unchanged. |
| Convergence.GcsNeverUnsticks | pkg/storage/gcs/gcs.go:100-109 | While nobody else deletes the bucket, a named, unprovisioned status whose bucket exists never changes again, in any weather and with any lag. |
| Convergence.GcsConvergesExactly | pkg/storage/gcs/gcs.go:65-140 | Two or more calm reconciles sync GCS if and only if it does not start stuck. |
| Convergence.GcsInterruptedCreationSticks | pkg/storage/gcs/gcs.go:105-138 | A creation that took effect in a call that persisted nothing leaves GCS stuck, unless somebody deletes the bucket. |
| Convergence.GcsGetsStuck | pkg/storage/gcs/gcs.go:105-116 | On every GCS platform, from a new installation and with no interference, one failed lookup after the creation leaves the operator failing for ever. |
| Convergence.GcsGetsHijacked | pkg/storage/gcs/gcs.go:76-82 | On every GCS platform, a bucket found again and taken over while its name is being persisted leaves the operator failing for ever. |
| Convergence.GcsHealsAfterAnyRun | controllers/velero/veleroinstall_controller.go:81-86 | After any run without outside deletions and with the gate open, two calm reconciles sync GCS if and only if the named bucket does not exist unprovisioned. |
| Recovery.S3Recovers | pkg/storage/s3/s3.go:207-225 | From an empty status, the only tagged bucket of the region is adopted again, in every listing and map order. |
| Recovery.S3RecoversAtOnce | pkg/storage/s3/s3.go:66-161 | A lost status costs one calm reconcile: that bucket is adopted and fully enforced. |
| Recovery.CreatedBucketIsRecovered | pkg/storage/s3/bucket.go:16-39 | Create, tag, forget, recover: the same bucket for every region and infrastructure name. |
| Recovery.GcsRecovers | pkg/storage/gcs/gcs.go:69-82 | From an empty status the only labelled bucket is adopted again, in every listing order. |
| Recovery.GcsCreatedBucketIsRecovered | pkg/storage/gcs/bucket.go:18-37 | A bucket just created, or one whose labels were just enforced over any earlier ones, is adopted again. |
| ObjectSync.SpecEqualIsEquivalence | controllers/velero/velero.go:543-580 | On decodable specs the comparison is an equivalence that re-encoding cannot upset, decided by the decoded provider spec and the rest; when it meets an absent provider spec before an undecodable one it panics, otherwise it returns an error. |
| ObjectSync.MetricsServicePorts | controllers/velero/velero.go:500-515 | The nested loops collect the container ports whose name contains "metrics", in order. |
| ObjectConvergence.MetricsOfMeans | controllers/velero/velero.go:503-515 | Each is served under its own name, protocol and number, and targets that number. |
| ObjectSync.ContainsMeans | controllers/velero/velero.go:506 | A name contains a text exactly when the text occurs somewhere in it. |
| ObjectSync.PopulateEndpointsFromServicePorts | controllers/velero/velero.go:617-623 | The endpoints are the port names, in order. |
| ObjectSync.KubeClient.EnsureObject | controllers/velero/velero.go:59-86 | Get, then create, leave alone or update, as the ensure function says. |
| ObjectSync.KubeClient.InstallVeleroCRDs | pkg/velero/crds.go:17-61 | The loop ensures the CRDs one by one and stops at the first error. |
| ObjectSync.KubeClient.ProvisionVelero | controllers/velero/velero.go:42-251 | The six steps with their early returns and the requeue are the provisioning function. |
| ObjectConvergence.EnsureStep | controllers/velero/velero.go:59-86 | Whatever fails: success means desired, what is desired is not written, other objects are untouched, and an object is either left alone or becomes desired. |
| ObjectConvergence.EnsureAllStops | pkg/velero/crds.go:22-58 | A pass over a list leaves a desired prefix, one object untouched or desired, and the rest untouched. |
| ObjectConvergence.CrdsInstalled | pkg/velero/crds.go:17-61 | For a list of any length: success installs every CRD and nothing else, an error leaves exactly a prefix installed. |
| ObjectConvergence.CrdsSettle | pkg/velero/crds.go:47-57 | Without faults every call succeeds; after a successful one every listed CRD has literally the wanted spec, and a second call writes nothing. |
| ObjectConvergence.RewritingExactly | pkg/velero/crds.go:22-58 | Against an API server that rewrites specs in any way, any number of passes without faults over a list without Services makes every object as wanted if and only if each is so from the start, or is comparable and what is stored of its wanted spec compares as wanted. |
| ObjectConvergence.HopelessStays | pkg/velero/crds.go:47-57 | An object for which neither holds is never as wanted, whatever fails. |
| ObjectConvergence.WritesUnlessInstalled | pkg/velero/crds.go:47-57 | As long as every object can be compared, a pass without faults writes nothing if and only if all are as wanted: a spec the server keeps changing is written on every pass. |
| ObjectConvergence.ProvisionPass | controllers/velero/velero.go:59-250 | Where a pass with arbitrary failures stopped, which objects it left desired or untouched, and its exact outcome without faults. |
| ObjectConvergence.FailuresNeverUndo | controllers/velero/velero.go:59-250 | No pass, failed or not, increases the set of differing objects, and a complete one empties it. |
| ObjectConvergence.FixedPoint | controllers/velero/velero.go:59-250 | Once nothing differs no pass ever writes again, whatever fails. |
| ObjectConvergence.DesiredMeans | controllers/velero/velero.go:59-250 | No object differs if and only if all six exist and say what they should: the location names the bucket, snapshot location and Deployment are literally as wanted, the credentials decode to what is wanted for the bucket, the Service has the metrics ports, selector and settings, the monitor follows it. |
| ObjectConvergence.TwoPassesInstall | controllers/velero/velero.go:59-250 | From any cluster contents two passes without faults put all six objects in place in that sense, if and only if the stored CredentialsRequest can be compared. |
| ObjectConvergence.InPlaceIsFixed | controllers/velero/velero.go:59-250 | Once they are in place no pass writes anything, whatever fails. |
| ObjectConvergence.WrittenInOrder | controllers/velero/velero.go:59-250 | Every pass writes the six objects in their order, each at most once; for a region of no known partition it stops with an error after the first two. |
| ObjectConvergence.CreatedServiceIsLabelled | controllers/velero/velero.go:524-533 | A Service that a pass creates is labelled with the Deployment's name. |
| ObjectConvergence.CreatedMonitorIsLabelled | controllers/velero/velero.go:584-607 | A ServiceMonitor that a pass creates is labelled like its Service. |
| ObjectConvergence.TwoPassesSuffice | controllers/velero/velero.go:59-250 | From any cluster contents two passes without faults leave no object differing, if and only if the stored CredentialsRequest can be compared. |
| ObjectConvergence.UnreadableStays | controllers/velero/velero.go:145-149 | An undecodable stored CredentialsRequest makes every pass fail and survives it. |
| ObjectConvergence.AssignedFieldsSurvive | controllers/velero/velero.go:207-222 | Whatever a pass does, a stored Service keeps its five cluster-assigned fields and its labels. |
| ObjectConvergence.MonitorFollowsDeployment | controllers/velero/velero.go:224-248 | After a pass that neither fails nor requeues, the ServiceMonitor's endpoints are exactly the names of the Deployment's ports containing "metrics", in order. |
| Operator.LocationsAreBacked | controllers/velero/velero.go:59-86 | Over all runs of whole reconciles, whatever fails and whoever interferes, every BackupStorageLocation ever written is written in a reconcile that ends by provisioning Velero for just the bucket it names, when a complete enforcement of that bucket was over and its last setting at most the reconcile period old. |
| Operator.FullStepBacked | controllers/velero/veleroinstall_controller.go:81-89 | Every location written by one reconcile belongs to the provisioning logged in that same reconcile, at the time it ends, whatever outsiders did to the objects before. |
| Operator.VeleroIsInstalled | controllers/velero/veleroinstall_controller.go:81-89 | In calm weather, two reconciles that end while the status is fresh put all of Velero's objects in place for the named bucket, if and only if the stored CredentialsRequest can be compared. |
| Operator.S3InstallsVelero | controllers/velero/veleroinstall_controller.go:42-90 | On S3, from any pending state, five calm reconciles within the period sync the bucket and put all of Velero's objects in place for it, if and only if the stored CredentialsRequest can be compared. |
| Operator.GcsInstallsVelero | controllers/velero/veleroinstall_controller.go:42-90 | On GCS, from any state that is not stuck, four do. |
| Bundle.Generator.Load | boilerplate/openshift/golang-osd-operator/csv-generate/common-generate-operator-bundle.py:126-150 | Succeeds exactly when every kind is permitted; then the index groups the documents by kind in load order and the binding maps are complete. |
| Bundle.OfIsExact | boilerplate/openshift/golang-osd-operator/csv-generate/common-generate-operator-bundle.py:144-146 | The index holds every document under its own kind, as often as it was loaded, and nowhere else. |
| Bundle.OfInOrder | boilerplate/openshift/golang-osd-operator/csv-generate/common-generate-operator-bundle.py:144-146 | Within a kind the index keeps the order of loading. |
| Bundle.BindingMapIsLast | boilerplate/openshift/golang-osd-operator/csv-generate/common-generate-operator-bundle.py:147-150 | A binding is found for a role name exactly when one was loaded, and it is the last one. |
| Bundle.FirstAccountIsFirst | boilerplate/openshift/golang-osd-operator/csv-generate/common-generate-operator-bundle.py:188-208 | The discovered account is that of the first ServiceAccount subject; none is found exactly when there is no such subject. |
| Bundle.Generator.TrimIndex | boilerplate/openshift/golang-osd-operator/csv-generate/common-generate-operator-bundle.py:210-240 | Removes exactly the first document of the given name and namespace, if any, from that kind only. |
| Bundle.TrimIsExact | boilerplate/openshift/golang-osd-operator/csv-generate/common-generate-operator-bundle.py:228-240 | What goes is the first document of just that name and namespace; without one, nothing does. |
| Bundle.Generator.ProcessClusterRoles | boilerplate/openshift/golang-osd-operator/csv-generate/common-generate-operator-bundle.py:283-301 | Every ClusterRole moves into the CSV with its account, in order; exactly the bindings looked up are trimmed; it fails exactly on a binding without an account. |
| Bundle.ClusterAccounts | boilerplate/openshift/golang-osd-operator/csv-generate/common-generate-operator-bundle.py:286-299 | The account of each ClusterRole is the operator's own without a binding, otherwise that of the binding's first ServiceAccount subject. |
| Bundle.TrimVisited | boilerplate/openshift/golang-osd-operator/csv-generate/common-generate-operator-bundle.py:312-331 | Trimming the visited Role out of the index being built up removes that very Role, also when several share name and namespace. |
| Bundle.Generator.ProcessRoles | boilerplate/openshift/golang-osd-operator/csv-generate/common-generate-operator-bundle.py:312-331 | Trimming while iterating equals a filter: exactly the Roles not moved are left, in order, and `permissions` lists exactly the moved ones, in order. |
| Bundle.RolesConserved | boilerplate/openshift/golang-osd-operator/csv-generate/common-generate-operator-bundle.py:312-331 | Each Role either stays or is moved, never both, with multiplicity. |
| Bundle.StayersDoNotMove | boilerplate/openshift/golang-osd-operator/csv-generate/common-generate-operator-bundle.py:312-331 | A Role is left behind if and only if it has no binding, or one that does not have exactly one subject, or whose subject is no ServiceAccount or belongs to another namespace. |
| Bundle.RolesInOrder | boilerplate/openshift/golang-osd-operator/csv-generate/common-generate-operator-bundle.py:312-331 | Roles left behind and permissions keep the order of the Roles. |
| Bundle.PermissionsAreOfMoved | boilerplate/openshift/golang-osd-operator/csv-generate/common-generate-operator-bundle.py:319-329 | A permission is listed if and only if its Role's binding has as its only subject the ServiceAccount it names, in the operator's namespace or without one. |
| Bundle.Generator.Generate | boilerplate/openshift/golang-osd-operator/csv-generate/common-generate-operator-bundle.py:126-391 | Ends exactly as the order of its checks says, never with orphaned bindings, and otherwise CSV sections and left-over documents are as specified for every kind. |
| Bundle.VerdictMeans | boilerplate/openshift/golang-osd-operator/csv-generate/common-generate-operator-bundle.py:126-316 | It succeeds exactly when all kinds are permitted, a Deployment exists, more than one comes with an image, every ClusterRole's binding has a ServiceAccount, the CSV has a namespace and every Role a binding; and each failure means what it says, in that order. |
| Bundle.OrphansAreBundled | boilerplate/openshift/golang-osd-operator/csv-generate/common-generate-operator-bundle.py:380-391 | For distinct metadata, a ClusterRoleBinding is bundled if and only if it was loaded and no loaded ClusterRole looks up a binding of its name and namespace. |
| Bundle.MissingRoleOrphans | boilerplate/openshift/golang-osd-operator/csv-generate/common-generate-operator-bundle.py:380-385 | In particular one whose ClusterRole is missing is bundled, not refused. |
| Bundle.RoleBindingsLeft | boilerplate/openshift/golang-osd-operator/csv-generate/common-generate-operator-bundle.py:312-331 | A RoleBinding is bundled if and only if no Role whose binding qualifies it for the CSV looks up one of its name and namespace. |
| Bundle.DocumentsConserved | boilerplate/openshift/golang-osd-operator/csv-generate/common-generate-operator-bundle.py:283-391 | What was loaded of each kind is the disjoint sum of what is bundled, moved into the CSV and gone; gone are ServiceAccounts, bindings of a consumed binding's name and namespace, and the Deployments after the second, so none if and only if there are at most two. |
| Bundle.EveryDocumentAccountedFor | boilerplate/openshift/golang-osd-operator/csv-generate/common-generate-operator-bundle.py:126-391 | Over the whole input, every copy of every document ends up in exactly one place. |
| Bundle.WithoutEachIsFilter | boilerplate/openshift/golang-osd-operator/csv-generate/common-generate-operator-bundle.py:291-293 | When bindings have distinct metadata, exactly the consumed ones are missing, also when Roles share one. |
| Bundle.Generator.BundleRest | boilerplate/openshift/golang-osd-operator/csv-generate/common-generate-operator-bundle.py:387-391 | For every order of kinds, each left-over document has a file of its name, and each file holds one of the documents of that name. |
| Bundle.FileHasStem | boilerplate/openshift/golang-osd-operator/csv-generate/common-generate-operator-bundle.py:168-173 | A file name is the kind, the namespace if there is one, and the name, joined by underscores, with the extension .yaml. |
| Bundle.FilenamesCollideExactly | boilerplate/openshift/golang-osd-operator/csv-generate/common-generate-operator-bundle.py:160-173 | Two file names are equal if and only if the kinds are and the resources are the same or one name begins with what the other has in its namespace. |
| Bundle.PlainSpacesCollide | boilerplate/openshift/golang-osd-operator/csv-generate/common-generate-operator-bundle.py:167-173 | For namespaces without underscores that means: the same resource, or one without a namespace whose name is the other's namespace, an underscore and the other's name. |
| Bundle.KindsArePlain | boilerplate/openshift/golang-osd-operator/csv-generate/common-generate-operator-bundle.py:22-40 | No kind the registry accepts contains an underscore. |
| Bundle.KindsByName | boilerplate/openshift/golang-osd-operator/csv-generate/common-generate-operator-bundle.py:22-40 | Kinds and their names correspond, and exactly the seventeen names are permitted. |
| Bundle.FilenamesAreUnique | boilerplate/openshift/golang-osd-operator/csv-generate/common-generate-operator-bundle.py:160-173 | Hence file names are injective on kind, namespace and name when no part contains an underscore. |
| Bundle.NothingOverwritten | boilerplate/openshift/golang-osd-operator/csv-generate/common-generate-operator-bundle.py:175-186 | Every left-over document is found intact in its own file if and only if no two different ones collide. |
| Bundle.BundleIntactExactly | boilerplate/openshift/golang-osd-operator/csv-generate/common-generate-operator-bundle.py:387-391 | The same from the loaded documents to the files: all that are to be bundled are intact if and only if no two different ones of them collide. |
| Bundle.Generator.WriteBundle | boilerplate/openshift/golang-osd-operator/csv-generate/common-generate-operator-bundle.py:126-391 | Generation and writing together meet that, and write nothing else. |
| Bundle.UnderscoresCollide | boilerplate/openshift/golang-osd-operator/csv-generate/common-generate-operator-bundle.py:160-173 | A namespaced resource and an unnamespaced one of the joined name share a file name. |

## Left out

- Client construction, secrets and sessions: a failure there looks to the caller like the next remote call being refused.
- Error values that are not AWS errors, some of which the source formats through a nil value: every failure is a coded one.
- ACLs, uniform bucket-level access and the upper-cased GCS location beyond being stored: nothing in the source reads them back.
- An S3 peculiarity in us-east-1, where re-creating an owned bucket may be answered by plain success: the source takes the same path for both answers.
- Buckets of other accounts that the operator may nevertheless read or write: they count as inaccessible.
- Rounding of persisted timestamps: the clock counts whole seconds, and moves on only with remote calls, so the stamp carries the time of the last acknowledged setting.
- Changes of the infrastructure status while the operator runs, and outside writes to the status.
- Several reconciles at the same time: the controller runs one at a time; lagging reads are modelled.
- One clock and schedule for bucket calls and object calls: a whole reconcile does one after the other, and each has its own sequence of fates.
- What a panic does beyond ending the reconcile: whether the process restarts depends on libraries that are not part of this model.
- Contents of the Deployment, affinities, credential statements, owner references and CRD conversion: specs are opaque values that only get compared, except ports, labels and provider specs.
- API-server defaulting in the theorems on `provisionVelero` as a whole: there, apart from the assigned Service fields and re-encoded provider specs, specs are stored as given. For lists of objects other than Services, `RewritingExactly` allows any rewriting.
- Version conflicts on Velero's objects: they are refused calls.
- Non-ASCII characters in GCS labels.
- YAML parsing and file contents, the CRD `owned` list, image and environment injection into Deployments, and version metadata of the CSV.
- Documents without the fields the generator indexes unconditionally (a `KeyError` in Python); a RoleBinding without subjects is an error exit like a missing one.
- The CSV's own file, written after the bundled documents.
- main.go, leader election, metrics registration and logging.
