# ZKE Agent: verified core

The ZKE Agent runs inside a managed Kubernetes Cluster, keeps one connection to the ZKE Server
and acts for it: it executes mutations, keeps its own identity, caches resources, collects
metrics and opens terminals. This project models the parts of it whose correctness is hard to
see from any single function and proves what they promise, over every input, every run and every
interleaving.

* **At most one write per idempotency key** (`ReplayCache`, `ReplayProtocol`, `ReplayGuarantees`,
  `MutationOutcome`, `HelmOutcome`, `AtMostOneWrite`). The replay cache is a class over a heap of
  entries; any number of callers run against it as atomic steps under a clock. The protocol's
  guarantee is then combined with the outcomes of single-object writes and of Helm actions, so
  that it speaks of cluster writes. The writes it does not cover are listed exactly, and each of
  them can happen twice: an accepted object that cannot be encoded as JSON, if there is one, and
  Helm actions that end in an error taken for harmless after something was written, as when a
  rollback's release is removed before it is read back, or a chart is refused after its CRDs were
  installed. Which requests can end so is exact too: all that are not dry runs, if the API Server
  gives one of the harmless reasons; by Helm's own errors, every rollback and uninstall, and
  installs and upgrades that do more than apply.
* **The identity Secret** (`Identity`, `IdentityStore`, `IdentityProtocol`, `IdentityGuarantees`).
  Any number of Agents run the four store methods against one Secret with optimistic concurrency,
  lost races and lost responses. `IdentityStore` holds the methods as they run, with their retry
  loops; the protocol module interleaves them. The histories of the Secret are exactly the
  sequential executions of its attempts. The store itself does not ask that a renewal extend the
  expiry; what depends on it says so, and a run in which it fails is given.
* **Incremental aggregates and the overview** (`Aggregates`, `AggregateGuarantees`, `Overview`).
  Running totals with saturating 64-bit arithmetic against a walk over the cached objects.
* **Heartbeats, the control reader and reconnecting** (`Heartbeat`, `ControlLoop`, `Reconnect`).
  The select loop, the reader goroutine, a timer whose firing stays in its channel, and the outer
  loop with its renewals and retry intervals. A buffered firing is more than current Go timers
  allow, so the guarantees hold for either kind.
* **Scrape discovery** (`Relabel`, `ScrapeJobs`, `ScrapeGuarantees`, `ScrapeAgreement`,
  `KubeStateFilter`). A small relabel interpreter runs the generated programs; what they keep is
  compared with what the Go code reports. The two differ where an annotation is empty, untrimmed
  or not the same on all slices, and where a port annotation meets a slice without numbered
  ports; these conditions are exact.
* **Terminal RBAC** (`TerminalPolicy`, `TerminalGuarantees`). The generated rule lists and bindings
  against a closed-form permission table.
* **Metrics forwarding** (`Forwarder`, `ForwarderProtocol`, `IngestSession`). The session that
  requests share and replace, and inside one session the calls of `Send`, the Stream item by item
  and the Server's loop.
* **The cache's life cycle** (`CacheLifecycle`) and **installing the collector** (`Collector`,
  `CollectorInstall`). The latter runs its writes against an API server that may fail any call,
  before or after carrying it out.

Code that changes state in place is a class with its methods, each proved against a function or a
relation on values; protocols with many participants are state machines over those values.
`Options` and `Sorting` are shared by several of them.

Where the code and its comments differ, the code is modelled. `addScaled` is described as
saturating; with a negative value it saturates at once, because the bound it compares with has
wrapped. `annotatedSourceJob` is described as resolving annotations the way the relabel rules do;
it does so only under the condition above. `Close` is described as final; it is, unless it
overtakes a `Start` that has taken its lock but not yet started its goroutine. And `Close` waits
for a bounded number of steps only from the moment the cancel function is called, which another
stopper may have taken and not yet called. `helmNothingWritten` is described as the refusals made
before anything was applied; four of its reasons can also follow a write.

## Model

| member | source | states |
|---|---|---|
| `ReplayCache.MutationReplayCache.constructor` | pkg/agent/resource_mutation_cache.go:64-70 | an empty cache with the given limit and time to live |
| `ReplayCache.MutationReplayCache.RemoveExpiredLocked` | pkg/agent/resource_mutation_cache.go:157-163 | exactly the completed entries whose time has come leave the map; in-flight entries never do |
| `ReplayCache.MutationReplayCache.OldestCompleted` | pkg/agent/resource_mutation_cache.go:166-182 | finds a completed entry with the least expiry, or reports that all entries are in flight |
| `ReplayCache.MutationReplayCache.EvictOne` | pkg/agent/resource_mutation_cache.go:166-183 | one pass evicts exactly one completed entry, one that expires first, or nothing when all are in flight |
| `ReplayCache.EvictOldest` | pkg/agent/resource_mutation_cache.go:165-185 | each pass of the eviction loop shrinks the map and evicts only completed entries, oldest first |
| `ReplayCache.MutationReplayCache.MakeRoomLocked` | pkg/agent/resource_mutation_cache.go:165-185 | afterwards there is room or everything left is in flight; every victim was completed and expired no later than any completed survivor |
| `ReplayCache.MutationReplayCache.Insert` | pkg/agent/resource_mutation_cache.go:126-130 | a fresh in-flight entry is stored under the key; no other key changes |
| `ReplayCache.MutationReplayCache.Begin` | pkg/agent/resource_mutation_cache.go:104-131 | a caller executes, waits or conflicts exactly as the swept map and the fingerprint decide, under any key |
| `ReplayCache.MutationReplayCache.Complete` | pkg/agent/resource_mutation_cache.go:134-154 | records the result, keeps the key only for an applied success, and touches no other entry |
| `ReplayCache.MutationReplayCache.Collect` | pkg/agent/resource_mutation_cache.go:115-120 | a woken waiter reads what its own entry recorded |
| `ReplayProtocol.StepKeeps` | pkg/agent/resource_mutation_cache.go:98-185 | every atomic step of any number of callers keeps the protocol's invariant |
| `ReplayProtocol.OwnEntry` | pkg/agent/resource_mutation_cache.go:130-136 | an executing caller's own entry is the one stored under its key |
| `ReplayGuarantees.AtMostOnceInEveryRun` | pkg/agent/resource_mutation_cache.go:98-155 | two executions under one key never overlap, and the later one starts at least ttl after an earlier one that may have written, unless that one's entry was evicted |
| `ReplayGuarantees.ExecutingEntryIsPinned` | pkg/agent/resource_mutation_cache.go:125-185 | while a caller executes, its entry is under its key and nobody else executes under that key, so the delete by key removes no one else's entry |
| `ReplayGuarantees.ReplayIsFaithful` | pkg/agent/resource_mutation_cache.go:107-155 | what a waiter is given is what an execution with the same key and fingerprint returned |
| `ReplayGuarantees.WaiterCanWake` | pkg/agent/resource_mutation_cache.go:107-120 | once the execution a waiter waits for has ended, the waiter can be woken and is told what that execution returned |
| `ReplayGuarantees.EntriesAreBounded` | pkg/agent/resource_mutation_cache.go:125-131 | the map never holds more than the larger of maxEntries and the peak of simultaneous executions |
| `ReplayGuarantees.ExecutesWhenReleased` | pkg/agent/resource_mutation_cache.go:98-155 | a caller that enters executes only if nobody holds its key; otherwise somebody does, and it waits if that one asked for the same and conflicts if not |
| `ReplayGuarantees.NothingEvictedBelowLimit` | pkg/agent/resource_mutation_cache.go:165-185 | up to maxEntries executions nothing is ever evicted |
| `MutationOutcome.SentExactly` | pkg/agent/kubernetes_resource.go:754-960 | a request is sent to the API Server exactly when its body is the object, new object or eviction its path names, and is otherwise answered 400 with its own reason |
| `MutationOutcome.ShownAnswer` | pkg/agent/kubernetes_resource.go:840-885 | the caller is shown the API Server's status, 504 for a timeout, 0 for a cancellation, 500 for the rest, and the object with 200 or 201 exactly if it fits |
| `MutationOutcome.AppliedIsExact` | pkg/agent/kubernetes_resource.go:747-931 | applied is set exactly when the request was sent, not as a dry run, and was not refused with a 4xx: canceled, timed out and unclassified calls may have written |
| `MutationOutcome.ReservesExactly` | pkg/agent/kubernetes_resource.go:754-931 | the key stays reserved exactly after such an outcome, unless the accepted object could not be encoded; refusals and dry runs release it |
| `MutationOutcome.UnreservedWrite` | pkg/agent/kubernetes_resource.go:754-931 | a write leaves its key unreserved exactly when the accepted object could not be encoded |
| `HelmOutcome.WrittenBy` | pkg/agent/kubernetes_helm.go:296-427 | for every stage and error an action can stop with, whether the cluster may have changed |
| `HelmOutcome.ShownOutcome` | pkg/agent/kubernetes_helm.go:224-427 | what each end of an action is answered with: the report exactly when there is one that encodes and fits, else the status and reason of its error, without a body |
| `HelmOutcome.HelmReservesExactly` | pkg/agent/kubernetes_helm.go:186-275 | the key stays reserved exactly after a real run that came past the choice of its action and did not stop with an error that looks harmless |
| `HelmOutcome.UnreservedHelmWrite` | pkg/agent/kubernetes_helm.go:186-427 | an action that may have written releases its key in exactly the listed stages and errors: a release gone at read-back, undo or purge, one that exists after CRDs, Namespace or pruning, a refusal after CRDs, or an API reason that is in the table |
| `HelmOutcome.EveryActionCanLose` | pkg/agent/kubernetes_helm.go:186-427 | a request has a run that may have written and releases its key iff its action is known and it is not a dry run |
| `HelmOutcome.WhichRequestsLoseByHelm` | pkg/agent/kubernetes_helm.go:186-427 | and one that ends in an error of Helm's own iff it is a rollback, an uninstall, an install with CRDs, Namespace or atomic, or an upgrade with pruning or atomic |
| `HelmOutcome.DryRunReleases` | pkg/agent/kubernetes_helm.go:217-275 | a dry run never writes and never keeps its key |
| `AtMostOneWrite.LostExactly` | pkg/agent/kubernetes_helm.go:224-275 | a write, of an object or by Helm, keeps its key exactly when it is not one of the lost ones |
| `AtMostOneWrite.AtMostOneWritePerWindow` | pkg/agent/kubernetes_resource.go:207-217 | after an execution that wrote and was not lost, every other one under its key had ended before it started or starts a full ttl later, unless evicted |
| `AtMostOneWrite.LostWritesAllowTwo` | pkg/agent/resource_mutation_cache.go:133-154 | and for every lost write there is a run in which it happens twice at one instant, so the exception is exact |
| `AtMostOneWrite.EncodingFailureAllowsTwoWrites` | pkg/agent/kubernetes_resource.go:1080-1092 | if an accepted object can fail to encode, a run in which that lets one key write twice at one instant |
| `AtMostOneWrite.RollbackReadBackAllowsTwoWrites` | pkg/agent/kubernetes_helm.go:344-385 | such a run for a rollback whose release is removed before it is read back |
| `AtMostOneWrite.RefusedChartAllowsTwoWrites` | pkg/agent/kubernetes_helm.go:627-645 | such a run for a chart refused by the guard after its CRDs were installed |
| `Identity.ParsesExactly` | pkg/agent/identity.go:367-429 | a Secret reads as blank, pending or complete exactly when its fields spell that and are valid |
| `Identity.UnreadableExactly` | pkg/agent/identity.go:367-429 | each reason a Secret is unreadable for, by its fields |
| `Identity.DecidesExactly` | pkg/agent/identity.go:78-365 | each method fails exactly on a Secret that does not hold what it needs, updates exactly one that does not yet hold what is asked for, and otherwise answers what is stored |
| `Identity.ProposalChanges` | pkg/agent/identity.go:78-365 | each method proposes exactly the change it promises: from the phase it names, only the fields it names, into a readable phase |
| `Identity.EnrollmentChanges` | pkg/agent/identity.go:139-151 | a candidate turns an empty Secret into a pending one that holds it |
| `Identity.CompletionChanges` | pkg/agent/identity.go:200-211 | completing clears the enrollment fields and stores the identity, keeping the key |
| `Identity.RenewalChanges` | pkg/agent/identity.go:339-347 | renewing replaces certificate and expiry and clears the CSR in one write, keeping cluster, agent and key |
| `IdentityStore.Secret.Update` | pkg/agent/identity.go:149-155 | an update lands on the version it was computed from or is refused, and may be stored without the caller hearing of it |
| `IdentityStore.Store.LoadOrCreatePending` | pkg/agent/identity.go:78-162 | whatever others commit meanwhile, it returns what some version of the Secret held, and fails only for a failed call, lost races or an unreadable Secret |
| `IdentityStore.Store.Complete` | pkg/agent/identity.go:164-226 | as above, for completing an enrollment on exactly the pending state it started from |
| `IdentityStore.Store.LoadOrCreateRenewalCsr` | pkg/agent/identity.go:228-285 | as above, returning a CSR stored for exactly this identity |
| `IdentityStore.Store.CompleteRenewal` | pkg/agent/identity.go:287-365 | as above, replacing exactly the previous identity with exactly that CSR, whatever the new expiry |
| `IdentityStore.AcknowledgedSucceeds` | pkg/agent/identity.go:152-156 | an acknowledged update is never answered with a failure |
| `IdentityProtocol.StepKeeps` | pkg/agent/identity.go:78-365 | every read, commit, refusal and lost response of any number of Agents keeps the invariant |
| `IdentityGuarantees.SecretOnlyMovesForward` | pkg/agent/identity.go:367-429 | the Secret is never partial, conflicting or without its key; it moves empty, pending, complete and keeps its private key |
| `IdentityGuarantees.HistoryIsSequential` | pkg/agent/identity.go:78-365 | every version is one attempt run alone on the version before: the interleaving leaves no trace |
| `IdentityGuarantees.SequentialHistoryHappens` | pkg/agent/identity.go:78-365 | and every sequential execution of attempts that can be begun is the history of some run |
| `IdentityGuarantees.StaleIsRefusedExactly` | pkg/agent/identity.go:78-365 | an update is stored exactly on the version it was computed from, and refused on any later one |
| `IdentityGuarantees.AnswersStand` | pkg/agent/identity.go:78-365 | no later step changes what a call has answered or a version that was stored |
| `IdentityGuarantees.LoadedKeysAgree` | pkg/agent/identity.go:78-162 | all successful LoadOrCreatePending calls return the same private key |
| `IdentityGuarantees.RenewalCsrIsUnique` | pkg/agent/identity.go:228-285 | all calls preparing the renewal of one identity get one CSR, unless a renewal that did not extend the expiry was committed between the versions they saw |
| `IdentityGuarantees.RenewedBackGetsNewCsr` | pkg/agent/identity.go:228-365 | that exception is real: an identity renewed away and back is given a second CSR in some run |
| `IdentityGuarantees.LoopRenewalsExtend` | pkg/agent/connection.go:475-496 | the renewals whose expiries the connection loop can bring about are exactly those that extend |
| `IdentityGuarantees.RenewalNeverReturns` | pkg/agent/identity.go:287-365 | between two versions with the same identity there was no renewal, or one that did not extend the expiry |
| `IdentityGuarantees.LostResponseIsReplayed` | pkg/agent/identity.go:78-365 | repeated later, with a later clock, over any later version, a method answers what its lost response would have said while no commit has superseded it, writing nothing; once superseded never again, while renewals extend |
| `Aggregates.SectionTotals.Apply` | pkg/agent/resourcecache/contribution.go:88-113 | the in-place update equals the function on values, field by field |
| `Aggregates.AddingSaturates` | pkg/agent/resourcecache/contribution.go:157-168 | adding stops at 2^63-1; a negative value saturates at once |
| `Aggregates.RemovingFloors` | pkg/agent/resourcecache/contribution.go:157-162 | removing stops at zero |
| `Aggregates.FoldIn` | pkg/agent/resourcecache/store.go:98-107 | an object's old contribution is subtracted before its new one is added |
| `Aggregates.Rebuild` | pkg/agent/resourcecache/store.go:147-160 | a listing yields the totals of its objects, duplicates counted once |
| `Aggregates.Store.Upsert` | pkg/agent/resourcecache/store.go:92-110 | the store's contents and totals are those of its history with the object put |
| `Aggregates.Store.Delete` | pkg/agent/resourcecache/store.go:112-133 | removing a present object subtracts it; an absent one changes nothing |
| `Aggregates.Store.Replace` | pkg/agent/resourcecache/store.go:141-169 | a listing replaces contents and totals at once, and clears the failure |
| `Aggregates.Store.RecordFailure` | pkg/agent/resourcecache/store.go:221-225 | a failure leaves contents and totals as they are |
| `AggregateGuarantees.CountsAreExact` | pkg/agent/resourcecache/contribution.go:88-140 | after any history, every count and bucket is what a walk over the objects finds, and no bucket is empty |
| `AggregateGuarantees.StatusesSumToTotal` | pkg/agent/resourcecache/contribution.go:132-140 | the status buckets sum to the total |
| `AggregateGuarantees.TotalsAreBounded` | pkg/agent/resourcecache/contribution.go:157-168 | each quantity stays between zero and the smaller of the true sum and 2^63-1 |
| `AggregateGuarantees.ExactWhileInRange` | pkg/agent/resourcecache/contribution.go:157-168 | a quantity has been exact at every moment if and only if the true sum has never exceeded 2^63-1 |
| `AggregateGuarantees.OverflowLeavesDrift` | pkg/agent/resourcecache/contribution.go:157-168 | after an overflow a total stays wrong although the sum is back in range, until the next listing |
| `Overview.Cache.OverviewSnapshot` | pkg/agent/resourcecache/overview.go:24-95 | the snapshot is what the stores' reports assemble to, with sections and workloads sorted by name |
| `Overview.Cache.SnapshotHealth` | pkg/agent/resourcecache/overview.go:61-81 | the published snapshot is synced iff every sectioned store is there and listed, and stale iff one is not or is failing |
| `Overview.Cache.SnapshotLastSuccess` | pkg/agent/resourcecache/overview.go:82-84 | and its LastSuccessAt is the latest among those stores |
| `Overview.Cache.SnapshotStates` | pkg/agent/resourcecache/overview.go:50-87 | every sectioned store has its state published |
| `Overview.HealthIsJudgedOverAllSections` | pkg/agent/resourcecache/overview.go:61-81 | the cache is synced iff every sectioned resource is present and synced, stale iff one is not or carries a code |
| `Overview.LastSuccessIsLatest` | pkg/agent/resourcecache/overview.go:82-84 | LastSuccessAt is the maximum over the synced sections |
| `Overview.EverySectionIsListed` | pkg/agent/resourcecache/overview.go:50-87 | one section state for each sectioned resource, synced if it is there and listed, with its code, counts and whether it is truncated |
| `Overview.NothingElseIsShown` | pkg/agent/resourcecache/overview.go:97-153 | a part of the overview is empty unless a present, listed resource feeds it, and each workload shown is such a resource's |
| `Overview.WorkloadsAreShownOnce` | pkg/agent/resourcecache/overview.go:146-152 | no workload is shown twice |
| `Overview.SectionlessIsInvisible` | pkg/agent/resourcecache/overview.go:43-48 | a resource without a section never affects the overview |
| `Overview.VisibleSectionsAreShown` | pkg/agent/resourcecache/overview.go:97-153 | every synced section is shown with its own totals, wherever it stands in the order |
| `Overview.OverviewMatchesWalk` | pkg/agent/resourcecache/overview.go:24-153 | each synced section's numbers, in the place its name stands for, are those of a walk over its objects, as long as no sum overflowed |
| `Overview.PublishedMatchesWalk` | pkg/agent/resourcecache/overview.go:24-153 | the same for the published snapshot, each store read at a moment of its own |
| `Overview.Cache.SnapshotMatchesWalk` | pkg/agent/resourcecache/overview.go:24-153 | the same for the cache's own stores, all read at one moment |
| `Heartbeat.StopTimer` | pkg/agent/control_stream.go:106-113 | no firing survives a stop, however the timer stood |
| `Heartbeat.ResetTimer` | pkg/agent/control_stream.go:115-118 | after a reset the timer is armed for a full duration and nothing is buffered |
| `Heartbeat.Connection.OnAcknowledgement` | pkg/agent/connection.go:379-392 | an acknowledgement is accepted iff it advances and was sent; the timer stops or starts afresh |
| `Heartbeat.Connection.HeartbeatWritten` | pkg/agent/connection.go:431-433 | the timer is armed iff the heartbeat just written is the only one outstanding |
| `ControlLoop.ReaderStep` | pkg/agent/control_stream.go:57-104 | in every step the acknowledgements received are those on the stream up to the frame in hand |
| `ControlLoop.GoodStep` | pkg/agent/connection.go:337-435 | every step of loop, reader, timer and clock keeps the invariants |
| `ControlLoop.TimeoutExactlyInSilence` | pkg/agent/connection.go:379-394 | the loop can report a timeout exactly when a written heartbeat is outstanding and nothing was acknowledged for a full timeout |
| `ControlLoop.TimerFollowsHeartbeats` | pkg/agent/connection.go:340-435 | acknowledged never exceeds sent, and the timer runs or has fired iff it is less |
| `ControlLoop.AcksArriveInOrder` | pkg/agent/control_stream.go:57-92 | the acknowledgements consumed are an in-order prefix of the stream's; the accepted ones rise strictly and had been sent |
| `ControlLoop.EndingsHaveTheirCause` | pkg/agent/control_stream.go:60-100 | a connection ends for what was read last or received last, and nothing is read after a GoAway or a faulty frame |
| `ControlLoop.EnabledExactly` | pkg/agent/connection.go:345-440 | when the loop, the reader and the timer can take each of their steps |
| `ControlLoop.LoopGoes` | pkg/agent/connection.go:325-440 | where each step leads the loop: every frame but an acknowledgement that is due ends it, each for its own reason |
| `ControlLoop.RenewalComesAlone` | pkg/agent/connection.go:321-336 | a connection that begins with a renewal sends no heartbeat, watches no timer and ends with the answer or for want of one |
| `Reconnect.ConnectionLoop.Turn` | pkg/agent/connection.go:54-115 | one turn of the outer loop: what it keeps, what it resets and how long it waits |
| `Reconnect.RunStaysAhead` | pkg/agent/connection.go:298-336 | once renewed, the identity is outside the renewal window when it was checked, over whole runs |
| `Reconnect.RenewalExtends` | pkg/agent/connection.go:475-496 | every renewal of a run expires strictly after the identity it replaces, and no later state expires before it |
| `Reconnect.RenewalsMoveTime` | pkg/agent/connection.go:489-496 | a later renewal starts strictly after an earlier one was checked, and extends the expiry strictly |
| `Reconnect.IntervalIs` | pkg/agent/connection.go:96-114 | after k failures since the last renewal the interval is min(initial * 2^k, max) |
| `Reconnect.DelayIsBounded` | pkg/agent/agent.go:352-360 | the delay is between the interval and a fifth more, and never above the maximum |
| `Relabel.HostPortIsTheOnlyMatch` | pkg/agent/kubernetes_metrics_discovery.go:210-213 | the address rule's match, if any, is unique and is the one the two splits find |
| `Relabel.PortPatternIsRange` | pkg/agent/kubernetes_metrics_discovery.go:32-33 | the port pattern accepts exactly 1 to 65535 without leading zeros |
| `Relabel.RunAppend` | pkg/agent/kubernetes_metrics_discovery.go:102-222 | running two rule lists in turn is running their concatenation |
| `ScrapeJobs.EffectiveScrapeAnnotations` | pkg/agent/kubernetes_metrics_discovery.go:456-469 | the last slice that carries an annotation wins over the Service, trimmed |
| `ScrapeJobs.TrimExactly` | pkg/agent/kubernetes_metrics_discovery.go:458-472 | annotation values lose all white space at both ends and nothing else |
| `ScrapeJobs.ReportedTargetsAre` | pkg/agent/kubernetes_metrics_discovery.go:482-497 | the reported addresses are exactly the hosts of ready endpoints, bracketed if they hold a colon, with the override or the decimal of a numbered port |
| `ScrapeJobs.UniqueTargets` | pkg/agent/kubernetes_metrics_discovery.go:482-497 | collects exactly those addresses |
| `ScrapeJobs.EndpointSliceTargets` | pkg/agent/kubernetes_metrics_discovery.go:499-509 | all of them in order, each once, cut off at 200, and whether there are more |
| `ScrapeGuarantees.OverridesResolve` | pkg/agent/kubernetes_metrics_discovery.go:102-143 | the override rules leave each annotation's deciding value and nothing else changed |
| `ScrapeGuarantees.ProgramDecides` | pkg/agent/kubernetes_metrics_discovery.go:74-224 | a program keeps a target iff it is ready, the report's own tests accept its annotations, and the program is the one of its mode; and the labels it leaves with |
| `ScrapeAgreement.EffectiveIsLastWritten` | pkg/agent/kubernetes_metrics_discovery.go:456-469 | an effective annotation is the trimmed value last written |
| `ScrapeAgreement.DiffersExactly` | pkg/agent/kubernetes_metrics_discovery.go:447-469 | the two readings of an annotation differ exactly when the deciding value has space around it, another text was written last, or nothing decides although something was written |
| `ScrapeAgreement.ViewsAgreeExactly` | pkg/agent/kubernetes_metrics_discovery.go:447-469 | relabelling and report resolve every annotation of a target alike iff none of them differs as written |
| `ScrapeAgreement.ScrapedIffReportedExactly` | pkg/agent/kubernetes_metrics_discovery.go:375-412 | a target is scraped iff ready and reported, except exactly where it is ready and one of the two readings of its annotations is faultless and the other is not |
| `ScrapeAgreement.DisagreementHasACause` | pkg/agent/kubernetes_metrics_discovery.go:447-469 | and then an annotation at fault on one side only, or the scheme it depends on, differs as written |
| `ScrapeAgreement.OneAnnotationDecides` | pkg/agent/kubernetes_metrics_discovery.go:375-412 | with all other annotations in order, that one's two readings decide alone |
| `ScrapeAgreement.PlainSourcesAgree` | pkg/agent/kubernetes_metrics_discovery.go:447-469 | annotations that are trimmed, on one line, not empty on a slice and equal across slices agree |
| `ScrapeAgreement.ScrapedExactlyWhenReported` | pkg/agent/kubernetes_metrics_discovery.go:375-440 | a target is scraped by exactly the program of the reported mode, if ready and reported, and by no other |
| `ScrapeAgreement.ScrapedAsReported` | pkg/agent/kubernetes_metrics_discovery.go:394-440 | scheme, path, address, job, authentication and TLS mode are as reported; both special modes imply https |
| `ScrapeAgreement.ScrapedAsReportedExactly` | pkg/agent/kubernetes_metrics_discovery.go:394-440 | a scraped and reported target's labels are the report's iff the two readings give one scheme, path and port with the defaults filled in, and its mode the report's iff they agree on credentials and TLS |
| `ScrapeAgreement.ScrapedAddressIsReported` | pkg/agent/kubernetes_metrics_discovery.go:478-502 | every ready target's final address is in the report |
| `ScrapeAgreement.ReportedAddressIsScrapedExactly` | pkg/agent/kubernetes_metrics_discovery.go:478-502 | a reported address is a ready target's iff no port overrides or a slice with a ready endpoint behind it has a numbered port |
| `ScrapeAgreement.PortlessSliceDiverges` | pkg/agent/kubernetes_metrics_discovery.go:485-489 | a port annotation over a slice without numbered ports: reported, and no target has the address |
| `ScrapeAgreement.EmptyOverrideDiverges` | pkg/agent/kubernetes_metrics_discovery.go:456-469 | an empty annotation on a slice: scraped and not reported |
| `ScrapeAgreement.UntrimmedDiverges` | pkg/agent/kubernetes_metrics_discovery.go:456-469 | an untrimmed Service annotation: reported and not scraped |
| `KubeStateFilter.FilterMeaning` | pkg/agent/kubernetes_metrics_collector.go:1341-1361 | an unmarked series is dropped iff its family is filtered and its reason is not listed, or it is a Pod that is not ready; any other keeps exactly its labels |
| `KubeStateFilter.ArrivingMarked` | pkg/agent/kubernetes_metrics_collector.go:1341-1361 | a series that arrives marked escapes the family filter and loses the mark |
| `TerminalPolicy.NamespaceRoleBindings` | pkg/agent/kubernetes_terminal_session.go:341-364 | one binding for each Namespace that is not terminating, to the role of its class |
| `TerminalPolicy.NamespacesByClass` | pkg/agent/kubernetes_terminal_session.go:371-385 | the three name lists partition the Namespaces by lifecycle class |
| `TerminalGuarantees.NamespaceRulesGrant` | pkg/agent/kubernetes_terminal_session.go:459-531 | the role bound in a Namespace grants exactly its table |
| `TerminalGuarantees.ClusterRulesGrant` | pkg/agent/kubernetes_terminal_session.go:157-196 | the session's ClusterRole grants exactly its table |
| `TerminalGuarantees.RbacMutationGrants` | pkg/agent/kubernetes_terminal_session.go:410-440 | update and delete reach exactly the ClusterRoles and bindings that are not ZKE's own |
| `TerminalGuarantees.LifecycleGrants` | pkg/agent/kubernetes_terminal_session.go:366-408 | Namespace writes follow the class permission, and create needs all three |
| `TerminalGuarantees.ProjectionIsExact` | pkg/agent/kubernetes_terminal_session.go:157-196 | the union of all bindings allows a request, in any Namespace or none, iff the closed-form table does |
| `TerminalGuarantees.WorkloadWrites` | pkg/agent/kubernetes_terminal_session.go:467-494 | workload kinds are writable only where bound, with the ordinary or that class's permission |
| `TerminalGuarantees.SecretAccess` | pkg/agent/kubernetes_terminal_session.go:508-517 | Secret access needs its permission and the class's, and spans the Cluster only for reads with both protected classes |
| `TerminalGuarantees.NamespaceLifecycle` | pkg/agent/kubernetes_terminal_session.go:386-408 | who may create, change or delete a Namespace object |
| `TerminalGuarantees.WideGrantsOnNamespacedKindsAreReads` | pkg/agent/kubernetes_terminal_session.go:582-645 | everything granted Cluster-wide on namespaced kinds is read-only |
| `TerminalGuarantees.ProjectionIsMonotone` | pkg/agent/kubernetes_terminal_session.go:157-196 | more permissions never take anything away |
| `Forwarder.MetricsIngestForwarder.Detach` | pkg/agent/metrics_ingest.go:79-88 | nothing is published, and the old session is handed out to be aborted |
| `Forwarder.MetricsIngestForwarder.Acquire` | pkg/agent/metrics_ingest.go:126-158 | the published session is reused, or a fresh one of the attached connection is published |
| `Forwarder.MetricsIngestForwarder.Discard` | pkg/agent/metrics_ingest.go:160-170 | only the caller's own session is cleared |
| `ForwarderProtocol.PublishedSessionIsCurrent` | pkg/agent/metrics_ingest.go:71-170 | in every run a published session belongs to the attached connection |
| `ForwarderProtocol.ConnectionIsLatest` | pkg/agent/metrics_ingest.go:71-88 | requests are forwarded on the connection attached last, and only until it is detached |
| `ForwarderProtocol.HeldPayloadsAreBounded` | pkg/agent/metrics_ingest.go:225-258 | payloads held or being read are the slots taken, at most max(1, MaxConcurrentBatches), and none once every request has ended |
| `ForwarderProtocol.AdmittedExactly` | pkg/agent/metrics_ingest.go:225-232 | a request is let in exactly while fewer than the configured number, at least one, hold a slot, and turned away otherwise |
| `ForwarderProtocol.RetriesUseAnotherSession` | pkg/agent/metrics_ingest.go:90-124 | a payload within the limit is sent at most twice, never twice on one session; an answer 400, 413 or 204 means unreadable, too large or empty, a failure two attempts or a caller gone |
| `ForwarderProtocol.OnlyItsUserDiscards` | pkg/agent/metrics_ingest.go:160-170 | a published session is taken away only with its connection or by a request it broke under |
| `ForwarderProtocol.NobodyIsStuck` | pkg/agent/metrics_ingest.go:90-124 | every request has its next step, and finds a session exactly while there is a connection |
| `IngestSession.StepKeeps` | pkg/shared/agentprotocol/metrics.go:102-157 | every step of the calls of Send, the Server's loop, an abort or a broken exchange keeps the session's invariant |
| `IngestSession.VerdictIsForThePayload` | pkg/shared/agentprotocol/metrics.go:260-318 | the verdict a Send returns is the Server's on the whole payload of that very call, and no two calls share one |
| `IngestSession.PayloadsArriveWholeAndInOrder` | pkg/shared/agentprotocol/metrics.go:102-157 | what the Server serves is the payloads whole, in the order their calls took the session, however often writing broke off |
| `IngestSession.ChecksNeverFail` | pkg/shared/agentprotocol/metrics.go:382-419 | no number, size or acknowledgement check of either side can fail between these two ends |
| `IngestSession.HeardExactly` | pkg/shared/agentprotocol/metrics.go:297-318 | whatever is written on the Stream, a call accepts only an acknowledgement that names its batch and makes sense, and closes the session on any other |
| `IngestSession.TakenExactly` | pkg/shared/agentprotocol/metrics.go:102-130 | and the Server takes a batch only under the next number and within its limit |
| `IngestSession.AnyPayloadCanBeAnswered` | pkg/shared/agentprotocol/metrics.go:260-318 | every payload within both limits can be sent, and every verdict returned for it |
| `CacheLifecycle.Cache.Start` | pkg/agent/resourcecache/cache.go:168-177 | exactly one Start begins, and none after a stop |
| `CacheLifecycle.Cache.StopLocked` | pkg/agent/resourcecache/cache.go:437-442 | under the mutex a stop is remembered and the cancel function handed to one caller at most |
| `CacheLifecycle.Cache.CallCancel` | pkg/agent/resourcecache/cache.go:443-446 | and that caller cancels the context afterwards, outside it |
| `CacheLifecycle.HolderCanCancel` | pkg/agent/resourcecache/cache.go:437-446 | a started and stopped cache is cancelled, or exactly one holder has its call to cancel ahead, which nothing else can take from it |
| `CacheLifecycle.HolderKept` | pkg/agent/resourcecache/cache.go:437-446 | in every run the cancel function has exactly one place: still stored, held, or called |
| `CacheLifecycle.CountStep` | pkg/agent/resourcecache/cache.go:159-219 | the wait counter counts the live goroutines, and the occupied slots the LISTs in flight |
| `CacheLifecycle.ListsAreBounded` | pkg/agent/resourcecache/cache.go:371-390 | LISTs in flight never exceed SyncConcurrency, two by default, however they end, and while there are fewer whoever asks can have one |
| `CacheLifecycle.CloseIsFinalExactly` | pkg/agent/resourcecache/cache.go:164-183 | when Close returns nothing runs, and something can run later iff a Start stands between its lock and its goroutine |
| `CacheLifecycle.CloseAfterStartIsFinal` | pkg/agent/resourcecache/cache.go:429-447 | a Close called after Start returned is final |
| `CacheLifecycle.CancelledWorkIsFinite` | pkg/agent/resourcecache/cache.go:185-219 | once the cancel function has been called, all goroutines together have only so many steps left, in any order |
| `CacheLifecycle.CancelledTaskCanMove` | pkg/agent/resourcecache/cache.go:308-351 | each goroutine that is still alive can take a step |
| `CacheLifecycle.CloseComesToAnEnd` | pkg/agent/resourcecache/cache.go:429-446 | a Close called after Start returned: until cancel has been called its holder can call it; from then on bounded steps in all, and whenever no goroutine can take one, it can return |
| `CacheLifecycle.WaitingIsNotBounded` | pkg/agent/resourcecache/cache.go:185-219 | before that there is no bound: in some run a Close waits through any number of LISTs while another stopper has yet to call cancel |
| `Collector.ApplyCollectorObject` | pkg/agent/kubernetes_metrics_collector.go:917-941 | only its own slot changes, never someone else's object; it ends as it was, as wanted, or absent if it is recreated |
| `Collector.EnsureIngestSecret` | pkg/agent/kubernetes_metrics_collector.go:862-912 | a usable credential is left alone; success means there is one |
| `CollectorInstall.ApplyKubeStateMetrics` | pkg/agent/kubernetes_metrics_targets.go:237-492 | all five objects in place on success, nothing else touched |
| `CollectorInstall.ApplyNodeExporter` | pkg/agent/kubernetes_metrics_targets.go:494-560 | reports whether both objects are in place; nothing else touched |
| `CollectorInstall.InstallMetricsCollector` | pkg/agent/kubernetes_metrics_collector.go:299-574 | success means every object is in place and whatever is scraped was installed; failure only for a failed call or an unrenderable request, refusal only for someone else's object |
| `CollectorInstall.UninstallMetricsCollector` | pkg/agent/kubernetes_metrics_collector.go:586-853 | removes in order, leaves the rest as it was, succeeds only with all thirteen gone, refuses only for someone else's object |
| `CollectorInstall.UninstallUndoesInstall` | pkg/agent/kubernetes_metrics_collector.go:299-853 | after any prefix of an install, a successful uninstall leaves none of the thirteen and everything else as before |
| `CollectorInstall.NothingForeignAppears` | pkg/agent/kubernetes_metrics_collector.go:917-941 | an install neither creates nor removes reasons to refuse |
| `CollectorInstall.UninstallRespects` | pkg/agent/kubernetes_metrics_collector.go:827-846 | however far it got, an uninstall changes nothing that is not its own |
| `CollectorInstall.ForeignSurvives` | pkg/agent/kubernetes_metrics_collector.go:827-846 | someone else's object survives any sequence of installs and uninstalls unchanged |
| `CollectorInstall.EarlierGoFirst` | pkg/agent/kubernetes_metrics_collector.go:592-826 | if an object was removed, so were all before it in the order |
| `CollectorInstall.WorkloadsGoFirst` | pkg/agent/kubernetes_metrics_collector.go:592-595 | an account, role, binding or configuration is gone only if the workload using it is |
| `CollectorInstall.CredentialGoesLast` | pkg/agent/kubernetes_metrics_collector.go:592-600 | once the credential is gone, so is everything else |

## Left out

- HelmOutcome.UnreservedHelmWrite: Helm's engine is not part of this model; the order of its stages, which of them write, and where a missing or existing release is reported are taken as stated in the module. Reading values and charts happens before the replay cache and cannot write.
- MutationOutcome.UnreservedWrite: whether an object that was decoded from JSON can ever fail to encode is left open.
- SHA-256 fingerprints are taken as values that are equal exactly for equal requests; cloning of stored results and of count maps is not visible in a model on values.
- ReplayCache.EvictOldest: what eviction leaves and chooses is promised for tables without the empty key, which makeRoomLocked takes for "none found"; ReplayProtocol leaves calls without a key out, as both handlers do.
- Identity.ProposalChanges: an absent Secret is taken as one without data, so that creating and updating write the same fields and both lose races alike; deletion of the Secret by others is not part of this model.
- IdentityGuarantees.RenewalNeverReturns: like RenewalCsrIsUnique and the second half of LostResponseIsReplayed it excepts histories with a renewal that does not extend the expiry; the store accepts one (RenewedBackGetsNewCsr), the connection loop never makes one (LoopRenewalsExtend).
- The checks on keys, CSRs and certificates are uninterpreted predicates, and the text form of an expiry is an abstract round trip; identity_material.go is not part of this model.
- AggregateGuarantees.CountsAreExact: object counts are unbounded integers, since a cache cannot hold 2^63 objects; the quantities are 64-bit and saturate.
- Overview.Cache.SnapshotMatchesWalk: all stores are read at one moment, while the source locks one after the other; Overview.PublishedMatchesWalk speaks of reports taken at moments of their own.
- IngestSession.StepKeeps: a batch's descriptor is one item of the Stream and batch numbers do not wrap around; the handshake and what the Server's handler does with a payload are not modelled.
- The overview's times are natural numbers; resource versions and restart counts are not shown.
- The per-kind projections that compute a contribution from an object, the sequence of resource versions and the watch itself are not modelled.
- ControlLoop.AcksArriveInOrder: runs of 2^64 heartbeats and more, where the sequence number would wrap around, are excluded.
- Reconnect.DelayIsBounded: jitter is a whole number of millionths instead of a floating-point factor.
- The TLS and QUIC handshakes, capability negotiation, the business Streams and the frame encoding are not modelled; a connection ends for any of their reasons as one step.
- The contents of a renewal request and the checks on its response, other than on the expiry, are in the identity modules.
- Regular expressions are the fixed patterns that occur, and the rendered YAML is the rule list it denotes. Annotation names are taken as distinct after the discovery client has sanitised them.
- Discovery is taken to deliver one target for each address and numbered port of a slice, and none for a port without a number. The grouping of slices by Service and the cut at 500 jobs are not modelled.
- ScrapeAgreement.ScrapedExactlyWhenReported: speaks of slices that name their Service; a slice without that label is not reported at all, while ScrapeGuarantees.ProgramDecides covers its targets like any other.
- TerminalGuarantees.ProjectionIsExact: the Pod, its quota, the ServiceAccount and the janitor that removes expired sessions are not modelled; RBAC is additive and matches names, groups, resources and verbs.
- ForwarderProtocol.RetriesUseAnotherSession: Send answers for the payload it was given, which IngestSession.VerdictIsForThePayload proves for each session; token checks and HTTP headers are not modelled.
- CacheLifecycle.CloseAfterStartIsFinal: goroutines are a state machine on values; the relist pauses of follow, discovery of absent resources and the reflector are not modelled.
- CollectorInstall.InstallMetricsCollector: each check and the write it guards are one step, so that someone else replacing an object between the two is not covered; Pod templates, rules and the final status read are not modelled.
- Reads, watches, Pod exec, logs, port forwarding, resource discovery and its catalogue, configuration loading, registration over HTTP, and the whole Server and Console would only add easy members.
