# Verification of the xsoc client's state machines

xsoc is a host telemetry client. It pairs with a server in the browser, keeps the resulting credential in a
small directory of files, collects reports, cuts them to the server's wire contract, queues them durably and
delivers them. This project models the parts of it where a mistake would be silent, and proves what they promise
for every input, every interleaving and every crash.

`dafny verify dfyconfig.toml` checks everything.

## What is modelled

**Pairing and the credential journal** (`Pairing*.dfy`, `StateTransaction.dfy`). Five files (journal, token,
identity, binding, authorization) are each replaced atomically, one at a time, under a cross-process lock that is
released around every network call. `PairingPlans` states what each locked transaction reads, writes and returns;
`StateStore.StateTransaction` performs the transactions write by write and is proved against the plans for every
number of writes that succeed before a stop, and against `PairingOutcomes`, which says of each transaction what it
returns and leaves on disk without the plans. `PairingProtocol` is the transition system: any number of processes,
one file write per step, a stop possible between any two, every stale copy and every late server reply usable at any
later time, and a server that may answer anything to a request that was sent. The other pairing modules prove what
holds in all its runs.

**The report contract** (`Report*.dfy`, `ClientReport.dfy`, `Sorting.dfy`). Normalising, ordering, deduplicating,
prioritising by summary metric, truncating, marking and fitting a report to an exact byte size.
`ReportContract.Bounded` says what the result is; the class `ClientReports.ClientReport` changes the report in
place, step by step, and is proved to compute it. Around that: exactly when the change flag is down, exactly when
bounding again changes nothing, that enumeration order is irrelevant, the whole wire contract for every input, and
which summary maxima survive. `ReportValues`, `InventoryValues` and `ReportOutcome` say of the raw report alone, without
the functions that compute it, what becomes of every number, text and element.

**The durable queue and delivery** (`ReportQueue.dfy`). Records are readable, quarantined or acknowledged over every
run of enqueueing, reading and delivering.

**Smaller cores.** The join of NVML and Windows adapter readings (`NvidiaIdentity.dfy`, `GpuMerge.dfy`), the
OpenTelemetry encoder as a group-by (`Otlp.dfy`) with the points it exports (`OtlpReport.dfy`), engine utilisation (`WindowsGpu.dfy`) and the Windows service
host's threads (`ServiceHost.dfy`).

## Assumptions

- A drawn generation UUID was never used in this directory before, the state lock is exclusive, and replacing one
  file is atomic. Runs start from an empty directory or from any state that satisfies the protocol invariant.
- The server answers only requests that were sent; what it answers is arbitrary. Parsed replies are inputs.
- Clocks, drawn secrets, configuration and failures are parameters.
- Serialisation is an abstract function with a parser that reads its output back, injective per list element. The
  client serialises only normalised reports, whose numbers are finite, so nothing is lost by asking for injectivity
  everywhere. The parser may accept other texts as well. A document is a sequence of symbols; its length is the size
  the byte limit speaks of. `ReportWitness` builds such a serialiser, so the theorems about all of them are about some.
- The limits of the shared protocol crate are arbitrary positive constants; networks, disks and GPUs may keep at
  least two entries, and the truncation marker obeys the text limits.
- Numbers are reals with NaN and infinities: no rounding, and one zero.

## Findings

- *Bounding is not always a fixed point.* A capability whose name only becomes `client.report.truncated` by
  normalisation (for example with a trailing line feed) and whose source is `xsoc` is not recognised as a marker,
  so a second entry with the same name and source is added after deduplication. The queued report is then not
  canonical and is quarantined when it is read. The doc comment at `src/report_contract.rs:57-58` promises
  idempotence without exception; `ReportFixedPoint.FixedPoint` gives the exact condition, and
  `ReportFixedPoint.FixedPointRaw` one that a caller can check on the report before bounding it.
- *A confirmed pairing that fails validation cannot be left.* If the server confirms a request with a nil instance
  id, the journal is already Activating when the commit is refused. `PairingRecovery.InvalidCommitIsReached` gives
  the run, from an empty directory. Every later transaction either repeats the refused commit or waits for it:
  `PairingRecovery.InvalidCommitIsFinal`. The protocol crate is not part of this model; if it refused such a reply
  itself, the client would never get there.
- *A failed status call can resurrect RUNNING.* If reporting STOP_PENDING fails while the service is running, the
  stored state is still RUNNING and the next interrogation repeats it. `ServiceHost.RunningReturnsExactly` shows for
  every run that RUNNING can come back after a handled stop if and only if that call fails in that state.

## Model

| member | source | states |
|---|---|---|
| PairingProtocol.GenerationLifecycle | src/pairing/state_io.rs:48-126 | in every journal history that the protocol allows, a generation moves only forward, occupies one contiguous stretch, never comes back, and never changes its secrets, endpoints, request or instance |
| PairingProtocol.SamePhaseSameEntry | src/pairing/state_io.rs:99-126 | two documents of one generation in the same phase are the same entry: what the compare-and-swap checks identifies the document |
| PairingProtocol.PlanIsSafe | src/pairing/create.rs:78-194 | whatever stale copy or reply a transaction works from, every prefix of the writes it makes keeps the credential files and the journal consistent |
| PairingProtocol.BehaviorKeepsInv | src/pairing/commit_flow.rs:126-185 | in every reachable state, authorization without an Activating journal means that token, identity and binding belong to one generation, and everything handed out or remembered is accounted for |
| PairingSafety.RunLifecycle | src/pairing/state_io.rs:48-126 | the same of the journal history of every run |
| PairingSafety.InstalledTokenWasCreated | src/pairing/create.rs:148-194 | in every reachable state with an authorization and no commit in progress, the stored token is the bearer of the one Creating entry of the binding's generation, and identity and endpoint agree |
| PairingSafety.SnapshotsBelongToOneGeneration | src/pairing/local.rs:122-251 | every reporter snapshot ever handed out has token, instance, revision and endpoint of one generation, and the token is the secret whose hash was sent when that generation was created |
| PairingSafety.RevocationIsExact | src/pairing/credentials.rs:97-120 | authorization is lost only through an invalidation naming the revision on disk, never during a commit, and no other file changes |
| PairingSafety.CompletedAsPromised | src/pairing/state_io.rs:48-97 | in every interleaving, a transaction that completes leaves exactly what its request promises of the disk it found, and hands out exactly the snapshots and journal copies promised; the promises are stated without the plans |
| PairingSafety.CompletedInvalidationRevokes | src/pairing/credentials.rs:97-120 | in every run, an invalidation of the revision on disk that completes takes the authorization away and changes no other file |
| PairingSafety.AuthorizationNotRegained | src/pairing/credentials.rs:17-35 | while one journal entry other than Activating stays, lost authorization does not come back |
| PairingSafety.ActiveTwiceMeansThroughout | src/pairing/local.rs:20-72 | an Active binding seen at two instants was on disk at every instant between: there is no ABA |
| PairingSafety.PendingOnlyEndedByServer | src/pairing/create.rs:13-67 | with fixed endpoints and no replacement, a Pending request gives way only to what the server said about exactly that request, and a Creating one only to its own Pending |
| PairingSafety.RunKeepsRequests | src/pairing/create.rs:82-194 | no run writes a new generation over an unfinished one |
| PairingRecovery.CrashConvergence | src/pairing/commit_flow.rs:71-185 | after any stop behind the journal write and any number of interrupted recoveries, by polling, by building the reporter or by starting again with the same endpoints, one completed recovery of any of the three kinds leaves what an uninterrupted commit leaves, timestamps aside, and a poll reports the same |
| PairingRecovery.SameCommit | src/pairing/commit_flow.rs:71-185 | while the journal is Activating the three kinds of recovery make the same five writes |
| PairingRecovery.RecoveryResults | src/pairing/commit_flow.rs:71-124 | and tell their callers the pairing in force, a reporter of the new credential, or the session to resume |
| PairingRecovery.CommitIffValid | src/pairing/commit_flow.rs:146-157 | a commit succeeds exactly when every identity component is valid and writes nothing otherwise |
| PairingRecovery.PairingIsReached | src/pairing/commit_flow.rs:1-48 | from an empty directory some run completes any pairing with nonzero identifiers, a well-formed token and a safe endpoint: the five files are those of its commit and its reporter is handed out |
| PairingRecovery.StoppedPairingIsRecovered | src/pairing/commit_flow.rs:71-185 | from an empty directory, a confirmed pairing stopped after the journal write and any number of its commit's writes is completed by a process that loads the journal and recovers it |
| PairingRecovery.EndIsReached | src/pairing/polling.rs:110-160 | from an empty directory some run ends any request by each of the three verdicts, with the journal the verdict calls for |
| PairingRecovery.BlockedIffInvalid | src/pairing/commit_flow.rs:71-124 | under an Activating journal some transaction can still write exactly when its commit is valid |
| PairingRecovery.NilInstanceBlocks | src/pairing/commit_flow.rs:1-48 | from every reachable Pending that some process remembers, a reply naming the nil instance leads to an Activating journal whose commit is refused |
| PairingRecovery.InvalidCommitIsReached | src/pairing/polling.rs:94-103 | the whole run to such a journal, from an empty directory |
| PairingRecovery.InvalidCommitIsFinal | src/pairing/commit_flow.rs:126-157 | an Activating journal that fails validation never changes again in any continuation of the run |
| PairingReaders.LocalStatus | src/pairing/local.rs:20-72 | the retry loop answers from the first look whose journal did not change: each phase is shown as what it is, an Active one only with its binding, corruption is reported as found, and it gives up exactly when every look was torn |
| PairingReaders.LocalStatusLinearises | src/pairing/local.rs:20-72 | against all concurrent writers, each status was true of the disk at one instant of the call and corruption is never reported |
| PairingReaders.ExistingBindingState | src/cli.rs:818-876 | the answer is settled by the first probe that is not an in-time rotation: overtime, a corrupt token, local data only, a concurrent change, or the verdict on a revision found in force both before and after the probe; at most three probes are made |
| PairingReaders.ProbeOutcomes | src/cli.rs:818-876 | each of the answers is given if and only if the deciding probe calls for it |
| PairingReaders.VerdictDescribesCredentialInForce | src/cli.rs:826-876 | from building the reporter to the re-check the probed revision was the authorized Active one without a gap |
| PairingActivation.ActivatePending | src/pairing/activation_flow.rs:11-165 | success, with its instance, and each error are returned exactly when the two reads and the reply between them call for it: the same request pending throughout, or committed under the confirmed instance |
| PairingActivation.ActivationDescribesThisRequest | src/pairing/activation_flow.rs:11-165 | in every run, between the two reads of a successful submission the journal never left this generation; a pending request is the very one that was read |
| PairingHttp.EndedOnlyByExactEnvelope | src/pairing/client.rs:126-196 | a rejected poll ends a request exactly when a JSON, non-retryable envelope with matching status and code names that request |
| PairingHttp.VerdictExactly | src/pairing/client.rs:126-196 | every other verdict is given exactly by a well-formed 200 document, with an instance if and only if it is active |
| PairingHttp.RefusalExactly | src/pairing/client.rs:126-196 | what a refusal is known by and tells: a code only where status, retryability and details bear it out, and the supported versions that fit 16 bits, in order |
| StateStore.RanThen | src/state_store.rs:101-113 | two interrupted runs in a row are one interrupted run of the concatenated writes |
| StateStore.StateTransaction.Write | src/state_store.rs:101-113 | one file is replaced or none is |
| StateStore.StateTransaction.CommitActivating | src/pairing/commit_flow.rs:126-185 | for every stop, the disk holds the files of the commit as far as the five writes came, Active last; a refused commit writes nothing and names its cause |
| StateStore.StateTransaction.Replace | src/pairing/credentials.rs:73-95 | the reloaded durable journal of the same generation and request is committed, never the caller's copy, and otherwise nothing |
| StateStore.StateTransaction.PersistActiveCredentials | src/pairing/commit_flow.rs:1-48 | the journal is written before any credential, and only if the pending request is still the current one; then the committed files or the cause of the refusal are given exactly |
| StateStore.StateTransaction.RecoverActivating | src/pairing/commit_flow.rs:71-111 | recovery completes the same generation, confirms it when it is Active already, or reports that it was superseded, each exactly |
| StateStore.StateTransaction.CompareAndPersistCreating | src/pairing/state_io.rs:48-75 | the journal is replaced exactly if it is still the expected creation |
| StateStore.StateTransaction.CompareAndPersistPending | src/pairing/state_io.rs:77-97 | the journal is replaced exactly if it is still the expected request |
| StateStore.StateTransaction.PrepareStart | src/pairing/create.rs:78-194 | for every stop, what starting leaves on disk; and, phase by phase of the journal found, what it returns |
| StateStore.StateTransaction.ExistingReporterForRun | src/pairing/local.rs:183-212 | an interrupted commit is finished before a reporter is handed out, and the reporter or its absence is exact |
| StateStore.StateTransaction.Invalidate | src/pairing/credentials.rs:97-120 | the authorization is withdrawn if and only if the binding on disk is coherent, carries the revision and no commit is in progress; every other outcome is exact and changes nothing |
| PairingOutcomes.StartOutcome | src/pairing/create.rs:78-194 | what starting does with each phase of the journal: resume, check an expired request, continue a creation, finish a commit, refuse, or begin anew with the drawn secrets |
| PairingOutcomes.ConfirmOutcome | src/pairing/commit_flow.rs:1-48 | what a confirmation leaves: all five files of the confirmed instance, or the old disk, or an Activating journal whose commit was refused |
| PairingOutcomes.RecoverOutcome | src/pairing/commit_flow.rs:71-111 | what a recovery leaves and reports for every journal it finds |
| PairingOutcomes.InvalidateOutcome | src/pairing/credentials.rs:97-120 | each result of an invalidation if and only if its condition on the disk holds |
| PairingOutcomes.ServiceOutcome | src/pairing/local.rs:183-212 | what a starting service finishes and which reporter it is given |
| PairingOutcomes.CurrentReporterOutcome | src/pairing/local.rs:216-251 | the reporter of the credential in force, none while there is none, and corruption where binding and journal disagree |
| PairingOutcomes.RefreshOutcome | src/pairing/local.rs:145-181 | a newer reporter exactly when the coherent credential on disk has another revision than the caller knows |
| PairingOutcomes.ActivateOutcome | src/pairing/local.rs:290-335 | the reporter of exactly the pairing the caller saw become Active |
| ReportText.TakeBytesIsLongestPrefix | src/report_contract.rs:499-508 | truncation keeps the longest prefix of whole code points that fits, in UTF-8 (section 3 of RFC 3629) |
| ReportText.TruncateUtf8 | src/report_contract.rs:499-508 | walking back from the byte limit to a code point boundary finds that prefix |
| ReportText.BoundRequiredText | src/report_contract.rs:462-470 | the bounded text, and a flag that is up exactly when it differs |
| ReportText.RequiredTextIsStable | src/report_contract.rs:462-470 | a required text is control-free, fits, is not blank, is left alone if it already was all that, and is stable |
| ReportText.OptionalNonemptyIsStable | src/report_contract.rs:483-492 | the same for an optional text, which disappears rather than being blank |
| ReportValues.StripControlsExactly | src/report_contract.rs:494-508 | stripping keeps exactly the other characters, in order |
| ReportValues.NearestIsUnique | src/report_contract.rs:510-517 | a clamped number is determined as the nearest value in range, or the fallback when it is not finite |
| ReportPriority.PrioritizeByMetrics | src/report_contract.rs:413-442 | the index-based loops compute the canonical order with each metric's maximum in front, once |
| ReportPriority.PrefixIsPrioritized | src/report_contract.rs:413-442 | every prefix of a prioritised sequence is itself prioritised |
| ReportPriority.PrioritizedPermutation | src/report_contract.rs:412-442 | the prioritised sequence does not depend on the enumeration |
| ReportPriority.MaximaSurvive | src/report_contract.rs:412-442 | as long as the anchors are kept, every metric's maximum is |
| ReportPriority.BestIsBest | src/report_contract.rs:420-427 | the chosen anchor is the greatest by metric and, among equals, the last in canonical order |
| Sorting.SortIsStable | src/report_contract.rs:580-588 | elements that the order does not tell apart keep their order |
| ReportHardware.HardwareStable | src/report_contract.rs:549-704 | bounding a bounded inventory against the same time changes nothing |
| InventoryValues.InventoryIsFrom | src/report_contract.rs:549-712 | said of the raw inventory alone: what becomes of each time, number and text, which elements are the first of their key, in what order, and which are missing |
| ReportFixedPoint.FixedPoint | src/report_contract.rs:65-165 | a bounded report that fits is bounded to itself, flag down, at any clock and under any pair of time policies, if and only if the second pass does not clamp its time and its marker was not added beside an entry with the marker's name and source |
| ReportFixedPoint.LaterIsSettled | src/report_contract.rs:167-185 | the second pass does not clamp the time if it never clamps, or if both clamp and the clock has not gone back |
| ReportFixedPoint.FixedPointRaw | src/report_contract.rs:65-165 | for every report, cut or not: if the raw report has no entry for its marker to be added beside, counting as if nothing were cut, bounding it again changes nothing |
| ReportFixedPoint.FixedPointUncut | src/report_contract.rs:65-165 | when the byte limit takes nothing, that condition on the raw report is exact |
| ReportFixedPoint.FixedWithoutHiddenMarker | src/report_contract.rs:65-165 | reports without a capability that only becomes the marker by normalisation are always bounded to a fixed point |
| ReportFixedPoint.HiddenMarkerIsNotFixed | src/report_contract.rs:66-69 | the concrete exception: a lone capability named like the marker but for a line feed |
| ReportFixedPoint.MarkerIndex | src/report_contract.rs:399-410 | in the deduplicated order the marker's key is preceded by exactly the earlier sources under the marker name |
| ReportFit.FitResult | src/report_contract.rs:305-352 | fitting ends with a cut of the report that meets the byte limit or has nothing optional left, never loses a leading marker, and leaves a fitting report alone |
| ReportFit.FitInSteps | src/report_contract.rs:305-397 | the report comes to fit by losing its inventory, then in rounds that cut every list to its share of 97 percent of the limit or to its minimum, then by single elements in the order of the lists; no step is taken on a report that fits |
| ReportFit.InventoryGoesFirst | src/report_contract.rs:312-314 | the inventory goes first, and if that is enough nothing else is lost |
| ReportFit.ShrunkCuts | src/report_contract.rs:364-382 | each round takes at least one element from every list above its minimum and none below it |
| ReportFit.AnchorsKept | src/report_contract.rs:305-352 | if the inventory-free report of the anchors fits, no list loses an anchor |
| ReportFit.SummaryMaximaSurvive | src/report_contract.rs:157-163 | then for every network, disk, temperature and GPU some kept one has at least its rate, temperature or load |
| ReportWire.WireContract | src/report_contract.rs:65-165 | every report is bounded to one that meets the whole wire contract: limits, counts, capacities, ranges, text, times and unique inventory keys |
| ReportWire.HardwareOnWire | src/report_contract.rs:549-712 | every inventory is bounded to one within the limits, unique where deduplicated, with clean texts, ranged numbers and no time after the report |
| ReportWire.OrderIsIrrelevant | src/report_contract.rs:98-163 | permuting networks, disks, temperatures, GPUs and capabilities gives the identical bounded report and flag |
| ReportWitness.LawfulCodecExists | src/report_contract.rs:444-452 | a serialiser with the assumed properties exists: injective keys, and a parser that reads every written report back |
| ReportExact.FlagIsExact | src/report_contract.rs:54-63 | the change flag is down if and only if the report met the whole contract already and, put in order, fits |
| ReportExact.HardwareKept | src/report_contract.rs:549-704 | the inventory's flag is down if and only if the inventory met its contract |
| ReportExact.UnflaggedLosesNothing | src/report_contract.rs:54-63 | with the flag down the result is the report in another order |
| ReportOutcome.BoundedValues | src/report_contract.rs:65-165 | said of the raw report alone: every number is the nearest in range, every out-of-range reading absent, every text the longest clean prefix or its fallback, every kept element the image of a raw one of its own, lists are cut only over their limits or the byte limit, and a loss is marked in front and counted once |
| ReportOutcome.DeduplicatedIsChosen | src/report_contract.rs:399-410 | of the capabilities with one name and source the first in the order is kept: an available one if there is any, then the smallest serialised form |
| ReportOutcome.OrderIsPrecedes | src/report_contract.rs:399-410 | the order of capabilities, spelled out: markers, name, source, available before unavailable, serialised form |
| ClientReports.ClientReport.BoundReport | src/report_contract.rs:65-165 | the in-place steps compute the bounded report and its flag; and every value, element, capability and the marker of the result is fixed by the raw report, without the functions that compute it |
| ClientReports.ClientReport.NormalizeScalarsAndText | src/report_contract.rs:167-303 | scalars and texts are normalised in place, and the flag is up exactly when anything differs |
| ClientReports.ClientReport.FitBody | src/report_contract.rs:305-352 | the two loops terminate and compute the fitted report |
| ClientReports.ClientReport.RemoveLastOptional | src/report_contract.rs:384-397 | the last element of the first non-empty list is given up, in the fixed order of the lists, and none exactly when nothing optional is left |
| ClientReports.BoundInventory | src/report_contract.rs:549-704 | the loops over the inventory compute the bounded inventory and its flag, and its values and elements are fixed by the raw inventory |
| ClientReports.RetainFirst | src/report_contract.rs:610-614 | the first of each key is kept, in order |
| ClientReports.DedupAdjacent | src/report_contract.rs:582-588 | dropping adjacent duplicates, as a loop |
| ClientReports.EncodeReportBody | src/report_contract.rs:34-52 | refused exactly for another schema; otherwise the bounded report and exactly its bytes, or an error if they do not fit |
| ReportQueue.EnqueuedIsDeliverable | src/spool.rs:63-132 | what is enqueued is read back as the same report, if and only if its marker was not duplicated; the condition on the raw report suffices |
| ReportQueue.RunConserves | src/spool.rs:63-159 | over every run, the records held are the initial ones and one more for each enqueueing that had room and could be encoded, with exactly those bytes; each is pending, quarantined or acknowledged, once |
| ReportQueue.RunAcknowledgesAccepted | src/cli.rs:1743-1757 | over every run, a record is acknowledged only by a delivery that the server accepted for that record and host |
| ReportQueue.RunQuarantinesNothing | src/spool.rs:73-132 | over every run that starts readable and hides no marker, nothing is quarantined |
| ReportQueue.SentVerbatim | src/transport.rs:443-465 | whatever the clock, a readable record is sent with exactly its bytes, and the send succeeds only on a 202 naming this host and report |
| ReportQueue.GivenUpExactly | src/transport.rs:850-935 | each rejection is believed exactly from its own envelope: permanent, unauthorized, unsupported protocol, future timestamp |
| ReportQueue.PreparedExactly | src/transport.rs:443-465 | a queued body goes out unchanged if it fits and is the canonical form of the report read from it, and is given up for good otherwise |
| ReportQueue.DeliverableExactly | src/spool.rs:73-132 | a record can be read back exactly if it is of this contract, of no other schema and already canonical |
| ReportQueue.UndeliveredExactly | src/transport.rs:850-935 | why a readable record is not delivered: exactly another host, else the server's verdict or something transient |
| ReportQueue.Spool.Enqueue | src/spool.rs:63-71 | accepted exactly if there is room for the encoded bytes, which are then appended under the next number; otherwise nothing happens |
| ReportQueue.Spool.Oldest | src/spool.rs:73-132 | the loop returns the first readable record and quarantines exactly the unreadable ones before it; nothing is found exactly when nothing is left |
| ReportQueue.Spool.Drain | src/cli.rs:1743-1757 | the drain loop is a run of deliveries that stops at the first unconfirmed one, whose error is that of its sending, or when the queue is empty or the replies are used up |
| NvidiaIdentity.Identities | src/collectors/nvidia_identity.rs:11-34 | the usable readings that are proven are associated with their rendered LUIDs, and nothing else |
| NvidiaIdentity.AssociationIsOneToOne | src/collectors/nvidia_identity.rs:11-34 | the association is injective both ways and has no nil UUID |
| NvidiaIdentity.AssociationExactly | src/collectors/nvidia_identity.rs:11-34 | among all readings, exactly those with a UUID and a LUID that are not nil and that no other such reading repeats are associated |
| NvidiaIdentity.RenderShows | src/collectors/nvidia_identity.rs:28-32 | where each digit of each byte stands in the rendered LUID |
| NvidiaIdentity.RenderInjective | src/collectors/nvidia_identity.rs:28-32 | different LUIDs are rendered differently |
| NvidiaIdentity.LookupSeparates | src/collectors/nvidia_identity.rs:6-9 | devices with different UUIDs are never looked up as the same adapter |
| NvidiaIdentity.LookupExactly | src/collectors/nvidia_identity.rs:6-9 | an adapter is found exactly under the UUID behind the prefix |
| GpuMerge.NothingCountedTwice | src/collectors/gpu_merge.rs:37-105 | NVML devices keep place, identity and present values, absorb at most one reading each, by a LUID no other device has, and stay within capacity; an appended NVIDIA reading shares its LUID, as a string, with nothing else |
| GpuMerge.AbsorbsAtMostOne | src/collectors/gpu_merge.rs:64-78 | two generic readings are never absorbed by one device |
| GpuMerge.SupplementKeeps | src/collectors/gpu_merge.rs:16-35 | supplementing keeps what was present, never exceeds capacity and never mixes capacities |
| GpuMerge.SupplementFills | src/collectors/gpu_merge.rs:79-92 | every gap takes the reading's own value |
| GpuMerge.MemoryFills | src/collectors/gpu_merge.rs:16-35 | the memory numbers are filled together exactly if they are of one capacity and within it |
| GpuMerge.FateExactly | src/collectors/gpu_merge.rs:58-98 | when a generic reading is absorbed, by which device, when it is appended and when withheld |
| GpuMerge.DeviceAfterExactly | src/collectors/gpu_merge.rs:64-78 | a device is what it was, or supplemented by the one reading it absorbed |
| GpuMerge.AdditionsExactly | src/collectors/gpu_merge.rs:58-98 | behind the devices stand the appended readings, in order, as many as the limit leaves room for |
| GpuMerge.LuidExactly | src/collectors/gpu_merge.rs:4-14 | the form of an adapter LUID, character by character |
| GpuMerge.RenderedIsLuid | src/collectors/gpu_merge.rs:4-14 | every proven identity has the form the merge recognises |
| GpuMerge.DisclosedExactly | src/collectors/gpu_merge.rs:94-104 | a capability is disclosed exactly when a reading was withheld or the memory of an absorbed one was refused, under the identity's name if any was withheld and the memory's otherwise, with the exact number of either |
| GpuMerge.DisclosureTellsCounts | src/collectors/gpu_merge.rs:99-104 | different numbers are disclosed differently |
| GpuMerge.MergeWindows | src/collectors/gpu_merge.rs:37-105 | the loop computes the merge and its disclosure |
| OtlpReport.EncodingIsProper | src/otlp.rs:255-389 | for every report: distinct metric names, no metric without points, and each metric's points are those of its name in the flat emission, whatever their unit and kind, in order, with none lost |
| Otlp.ConsolidationIsProper | src/otlp.rs:464-526 | one metric per name, unit and kind, each with points, none missing |
| Otlp.PointsAreConserved | src/otlp.rs:470-512 | consolidation neither loses nor invents a point |
| OtlpReport.NamesIdentifyInstruments | src/otlp.rs:255-446 | no two instruments share a name |
| Otlp.MetricSet.Add | src/otlp.rs:470-521 | a point joins the metric of its key or starts one |
| OtlpReport.EncodeReport | src/otlp.rs:255-389 | the emitting loops compute the consolidation of the flat emission; under each metric name, unit and kind stand exactly the points of the report's readings, with value, attributes, direction and time, in order, and there is no other metric |
| OtlpReport.EncodingExports | src/otlp.rs:246-462 | for every consolidation of the emission of a report: each reading is exported under its instrument with its own value and attributes, absent ones not at all |
| WindowsGpu.AggregateEngineUtilization | src/collectors/windows_gpu.rs:81-97 | the result is the greatest capped load of any engine, within 0 and 100, and absent exactly when no sample is finite |
| WindowsGpu.PeakPermutation | src/collectors/windows_gpu.rs:81-97 | sample order does not matter |
| WindowsGpu.PeakIsUnique | src/collectors/windows_gpu.rs:81-97 | the peak is determined by the samples |
| WindowsGpu.LoadOfOne | src/collectors/windows_gpu.rs:81-97 | a single finite sample loads its engine by its value, clamped to 0 and 100 |
| WindowsGpu.InstanceExactly | src/collectors/windows_gpu.rs:27-79 | a counter name is read as a process id and an engine exactly if it is what Windows writes for them |
| WindowsGpu.KeysAgreeExactly | src/collectors/windows_gpu.rs:27-79 | two names are counted together exactly if they are of one engine, letter case aside, or are the same unreadable name |
| WindowsGpu.PidIsIrrelevant | src/collectors/windows_gpu.rs:27-79 | well-formed names that differ only in the process id have one key |
| WindowsGpu.PidsDoNotMatter | src/collectors/windows_gpu.rs:27-97 | replacing process ids in well-formed names leaves the reported utilisation as it was |
| WindowsGpu.EngineTextInjective | src/collectors/windows_gpu.rs:74-78 | different engines have different keys, letter case aside |
| ServiceHost.NothingAfterStopped | src/monitor_app/windows_service_host.rs:66-83 | in every interleaving, whatever calls fail, nothing but STOPPED is reported after STOPPED |
| ServiceHost.StopIsReported | src/monitor_app/windows_service_host.rs:212-231 | a stop is reported, stored, requested and followed up, step by step, unless the service has stopped |
| ServiceHost.QueryIsAnswered | src/monitor_app/windows_service_host.rs:288-297 | an interrogation repeats the stored state |
| ServiceHost.RunIsReported | src/monitor_app/windows_service_host.rs:233-245 | the main thread reports the start and then RUNNING, or STOP_PENDING if a stop came first |
| ServiceHost.ProgressIsReported | src/monitor_app/windows_service_host.rs:247-276 | the progress thread repeats STOP_PENDING while it is the stored state, whatever calls fail, and then ends |
| ServiceHost.UndisturbedService | src/monitor_app/windows_service_host.rs:85-297 | an undisturbed run from the start to the end, reporting START_PENDING, RUNNING, STOP_PENDING and STOPPED |
| ServiceHost.NoRunningAfterStop | src/monitor_app/windows_service_host.rs:212-245 | in every interleaving RUNNING is never reported after a handled stop, unless reporting a stop failed while running |
| ServiceHost.NoRunningAfterReportedStop | src/monitor_app/windows_service_host.rs:212-297 | in particular never when the calls that report a stop succeed |
| ServiceHost.RunningReturnsExactly | src/monitor_app/windows_service_host.rs:212-297 | in every run, RUNNING can be reported after a handled stop if and only if the service is running when the call that reports the stop fails |
| ServiceHost.FailedStopRepeatsRunning | src/monitor_app/windows_service_host.rs:288-297 | one such run, step by step |

## Left out

- HTTP, TLS, URL and DNS handling, header and activation URL checks: replies are already parsed, and endpoint, token
  and UUID syntax are abstract predicates except where a length or a nil value decides something.
- Archiving foreign-format account state (`src/pairing/state_storage.rs:119`), which runs on files this format does
  not describe, and writing the selected endpoint into the main configuration.
- Whether I/O succeeds when reading; the queue's store also never fails in quarantining or acknowledging, and keeps
  enqueue order. The store itself and its limits are not part of this model.
- The details of a memory module and of a device (seven and nine optional texts under one rule) are one sequence.
- IEEE 754 rounding and the sign of zero, and therefore whether a negative zero raises the change flag.
- The background delivery policy, its retries and back-off; only the explicit drain loop is modelled.
- The resource attributes of an OpenTelemetry request and its protobuf form.
- Native collectors (calls into NVML, PDH, DXGI and the operating systems) hand over readings, which are inputs here.
- The command line, prompts, diagnostics, logging and packaging show or start what is modelled and keep no state of
  their own.
- ServiceHost.NothingAfterStopped: the main thread may repeat its final report any number of times, which covers the
  retries in `src/monitor_app/windows_service_host.rs:66-83` and more.
