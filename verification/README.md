# RouteScope: traffic ledger, DNS attribution and paging

RouteScope is a router daemon. A collector reports snapshots of flows with cumulative byte counters, a DNS proxy
reports answers, and the daemon keeps a ledger in SQLite that says how many bytes each device exchanged with each
domain in each minute. This project models the parts of it that are hard to get right, and proves what they promise.

**The traffic ledger** (`src/storage.rs`). `Ledger` holds the five tables as maps and what each transaction makes of
them; `Repository` is the object whose fields are those tables and whose methods update them in place, each proved
against its ledger function. Cumulative counters become increases, an increase is charged to a device minute, to a
flow's contribution and to a domain minute, and a DNS answer that arrives late moves contributions between domains
by subtracting and adding, with an abort when the books do not balance. `LedgerInvariant` and `LedgerRuns` prove that
no interleaving of writes, backfills, privacy deletions and expiry reaches that abort. `Books`, `Timing`, `LateDns`,
`Baselines`, `AttributionHistory`, `BatchLaws`, `BackfillReach`, `Deletion`, `StoredRows`, `MinuteBounds` and
`LedgerLimits` prove what transactions and whole runs amount to, and where the premises are needed.

**The DNS cache** (`src/dns.rs`). `DnsCache` says what each locked operation makes of the cache,
`DnsAttributionCache` is the object itself, and `DnsInvariant`, `DnsHistory`, `DnsBinding`, `DnsForgetting` and
`DnsAmbiguity` prove what every interleaving of operations keeps, where bindings come from, that what can be bound is
bound, what a purge forgets, and which observations are never bound.

**The loops** (`src/main.rs`). `Delivery` interleaves any number of drain, backfill and requeue sequences with every
other step of cache and ledger, `ExactlyOnce` and `ManyFlushers` prove that failed flushes have no effect, `Privacy` and
`LabelledBatches` when a deleted domain stays away; `MainLoop` is the code of the ticks, each proved to be a run of that system.

**Paging** (`src/service.rs` with `list_flow_page`). `FlowPaging` proves that the keyset queries, the extra row, the
truncation and the reversal read one stretch of a device's rows; `PagingWalks` and `PageTurning` prove what a client
sees who follows cursors. **Conntrack** (`src/conntrack.rs`): `Conntrack` proves the tuple index against a scan.
`Collector` is the check of a batch before it is ingested. `Domain`, `Attributions`, `Sums`, `Totals` and `Sequences`
are what the others rest on.

How the program is read:

- Strings are interned: a number per text, in the order of the texts, 0 for the empty one. MACs, domain names and
  addresses arrive normalised; an address that does not parse as IPv4 and a name that does not normalise stay
  distinguishable, because the program branches on them.
- Timestamps are 64-bit and saturate where the code saturates. Each counter is checked against the range of a stored
  integer as the code does; sums of bytes are natural numbers.
- A transaction is all or nothing. A query without ORDER BY returns its rows in an arbitrary order, so backfill is
  proved for every order. The database being unreachable is a parameter.
- An id determines the MAC of its flow, as the collector builds it (`src/collector.rs:524-536`). `Owner` is that
  function, and `LedgerLimits.ForeignMacIsRefused` shows that the premise is needed.
- A ledger of the older schema is an initial state with flows and aggregates but no contributions.

## Model

| member | source | states |
|---|---|---|
| Repository.SqliteRepository.SubtractDomainMinuteBytes | src/storage.rs:425-459 | Subtracts only if exactly one row holds enough in both directions, drops the row when nothing is left, and otherwise fails and changes nothing |
| Repository.SqliteRepository.AddDomainMinuteBytes | src/storage.rs:388-423 | Adds to the domain minute, with the newest tags |
| Repository.SqliteRepository.AddFlowMinuteContribution | src/storage.rs:575-628 | Adds to the flow's contribution of the minute, under the newest attribution and the first MAC |
| Repository.SqliteRepository.EnsureLegacyBaseline | src/storage.rs:630-656 | One unattributed contribution with the whole counters, exactly for an unattributed flow with bytes and without contributions |
| Repository.SqliteRepository.ReconcileFlowContributions | src/storage.rs:658-746 | The row-by-row loop, in any order, equals the pointwise move of every contribution of the flow, and succeeds exactly when each could be moved on its own |
| Repository.SqliteRepository.UpsertFlowTx | src/storage.rs:783-940 | One snapshot refines `Ledger.UpsertFlow`, errors included |
| Repository.SqliteRepository.UpsertFlows | src/storage.rs:1196-1213 | A batch refines `Ledger.UpsertFlows`; on any error every table is as before |
| Repository.SqliteRepository.BackfillDomainBindingTx | src/storage.rs:944-1005 | One binding reaches each matching flow once, in some order, and counts the flows it improved; it fails only on unbalanced books |
| Repository.SqliteRepository.BackfillDomainBindings | src/storage.rs:1215-1230 | All bindings or none; the rows each one sees are those that matched before the transaction; only flows that some binding reaches change, to an attribution no weaker than any of theirs, and with distinct targets the count is the number of flows changed |
| Repository.SqliteRepository.DeleteDeviceData | src/storage.rs:1012-1054 | Nothing for an unknown device, otherwise the deletion and its report |
| Repository.SqliteRepository.DeleteDomainData | src/storage.rs:1056-1109 | The redaction and its report |
| Repository.SqliteRepository.DeleteDataRange | src/storage.rs:1111-1169 | The deletion of a half-open range and its report |
| Repository.SqliteRepository.DeleteExpiredData | src/storage.rs:1539-1565 | The four statements of the cleanup in their order, and the two counts |
| Repository.NothingIsRefused | src/storage.rs:425-459 | Coherent books refuse no list of bindings, in whatever order the rows come |
| LedgerInvariant.MoveBytes | src/storage.rs:658-746 | Moving a contribution takes its bytes from one domain minute and gives them to another, and no other row changes |
| LedgerInvariant.ReattributeNeverAborts | src/storage.rs:658-746 | With covered aggregates every subtraction of a reattribution finds its row with enough bytes |
| LedgerInvariant.ReattributeCoherent | src/storage.rs:630-746 | A reattribution, lazy baseline included, keeps the invariant and what each aggregate holds beyond its contributions |
| LedgerInvariant.UpsertAllCoherent | src/storage.rs:783-940 | So does a batch, which can fail for other reasons but never for unbalanced books |
| LedgerInvariant.BackfillAllCoherent | src/storage.rs:944-1005 | A backfill always succeeds on coherent books and keeps the invariant, for every row order |
| LedgerInvariant.ExpireCoherent | src/storage.rs:1539-1565 | Stopping the untransacted cleanup after any of its statements keeps the invariant |
| LedgerLimits.DomainMinutesExpireLast | src/storage.rs:1539-1565 | Deleting old domain minutes alone keeps the invariant if and only if no attributed contribution is that old |
| LedgerRuns.EveryRunIsCoherent | src/storage.rs:231-245 | In every run each contribution has its flow's MAC and whole attribution, its flow and device exist, it is not zero, a flow's contributions stay within its counters, and aggregates cover them |
| LedgerRuns.NoWriteIsUnbalanced | src/storage.rs:425-459 | From a fresh or older-schema database no reachable write or backfill hits the abort of the subtraction |
| LedgerRuns.ContributionsFit | src/storage.rs:749-766 | No reachable contribution outgrows its flow's counters or a stored integer |
| LedgerLimits.ForeignReattribution | src/storage.rs:860-880 | Under another MAC than the flow's, a reattribution succeeds if and only if that device's aggregates happen to hold every contribution that moves |
| LedgerLimits.ForeignMacIsRefused | src/collector.rs:524-536 | A concrete snapshot under a second MAC is refused as unbalanced, and accepted under the first |
| LedgerLimits.BaselineBooksOneMinute | src/storage.rs:630-656 | When the baseline fires, the whole counters are added to one minute of the new domain, every other domain minute and all device minutes stay |
| LedgerLimits.BaselineWithinMeter | src/storage.rs:630-656 | That domain minute is then within its device minute if and only if what was booked before plus the counters is within what was metered |
| LedgerLimits.DomainExceedsDevice | src/storage.rs:630-656 | A run of four steps from an empty database (name, delete the domain, see again a minute later, name anew) that ends with a domain minute ten bytes above its device minute |
| MinuteBounds.ReattributeDraws | src/storage.rs:630-746 | With slack defined as metered bytes less those attributed to domains or still unattributed, attributing a flow takes exactly its due baseline from the slack of one minute, and nothing from any other |
| MinuteBounds.WithinBoundsDomains | src/storage.rs:818-939 | Where every slack is non-negative, no domain minute exceeds its device minute |
| MinuteBounds.RunEndsWithin | src/storage.rs:783-1005 | From any coherent ledger, legacy ones included, a run of writes and backfills ends with every slack non-negative if and only if its baselines drew no more than there was in each minute |
| MinuteBounds.RunStaysWithin | src/storage.rs:783-1169 | Through any legal run every state keeps the bound if and only if each step's baselines are covered when they fire and no cleanup is cut off while something is booked where it removed the meters |
| MinuteBounds.InterruptedWithin | src/storage.rs:1539-1565 | A cleanup cut off after the device minutes, or after the contributions, keeps the bound if and only if nothing is left booked so far back |
| MinuteBounds.MetersExpireWithin | src/storage.rs:1539-1565 | Deleting old device minutes alone, as an interrupted cleanup does, keeps the bound if and only if nothing is booked so far back |
| Books.ExactBooks | src/storage.rs:818-939 | From an empty database with writes and backfills: domain and device minutes equal sums of contributions, a flow's contributions equal its counters, the baseline is dead code |
| Books.DevicesMatchCounters | src/domain.rs:160-176 | Each device's minutes add up to the latest cumulative counters of its flows: the increases telescope |
| Books.DomainWithinDevice | src/storage.rs:818-939 | No domain minute exceeds its device minute in such runs |
| Domain.DeltaFrom | src/domain.rs:160-176 | An increase exists exactly when no counter went down, and added to the previous bytes gives the current ones |
| Domain.FloorToMinute | src/domain.rs:7-9 | The multiple of a minute at most a minute below, also before the epoch |
| Domain.NewTimeRange | src/domain.rs:299-318 | Exactly which bounds are refused, and a non-empty non-negative interval otherwise |
| LateDns.LateEqualsTimely | src/storage.rs:783-1005 | Any history with one backfill at any point leaves the flows, contributions, device minutes and domain bytes of the history in which the matched flows carried the binding from the start |
| LateDns.DelayIsInvisible | src/main.rs:271-280 | For one binding over snapshots without attribution from an empty database: delivering it any number of batches later leaves the same books if and only if it reaches the same flows at both moments |
| Timing.TimingIsIrrelevant | src/storage.rs:783-1005 | Any two histories of the same snapshots, however and whenever attributed, leave the same books once they leave the same attributions |
| Baselines.RunSlices | src/storage.rs:575-656 | From any coherent ledger each contribution is what it was, plus the increases charged to it, plus the baselines laid down in it |
| Baselines.SameBooksIffSameBaselines | src/storage.rs:783-1005 | From any coherent ledger, legacy ones included, two histories of the same snapshots that end with the same attributions leave the same books if and only if they lay down the same baselines |
| AttributionHistory.StoredIsLastGreatest | src/storage.rs:486-531 | After any run a flow's attribution is the last one with the greatest (confidence, source, time) among those it was told, none exactly when told none |
| AttributionHistory.StoredIsMostCertain | src/storage.rs:486-531 | In plain terms, without ranks: certain exactly when something told was certain, else a guess exactly when something was one; among those as certain from DNS exactly when one was, else from SNI exactly when one was; then the latest, and of equals the last |
| AttributionHistory.KnownDomainIsKept | src/storage.rs:801-805 | From any state, a known domain is never dropped and its rank never falls: what is certain stays certain, and from DNS if it was |
| Attributions.EffectiveAssociative | src/storage.rs:504-531 | Combining attributions is associative |
| Attributions.EffectiveAbsorbs | src/storage.rs:504-531 | Combining is idempotent, and telling the same again changes nothing |
| Attributions.EffectivePrevails | src/storage.rs:504-531 | What is told replaces what is stored exactly when it is more certain, or as certain and from a better source (DNS, then SNI), or no older than the like |
| Attributions.EffectiveExplains | src/storage.rs:504-531 | One step keeps the last greatest of what was presented |
| Attributions.LastGreatestIsUnique | src/storage.rs:486-502 | That attribution is unique |
| BatchLaws.RepeatedUpsertIsNeutral | src/storage.rs:1196-1213 | A committed batch with distinct ids, delivered again, commits and changes nothing |
| BatchLaws.BadBatchChangesNothing | src/storage.rs:1196-1213 | A malformed flow, an oversized counter, or a reset against the stored row or an earlier snapshot of the batch refuses the batch and leaves every table, also when flow ids repeat |
| BatchLaws.BatchCommitsIffItRises | src/storage.rs:783-859 | On coherent books a batch commits if and only if every flow is well formed, fits, and resets no counter |
| BatchLaws.RefusalsAreNamed | src/domain.rs:105-138 | A snapshot is refused for its form first, then for the size of its counters, then for a reset, each exactly when it is at fault |
| BatchLaws.OrderIsIrrelevant | src/storage.rs:1215-1230 | Bindings for distinct targets leave the same books in any order |
| BackfillReach.BindingReaches | src/storage.rs:944-1005 | After one committed binding a flow's attribution differs only if device and destination are the binding's, it was last seen no earlier than the answer and first seen before the expiry; every unattributed flow of that kind ends with the binding's attribution; nothing else changes, and the changes are counted |
| BackfillReach.BackfillReaches | src/storage.rs:1215-1230 | For any list of bindings and any row order: a flow none of them reaches is as it was, and one that some reach ends with an attribution that prevails over all of theirs |
| BackfillReach.BackfillCounts | src/storage.rs:1215-1230 | With distinct targets the reported number is the number of flows whose attribution changed |
| BatchLaws.DeliveredIsSettled | src/storage.rs:975-982 | After a delivery no flow a delivered binding matches can be improved by it |
| BatchLaws.RepeatedBackfillIsNeutral | src/storage.rs:975-982 | Delivering any of a batch's bindings again, in any order and number, updates no row |
| BatchLaws.SameDomainsSameBooks | src/storage.rs:944-1005 | From any coherent ledger, legacy ones included, two backfills that leave the same attributions leave the same books |
| Deletion.DeviceDeletionIsExact | src/storage.rs:1012-1054 | The report is the number of rows each table loses, cascade included |
| Deletion.DeviceDeletionIsComplete | src/storage.rs:1012-1054 | Exactly the rows of the device go from every table, the others are as before, and a second deletion finds no device |
| Deletion.DeviceReportNeedsCoherence | src/storage.rs:1012-1054 | With a contribution under another MAC than its flow's, report and cascade differ |
| Deletion.DomainDeletionIsExact | src/storage.rs:1056-1109 | The report is the number of flows changed and of aggregate and contribution rows lost |
| Deletion.DomainDeletionIsComplete | src/storage.rs:1056-1109 | Exactly the domain's contributions and minutes in the scope go, exactly its flows in the scope lose their attribution and nothing else, device minutes stay |
| Deletion.DomainDeletionIsFinal | src/storage.rs:1056-1109 | A second deletion reports zeros and changes nothing |
| Deletion.RangeDeletionIsExact | src/storage.rs:1111-1169 | The report is the number of rows lost, contributions in range and of deleted flows counted once |
| Deletion.RangeDeletionIsComplete | src/storage.rs:1111-1169 | Exactly the rows of the range and the contributions of its flows go, and the others are as before |
| Deletion.RangeDeletionIsFinal | src/storage.rs:1111-1169 | A second deletion reports zeros and changes nothing |
| Deletion.ExpiryIsExact | src/storage.rs:1539-1565 | The counts are the rows lost; in every table exactly the rows before the cutoffs, and the contributions of expired flows, go |
| StoredRows.EveryRunKeepsRows | src/domain.rs:105-149 | In every run rows stay under their own ids, with a MAC and a NAT mapping that is whole or absent |
| StoredRows.UpsertedRow | src/storage.rs:860-899 | Identity, endpoints and first_seen of a stored flow stay, last_seen, counters and state follow the snapshot, each field of the mapping follows it where it knows one, and no other row changes |
| StoredRows.UpsertedDevice | src/storage.rs:768-781 | The snapshot's device is known under its latest address and the name it had, and no other device changes |
| StoredRows.UpsertMeters | src/storage.rs:818-939 | A snapshot adds what its counters rose by to the current minute of its device, and nothing to any other |
| StoredRows.CreditIsTagged | src/storage.rs:388-423 | New bytes of an attributed flow are booked under its domain with the source and confidence of its attribution |
| StoredRows.ReattributionIsTagged | src/storage.rs:658-746 | A new attribution tags the domain minutes of all contributions of the flow |
| StoredRows.ReachableTablesArePaged | src/storage.rs:1323-1380 | The flow table of every reachable ledger has one and only one newest-first order |
| Collector.ValidateBatch | src/collector.rs:260-305 | A batch passes exactly when its ids are distinct and its flows valid; otherwise the first flaw is reported |
| DnsAttributionCache.DnsAttributionCache.AddDomainBinding | src/dns.rs:502-565 | One binding learned, refreshed or refused as stale, announced only while it is the key's sole entry |
| DnsAttributionCache.DnsAttributionCache.AddDomainBindings | src/dns.rs:502-565 | The answer is learned under every one of its addresses, and the count is the number of addresses for which it was not outdated |
| DnsAttributionCache.DnsAttributionCache.ResolvePendingObservations | src/dns.rs:464-500 | The loop over the taken queue binds what has one candidate (what that means is `DnsBinding.ResolutionBinds`), keeps the rest in order, drops what expired, and counts the updates |
| DnsAttributionCache.DnsAttributionCache.CollectFrom | src/dns.rs:108-132 | Purge, enqueue within the bound, resolve; every address of every observation that can be resolved is bound and no live binding is lost, future dates aside; nothing at all without usable answers; the invariant stays |
| DnsAttributionCache.DnsAttributionCache.LearnFlowIdentities | src/dns.rs:134-172 | Purge, learn the usable flows, resolve, with the same promise for what waits; counts the flows learned; the invariant stays |
| DnsAttributionCache.DnsAttributionCache.AttributeFlow | src/dns.rs:194-242 | Labels the flow exactly when one and only one entry of its device and destination starts no later than the flow ends and ends after the flow starts, with that entry's domain, start and end; otherwise leaves it as it was |
| DnsAttributionCache.DnsAttributionCache.AttributeFlows | src/dns.rs:188-192 | Labels each flow of the batch in place and counts the labels |
| DnsAttributionCache.DnsAttributionCache.PurgeExpired | src/dns.rs:567-596 | The purge, and exactly the number of bindings, identities and waiting observations it removed |
| DnsAttributionCache.DnsAttributionCache.RequeueResolvedBindings | src/dns.rs:262-294 | Requeues only what is still its key's sole entry; the invariant stays |
| DnsAttributionCache.DnsAttributionCache.PurgeDeviceData | src/dns.rs:297-318 | Forgets a device, as `DnsForgetting.DeviceIsForgotten` says row by row, and counts what went |
| DnsAttributionCache.DnsAttributionCache.PurgeDomainData | src/dns.rs:320-365 | Forgets a domain in its scope, as `DnsForgetting.DomainIsForgotten` says, and counts what went |
| DnsAttributionCache.DnsAttributionCache.PurgeDataRange | src/dns.rs:367-392 | Forgets a range, as `DnsForgetting.RangeIsForgotten` says, and counts what went |
| DnsCache.IndexOf | src/dns.rs:528-545 | The first entry of the domain, or the length when it has none |
| DnsInvariant.EveryCacheIsValid | src/dns.rs:457-565 | Over all interleavings each queued binding is its key's sole stored entry, no key is queued twice, no list is empty or repeats a domain, and both queues stay within 4096 |
| DnsInvariant.NothingResolvableWaits | src/dns.rs:464-500 | After a resolution exactly those observations wait that are not over and that no single device can have made |
| DnsInvariant.ResolutionPartitions | src/dns.rs:464-500 | Every observation expires, is bound to its only candidate, or waits |
| DnsInvariant.PurgesCompose | src/dns.rs:567-596 | Purging at an earlier moment first makes no difference |
| DnsBinding.AnswerIsLearned | src/dns.rs:502-565 | Under every address of the answer the list then holds, of other domains exactly the entries not over by its date, and of its own the newer entry if there was one and else its exact start and end; no other key changes |
| DnsBinding.AnswerIsAnnounced | src/dns.rs:536-562 | With room in the queue, an address of which the answer becomes the only binding is announced with it and nothing else; other addresses it was not outdated for are withdrawn, and no other announcement changes |
| DnsBinding.UpdatesAreCounted | src/dns.rs:502-565 | The count is the number of addresses that knew of no newer answer |
| DnsBinding.StepBinds | src/dns.rs:108-172 | A step of either loop binds every address of every queued observation that is not over and that one device can have made, to an entry no older than it and in force, and loses no binding in force, except under an address for which an observation dated after the clock is bound too |
| DnsBinding.CollectedIsBound | src/dns.rs:108-132 | From the raw answer: with a name, addresses, time left, room in the queue and one device among those seen in the last five minutes, each of its addresses is bound by the very step that collects it |
| DnsBinding.LearnedIsBound | src/dns.rs:134-172 | A waiting observation is bound by the step that learns the only device that can have made it |
| DnsBinding.FutureAnswerSupersedes | src/dns.rs:502-526 | A concrete cache in which an answer dated after the clock ends a binding that the same step has just made |
| DnsBinding.IdentitiesAreLearned | src/dns.rs:143-168 | Under each flow id the last flow with an IPv4 address, a device, a sane interval and recent traffic decides; an id without one is as before |
| DnsBinding.QueueKeepsTheLast | src/dns.rs:457-462 | Of what waits and what comes in the queue keeps the last 4096, in order |
| DnsBinding.UsableAnswer | src/dns.rs:429-455 | An answer is refused exactly for a bad name, no addresses, no time to live or a date at the end of time; else it waits for its time to live but no longer than five minutes |
| DnsForgetting.DeviceIsForgotten | src/dns.rs:297-318 | Afterwards no key, identity or announcement of the device is left, nor any observation that only it can have made, and everything else is exactly as before |
| DnsForgetting.DeviceIsUnlabelled | src/dns.rs:194-242 | No flow of a forgotten device is labelled, and every other flow is labelled as before |
| DnsForgetting.DomainIsForgotten | src/dns.rs:320-365 | Exactly the entries and announcements of the domain go for the devices in the scope, and its waiting observations: all of them, or for one device those that only it can have made |
| DnsForgetting.RangeIsForgotten | src/dns.rs:367-401 | Exactly the entries, announcements and observations dated in the half-open range go, and the identities that touch it |
| DnsForgetting.RangeIsUnlabelled | src/dns.rs:367-392 | No label given afterwards is dated in the range |
| DnsForgetting.OverIsForgotten | src/dns.rs:567-596 | Exactly what has ended, waited too long or been idle for more than five minutes goes |
| DnsHistory.PreparedFaithfully | src/dns.rs:429-455 | A prepared observation keeps targets, start and end of the answer, its targets are sorted without duplicates, and it waits at most five minutes |
| DnsHistory.EveryBindingHasASource | src/dns.rs:464-565 | Every binding in every reachable cache traces to an ingested answer for its target, with its exact start and end, that was not over when it was bound and whose address that device, and no other, had when it was made or up to five seconds before |
| DnsHistory.LabelledExactly | src/dns.rs:194-242 | A flow is labelled if and only if exactly one binding of its device and destination starts no later than the flow ends and ends after the flow starts, and with its domain, start and end |
| DnsHistory.EveryLabelHasASource | src/dns.rs:194-242 | So every label traces to an ingested answer in force during the flow |
| DnsAmbiguity.ContestedIsNeverBound | src/dns.rs:429-500 | An observation inside the intervals of two devices is never bound for as long as it waits, however both loops run on with their own clocks, back and forth, with widening identities and no deletion that forgets identities |
| DnsAmbiguity.GuardedStaysUnbound | src/dns.rs:464-596 | More generally, an observation that two remembered devices claim whenever it arrives is never bound: a purge that drops one of them drops the observation at the same clock |
| DnsAmbiguity.ContestedForGood | src/dns.rs:429-500 | With clocks that do not go back, not even an equal answer that arrives later is bound |
| DnsAmbiguity.AmbiguityLastsIffAnchored | src/dns.rs:567-596 | Ambiguity outlasts every purge that keeps the observation if and only if two of its devices are remembered to the last moment it waits |
| DnsAmbiguity.GraceAloneIsForgotten | src/dns.rs:11-13 | Two candidates, one of them only through the five-second grace: a purge that keeps the observation forgets that one and leaves a sole candidate |
| DnsAmbiguity.GraceAloneIsBound | src/dns.rs:464-500 | A concrete run from the empty cache in which that happens, and the observation is bound to the remaining device |
| Delivery.EverySystemIsSound | src/main.rs:261-280 | Every interleaving of threads keeps ledger and cache invariants and hands out only distinct, announced bindings |
| Delivery.FlushNeverFailsOnBooks | src/main.rs:271-280 | In every reachable system a drained batch commits and settles each of its bindings |
| Delivery.RequeueExactly | src/dns.rs:262-294 | Capacity aside, a failed batch adds to the queue exactly the bindings that are still their key's sole entry |
| Delivery.FailedFlushIsInvisible | src/main.rs:271-280 | A failed flush with nothing in between leaves the whole system as it was |
| Delivery.RetriesAreInvisible | src/main.rs:271-280 | Any number of failed attempts with nothing in between leaves whatever follows exactly as it is, the order of the queue included |
| ExactlyOnce.FailuresAreInvisible | src/main.rs:271-280 | Any number of failed attempts, with any steps of the cache during and after each, leaves the ledger alone and the queue with the members of a run without flushes, as long as what is in flight is left untouched and there is room |
| ExactlyOnce.FailuresHaveNoEffect | src/main.rs:271-280 | Then the flush that succeeds at last leaves the books, cache and batches in flight of the run in which the first flush succeeded and a second one followed the same steps |
| ManyFlushers.RunIsOneBackfill | src/main.rs:271-280 | However any number of threads drain, fail and commit, overlapping batches included, the ledger ends as after one backfill of what was committed |
| ManyFlushers.AttributionsDecideBooks | src/main.rs:271-280 | So two such runs leave the same books once they leave the same attributions |
| ManyFlushers.SparedFlowEnds | src/main.rs:271-306 | A flow that is announced one binding, spared from then on and finally delivered, or none, ends with that binding's effect or unchanged, whatever fails and whatever happens to the bindings of other flows |
| ManyFlushers.FlushersAgree | src/main.rs:271-306 | Two runs of any number of flushers, with whatever failures, in which that holds for every flow with the same binding leave the same books |
| Delivery.NothingTrueIsLost | src/main.rs:271-280 | Through any interleaving, a binding that stays its key's sole untouched entry is queued, in flight or committed |
| Delivery.RetryEqualsTimely | src/main.rs:271-280 | The ledger half of that: batches for distinct targets delivered in turn, or all their bindings in one batch, leave the same books |
| Privacy.DeletionSilences | src/web.rs:707-715 | Deleting a domain from the ledger and then from the cache leaves nothing that names it for the scope or waits to if and only if no batch in flight names it and the purge reaches every waiting observation of it: for one device, those whose only candidate it is |
| Privacy.PurgeSilences | src/web.rs:707-715 | With other threads between the two deletions, the cache purge completes the silence if and only if, besides, nothing has brought the name back into the ledger since |
| Privacy.SilenceLasts | src/dns.rs:320-365 | From then on no interleaving of threads names it again without a fresh answer or a labelled snapshot |
| Privacy.InFlightReturns | src/main.rs:271-280 | A batch in flight that names it brings it back to every unattributed flow it matches |
| Privacy.AmbiguousReturns | src/dns.rs:347-357 | A concrete run in which an ambiguous observation, kept by the deletion for one device, is then bound to that device |
| LabelledBatches.DeletionSilencesDaemon | src/main.rs:343-356 | With the batches that are labelled and not yet ingested: the deletion silences the daemon if and only if, besides, none of them names the domain for the scope |
| LabelledBatches.DaemonStaysSilent | src/main.rs:343-356 | From then on no interleaving of threads, labelling and ingestion included, names it again without a fresh answer or a snapshot that came labelled |
| LabelledBatches.LabelledBatchReturns | src/main.rs:343-356 | A labelled batch that names it brings it back to every flow that is new or not attributed |
| MainLoop.FlushDnsBackfills | src/main.rs:271-280 | A flush is a run of the system; it succeeds exactly when nothing is queued or the database is there, and then every drained binding is settled, and else nothing changed |
| MainLoop.RefreshDnsAttribution | src/main.rs:255-267 | A source error skips the collection and not the purge: afterwards no binding is over, and every recent identity is kept |
| MainLoop.CollectionTick | src/main.rs:309-380 | A tick is the run learn, collect, purge, flush, ingest; the books never refuse it; the batch's recent flows are known to the cache, and the rows of a stored batch show its last snapshots and heed their labels |
| MainLoop.DnsTick | src/main.rs:283-306 | A tick of the DNS loop is the run collect, purge, flush |
| FlowPaging.FlowPage | src/service.rs:173-293 | Admission, the query for one row more, truncation and reversal give the planned stretch of the device's rows, newest first, none of another device or beyond retention and window |
| FlowPaging.ShownRowsAreRecent | src/service.rs:173-232 | A page shows rows of its device only, none older than the retention hours or its window of 1, 6 or 24 hours in milliseconds allow |
| FlowPaging.CursorsAreChecked | src/service.rs:186-207 | A cursor is answered exactly for the device it was issued for, in its version, with a limit of 1 to 500, a flow and dates in order and past; for another device it is refused as such |
| FlowPaging.CursorsStayWithTheirDevice | src/service.rs:190-194 | Whatever cursor a page of one device offers is refused for every other |
| FlowPaging.FirstPagesAreChecked | src/service.rs:213-232 | A first page is refused for an unknown window or a limit out of bounds, defaults to 24 hours and 50 rows, and holds no more rows than its limit |
| FlowPaging.OlderQuery | src/storage.rs:1340-1359 | The forward query reads the rows after the anchor within the window, and one more |
| FlowPaging.BackwardQuery | src/storage.rs:1361-1378 | The backward query reads the rows before the anchor, nearest first, and one more |
| FlowPaging.RowAtItsKey | src/storage.rs:1345-1347 | A row's key finds its own position |
| FlowPaging.DescendingIsUnique | src/storage.rs:1334-1337 | The newest-first order of a set of rows is unique |
| PagingWalks.OwnCursorAdmitted | src/service.rs:190-207 | A cursor that a page offered is admitted later if and only if its row is not dated after the clock |
| PagingWalks.WalkVisitsEverything | src/service.rs:241-283 | Following `next_cursor` visits the newest rows in strictly descending order without repeats, in at most one page more than rows, and at the end misses none still in the last page's window |
| PagingWalks.WindowMoves | src/service.rs:208-211 | With a clock that does not go back the last page's window is the requested one at its own clock |
| PagingWalks.WalkGoesOn | src/service.rs:241-283 | Without future-dated rows a walk with a cursor left can go on |
| PagingWalks.WalkEnds | src/service.rs:241-283 | At one clock a walk can be followed to its end |
| PagingWalks.PagesAreTheWindow | src/service.rs:173-293 | At one clock the pages together are exactly the unpaged window |
| PageTurning.BackUndoesNext | src/service.rs:241-283 | At one clock the next page's previous page is the identical page, cursors included |
| PageTurning.NextUndoesBack | src/service.rs:241-283 | The previous page's next page shows the same rows, and is identical if and only if the page was read forward or the window goes on after it |
| PageTurning.BackwardPageEndsWindow | src/service.rs:241-260 | A concrete backward page that ends the window, from which back and forth leads to a different page |
| PageTurning.PreviousMeansNewerRows | src/service.rs:262-283 | `previous_cursor` is absent exactly when the page starts at the newest row |
| PageTurning.EmptyNextPage | src/service.rs:241-260 | The page after is empty exactly when this one reached the end of the window, and then it was read backward |
| Conntrack.FromEntries | src/conntrack.rs:90-103 | The index lists under each tuple exactly the entries that mention it |
| Conntrack.AssociateAgreesWithScan | src/conntrack.rs:107-126 | Matched with the only entry that has the flow's protocol, addresses and ports on either side, unmatched if and only if none does, ambiguous if and only if two do |
| Conntrack.MappingExplainsReply | src/conntrack.rs:59-76 | Translating the original by the mapping and reversing it gives the reply; there is a mapping exactly when something was translated |
| Conntrack.EnrichmentFollowsEntry | src/collector.rs:242-252 | A flow with one entry takes its state and, if the reply does not simply return, the reply's destination as translated source and its source as translated destination |
| Conntrack.EnrichmentIsSafe | src/collector.rs:242-252 | Enrichment keeps a flow valid, touches only state and mapping, and does nothing without a sole entry |

## Left out

- LateDns.LateEqualsTimely: compares domain aggregates by bytes; their source and confidence tags are those of the last writer and do depend on timing.
- BatchLaws.RepeatedUpsertIsNeutral: the update time of device rows is not modelled; the program refreshes it on every delivery.
- LateDns.DelayIsInvisible: does not cover several bindings or snapshots labelled otherwise; `Timing.TimingIsIrrelevant` and `Baselines.SameBooksIffSameBaselines` cover any two histories that end with the same attributions.
- DnsBinding.CollectedIsBound: takes room in the queue and no dates after the clock as premises; `DnsBinding.StepBinds` has neither, and `DnsBinding.FutureAnswerSupersedes` shows why dates matter.
- ExactlyOnce.FailuresHaveNoEffect: does not let a second thread flush or the ledger change between the attempts (`ManyFlushers.FlushersAgree` allows any number of threads); room in the queue, and bindings left untouched while in flight, are premises, because without them a binding is rightly not retried.
- ManyFlushers.FlushersAgree: does not let the ledger change otherwise during the run; that both runs announce a flow the same binding is a premise.
- Delivery.RetriesAreInvisible: does not let any step come between the attempts; `ExactlyOnce.FailuresAreInvisible` does.
- Delivery.NothingTrueIsLost: states capacity as a premise; a full queue of 4096 drops its oldest binding.
- PagingWalks.WalkVisitsEverything: the flow table does not change during the walk; each page reads it in one query.
- Sums of aggregates beyond 64 bits: the code guards single counters only, and so does the model.
- SQL text, schema migrations, write-ahead logging and lock timeouts.
- Device listing and renaming, summaries, top lists and minute series: read-only queries with short bodies.
- The cursor text (JSON, base64, SHA-256 of the MAC): taken as an injective encoding of its content.
- Normalisation and parsing of domain names, MACs and addresses; counters, ports and flags of packet headers.
- eBPF programs and collectors, netlink dumps and the time-based snapshot cache in front of them, the DNS proxy.
- Task scheduling, shutdown and clocks: time and the order of steps are arguments.
- Authentication, HTTP routes, pages, configuration, health tracking and the simulator.
