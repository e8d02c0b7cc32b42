# Verification of ocserv-fleet-agent

This project models the stateful core of ocserv-fleet-agent in Dafny 4.11 and proves what it keeps over every run,
every interleaving and every pattern of failures. `dafny verify dfyconfig.toml` checks all of it.

| files | component |
|---|---|
| `NonceCache`, `ReplayProtection` | the agent's replay cache (nested map, expiry heap, counter) against one flat map, and when a request can never be replayed |
| `AuditDurability`, `AuditRuns`, `AuditProgress`, `AuditReplay`, `AuditedResponses` | the audit log with its spool under arbitrary I/O faults, and the rule that no success leaves unaudited |
| `AdmissionLimiter`, `AdmissionOutcomes` | permits and gauge as an interleaved protocol of any number of tasks, and what becomes of each task |
| `RejectedAuditLimiter`, `RejectedAuditAnswers`, `RejectedAuditRate` | the token buckets for rejection audits, what each check is answered, and exactly which configurations keep the rate |
| `Cursor`, `Pagination`, `Walks`, `PageWalk` | signed cursors and keyset pages; a client's walk against any paging server, and the three handlers as such servers |
| `HealthRollup`, `HealthMeaning`, `HealthWindows` | rollups of health history and what their numbers mean; coarse buckets against fine ones; nearest-rank percentiles |
| `ControlledWrites`, `ChangeTrail`, `ChangeOutcomes` | approval of controlled writes with stale reads, its audit trail, and which operations go through |
| `AlertCandidates`, `AlertLifecycle`, `AlertCommits` | alert evaluation, silence and resolution as optimistic transactions |
| `WebhookDelivery`, `DeliveryQueue`, `DeliveryRuns`, `DeliveryOutcomes`, `DeliveryWorker` | the retry loop, and the leased delivery queue with fence tokens |
| `Restore` | replacing the database file with roll-back |
| `Redaction` | bounded redaction of JSON |
| `Outcomes`, `Ordering`, `Sorting`, `Maps` | shared helpers |

Classes carry the fields the program updates in place and are proved against functions on values; the theorems are
about those functions and about runs of them. Everything outside the program's control is a parameter: clocks, fault
patterns, interleavings, stale snapshots, random identifiers, the JSON codec, base64url and the MAC (`Codec.Faithful`
asks only that decoding inverts encoding and that encoded payloads have no dot), the webhook receiver, the picks of a
query. No fault pattern, schedule or clock is excluded unless a lemma says so.

## Modelling decisions

- Instants are integers: nanoseconds in the agent and the rollups, seconds elsewhere. Comparing canonical UTC texts is
  comparing integers. Strings are byte strings and SQL orders them bytewise.
- A request reads the clock twice, once for freshness and once for the cache. `ReplaySafety` bounds the stall between the
  two readings; `ReplaySafetyOneReading` is the case of a single reading. The cache prunes an entry at exactly its expiry,
  so replay safety is an if-and-only-if with an edge case, shown by `EdgeRequestIsReplayable`.
- Appends and file replacements of the audit log are atomic. A crash in the middle of a flush is a flush that stops and
  whose rewrite fails.
- The expiry heap is a multiset from which some earliest entry is taken; equal expiries come out in any order.
- Each SQL transaction is one step. The steps of controlled writes and alerts carry arbitrarily stale reads, so their
  theorems need only the compare-and-set, not isolation.
- Delivery claims may be kept, replayed or delayed by workers without limit, but not forged.
- In a restore every rename and removal may fail and then changes nothing. `ClaimIsTrueIff` is the exact condition under
  which the error text about the restored original state is true; the text promises it always.
- The backup taken before a restore is a copy of the database file.
- A bucket of the rejection limiter that is pruned starts again with a full burst, so the rate bound depends on the
  configuration: `RateHoldsIff` says which ones keep it, and validation accepts some that do not.
- JSON objects list their entries in iteration order. The key and value predicates of the redactors are parameters, so the
  results hold for the deny list of summaries and the allow list of alert summaries alike.

## Model

| member | source | states |
|---|---|---|
| NonceCache.RegisterWithinLimits | crates/ocfleet-agent/src/nonce.rs:66-115 | One registration never takes the cache over the global or the per-peer limit |
| NonceCache.ExpiryFits | crates/ocfleet-agent/src/nonce.rs:96-101 | An expiry is the end of the lifetime, or the present if that is beyond the last representable instant |
| NonceCache.InsertGrouped | crates/ocfleet-agent/src/nonce.rs:102-113 | Inserting a nonce under its peer in the nested map is inserting it in one flat map from (peer, nonce) to expiry |
| NonceCache.EraseGrouped | crates/ocfleet-agent/src/nonce.rs:126-146 | Removing a nonce, and its peer when it was the last one, is removing it from the flat map; no empty peer stays behind |
| NonceCache.LiveIsSumOfPeers | crates/ocfleet-agent/src/nonce.rs:150-153 | The number of live nonces is the sum of the sizes of the peers' maps |
| NonceCache.Peek | crates/ocfleet-agent/src/nonce.rs:117-125 | The heap yields an entry with the earliest expiry, whichever of several equal ones |
| NonceCache.ForgetEntry | crates/ocfleet-agent/src/nonce.rs:126-146 | A popped entry takes its nonce along exactly if that nonce still has the popped expiry; the three structures stay in step |
| NonceCache.PopDue | crates/ocfleet-agent/src/nonce.rs:117-148 | The prune loop leaves nested map, heap and counter consistent with the flat map without everything expired, with one heap entry per remaining nonce |
| NonceCache.PrunedExactly | crates/ocfleet-agent/src/nonce.rs:117-148 | What is left after pruning is the flat map without everything that has expired |
| NonceCache.Admit | crates/ocfleet-agent/src/nonce.rs:79-115 | The answer and the new structures are those of the simple rule: replay, then the peer's limit, then the global limit, then admission |
| NonceCache.Register | crates/ocfleet-agent/src/nonce.rs:66-115 | Pruning and answering together refine `NaiveRegister` on one flat map |
| NonceCache.Cache.constructor | crates/ocfleet-agent/src/nonce.rs:47-55 | A new cache is valid and empty |
| NonceCache.Cache.PruneExpiredAt | crates/ocfleet-agent/src/nonce.rs:117-148 | In place: the cache forgets exactly the expired nonces and stays valid, however many stale heap entries there are |
| NonceCache.Cache.RegisterAt | crates/ocfleet-agent/src/nonce.rs:66-115 | In place: decision and contents equal the naive drop-all-expired-then-check answer; heap, nested map, counter and both limits stay consistent |
| ReplayProtection.ValidateAndRegister | crates/ocfleet-agent/src/server.rs:999-1055 | The nonce part of dispatch on the real cache computes `Admission` on the flat map |
| ReplayProtection.AdmittedIff | crates/ocfleet-agent/src/server.rs:987-1055 | A request is admitted if and only if its deadline is in range, its nonce is well formed, it is dated within the skew and not past its deadline, no unexpired entry has its peer and nonce, and fewer than the limits are held for the peer and in all |
| ReplayProtection.PrecheckRefusals | crates/ocfleet-agent/src/server.rs:987-1013 | Each refusal before the cache reports the first condition that fails, in both directions |
| ReplayProtection.CacheRefusals | crates/ocfleet-agent/src/server.rs:1032-1055 | Each refusal of the cache reports the first condition that fails: replay, the peer's limit, the global limit |
| ReplayProtection.AdmissionContents | crates/ocfleet-agent/src/nonce.rs:66-148 | What the cache holds for every key afterwards: what it held, less the expired if it was reached, and the nonce of an admitted request until its lifetime ends |
| ReplayProtection.NonceTtlExact | crates/ocfleet-agent/src/server.rs:1645-1650 | The lifetime of a nonce is deadline plus skew, capped at 64 bits, in milliseconds |
| ReplayProtection.DeadlineIsSigned | crates/ocfleet-agent/src/server.rs:1617-1624 | The deadline is the 64-bit number of milliseconds read as signed |
| ReplayProtection.AlwaysWithinLimits | crates/ocfleet-agent/src/nonce.rs:66-115 | Every cache reachable by a run of requests respects both limits |
| ReplayProtection.Remembered | crates/ocfleet-agent/src/nonce.rs:117-148 | A nonce survives every admission that happens before its expiry |
| ReplayProtection.ReplaySafety | crates/ocfleet-agent/src/server.rs:1586-1650 | An admitted request can never be admitted again, whatever runs in between and for all later time, if and only if its nonce outlives its last fresh moment by more than the longest stall between the two clock readings of a request |
| ReplayProtection.ReplaySafetyOneReading | crates/ocfleet-agent/src/server.rs:1586-1650 | With one clock reading per request: safe for ever if and only if the request is not dated exactly at the future skew with a deadline within the skew |
| ReplayProtection.EdgeRequestIsReplayable | crates/ocfleet-agent/src/server.rs:1586-1650 | A concrete admissible request at that edge that is admitted a second time |
| AuditDurability.ContainsEventId | crates/ocfleet-agent/src/audit.rs:116-134 | The line scan finds an id exactly when the primary log has it |
| AuditDurability.ReplayRecords | crates/ocfleet-agent/src/audit.rs:254-279 | The flush loop, with an arbitrary pattern of failing lookups and writes, computes `Replay` and stops at the first failure |
| AuditDurability.Durability.FlushSpool | crates/ocfleet-agent/src/audit.rs:247-283 | In place: primary, spool and counters after a flush in which reads, lookups, writes and the rewrite may each fail |
| AuditDurability.Durability.WriteEvent | crates/ocfleet-agent/src/audit.rs:210-245 | In place: flush, then the primary, then the bounded spool; acknowledged exactly when one of the two took the event |
| AuditProgress.ReplayStops | crates/ocfleet-agent/src/audit.rs:254-279 | Replay stops exactly at the first record whose lookup fails, or whose id is neither in the primary nor in an earlier record and whose write fails; the ids up to it are in the primary |
| AuditProgress.FlushStopsAt | crates/ocfleet-agent/src/audit.rs:247-283 | A flush keeps exactly the records from the first blocked one on, unless the spool cannot be rewritten, and counts a failure exactly if records are left |
| AuditProgress.FlushSucceedsIff | crates/ocfleet-agent/src/audit.rs:247-283 | A flush succeeds if and only if the spool can be read and is empty, or no record is blocked and it can be rewritten |
| AuditProgress.FlushEmptiesSpool | crates/ocfleet-agent/src/audit.rs:276-283 | A flush that succeeds leaves an empty spool and every spooled id in the primary |
| AuditProgress.FaultlessFlush | crates/ocfleet-agent/src/audit.rs:247-283 | A flush in which nothing fails succeeds |
| AuditProgress.WriteAcknowledgedIff | crates/ocfleet-agent/src/audit.rs:210-245 | An event is acknowledged if and only if the primary takes it, or the spool can be counted, has room and can be appended to; where it ends up and which counters move |
| AuditProgress.AcknowledgedReachesPrimary | crates/ocfleet-agent/src/audit.rs:210-283 | Whatever failed in a run, the first flush that succeeds brings every acknowledged event into the primary |
| AuditRuns.AcknowledgedIsKept | crates/ocfleet-agent/src/audit.rs:210-283 | In every run and for every fault pattern, the id of an acknowledged event is in the primary or the spool at every later moment |
| AuditReplay.ReplayForm | crates/ocfleet-agent/src/audit.rs:254-279 | A flush appends exactly the handled records that the primary lacked, in spool order |
| AuditReplay.LedgerIsLog | crates/ocfleet-agent/src/audit.rs:210-283 | The files of a ledger of what was spooled and replayed are the files of every run |
| AuditReplay.LedgerInv | crates/ocfleet-agent/src/audit.rs:210-283 | In every run with fresh ids the spool is a tail of what was spooled, the spooled events in the primary are exactly those replayed, in spool order, no id is there twice, and the counters match |
| AuditReplay.ExactlyOnce | crates/ocfleet-agent/src/audit.rs:247-283 | With fresh ids, no id is in the primary twice in any run, even when the spool rewrite fails after a replay |
| AuditReplay.ReplayedInSpoolOrder | crates/ocfleet-agent/src/audit.rs:247-283 | The replayed events stand in the primary in the order in which they were spooled |
| AuditReplay.Conservation | crates/ocfleet-agent/src/audit.rs:221-283 | Unreplayed at the start plus queued equals replayed plus spool entries not yet in the primary, in the agent's own counters |
| AuditReplay.AcknowledgedEventIsKept | crates/ocfleet-agent/src/audit.rs:210-283 | The acknowledged event itself, unchanged, is in the primary or the spool after every continuation |
| AuditedResponses.AuditThenWriteResponse | crates/ocfleet-agent/src/server.rs:790-832 | What goes on the wire for a response, given the codec, the queue and the audit faults, is `Serve` |
| AuditedResponses.FrameIsEncoding | crates/ocfleet-agent/src/server.rs:883-899 | Every frame is the encoding of the response it carries and within the size limit |
| AuditedResponses.WhatIsSent | crates/ocfleet-agent/src/server.rs:790-832 | Which response a frame carries: the given one if it fits, the too-large error for the same request if not, once its event is acknowledged; otherwise the audit error for the same request; none if the error itself does not fit |
| AuditedResponses.WhatIsAudited | crates/ocfleet-agent/src/server.rs:800-843 | The log gets the event of that very response, with its outcome and length, unless the queue loses it |
| AuditedResponses.EveryFrameBacked | crates/ocfleet-agent/src/server.rs:790-843 | In every run each frame on the wire has its own acknowledged audit write, or is the audit-failure error that replaces the result |
| AuditedResponses.NoUnauditedSuccess | crates/ocfleet-agent/src/server.rs:790-843 | In every run the very event written for a success frame is in the primary or the spool, with ok set and the frame's own payload length |
| AuditedResponses.OneEventPerFrame | crates/ocfleet-agent/src/server.rs:790-843 | Different audited frames have events with different ids |
| AuditedResponses.AdvanceServes | crates/ocfleet-agent/src/server.rs:790-832 | What a step of a run does to the log and the wire is what `Serve` does, so the theorems about runs hold for the method |
| AuditedResponses.AdvanceTicks | crates/ocfleet-agent/src/audit.rs:247-283 | A tick of a run flushes the spool and sends nothing |
| AdmissionLimiter.StepConserved | crates/ocfleet-agent/src/server.rs:179-242 | Every single step of an admission or a drop conserves permits and keeps the gauge exact |
| AdmissionLimiter.AlwaysConserved | crates/ocfleet-agent/src/server.rs:115-242 | Under every interleaving of any number of tasks permits are conserved globally and per peer, and the gauge never wraps or exceeds a limit |
| AdmissionLimiter.AllReturned | crates/ocfleet-agent/src/server.rs:121-131 | When all tasks are refused or dropped, every permit is back and the gauge is zero |
| AdmissionLimiter.QuiescentAgreement | crates/ocfleet-agent/src/metrics.rs:32-42 | With no step in flight the gauge, the global permits in use and the sum of the per-peer permits in use agree |
| AdmissionLimiter.RefusalsCounted | crates/ocfleet-agent/src/metrics.rs:40-42 | Under every interleaving the rejection counter is the number of refusals less those of tasks about to count theirs: each refusal is counted exactly once |
| AdmissionOutcomes.AdmittedIff | crates/ocfleet-agent/src/server.rs:179-219 | Whatever other tasks do between its steps, a task is admitted by its own steps if and only if a global permit was free when it started and one of its peer when it looked; it then raises the gauge by one |
| AdmissionOutcomes.RefusalOutcome | crates/ocfleet-agent/src/server.rs:179-219 | A refused task counts its refusal once and returns the global permit if it had one |
| AdmissionOutcomes.DropOutcome | crates/ocfleet-agent/src/server.rs:115-131 | An admitted task that is dropped lowers the gauge by one, returns the global permit and then its peer's, whatever others do in between |
| AdmissionOutcomes.ClosingWasAdmitted | crates/ocfleet-agent/src/server.rs:115-131 | In every run a task closes only after it was admitted, with nothing else in between |
| RejectedAuditLimiter.Limiter.PruneStale | crates/ocfleet-agent/src/audit_limiter.rs:136-147 | In place: exactly the buckets idle for longer than the time to live are dropped |
| RejectedAuditLimiter.Limiter.CheckAt | crates/ocfleet-agent/src/audit_limiter.rs:96-134 | In place: prune, route to an own or the overflow bucket, refill and decide, as `Check` on values |
| RejectedAuditLimiter.RefillExact | crates/ocfleet-agent/src/audit_limiter.rs:59-67 | Refilling with saturating arithmetic is the exact capped sum |
| RejectedAuditLimiter.CheckSpendsCredit | crates/ocfleet-agent/src/audit_limiter.rs:174-206 | A check that writes costs one unit of the credit the bucket can ever have by a later time |
| RejectedAuditLimiter.RateLimit | crates/ocfleet-agent/src/audit_limiter.rs:59-147 | Over any window of a run that starts anywhere, a bucket lets through at most burst + refill * (whole seconds + 1), provided the bucket is never pruned in it or an idle bucket refills before it may be pruned |
| RejectedAuditRate.RateHoldsIff | crates/ocfleet-agent/src/audit_limiter.rs:59-147 | For every accepted configuration: that bound holds for every bucket in every window of every run if and only if the time to live in seconds times the refill per second is at least the burst |
| RejectedAuditRate.ExcessExceeds | crates/ocfleet-agent/src/audit_limiter.rs:136-147 | For every other configuration, a run built from it in which a pruned bucket starts again with a full burst and the bound is exceeded |
| RejectedAuditRate.AcceptedConfigExceeds | crates/ocfleet-config/src/agent.rs:540-571 | Burst 100, refill 1 and 60 seconds for both times pass validation and do not keep the rate |
| RejectedAuditLimiter.Conservation | crates/ocfleet-agent/src/audit_limiter.rs:96-206 | Checks equal writes plus reported suppressions plus those pending plus those pruned away |
| RejectedAuditLimiter.AlwaysBounded | crates/ocfleet-agent/src/audit_limiter.rs:96-134 | With a positive burst: never more than the configured buckets beside the overflow one, and every bucket has written |
| RejectedAuditLimiter.ReportsAreSpaced | crates/ocfleet-agent/src/audit_limiter.rs:174-206 | A write that reports suppressed events comes at least the aggregate interval after the previous write of the same bucket, with no write of that bucket in between |
| RejectedAuditLimiter.LastWriteHappened | crates/ocfleet-agent/src/audit_limiter.rs:174-206 | The last write a bucket remembers is the time of the last event of the run that it let through |
| RejectedAuditAnswers.SuppressedIff | crates/ocfleet-agent/src/audit_limiter.rs:174-206 | In every run a check of an existing bucket is suppressed if and only if the bucket has no token after its refill, or has suppressed events and its previous write is less than the aggregate interval ago; otherwise it is written and reports exactly the checks suppressed since that write |
| RejectedAuditAnswers.NewBucketWrites | crates/ocfleet-agent/src/audit_limiter.rs:96-134 | A check of a new bucket is written and reports nothing |
| RejectedAuditAnswers.SuppressedSince | crates/ocfleet-agent/src/audit_limiter.rs:174-206 | In every run the count of a bucket is the number of checks it answered since its last write |
| RejectedAuditAnswers.FoundIff | crates/ocfleet-agent/src/audit_limiter.rs:136-147 | With a clock that does not run back, a check finds its bucket if and only if the bucket's previous check is at most the time to live ago |
| RejectedAuditAnswers.OverflowIff | crates/ocfleet-agent/src/audit_limiter.rs:104-127 | The overflow bucket answers exactly the checks of keys without a bucket while all configured buckets are taken |
| Cursor.ExpiryWindow | crates/ocfleet-api/src/v1.rs:498-502 | A cursor expires at the end of a day, more than one and at most two days after it was issued |
| Cursor.ConstantTimeEqDecides | crates/ocfleet-api/src/v1.rs:557-567 | Comparing all bytes with or and xor decides equality |
| Cursor.RoundTrip | crates/ocfleet-api/src/v1.rs:481-538 | An encoded cursor is honoured if and only if it fits, its key is found and signs alike, it has not expired and resource and filters match; what is decoded is never another position |
| Cursor.SurvivesRotation | crates/ocfleet-api/src/cursor_keys.rs:70-81 | A cursor outlives a rotation that keeps its key as the previous one |
| Cursor.HonouredIsSigned | crates/ocfleet-api/src/v1.rs:504-538 | Whatever cursor is honoured is a payload of the present version for this resource and these filters, unexpired, followed by its MAC under a key of the ring |
| Cursor.FindsById | crates/ocfleet-api/src/cursor_keys.rs:70-81 | A key is found by its id, the current one first |
| Cursor.UnreadIff | crates/ocfleet-api/src/v1.rs:504-538 | A cursor is too large or malformed if and only if it is over 2048 bytes or has no dot |
| Pagination.PositionRoundTrip | crates/ocfleet-api/src/v1.rs:408-415 | A composite position is read back if and only if its columns are non-empty and free of the separator, and is otherwise refused |
| Pagination.ParsedColumns | crates/ocfleet-api/src/v1.rs:408-415 | A position that is read has as many columns as its table is ordered by |
| Pagination.OrderByCorrect | crates/ocfleet-api/src/readonly_store.rs:276-324 | The ordered rows are the same rows in strict key order |
| Pagination.OrderBySelect | crates/ocfleet-api/src/readonly_store.rs:375-400 | Filtering before ordering is filtering after ordering |
| Pagination.PageIsSlice | crates/ocfleet-api/src/readonly_store.rs:276-428 | The page after the m-th row is the next slice of the whole filtered, sorted listing |
| Walks.WalkCollectsAll | crates/ocfleet-api/src/v1.rs:190-238 | A client that follows cursors of any paging server ends, after at most one request per row, with all rows once and in order |
| Walks.OneByOneExact | crates/ocfleet-api/src/v1.rs:261-303 | With one row per page the walk is complete if and only if every cursor but the last carries its position |
| PageWalk.CursorLeadsBack | crates/ocfleet-api/src/v1.rs:504-538 | A cursor leads back to the row it was issued for or is refused, never to another row |
| PageWalk.SitePages | crates/ocfleet-api/src/v1.rs:190-374 | Each of the three page handlers is such a paging server for its filtered, sorted table, under changing limits and rotating keys |
| PageWalk.WalkCollectsListing | crates/ocfleet-api/src/v1.rs:190-374 | Following `next_cursor` to the end terminates and the pages together are the filtered, sorted table |
| PageWalk.ListingIsSortedSelection | crates/ocfleet-api/src/readonly_store.rs:276-428 | That table holds exactly the selected rows, in strict key order: nodes ascending, histories and alerts descending |
| PageWalk.OneByOneCollects | crates/ocfleet-api/src/v1.rs:190-374 | With one row per page the walk of a handler is complete if and only if every row but the last fits into a cursor and has plain columns |
| PageWalk.RefusedIff | crates/ocfleet-api/src/v1.rs:190-374 | A page is refused for its limit if and only if that is not between one and the maximum, and otherwise exactly if and why its cursor is refused |
| HealthRollup.FillSlots | crates/ocfleet-cli/src/health.rs:929-944 | The map filled by the loop has the last evaluation of every five-minute slot; it is refused exactly when a status is unknown |
| HealthRollup.LastEvaluationWins | crates/ocfleet-cli/src/health.rs:929-944 | The status of a slot is that of its last evaluation |
| HealthRollup.CoveredSlotHasLast | crates/ocfleet-cli/src/health.rs:929-944 | Only slots with an evaluation are covered |
| HealthRollup.CountersAreNamed | crates/ocfleet-cli/src/health.rs:929-948 | Each status counter counts the slots whose last evaluation has its name |
| HealthRollup.RefusedIff | crates/ocfleet-cli/src/health.rs:929-944 | A rollup is refused if and only if some status has none of the six names |
| HealthRollup.CertificateClasses | crates/ocfleet-cli/src/health.rs:966-984 | A certificate counts as critical up to 7 days, as a warning up to 30, or by its status, and never as both |
| HealthMeaning.TallyMeans | crates/ocfleet-cli/src/health.rs:950-1000 | The tallies are the numbers of observations with a result, a failure, a duration, a fingerprint, and a certificate of each class |
| HealthMeaning.ChangesMean | crates/ocfleet-cli/src/health.rs:985-1028 | The reported changes are the fingerprints that share no alias with the one observed before them |
| HealthMeaning.RollupMeans | crates/ocfleet-cli/src/health.rs:922-1050 | Covered and expected slots, errors and changes of a rollup in terms of its rows |
| HealthMeaning.WindowHolds | crates/ocfleet-cli/src/store.rs:2535-2566 | The rows a bucket is made from are those of its half-open interval, each as often as stored |
| HealthMeaning.ComputedIff | crates/ocfleet-cli/src/store.rs:2525-2574 | A bucket is computed if and only if it has at most 100000 rows of either kind and every status in it has a counter; the reason of each refusal |
| HealthRollup.CountStatuses | crates/ocfleet-cli/src/health.rs:945-948 | The six counters count the slots with each status |
| HealthRollup.ScanObservations | crates/ocfleet-cli/src/health.rs:966-1000 | Certificate warnings, criticals and fingerprint samples are the observations that satisfy the rules |
| HealthRollup.Lengths | crates/ocfleet-cli/src/health.rs:950-962 | The vector lengths and failure count reported equal the tallies of the observations |
| HealthRollup.BuildHealthRollup | crates/ocfleet-cli/src/health.rs:922-1050 | The whole rollup or the error for an invalid stored status is `RollupOf` of the source rows |
| HealthWindows.Merge | crates/ocfleet-cli/src/health.rs:922-1050 | Two adjacent aligned buckets add up to their union, with one change more if the fingerprints differ at the seam |
| HealthWindows.CoarseIsSumOfFine | crates/ocfleet-cli/src/health.rs:922-1050 | For any number of parts: the coarse totals are the sums, and the coarse changes are the sum plus the changes at the seams |
| HealthWindows.RollupsCohere | crates/ocfleet-cli/src/health.rs:922-1050 | For stored tables: status, slot, observation, error, duration-sample, certificate and fingerprint totals of a coarse bucket are the sums over its fine buckets; its changes exceed the sum by at most the non-empty parts less one |
| HealthWindows.RollupsExist | crates/ocfleet-cli/src/store.rs:2525-2574 | If a coarse bucket can be computed so can every part of it |
| HealthWindows.Coverage | crates/ocfleet-cli/src/health.rs:1030-1038 | Status counts sum to the covered slots, which are at most the expected slots |
| HealthWindows.PercentileIsNearestRank | crates/ocfleet-cli/src/health.rs:1052-1061 | The reported percentile of unsorted samples is a sample that at least p% do not exceed and fewer than p% fall below |
| HealthWindows.NearestRankUnique | crates/ocfleet-cli/src/health.rs:1052-1061 | There is only one such value |
| HealthWindows.RollupPercentiles | crates/ocfleet-cli/src/health.rs:956-964 | A rollup reports the 50th and the 95th percentile in this sense, and none exactly when it has no duration sample |
| ControlledWrites.ChangeStore.constructor | crates/ocfleet-cli/src/migrations.rs:1759-1825 | The four tables start empty |
| ControlledWrites.ChangeStore.CreateChangeRequest | crates/ocfleet-cli/src/controlled_writes.rs:380-447 | In place: a valid, signed request with an unused id, operation and nonce becomes a draft with its first audit row; anything else changes nothing |
| ControlledWrites.ChangeStore.PersistExpiryIfNeeded | crates/ocfleet-cli/src/controlled_writes.rs:706-745 | In place: a live change past its expiry is committed as expired before the error is returned |
| ControlledWrites.ChangeStore.RecordDryRun | crates/ocfleet-cli/src/controlled_writes.rs:451-511 | In place: expiry, then the requester's policy dry run with its attempt and audit row |
| ControlledWrites.ChangeStore.DecideChange | crates/ocfleet-cli/src/controlled_writes.rs:513-604 | In place: approve and reject, with the role, principal, state and uniqueness checks |
| ControlledWrites.ChangeStore.CancelChange | crates/ocfleet-cli/src/controlled_writes.rs:606-648 | In place: the requester's cancellation of a change that can still be cancelled |
| ChangeTrail.CommitShape | crates/ocfleet-cli/src/controlled_writes.rs:831-848 | Whatever state a transaction had read, it changes nothing or makes one legal move with its audit row: the compare-and-set protects against every stale read |
| ChangeTrail.AlwaysGood | crates/ocfleet-cli/src/controlled_writes.rs:380-745 | In every interleaving, the audit rows of a change start at none to draft, chain from state to state over legal edges, end at the stored state, and determine its decisions and attempts |
| ChangeTrail.SeparationOfDuties | crates/ocfleet-cli/src/controlled_writes.rs:513-604 | A decided change has exactly one decision row, by somebody other than its requester, straight after the requester's successful dry run |
| ChangeTrail.StoredStates | crates/ocfleet-cli/src/controlled_writes.rs:451-648 | Stored states are draft, dry run succeeded or failed, approved, rejected, cancelled and expired only |
| ChangeTrail.EndedForever | crates/ocfleet-cli/src/controlled_writes.rs:706-745 | A rejected, cancelled or expired change, its trail and its decisions never change again |
| ChangeTrail.AlwaysDistinct | crates/ocfleet-cli/src/migrations.rs:1762-1781 | No two changes ever share a nonce or an operation id |
| ChangeTrail.IdentityKept | crates/ocfleet-cli/src/controlled_writes.rs:831-848 | Requester, operation, nonce and expiry of a change never change, and the audit table only grows |
| ChangeTrail.OperationIsRun | crates/ocfleet-cli/src/controlled_writes.rs:451-648 | What an operation of the store does is what its one or two transactions do, so the theorems about runs hold for it |
| ChangeOutcomes.CreatedIff | crates/ocfleet-cli/src/controlled_writes.rs:380-447 | A request becomes a draft if and only if it is valid, lives at most thirty days and its id, operation and nonce are unused; each refusal has its reason |
| ChangeOutcomes.NotLiveIsRefused | crates/ocfleet-cli/src/controlled_writes.rs:706-745 | An operation on an unknown change changes nothing; on one that has run out it is refused, and a change that had not ended is stored as expired |
| ChangeOutcomes.DryRunIff | crates/ocfleet-cli/src/controlled_writes.rs:451-511 | A dry run goes through if and only if the requester makes it on a draft or after a failed one; the reasons of refusals and the state it leads to |
| ChangeOutcomes.DecisionIff | crates/ocfleet-cli/src/controlled_writes.rs:513-604 | A decision goes through if and only if the approval is live, in an approving role, by somebody else, unused, and the dry run has succeeded; the reasons of refusals and the state it leads to |
| ChangeOutcomes.DecidesOnlyInRole | crates/ocfleet-cli/src/controlled_writes.rs:513-604 | Whatever stale state its transaction has read, a decision has an effect only with a live approval in an approving role |
| ChangeOutcomes.CancelIff | crates/ocfleet-cli/src/controlled_writes.rs:606-648 | A cancellation goes through if and only if the requester makes it in one of the six open states |
| ChangeOutcomes.WaitingIsUndecided | crates/ocfleet-cli/src/controlled_writes.rs:513-604 | In every run a change whose dry run has succeeded has no decision yet |
| ChangeOutcomes.ApproverGetsThrough | crates/ocfleet-cli/src/controlled_writes.rs:513-604 | In every run, with a new approval id, only role, lifetime and being somebody else stand between a successful dry run and its decision |
| AlertCandidates.FirstSourceWins | crates/ocfleet-cli/src/alerts.rs:1072-1083 | Stable sort and dedup give strictly increasing keys, each with the first candidate the sources produced for it, and no key is lost |
| AlertLifecycle.AlertStore.WriteAlertEvaluation | crates/ocfleet-cli/src/store.rs:2978-3026 | In place: all entries whose before-image is still stored are written, or nothing is |
| AlertLifecycle.AlertStore.WriteTransition | crates/ocfleet-cli/src/store.rs:3029-3068 | In place: one row is replaced if its before-image is still stored |
| AlertLifecycle.AlertStore.EvaluateAlerts | crates/ocfleet-cli/src/alerts.rs:501-537 | In place: the entries the loop builds from a snapshot are committed as one evaluation |
| AlertLifecycle.EvaluateShape | crates/ocfleet-cli/src/alerts.rs:1283-1325 | An evaluation leaves a key alone or writes the candidate's record computed from the very row that is stored, however old its snapshot |
| AlertLifecycle.ResolutionMarked | crates/ocfleet-cli/src/alerts.rs:1005-1070 | In every run an alert has a resolution time exactly while it is resolved |
| AlertLifecycle.IdentityKept | crates/ocfleet-cli/src/alerts.rs:1304-1312 | A dedupe key keeps its alert id and first sighting for ever |
| AlertLifecycle.OneKeyPerAlert | crates/ocfleet-cli/src/store.rs:9537-9569 | In every run no two dedupe keys share an alert id |
| AlertLifecycle.SilenceHolds | crates/ocfleet-cli/src/alerts.rs:1327-1336 | A silence lasts until its time through every run without an action on that key |
| AlertLifecycle.SilenceStep | crates/ocfleet-cli/src/alerts.rs:1283-1336 | For every step: a silenced alert stays silenced unless it is resolved or evaluated at or after its current end, and only an evaluation opens it |
| AlertLifecycle.SilenceEndedBy | crates/ocfleet-cli/src/alerts.rs:1005-1070 | In every run, with any further silences of the key, a silence that is over was ended by a resolution or by an evaluation at or after the end it then had |
| AlertLifecycle.ReopensWhenDue | crates/ocfleet-cli/src/alerts.rs:1283-1325 | A committed candidate reopens a silenced alert if and only if the silence has run out |
| AlertLifecycle.EvaluationShowsCandidate | crates/ocfleet-cli/src/alerts.rs:1283-1325 | A committed candidate shows its severity and reason as seen now; delivery and silence times of the old row stay |
| AlertLifecycle.ActionTakesEffect | crates/ocfleet-cli/src/alerts.rs:1005-1070 | A silence or resolution takes effect exactly if the row it was decided on is still stored |
| AlertCommits.EvaluationCommitsIff | crates/ocfleet-cli/src/store.rs:2978-3026 | In every run an evaluation commits if and only if it has one to a thousand candidates with different keys, the rows it saw for them are still stored, and the ids of new alerts are fresh |
| AlertCommits.UpsertsIff | crates/ocfleet-cli/src/store.rs:2978-3026 | A batch of entries is written if and only if all their before-images are stored and their ids free, independent of the order |
| AlertCommits.WrittenIff | crates/ocfleet-cli/src/store.rs:2978-3026 | A write of any entries goes through if and only if they are one to a thousand, distinct, keep their ids, resolve nothing, and were computed from the stored rows |
| AlertCommits.SentIsMarked | crates/ocfleet-cli/src/store.rs:3610-3631 | A delivery is marked on its alert and changes nothing else |
| WebhookDelivery.Attempt | crates/ocfleet-cli/src/alerts.rs:921-988 | One request leaves the row of the receiver's answer and is retried exactly after a retryable failure |
| WebhookDelivery.DeliverOne | crates/ocfleet-cli/src/alerts.rs:919-989 | The retry loop for one alert leaves the rows `Tries`, the last error and the bytes sent |
| WebhookDelivery.DeliverWebhookAlerts | crates/ocfleet-cli/src/alerts.rs:872-999 | Ok if and only if every alert goes through; otherwise the rows stop with the first alert that does not; the byte total is the sum over successes; each refusal has its reason and sends nothing; a dry run sends nothing |
| WebhookDelivery.TriesShape | crates/ocfleet-cli/src/alerts.rs:921-989 | Attempts are numbered 1, 2, ... up to the maximum, tell what the receiver answered, and all but the last are retryable failures |
| WebhookDelivery.ThroughIffAccepted | crates/ocfleet-cli/src/alerts.rs:919-995 | An alert goes through if and only if some allowed attempt gets a status of the 200 class and all before it were lost, timed out or got one of the 500 class |
| WebhookDelivery.StatusNames | crates/ocfleet-cli/src/alert_webhook.rs:301-309 | The error recorded for a status is that of its class |
| WebhookDelivery.FailsAtLast | crates/ocfleet-cli/src/alerts.rs:919-995 | The last error is that of the first attempt not worth another, or of the one that uses up the attempts |
| WebhookDelivery.SentOnce | crates/ocfleet-cli/src/alerts.rs:921-947 | Every alert that goes through is recorded as sent exactly once, no other alert ever |
| WebhookDelivery.NoAttemptsNoRows | crates/ocfleet-cli/src/alerts.rs:919-995 | With a maximum of zero attempts the call reports success and has sent nothing |
| WebhookDelivery.DryRowsAre | crates/ocfleet-cli/src/alerts.rs:893-917 | A dry run leaves one row an alert, in order, with the size of its request and no error |
| DeliveryQueue.RecoverLapsed | crates/ocfleet-cli/src/store.rs:8254-8314 | The recovery loop returns lapsed claims to the queue without touching attempt counts or fences |
| DeliveryQueue.QueueStore.constructor | crates/ocfleet-cli/src/migrations.rs:1500-1526 | The queue starts empty |
| DeliveryQueue.QueueStore.Enqueue | crates/ocfleet-cli/src/store.rs:3326-3441 | In place: a new item is pending; the same request again changes nothing; a reused id or idempotency key is refused |
| DeliveryQueue.QueueStore.ClaimNext | crates/ocfleet-cli/src/store.rs:3443-3516 | In place: lapsed claims are recovered and a due item is leased under the next fence |
| DeliveryQueue.QueueStore.Renew | crates/ocfleet-cli/src/store.rs:3518-3566 | In place: only the holder of the running lease under the current fence extends it |
| DeliveryQueue.QueueStore.WriteOutcome | crates/ocfleet-cli/src/store.rs:3568-3651 | In place: only that holder records an attempt; success, retry or dead letter follow from the outcome |
| DeliveryQueue.QueueStore.Defer | crates/ocfleet-cli/src/store.rs:3653-3710 | In place: only that holder gives the item back |
| DeliveryRuns.AlwaysGood | crates/ocfleet-cli/src/store.rs:3443-3710 | In every interleaving of workers the attempts of an item are numbered without gaps up to its count, at most five, each under its own fence; it has succeeded exactly if the last did; a claim that could still write is the current holder's |
| DeliveryRuns.SpentForever | crates/ocfleet-cli/src/store.rs:3595-3631 | A fence once given up never renews, finishes or defers again, whatever happens later |
| DeliveryRuns.GivenUp | crates/ocfleet-cli/src/store.rs:8254-8314 | Finishing, deferring and losing the lease to recovery give the fence up |
| DeliveryRuns.LeaseExcludes | crates/ocfleet-cli/src/store.rs:3454-3497 | A claim step before the end of a lease leaves the item and its claims alone |
| DeliveryRuns.LeaseHolds | crates/ocfleet-cli/src/store.rs:3443-3566 | In every run whose claims come before the end of the lease then in force, an item its holder has not given up stays with that owner, fence and attempt count, and no claim of another owner or fence is issued on it |
| DeliveryRuns.WaitsUntilDue | crates/ocfleet-cli/src/store.rs:3459-3483 | An item that waits for its next attempt is left alone until that time in every run |
| DeliveryRuns.EndedForever | crates/ocfleet-cli/src/store.rs:3568-3631 | A delivered or dead item and its attempts never change again |
| DeliveryOutcomes.EnqueuedIff | crates/ocfleet-cli/src/store.rs:3326-3441 | A new id and key make a pending item that is due at once; the same request again changes nothing; any other reuse is refused |
| DeliveryOutcomes.ClaimedIff | crates/ocfleet-cli/src/store.rs:3443-3516 | A claim is granted if and only if the lease is 30 to 600 seconds and the item waits and is due, or its lease has run out and is recovered; what the claim says and how long it holds |
| DeliveryOutcomes.ClaimRecovers | crates/ocfleet-cli/src/store.rs:8254-8314 | Every other item is left alone or, if its lapsed lease was to be recovered, returned to the queue |
| DeliveryOutcomes.RenewedIff | crates/ocfleet-cli/src/store.rs:3518-3566 | A renewal is granted if and only if the claim is valid and still held; it then holds until the new end |
| DeliveryOutcomes.FinishedIff | crates/ocfleet-cli/src/store.rs:3568-3651 | An outcome is recorded if and only if it is consistent and the lease is still held; it ends the item, sends it back until its retry time, or makes it a dead letter |
| DeliveryOutcomes.DeferredIff | crates/ocfleet-cli/src/store.rs:3653-3710 | A deferral is granted if and only if it is at most an hour and the lease is still held |
| DeliveryOutcomes.RetrySleeps | crates/ocfleet-cli/src/store.rs:3595-3631 | An item to be tried again is left alone by every run until its retry time and handed out to a claim from then on |
| DeliveryOutcomes.DeferredSleeps | crates/ocfleet-cli/src/store.rs:3653-3710 | A deferred item is left alone by every run until its time and handed out from then on |
| DeliveryOutcomes.EnqueuedIsReady | crates/ocfleet-cli/src/store.rs:3326-3483 | A new item is handed out to the first claim for it from its enqueue time on |
| DeliveryOutcomes.StepIsTransaction | crates/ocfleet-cli/src/store.rs:3326-3566 | A step of a run is the transaction of its request; a claim never handed out renews nothing |
| DeliveryWorker.Report | crates/ocfleet-cli/src/alerts.rs:321-405 | One attempt of a worker is recorded, or refused by the queue, and counted by what became of the item: delivered, sent back or dead |
| DeliveryWorker.ReportTaken | crates/ocfleet-cli/src/alerts.rs:321-405 | What a worker reports is taken if and only if it still holds its claim when it is done and its times are in order; the item is then delivered, sent back until the retry time, or dead |
| DeliveryWorker.HoldsAMinute | crates/ocfleet-cli/src/alerts.rs:276-286 | What the worker is given it holds for exactly a minute |
| DeliveryWorker.SleepsAMinute | crates/ocfleet-cli/src/alerts.rs:287-303 | What it defers is left alone by every run for a minute and handed out from then on |
| DeliveryWorker.TakeTurn | crates/ocfleet-cli/src/alerts.rs:269-317 | One turn of the worker: claim; if an item is given, defer it if its group has had its share and attempt it otherwise; go on exactly if the queue took that |
| DeliveryWorker.RunOnce | crates/ocfleet-cli/src/alerts.rs:212-319 | All the worker does is a run of the lease protocol and its counters are what the run amounts to; no group is tried more than three times and it is then deferred; it stops only after its deliveries or rounds, when nothing is due, or with an error when a write is refused |
| DeliveryWorker.TallyAddsUp | crates/ocfleet-cli/src/alerts.rs:300-319 | The counts of every run add up and its attempts are the rows recorded |
| Restore.Directory.Move | crates/ocfleet-cli/src/backup.rs:316-328 | A rename moves the file or changes nothing |
| Restore.RenameMoves | crates/ocfleet-cli/src/backup.rs:316-328 | A rename succeeds if and only if it is possible and there is a file; that file then takes the place of the other and nothing else changes |
| Restore.Directory.Drop | crates/ocfleet-cli/src/backup.rs:607-613 | Removing a file that may be absent |
| Restore.Directory.RestoreOriginalFiles | crates/ocfleet-cli/src/backup.rs:615-636 | In place: the roll-back, stopping at the first failure |
| Restore.Directory.ReplaceDatabase | crates/ocfleet-cli/src/backup.rs:316-328 | In place: the originals aside and the staged image in, stopping at the first failure |
| Restore.Directory.Apply | crates/ocfleet-cli/src/backup.rs:254-381 | In place: the whole restore for every pattern of failures is `ApplyRestore` |
| Restore.ClaimIsTrueIff | crates/ocfleet-cli/src/backup.rs:329-362 | The error that says the original state is restored is right if and only if the database could be set aside and verification left no sidecar that was not there before |
| Restore.MoveInIff | crates/ocfleet-cli/src/backup.rs:316-328 | The new image gets in if and only if every rename that applies to a present file succeeds |
| Restore.PutBackNeverFails | crates/ocfleet-cli/src/backup.rs:335-362 | A roll-back whose operations and sync all succeed is never reported as failed |
| Restore.FailedFirstMoveLosesTarget | crates/ocfleet-cli/src/backup.rs:615-624 | Whenever the first rename fails, the roll-back removes the database in place |
| Restore.OriginalKept | crates/ocfleet-cli/src/backup.rs:316-362 | If the database could be set aside, then whatever fails each original file is in its place or set aside, until the restore is complete |
| Restore.PrebackupKept | crates/ocfleet-cli/src/backup.rs:293-306 | The backup taken first holds the original database in every case |
| Restore.DoneMeansReplaced | crates/ocfleet-cli/src/backup.rs:363-377 | A completed restore has the staged image in place, no original sidecar, and reports exactly the sidecars it removed |
| Restore.RefusedMeansUntouched | crates/ocfleet-cli/src/backup.rs:293-314 | A restore that fails before the move leaves the three database files untouched |
| Restore.OutcomeIff | crates/ocfleet-cli/src/backup.rs:254-381 | Each of the five ways a restore can end, if and only if the operations that decide it succeed or fail |
| Restore.CleanupKeepsImage | crates/ocfleet-cli/src/backup.rs:363-377 | A restore whose clean-up fails has the image in place all the same |
| Restore.StageDropped | crates/ocfleet-cli/src/backup.rs:254-381 | The staged image is gone at the end if and only if it can be removed, got in, or was never made |
| Restore.FailedRemovalKeeps | crates/ocfleet-cli/src/backup.rs:615-636 | A file that the roll-back cannot remove stays as it is |
| Redaction.SafeIsClean | crates/ocfleet-api/src/projections.rs:239-275 | A redacted summary is clean: bounded depth and width, kept keys only, every string the marker or safe |
| Redaction.CleanIsKept | crates/ocfleet-api/src/projections.rs:239-275 | A clean value passes unchanged |
| Redaction.SummaryFixedPoints | crates/ocfleet-api/src/projections.rs:231-320 | A value passes unchanged if and only if it is a clean object; redacting twice is redacting once |
| Redaction.ShownWasSafe | crates/ocfleet-api/src/projections.rs:239-275 | Every string a summary shows is the marker, or was in the value and passed the checks |
| Redaction.SummaryIsBounded | crates/ocfleet-api/src/projections.rs:22-24 | A summary has at most 1 + 32 + ... + 32^4 nodes, however large the value |
| Redaction.SummaryLevel | crates/ocfleet-api/src/projections.rs:239-275 | Each level of a summary keeps every field with a surviving key and every item, in order and each redacted by itself, unless it has more than 32 entries or lies below the fourth level |
| Redaction.RedactIsSafe | crates/ocfleet-cli/src/audit_export.rs:271-339 | In both modes: at most 64 entries a level and 8 levels, forbidden keys show the marker, identifiers the marker or a digest, and every other string is the marker or allowed under its key |
| Redaction.DetailLevel | crates/ocfleet-cli/src/audit_export.rs:271-339 | Each level of a detail keeps its first 64 entries in order, with the marker under a forbidden key, the digest of a string or the marker under an identifier, and the entry redacted by itself otherwise |
| Redaction.DetailFixedPoints | crates/ocfleet-cli/src/audit_export.rs:267-326 | In both modes a detail passes unchanged if and only if it is clean |
| Redaction.RedactTwiceIffNoMasks | crates/ocfleet-cli/src/audit_export.rs:267-339 | Redacting twice is redacting once for every detail if and only if no key is masked: always in the standard mode, not in the strict one |

## Left out

- Physical behaviour of SQLite, of file systems and of torn writes, and malformed lines in the spool file.
- Cryptography, base64url, hexadecimal and JSON texts: parameters of the cursor codec and of request signing.
- The handshake gate of the limiters: a single semaphore without a per-peer part.
- The heap inside the nonce cache: its sift operations belong to the standard library.
- RBAC tables, method catalogues, path-probe dispatch and error-code names: finite tables that would only add easy members.
- Which due item a claim picks, and the limits of 1000 and 100 rows in the claim and recovery queries: the model lets any due item be picked and any lapsed claims be recovered.
- The enqueue loop of the delivery worker, its backoff delays and the check that hook and alert exist on enqueue.
- Replays of already committed alert and delivery writes by their operation id: the identifiers are fresh in every call.
- Overflow of the delivery byte count and failing store writes during webhook delivery.
- The input watermark of a rollup, the recompute window of 31 days and the refresh of many nodes.
- Parsing of certificate and fingerprint summaries: an observation carries the parsed days, status and aliases.
- The key lists and string predicates of the redactors, and the digest that masks identifiers: parameters.
- Rendering of metrics, command-line parsing and printing.
- RateLimit: assumes that the bucket is never pruned or that an idle bucket refills before pruning; `RateHoldsIff` is the exact condition on configurations.
- SilenceHolds: leaves out runs with actions on the key; `SilenceEndedBy` covers every run.
- LeaseExcludes: about one step; `LeaseHolds` is about runs.
- DeliverWebhookAlerts: takes the hook, the secret check and the endpoint check as given booleans.
