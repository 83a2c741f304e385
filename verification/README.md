# Verification model of the timestamp gateway

The gateway sells OpenTimestamps proofs over Lightning: a client pays an invoice bound to a
SHA-256 digest, presents an L402 token, and receives a proof stamped by the operator's calendar;
`/upgrade` later asks the calendar for the Bitcoin attestation. Two scripts beside it watch its
health and back up its state. This project models the parts of `main.py`,
`ops/health-monitor.sh` and `ops/backup-live-state.sh` where order of writes, shared state or
arithmetic decide whether a promise holds, and proves those promises for every input, every run
and every interleaving.

`dafny verify dfyconfig.toml` checks everything.

## How the source is modelled

| files | what |
|---|---|
| `ProofTree.dfy`, `Calendar.dfy`, `Upgrade.dfy`, `Inspection.dfy` | the `/upgrade` walk: a suspended generator over a proof tree that merges grow, an adversarial calendar that trickles, both budgets; then the answers of `/verify` and `/upgrade` |
| `Obligations.dfy`, `PaidDoor.dfy` | the obligation table, stamping and one sweep in the code's order of writes; then the paid door as a transition system with any number of requests, one sweeper and crashes between any two steps |
| `RateLimit.dfy` | the per-peer token buckets over one FIFO-evicting table |
| `ProbeCache.dfy` | the single-flight, serve-stale probe cache as interleaved accesses to a lock and two cells |
| `L402.dfy`, `Decimal.dfy` | token minting, attenuation and verification over real strings, with decimal numerals |
| `Redemption.dfy` | token and paid door together, from challenge to proof |
| `BodyCap.dfy` | the request body cap around an arbitrary application and transport |
| `HealthMonitor.dfy`, `Backup.dfy` | the two scripts as state machines, with failures of deliveries, probes, file writes and top-level commands |
| `ProofCache.dfy`, `OrderedDict.dfy` | the bounded proof cache and the insertion-ordered dictionary under it |
| `Wrappers.dfy`, `Reals.dfy` | `Option`, `Result`, two facts about reals |

What updates state step by step is a method or a class with fields; its `ensures` gives its whole
new state through a function or predicate of the old one, and the lemmas beside it say what that
means over whole runs. The calendar, the wallet, the clock, the network, SQLite statements and
shell commands are parameters: scripts or steps chosen by an adversary. HMAC and hashing are free
constructors. Time and tokens are reals. Serializing and deserializing a proof are inverse, and
the library's `merge` is the function `ProofTree.Merge`: it requires equal messages, adds
attestations, and descends operation by operation into the child already there or a fresh one.

Where the code and its own words part, the model follows the code.

* The probe cache's documentation says only a cold start waits for the first reading. The code
  publishes `at` before `result` (main.py:1712-1713), so a caller between the two writes of the
  first probe is served the initial `None`: `ProbeCache.NoneIsReturnedExactlyInTheWindow` and
  `ProbeCache.NoneReturnableExactlyBeforeFirstResult` say exactly when; with the other order of
  writes it never happens (`ProbeCache.ResultFirstAlwaysAnswers`).
* The alarm script keeps the stall clock across failed probes (ops/health-monitor.sh:70-73), but a
  failed probe drops the marker from the condition, so a recovery can go out while the clock runs
  past its threshold: `HealthMonitor.RecoveryDuringStallExactly`.
* The stall file can fail to be written or removed, and the script goes on
  (ops/health-monitor.sh:104, 113): `HealthMonitor.ClockIsLostExactly` says when the file then
  leaves the promised clock. A state file that cannot be replaced lets a recovery be delivered
  twice: `HealthMonitor.DeliveriesAlternateExactly`. Only a failed temporary file stops the run
  (ops/health-monitor.sh:130-135).
* The first bad condition is not alarmed if it reads as the empty string, no state file exists and
  the clock is below the re-alert interval (ops/health-monitor.sh:118-124, 149, 170):
  `HealthMonitor.BadConditionIsAlarmed`, `HealthMonitor.EmptyConditionStaysQuiet`.
* A backup run with an unknown boundary setting exits without writing any status file
  (ops/backup-live-state.sh:382-385); so does one with an invalid `BACKUP_KEEP`; and a fault
  inside the final write ends the run without the trap, which does not cover functions:
  `Backup.SilentExactly`.
* The comment at main.py:1132-1138 limits each lookup to UPGRADE_QUERY_TIMEOUT. That timeout is one
  of socket inactivity: `Calendar.OutlastsTheTimeoutExactly` says which lookups take longer. What
  bounds every lookup is the time left of the request's budget.

## Model

| member | source | states |
|---|---|---|
| Upgrade.Walk.Next | main.py:1159-1162 | resuming the generator on the tree as it now is never finds a dictionary changed under a live iterator, yields only nodes not yielded before, and finishes only when every node of the tree has been yielded |
| Upgrade.Advance | main.py:1159-1162 | the loops over children from the innermost out keep the walk's invariant: yielded nodes are closed under parents and each has had exactly its first k children yielded |
| Upgrade.AllYielded | main.py:1159-1162 | a walk with no open frame has yielded every node of the tree |
| Upgrade.NothingYieldedBelow | main.py:1157-1162 | no descendant of the node just yielded has been yielded |
| Upgrade.OthersUntouched | main.py:1159-1162 | a merge at the node just yielded leaves every other yielded node, and so every dictionary being iterated, as it was |
| Upgrade.GrowthKeepsWalk | main.py:1162-1222 | merging into the current node keeps the suspended walk valid on the grown tree |
| Upgrade.Timestamp.UpgradePending | main.py:1149-1222 | terminates against any calendar; the final tree is the original with exactly the found answers merged in order; every query was asked properly; the tally counts the log; says exactly when it stops anchored and when budget-exhausted |
| Upgrade.Resumed | main.py:1162-1170 | one turn of the loop keeps walk and bookkeeping, and either ends, or asks one more query, or yields one more node of an unchanged tree (the termination measure) |
| Upgrade.Visit | main.py:1163-1167 | only a pending node whose commitment was not yet seen is asked about, and every pending node yielded so far is covered by the log |
| Upgrade.Consult | main.py:1168-1221 | budget check, lookup, tally and merge for one commitment: only the subtree of the current node grows |
| Upgrade.Tallied | main.py:1155-1216 | each outcome moves exactly its own counters; an abandoned worker counts as failed and exhausts the budget |
| Upgrade.MergeAllGrows | main.py:1211-1217 | every node, message, attestation and operation of the original proof is still there, in place, after any merges |
| Upgrade.MergeAllAttests | main.py:1211-1217 | the upgraded tree attests exactly what the original and the merged answers attest |
| Upgrade.RanMerges | main.py:1211-1217 | every answer counted as found was about the commitment it was merged at |
| Upgrade.QueriesAreDistinct | main.py:1139-1170 | at most eight queries, for pairwise distinct commitments |
| Upgrade.QueriesArePending | main.py:1163-1164 | every commitment asked about is that of a node of the upgraded proof with a pending attestation |
| Upgrade.OnlyTheLastIsAbandoned | main.py:1192-1196 | after an abandoned worker nothing more is asked |
| Upgrade.OutcomeLogged | main.py:1168-1221 | each logged outcome and wait is the one the calendar's bytes and the time then left determine |
| Upgrade.OutcomesLoggedExactly | main.py:1189-1221 | each query is found exactly when an answer about its commitment arrived complete in time (every pause within the socket timeout, all of them within the time left), and not found, unmergeable, failed or abandoned exactly by the calendar's own bytes and times |
| Calendar.OutcomesExactly | main.py:1175-1221 | the same for one lookup, with how long it was waited for |
| Calendar.SumSplits | main.py:1189-1191 | pauses add up |
| Upgrade.EachWasAsked | main.py:1163-1191 | every query was put within both budgets, for a pending commitment of the tree as it then was, not asked before |
| Calendar.OutlastsTheTimeoutExactly | main.py:1132-1191 | a lookup outlasts UPGRADE_QUERY_TIMEOUT exactly when that much time is left and the bytes arriving in time take longer, never end, or are followed by a silence |
| Calendar.ReadsAreBounded | main.py:1175-1191 | each pause costs at most the smaller of the timeout and the time left; a calendar that never sends a byte costs exactly that |
| Upgrade.TimeBudgetHolds | main.py:1140-1191 | all lookups together are waited for at most fifteen seconds and end within fifteen seconds of the start |
| Upgrade.TallyAddsUp | main.py:1155-1156 | queries are found, not found, failed and unmergeable ones together; failed equals queries exactly when every lookup raised or was abandoned |
| Upgrade.AnchoredIffBitcoin | main.py:1218-1221 | for a proof without a Bitcoin attestation, anchored holds exactly when the final tree has one, and exactly when an answer about its query's commitment arrived complete in time carrying one |
| Upgrade.BitcoinComesFromAnswers | main.py:1144-1221 | the merged tree has a Bitcoin attestation exactly when the original or such an answer had one |
| Upgrade.NothingPendingIsMissed | main.py:1162-1222 | a walk ending neither anchored nor exhausted has asked about every pending node of the final tree, those its merges added included |
| ProofTree.Merge | main.py:1211-1214 | merging touches only the receiver's subtree, only adds, and keeps the tree well formed |
| ProofTree.MergeRootAttests | main.py:1211-1214 | a merged tree attests exactly what either side attested |
| Inspection.UpgradeOts | main.py:1225-1258 | the answer of /upgrade: a file that is not pending is answered as /verify does and causes no calendar contact; otherwise status, attestations, bytes and info follow from the walk |
| Inspection.WalkFacts | main.py:1239-1255 | anchored and all-failed exclude each other, and each means what the final tree and the log say |
| Inspection.StatusNeverContradictsTheAttestations | main.py:1066-1258 | verified is null exactly for the attested status; that status holds exactly when a Bitcoin attestation on the client's digest is shown; pending and unavailable never show one |
| Inspection.VerifyAgreesWithUpgrade | main.py:1119-1258 | /verify of the bytes /upgrade returned gives the same digest, status and Bitcoin flag, and the same attestations, or a subset when the bytes are the client's own |
| Inspection.UpgradeOnlyGrows | main.py:1225-1258 | the file digest never changes, no attestation is lost, and any answer short of attested returns the original bytes |
| Inspection.AttestedIffSomeoneAttested | main.py:1105-1249 | a file about this digest comes back attested exactly when it was attested, or was pending and an answer about a queried commitment arrived complete in time with a Bitcoin attestation |
| Inspection.UnavailableIffNothingAnswered | main.py:1250-1256 | calendar_unavailable exactly when the calendar was asked and for every query no complete answer arrived in time or the lookup raised |
| Inspection.UpgradeIsIdempotent | main.py:1232-1238 | upgrading an attested answer's bytes again asks nothing and returns them |
| Inspection.VerifyExactly | main.py:1066-1129 | every status of /verify exactly: no proof, a proof of another digest, a Bitcoin attestation, a pending one, neither; and each flag |
| Inspection.UpgradeInfoExactly | main.py:1240-1258 | the info counts the queries, at most eight, and calls the budget exhausted exactly when, short of anchored, a worker was abandoned or a pending commitment left unasked |
| Inspection.GrownListsMore | main.py:1019-1041 | a grown proof's attestation list holds every attestation at least as often |
| Obligations.StampDigest | main.py:1526-1560 | succeeds exactly when some attempt within the limit gets an answer about the digest; the proof is from the first such answer |
| Obligations.Store.RecordObligation | main.py:606-620 | inserting is idempotent on the payment hash and never changes an existing row |
| Obligations.Store.MarkObligationStamped | main.py:623-632 | only the status of that row changes |
| Obligations.Store.CachePut | main.py:467-472 | the bounded put, keeping every cached proof about its row's digest |
| Obligations.Store.SelectOwed | main.py:649-655 | the snapshot lists exactly the owed rows, each once |
| Obligations.Store.SweepRow | main.py:657-680 | bump, stamp, cache, mark: the row is stamped exactly when its stamping succeeded and the mark did not raise; the cache gains exactly the proof from the first answer that stamps |
| Obligations.Store.SweepOnce | main.py:642-680 | a fault-free sweep tries every snapshot row once; a fault leaves earlier rows done, later ones untouched and the faulting one owed |
| Obligations.Store.SweeperTick | main.py:683-692 | a pause of either kind changes nothing; otherwise one sweep |
| Obligations.SweepConverges | main.py:657-680 | after a full sweep the rows still owed are exactly the snapshot rows whose stamping failed, each with one more attempt; none with a working calendar |
| Obligations.SweepLosesNothing | main.py:642-680 | a sweep, interrupted or not, removes no row, changes no digest, un-stamps nothing and adds nothing owed |
| Obligations.StillOwedExactly | main.py:642-701 | over any number of ticks, each running through or ended by an error at any row: no row lost, no digest changed, attempts grow by at most one a tick, and a row is owed exactly when it was and every tick that finished it failed to stamp it |
| Obligations.CleanTickConverges | main.py:642-701 | however the ticks before went, one full tick with a working calendar leaves nothing owed |
| PaidDoor.StepKeepsInv | main.py:1880-1914 | every step of any request, the sweeper, the world or a crash keeps the invariant and only grows what is durable |
| PaidDoor.RunsOnlyGrow | main.py:606-680 | over every interleaving with crashes: rows are never removed, digests never change, status only goes from owed to stamped |
| PaidDoor.RowsArePaidFor | main.py:1880-1899 | every row's payment is settled, for its digest, at or above its token's price; a stamped row's digest was accepted by the calendar |
| PaidDoor.EveryTwoHundredIsAProof | main.py:1886-1914 | every 200 carried an accepted proof of the digest asked for, fresh or cached, before or after restarts, and its payment has a row |
| PaidDoor.FreshTwoHundredIsDischarged | main.py:1899-1914 | the row of a 200 with a fresh stamp is stamped, for good |
| PaidDoor.CacheHoldsProofsOfMemos | main.py:1886-1909 | a cached proof is a proof of the wallet's memo for its hash, the hash has a row, and the cache is bounded |
| PaidDoor.FinishedSweepTriedEveryRow | main.py:657-680 | whatever requests ran meanwhile, a sweep that ends has tried each snapshot row exactly once, and a row still owed is one whose stamp failed |
| PaidDoor.ThreadIsNoSweep | main.py:1899-1909 | a request's writes never undo the sweeper's and never count as its attempts |
| PaidDoor.EverySweepConverges | main.py:642-692 | every sweep from every reachable state, whatever requests run meanwhile: at its end each row owed at its start was tried once, a row of that time still owed is one whose stamp failed in it, and with no failed stamp only rows recorded since are owed |
| PaidDoor.SweepGoesOn | main.py:649-680 | nothing but a crash, an error or its end takes a sweep's snapshot away, and only a failed stamp of its own makes a row fail |
| PaidDoor.CrashThenSweepClears | main.py:642-692 | progress: after a crash in any reachable state, one full sweep with a working calendar can run, and ends with nothing owed |
| PaidDoor.SweepThrough | main.py:657-680 | the rest of a sweep can run to its end by the sweeper's own successful steps, which leaves nothing owed |
| PaidDoor.RowsTurn | main.py:657-680 | one row's turn with a working calendar counts the attempt, leaves the proof in the cache and marks the row |
| Redemption.TokenRedeemsExactly | main.py:1306-1359 | an invoiced challenge's token, whatever was appended, redeems exactly for its own digest, with satisfied caveats, once its invoice is settled; no clock and no current price enters |
| Redemption.StaysRedeemable | main.py:1563-1591 | once a token redeems it does so after any steps of anyone and any crash |
| Redemption.RedeemedWasMintedAndPaid | main.py:1306-1359 | what redeems without the key was minted for the digest and is paid at its minted price |
| Redemption.RedeemedRequestIsServed | main.py:1876-1914 | from any reachable state a request that redeems can run on to a 200 with a proof of its digest, if the gateway is not paused and the calendar works |
| Redemption.ServedFresh | main.py:1876-1914 | a verified claim not in the cache is recorded, stamped, cached, marked and served: at the end the row is stamped and the cache holds the proof served |
| Redemption.ServedFromCache | main.py:1886-1897 | a verified claim in the cache is answered with that very proof and nothing else is written |
| Redemption.ReplayGetsTheSameProof | main.py:1886-1914 | a token presented again gets the same proof without another stamp |
| Redemption.UnpaidGetsNothing | main.py:1883-1884 | a claim the wallet does not back ends there and leaves the gateway as it was |
| Redemption.BuyingAProof | main.py:1876-1937 | challenge, settlement and presentation lead from any reachable state to a fresh proof and a stamped row |
| RateLimit.RateBuckets.RetryAfter | main.py:506-531 | the in-place bucket update answers and leaves the table as the specification of one call says, within the table's bound |
| RateLimit.RefillComposes | main.py:515-518 | refilling in two steps equals refilling once, cap included |
| RateLimit.DeniedCallIsInvisible | main.py:515-531 | a denied call evicts nothing and leaves a table no later call can tell from the one before |
| RateLimit.SameCallSameEffect | main.py:506-531 | indistinguishable tables answer and evict alike and stay indistinguishable |
| RateLimit.ErasureKeepsOutcomes | main.py:506-531 | deleting any denied calls from any run leaves every other decision and every eviction unchanged |
| RateLimit.ErasureKeepsTable | main.py:506-531 | ... and the final key order and every peer's worth at every later time |
| RateLimit.ChargeIsConserved | main.py:515-531 | an admission is paid from the peer's worth, which grows only by accrual and an eviction's fresh bucket |
| RateLimit.AdmissionCostsOne | main.py:515-531 | an admitted call lowers its peer's worth by exactly one token, a denied call by none |
| RateLimit.WorthHolds | main.py:515-531 | a peer's worth falls by its own admitted calls only |
| RateLimit.TokensAreGood | main.py:515-531 | a peer worth k tokens has its next k calls admitted, whenever they come and whatever the others do |
| RateLimit.NewPeerHasABurst | main.py:475-531 | a peer without a bucket has its first n calls admitted, however close together |
| RateLimit.AdmissionLedger | main.py:515-531 | tokens left plus calls admitted are at most initial worth plus accrual plus n per eviction |
| RateLimit.AdmissionBound | main.py:475-531 | a peer evicted e times over T seconds is admitted at most (1+e)n + Tn/60 times |
| RateLimit.PatientPeerIsNeverDenied | main.py:515-531 | a peer spacing its calls 60/n seconds apart is never denied, whatever the others do |
| RateLimit.RetryAfterIsExact | main.py:519-531 | after a denial answering r >= 1, the peer's next call from now+r on is admitted despite denied calls between; until now+r-1 it is denied unless evicted |
| RateLimit.RetryAfterIsTight | main.py:519-524 | waiting r seconds accrues the missing token, waiting r-1 does not |
| RateLimit.WaitingEnds | main.py:515-531 | once the token has accrued the waiting peer's next call is admitted |
| RateLimit.WaitingLasts | main.py:515-531 | until then it is denied, unless its bucket was evicted |
| ProbeCache.SingleFlight | main.py:1683-1716 | with a positive TTL at most one probe is in flight and only the lock's holder releases it |
| ProbeCache.SingleFlightExactlyWithATtl | main.py:1695-1716 | single flight holds in all reachable states if and only if the TTL is positive |
| ProbeCache.ProbesAreSpaced | main.py:1697-1713 | each probe starts at least a TTL after the `at` recorded for the one before |
| ProbeCache.ProbeRateBound | main.py:1678-1713 | a window of W seconds sees at most W/TTL + 1 probe starts |
| ProbeCache.StaleCallProbes | main.py:1697-1714 | with nothing fresh and the lock free, a call running alone makes one probe, publishes it as of its end and returns its reading |
| ProbeCache.FreshCallIsServed | main.py:1697-1700 | within the TTL a call returns what is published, without lock or probe |
| ProbeCache.ExpiredCallIsServedStale | main.py:1701-1703 | while a refresh is in flight an expired reading is returned at once |
| ProbeCache.ServedUnlockedExactly | main.py:1697-1703 | a call comes to an unlocked read exactly by a first reading within the TTL or a lock found held |
| ProbeCache.StaleServingMetALock | main.py:1697-1703 | along any run, a call that read an expired `at` and is served without the lock met a held lock |
| ProbeCache.SpacedCount | main.py:1697-1713 | the counting argument: starts in the window times TTL fit into the window plus one TTL |
| ProbeCache.ResultFirstAlwaysAnswers | main.py:1689-1714 | with `result` written first, or without a TTL, every call of every run returns a completed probe's reading |
| ProbeCache.AnswersFollow | main.py:1697-1714 | once a result is published, in either order, every later return is a completed probe's reading |
| ProbeCache.NoneReturnableExactlyBeforeFirstResult | main.py:1695-1714 | some continuation returns None exactly with a positive TTL, the order as written and no result published yet |
| ProbeCache.NoneIsReturnedExactlyInTheWindow | main.py:1698-1713 | a step returns None exactly by an unlocked read between the two writes of the very first probe |
| ProbeCache.HalfPublishedServesNone | main.py:1698-1713 | the failing run: between the two first writes a caller finds `at` fresh or the lock held and is served None |
| ProbeCache.PathKeepsInv | main.py:1697-1716 | every step keeps lock, spacing, stamp and answer invariants |
| Decimal.PrintParse | main.py:1275-1359 | parsing undoes printing; a numeral has no leading zero unless it is zero |
| L402.CaveatReads | main.py:1281-1287 | key and value are read back from a caveat, and no other key matches it |
| L402.SatisfiedByKey | main.py:1290-1349 | a caveat is judged by the one predicate its key selects |
| L402.MintedCaveatsFare | main.py:1269-1349 | minted caveats satisfy the verifier exactly for the token's own digest and well-formed hash, price and expiry |
| L402.MintedValues | main.py:1281-1341 | whatever is appended, the first payment_hash and price caveats are the minted ones |
| L402.MintedBindings | main.py:1269-1278 | a minted token carries its digest, the capability and its own expiry as first caveats of their keys, and no others |
| L402.RefusedExactly | main.py:1331-1357 | invalid exactly for a missing or malformed first hash or price, else tampered or wrong digest exactly for a bad signature or an unsatisfied caveat |
| L402.GenuineTokenIsWorthItsMint | main.py:1269-1359 | a minted token with any caveats appended verifies exactly when the digest is its own, its fields are well formed and every appended caveat is satisfied; it then returns the minted hash and price |
| L402.AttenuationSigns | main.py:1272-1277 | appending caveats without the key yields the signature the key would give |
| L402.PresentableExtendsMint | main.py:1344-1352 | a validly signed token made without the key is a minted one with caveats appended |
| L402.AcceptedTokenWasMinted | main.py:1306-1359 | an accepted token's digest, hash and price are those of a challenge the gateway minted |
| BodyCap.CappedExactly | main.py:766-785 | a body reaches the counted receive exactly when there is no Transfer-Encoding and all Content-Length headers agree on one numeral within 524288 |
| BodyCap.AdmitExactly | main.py:766-785 | every gate exactly: other methods pass; 411 for a coded or unsized body, 400 for lengths that disagree or are no numeral, 413 over the cap |
| BodyCap.Handle | main.py:766-815 | the whole middleware: a passed request is untouched, a refused one is answered with its status and never shown to the application, a capped one is the exchange |
| BodyCap.Values | main.py:770-775 | the values of a header name are exactly those the request carries |
| BodyCap.CappedCall.CountedReceive | main.py:789-798 | counts, delivers or refuses one message, and gives only disconnects once refused |
| BodyCap.CappedCall.GuardedSend | main.py:800-805 | forwards a message, noting a response start, or drops it once refused |
| BodyCap.CappedCall.Run | main.py:807-815 | the whole call leaves on the wire what the specification of the exchange and its end says |
| BodyCap.CapHolds | main.py:766-815 | bytes delivered never exceed the declared length; one response start by the application means at most one on the wire |
| BodyCap.RefusalIsFinal | main.py:789-805 | once refused the application sees only disconnects and nothing it sends goes out |
| BodyCap.RefusedIsAnsweredOnce | main.py:807-815 | refused before a start, with a return or the cap's own exception, the one response is the 413, last on the wire |
| BodyCap.ConcludedAddsExactly | main.py:810-815 | the middleware adds an answer exactly when refused before a start and the application returned or let the cap's exception through |
| BodyCap.RefusesExactlyOverruns | main.py:787-815 | refusal happens exactly when the messages asked for carry more than declared; otherwise the wrapper is transparent both ways |
| HealthMonitor.Monitor.CheckStall | ops/health-monitor.sh:94-116 | moves the stall clock and marks the condition as specified; status stays ok exactly for a condition that is not bad |
| HealthMonitor.Monitor.Run | ops/health-monitor.sh:94-179 | one run leaves files, deliveries and report as the specification of a run says |
| HealthMonitor.BadExactly | ops/health-monitor.sh:44-60 | a /health line is good exactly when its status is the whole word ok, alone or before further fields |
| HealthMonitor.HealthyRunIsQuiet | ops/health-monitor.sh:149-179 | a run that reads ok, with no overdue stall and nothing to recover from, delivers nothing and records what it read |
| HealthMonitor.HealthyHistoryIsSilent | ops/health-monitor.sh:94-179 | runs that only ever read ok and never saw a stall have delivered nothing |
| HealthMonitor.UndeliveredChangesNothing | ops/health-monitor.sh:138-147 | an undelivered message leaves the stored condition unchanged |
| HealthMonitor.RunKeepsLedger | ops/health-monitor.sh:118-176 | a run keeps: deliveries alternate, and a stored bad condition is the last alarm delivered |
| HealthMonitor.DeliveriesAlternate | ops/health-monitor.sh:149-176 | over any runs with state writes succeeding, deliveries form (alarm+ recovered)* and a stored bad condition is the last alarm |
| HealthMonitor.RecoveryDueExactly | ops/health-monitor.sh:149-162 | after runs with state writes succeeding, a recovery is due exactly when all is well and the last message is an alarm to recover from |
| HealthMonitor.AlarmDueExactly | ops/health-monitor.sh:149-176 | ... and an alarm exactly when the last message is not one for the condition younger than the interval |
| HealthMonitor.AlarmsAreSpaced | ops/health-monitor.sh:170-176 | ... and two alarms in a row for one condition are at least the interval apart |
| HealthMonitor.DeliveriesAlternateExactly | ops/health-monitor.sh:126-176 | over any runs, whatever fails, deliveries form (alarm+ recovered)* if and only if no run finds all well and delivers while the last recovery delivered went unrecorded |
| HealthMonitor.AlternationBreaksExactly | ops/health-monitor.sh:126-176 | the same for one run from any state the script can be in |
| HealthMonitor.UnrecordedExactly | ops/health-monitor.sh:126-162 | a recovery becomes unrecorded exactly when delivered with the old state file kept, and stays so until a message is delivered |
| HealthMonitor.AlarmedExactly | ops/health-monitor.sh:118-179 | after any runs on a clock not set back, whatever writes failed, a successful run in a bad condition leaves it alarmed exactly if a message was due or the last one before names the condition |
| HealthMonitor.EmptyConditionStaysQuiet | ops/health-monitor.sh:118-179 | an early first run reading an empty condition is successful, bad and delivers nothing |
| HealthMonitor.BadConditionIsAlarmed | ops/health-monitor.sh:118-179 | after every successful run in a bad condition the last delivery is an alarm naming it and younger than the interval, except exactly for an empty condition with no state file and an early clock |
| HealthMonitor.FailedWriteRepeatsRecovery | ops/health-monitor.sh:126-162 | a run that breaks the alternation: the same recovery is delivered twice |
| HealthMonitor.StallFileIsTheClock | ops/health-monitor.sh:94-116 | over any runs, whatever fails, the stall file is the time of the earliest stalled probe it could record since the last clear one it could be removed for |
| HealthMonitor.ClockIsKept | ops/health-monitor.sh:70-116 | over runs none of which has to change the stall file and cannot, it is the promised clock |
| HealthMonitor.ClockIsLostExactly | ops/health-monitor.sh:70-116 | the next run takes the file off the promised clock exactly if it has to change it and cannot |
| HealthMonitor.StallIsMarkedExactly | ops/health-monitor.sh:94-111 | the condition carries the stall marker exactly when the probe sees pending commitments and no recent transaction and the promised clock is past the threshold |
| HealthMonitor.RecoveryDuringStallExactly | ops/health-monitor.sh:94-162 | a recovery is due with the clock past its threshold exactly when the clock stood so before, the probe failed or could not clear it, and the condition turned ok from one to recover from |
| HealthMonitor.FailedProbeRecoversAStall | ops/health-monitor.sh:94-162 | such a run exists |
| Backup.SuccessIsExactlyTheCleanRun | ops/backup-live-state.sh:84-576 | ok or local_only stands on file exactly when no command failed before the final write, snapshot, boundary, members and push are good, a stopped writer is back, and the final write took and was not replaced for a failed listing |
| Backup.FailedExactly | ops/backup-live-state.sh:224-428 | a run to its end is failed exactly for a lost obligation log, a calendar copied under a writer or without its snapshot, or a stopped writer not seen running again, by the host's own facts |
| Backup.AttentionExactly | ops/backup-live-state.sh:224-546 | otherwise it needs attention exactly for a log of a stopped gateway without snapshot, a missing default log or member, missing age, or a push or prune that did not happen |
| Backup.BoundaryMeansNoWriter | ops/backup-live-state.sh:386-428 | an established boundary means the copy is of a declared snapshot or of a calendar no writer ran on |
| Backup.SilentExactly | ops/backup-live-state.sh:84-576 | the status file is left as found exactly when the settings are refused before any write or the one write come to does not reach the file |
| Backup.UnknownBoundaryIsSilent | ops/backup-live-state.sh:382-385 | an unknown boundary setting with nothing else amiss leaves no status |
| Backup.Run.WriteStatus | ops/backup-live-state.sh:84-104 | a fault stops the final write at once; under the trap a text that could not be written is moved into place all the same |
| Backup.Run.Degrade | ops/backup-live-state.sh:106-112 | never lowers failed |
| Backup.Run.RestartCalendarWriter | ops/backup-live-state.sh:366-380 | at most one start for a stopped writer; failed unless it is seen running |
| Backup.Run.OnErr | ops/backup-live-state.sh:183-192 | the trap restarts a stopped writer first, then writes failed as far as the write goes |
| Backup.Run.SnapshotObligations | ops/backup-live-state.sh:224-323 | the severity of the obligation snapshot's every outcome |
| Backup.Run.EstablishBoundary | ops/backup-live-state.sh:382-428 | stays unfailed exactly when the copy is a boundary copy; stops only a running writer, and records it for restart |
| Backup.Run.CollectMembers | ops/backup-live-state.sh:467-480 | degrades exactly for a missing member and archives exactly the present ones |
| Backup.Run.EncryptAndPush | ops/backup-live-state.sh:500-546 | degrades exactly when encryption, push or remote prune did not go as configured |
| Backup.Run.CopyAndPush | ops/backup-live-state.sh:382-546 | from boundary to push the status is the severity the inputs deserve, whatever the order of sections |
| Backup.Run.Execute | ops/backup-live-state.sh:183-576 | the status file is the one the inputs deserve; a writer this run stopped gets exactly one start and at exit runs, or nothing better than failed is on file |
| ProofCache.Cache.Put | main.py:467-472 | one put in place is the bounded put of the specification |
| ProofCache.StaysValid | main.py:463-472 | after any puts the cache is consistent and within its maximum |
| ProofCache.HoldsMostRecentInsertions | main.py:467-472 | after any puts the keys are exactly the most recently inserted ones in insertion order; overwrites keep place and evict nothing |
| ProofCache.HitsAreLatest | main.py:467-472 | every hit is the last value put for its key |
| OrderedDict.FifoPutEffect | main.py:467-530 | one bounded put keeps the bound, evicts only the oldest key and only for a new one, and leaves the rest as it was |

## Left out

- Configuration parsing, logging, environment handling, the OpenAPI and HTTP plumbing around the routes: independent single-branch checks.
- The bodies of `RemoteCalendar`, `requests`, SQLite, pymacaroons and the `.ots` codec; a SQLite statement is one atomic durable step.
- `/health` assembly, the status-file classifiers and the counters of the proof-upgrade job: case tables read off one branch. Being paused is only a guard on new requests and sweeps.
- Base64, JSON, header decoding and `X-Forwarded-For`: requests arrive parsed. Python's limit on the digits of an `int` is not modelled.
- Retention pruning in the backup: a sort and a cut of a directory listing; only the failure of its commands is modelled, as `Prune` and `remotePrunes`.
- Encryption, rsync, ssh, tar and systemd in the backup: outcomes given by the environment.
- Rounding of floating point: time and tokens are reals, so the claims are about the intended arithmetic.
- Races inside the bounded cache put, inside one bucket update and between the cache's membership test and its read: each is one step.
- Liveness under real scheduling: progress is stated as one full sweep with a working calendar.
- ProofTree.Merge: proof objects are entries of one store referred to by index, not heap objects; an index stays valid as the store grows, which stands for object identity. Answers of the calendar are separate trees, so the argument is not aliased. A merge that raises halfway is not modelled; the answer's messages are determined by the same operations on the same message, so it raises only for unequal messages, before anything is changed.
- Inspection.UpgradeOts: the order of the attestation list is not modelled; the 503 for `calendar_unavailable` and the size limit before it are left to the route.
- Upgrade.Timestamp.UpgradePending: the abandoned worker's later end is not modelled.
- L402.AcceptedTokenWasMinted: third-party caveats and the bytes of a macaroon are not modelled; signatures are free constructors.
- HealthMonitor.Monitor.Run: corrupt state files, half-written state files other than an empty one and line breaks inside a condition are not modelled.
- Backup.Run.Execute: termination by a signal is not modelled.
- Obligations.Store.RecordObligation: the row's timestamps are not modelled.
- Obligations.Store.SweepRow: the time of the last attempt is not modelled.
- Obligations.StillOwedExactly: no request writes the table between the ticks; PaidDoor.EverySweepConverges is the statement with requests running.
- Obligations.CleanTickConverges: no request writes the table between the ticks; PaidDoor.EverySweepConverges is the statement with requests running.
- PaidDoor.RowsArePaidFor: the preimage check and the token's signature are not steps of the transition system; any claim may be presented, so the result does not rely on them.
- Redemption.RedeemedRequestIsServed: the preimage check is not modelled.
