# Effective-tier controller and reuse-monitor proofs

The repository extends the kernel's multi-generational LRU with a controller that may, page by page, deviate from the
native protect/reclaim outcome, and it ships a desktop monitor and an offline evaluation that feed and judge it. This
project models those parts and proves what they are relied on for.

Kernel controller (`lzx/ljw/kernel_r11/effective_tier.c`):

* `PackedWords` – the two packed 32-bit words of a page; packing and unpacking are inverse in both directions.
* `PageMetadata` – the page object (`ReusePage`) that every write section updates in place, each method proved against
  a function of the page's old value.
* `PageHistory` – what a page's fields say about its past: every one of them equals a function of the event log alone,
  and so does the whole page.
* `StateSeqlock` – the same page under concurrency: any number of lock-serialized writers and lockless readers, one load
  or store per step, every interleaving.
* `SnapshotHistory` – the two together: each write section of the concurrent page carries the event it records, and an
  accepted read returns the page that the log of those events folds to.
* `Scoring`, `RandomMatch`, `TierDecision` – the fixed-point score, the random matching, and the decision for one
  candidate up to the claim and the charge.
* `ReservationLedger`, `LedgerRuns` – the counters of a list and of a batch, updated in place, and what every run of
  serialized batches keeps, with arbitrary other page activity interleaved.
* `ActivationProtocol` – mode changes, config changes and batches as one transition system (mutex, read-side sections
  with a grace period, sequence-guarded config copied field by field).

Around it:

* `CensoredMetrics`, `ColdPrecision`, `QueryMetrics`, `WeightedMedian` – ranking metrics over right-censored return
  times, judged against all completions of the censored times.
* `WakeupPipe` – producer threads, a queue and a nonblocking pipe waking a select loop.
* `VisitTimeline`, `RuntimeState` – foreground segments and window bookkeeping of the monitor.
* `WssLookup` – the four-step working-set lookup.

Each concurrent part is a labelled transition system: a run is any legal list of labels, and a theorem about `Run` is a
theorem about every reachable state. Loads and stores are sequentially consistent atomic steps. Methods that change
state are proved equal to functions of the old state; the theorems are about those functions over whole logs and runs.

## Limits of the code

* The 11-bit page sequence protects a read only while fewer than 1024 sections complete inside it. An accepted read saw
  a multiple of 1024 of them (`AcceptedReadIsAtomic`), and every positive multiple admits a torn one
  (`TornReadAfterWrap`). The same bound holds for the revalidation before a commit (`CommitRevalidates`).
* Releasing a claim zeroes the tag; it does not bring back an older tag. `ReleaseUndoesClaim` says what is left.
* "Two or more tiers above the index never departs" holds exactly for a positive native tier, because both tiers are
  clamped to 0 (`StrongNativeNeedsPositiveTier`). A departure needs a tier index of -2 or less, which the boundary
  indices 0..3 of the multi-generational LRU never produce.
* The stored policy is valid whenever the config sequence is even. While it is odd, that is during a replacement, it is
  invalid exactly when the field just stored and the next old one are two thresholds out of order (`PolicyInvalidIff`).
  A replacement never shows an invalid policy exactly when each new threshold lies below the next higher old one
  (`ReplacementSafeIff`); `PolicyCanBeInvalidMidway` is one that does.
* Cold Precision@K is reported exactly when the top-K set is known. It can be determined and still be withheld, exactly
  when more than K candidates are censored and none of the K picked is (`ReportedVersusDetermined`).
* A history length of 0 keeps everything, because the slice `[-0:]` is the whole list (`HistoryBounded`).
* A window count is the number of tracked windows exactly until a close names an untracked window of an application
  that still has a count (`ExactStep`).
* A close that names another application than the tracked one leaves the tracked one open even with no window left
  (`CloseEndsApplication`).

## Model

| member | source | states |
|---|---|---|
| PackedWords.StateRoundTrip | lzx/ljw/kernel_r11/effective_tier.c:26-47 | every field of the state word comes back from its packed word, and the word fits 32 bits |
| PackedWords.StateWordRoundTrip | lzx/ljw/kernel_r11/effective_tier.c:26-47 | every 32-bit word is the packing of the fields read from it, so comparing words compares fields |
| PackedWords.EpochRoundTrip | lzx/ljw/kernel_r11/effective_tier.c:26-47 | upgrade tag, downgrade tag and activation number come back from the packed epoch word |
| PackedWords.EpochWordRoundTrip | lzx/ljw/kernel_r11/effective_tier.c:26-47 | every 32-bit epoch word is the packing of its three fields |
| PackedWords.StateBits | lzx/ljw/kernel_r11/effective_tier.c:31-41 | every field of the state word sits at the bit offset and width of its mask |
| PackedWords.EpochBits | lzx/ljw/kernel_r11/effective_tier.c:26-29 | the two tags and the activation number sit at the bit offsets of their masks |
| PageMetadata.ReusePage.WriteBegin | lzx/ljw/kernel_r11/effective_tier.c:245-268 | a section opens exactly on an even sequence, publishing the odd one; a refused one leaves the page as it was |
| PageMetadata.ReusePage.WriteEnd | lzx/ljw/kernel_r11/effective_tier.c:270-282 | the new fields are published with the sequence two past where the section started |
| PageMetadata.ReusePage.MarkUncertain | lzx/ljw/kernel_r11/effective_tier.c:284-302 | sets only the uncertain flag, and leaves an odd word alone |
| PageMetadata.ReusePage.Allocate | lzx/ljw/kernel_r11/effective_tier.c:431-462 | a reallocated page has every field zero and the next nonzero lifetime number |
| PageMetadata.ReusePage.NoteAccess | lzx/ljw/kernel_r11/effective_tier.c:508-583 | an event code out of range is ignored; a real access folds the interval of the activation read second, resets candidates and doubt and starts the tags of the one read first; any other mark only raises doubt |
| PageMetadata.ReusePage.NoteMove | lzx/ljw/kernel_r11/effective_tier.c:585-624 | an event or generation out of range is ignored; a move records the generation, restarts its entry time only when it changed or was unset, and keeps every other field |
| PageMetadata.ReusePage.CandidateFeatures | lzx/ljw/kernel_r11/effective_tier.c:1011-1090 | returns the six features, validity, doubt, sequence and snapshot of the old page, and counts the evaluation |
| PageMetadata.ReusePage.ClaimEpoch | lzx/ljw/kernel_r11/effective_tier.c:1138-1201 | the claim's outcome (race, unstable, repeated, claimed) and the whole page after it |
| PageMetadata.ReusePage.ReleaseEpoch | lzx/ljw/kernel_r11/effective_tier.c:1210-1243 | zeroes exactly the tag it names in the same activation |
| PageMetadata.ReusePage.SetAction | lzx/ljw/kernel_r11/effective_tier.c:1245-1266 | stores the pending action and nothing else |
| PageMetadata.ReusePage.Revalidate | lzx/ljw/kernel_r11/effective_tier.c:1092-1122 | holds exactly when the sequence is even and the expected one, nothing is in doubt, and the activation is the caller's |
| PageMetadata.IntervalEma | lzx/ljw/kernel_r11/effective_tier.c:309-320 | the smoothed interval stays between the old value and the saturated sample |
| PageMetadata.IntervalEmaQuarter | lzx/ljw/kernel_r11/effective_tier.c:309-320 | a smoothed interval moves a quarter of the way to the saturated sample, rounded toward staying |
| PageMetadata.AccessEmaQuarter | lzx/ljw/kernel_r11/effective_tier.c:322-335 | an access moves the average a quarter of the way to 255, at least one step, the first one all the way; an evaluation takes a quarter off |
| PageMetadata.ElapsedIsGap | lzx/ljw/kernel_r11/effective_tier.c:418-424 | the elapsed time is the one gap below 2^32 from then to now, valid below half the range |
| PageMetadata.EventKinds | lzx/ljw/kernel_r11/parp.h:180-191 | the first three events are real accesses, the four from the native promotion on are moves, into generations 0 to 3 |
| PageHistory.SequenceCountsSections | lzx/ljw/kernel_r11/effective_tier.c:245-302 | over every log the sequence is twice the number of sections modulo 2048 |
| PageHistory.NeverRefused | lzx/ljw/kernel_r11/effective_tier.c:245-302 | whatever the log, the sequence is even, so no section is refused |
| PageHistory.AccessFieldsFollowLog | lzx/ljw/kernel_r11/effective_tier.c:535-578 | initialized, last access and activation are those of the last real access since allocation |
| PageHistory.CandidateCountFollowsLog | lzx/ljw/kernel_r11/effective_tier.c:1043-1058 | the candidate count is min(63, evaluations since the last real access) |
| PageHistory.DoubtFollowsLog | lzx/ljw/kernel_r11/effective_tier.c:1043-1066 | generation and doubt are decided by the moves, marks and evaluations since the last real access |
| PageHistory.IntervalFieldsFollowLog | lzx/ljw/kernel_r11/effective_tier.c:535-578 | last interval and smoothed interval are the fold of the gaps of unbroken accesses, as the second read of the activation number sees them |
| PageHistory.EmaWithinIntervals | lzx/ljw/kernel_r11/effective_tier.c:304-320 | the smoothed interval lies between two intervals that were folded |
| PageHistory.AccessEmaRange | lzx/ljw/kernel_r11/effective_tier.c:322-335 | after any log an accessed page's access average is in 3..255, and 0 before the first access |
| PageHistory.AverageFollowsLog | lzx/ljw/kernel_r11/effective_tier.c:322-335 | the access average is the fold of unbroken accesses, restarts and evaluations |
| PageHistory.EntryFollowsLog | lzx/ljw/kernel_r11/effective_tier.c:615-619 | the generation entry time is that of the move that brought the page there |
| PageHistory.ActionFollowsLog | lzx/ljw/kernel_r11/effective_tier.c:1245-1266 | the pending action is the last one stored since allocation and since the activation began for the page |
| PageHistory.LifetimeFollowsLog | lzx/ljw/kernel_r11/effective_tier.c:431-462 | the lifetime is 0 before the first allocation, then counts allocations in 1..2^32-1 round and round |
| PageHistory.PageFollowsLog | lzx/ljw/kernel_r11/effective_tier.c:245-624 | after any log the whole page, every field, is the page the log describes |
| PageHistory.EvaluationFollowsLog | lzx/ljw/kernel_r11/effective_tier.c:1036-1085 | for every log and time, an evaluation hands out exactly the six features, validity, doubt and sequence that the log tells |
| PageHistory.SnapshotFollowsLog | lzx/ljw/kernel_r11/effective_tier.c:1070-1084 | the snapshot beside them holds the times, lifetime, tags, generation and pending action the log tells |
| PageHistory.TagsFollowLog | lzx/ljw/kernel_r11/effective_tier.c:1138-1243 | each stored tag is the one claimed last and not released, reset or reallocated since |
| PageHistory.ClaimDecidedByLog | lzx/ljw/kernel_r11/effective_tier.c:1138-1201 | a claim succeeds exactly when the pinned sequence, activation and held tag in the log allow it |
| PageHistory.ClaimEndsByLog | lzx/ljw/kernel_r11/effective_tier.c:1156-1193 | how a claim ends in every case: race, unstable, repeated, or claimed with the sequence its section leaves, in that order of tests |
| PageHistory.SecondClaimFails | lzx/ljw/kernel_r11/effective_tier.c:1170-1190 | a second claim of the same direction and tag fails unless a release, other claim, new run or reallocation came between |
| PageHistory.ReleaseUndoesClaim | lzx/ljw/kernel_r11/effective_tier.c:1210-1243 | claim then release frees the tag and touches no other field but the sequence |
| PageHistory.PinnedClaimDetectsWrites | lzx/ljw/kernel_r11/effective_tier.c:1138-1165 | a claim pinned to an evaluation is refused as a race exactly when the sections since then are not a multiple of 1024 |
| PageHistory.CommitRevalidates | lzx/ljw/kernel_r11/effective_tier.c:1092-1136 | revalidating with the sequence a claim returned holds exactly when the sections since are a multiple of 1024, without doubt and in the claim's activation |
| PageHistory.CommitSeesDecidedPage | lzx/ljw/kernel_r11/effective_tier.c:1124-1136 | below 1024 sections a commit that revalidates acts on the page exactly as the claim left it |
| PageHistory.ColdStreakInThisRun | lzx/ljw/kernel_r11/effective_tier.c:1043-1058 | two counted candidates rest on a real access of this activation with no access or reallocation after it |
| StateSeqlock.RunKeepsInv | lzx/ljw/kernel_r11/effective_tier.c:245-302 | the writer and reader invariants hold in every reachable state of every interleaving |
| StateSeqlock.AcceptedReadIsAtomic | lzx/ljw/kernel_r11/effective_tier.c:626-672 | without reallocation, the sections completed in an accepted read are a multiple of 1024, and below 1024 it returns all its fields from one instant with no overlapping section |
| StateSeqlock.AcceptedIffUndisturbed | lzx/ljw/kernel_r11/effective_tier.c:626-672 | in every run, below 1024 sections and without reallocation, a read is accepted exactly when no section overlapped it |
| StateSeqlock.ReadStartsIff | lzx/ljw/kernel_r11/effective_tier.c:639-642 | in every run a read gets under way exactly when no writer is inside a section |
| StateSeqlock.NeverRefused | lzx/ljw/kernel_r11/effective_tier.c:245-302 | a free lock means an even sequence; no section is refused and the lockless compare-and-swap never runs |
| StateSeqlock.TornReadAfterWrap | lzx/ljw/kernel_r11/effective_tier.c:626-672 | with any positive multiple of 1024 sections inside it a read of two payload fields that mixes two instants is accepted |
| SnapshotHistory.AcceptedReadIsLoggedPage | lzx/ljw/kernel_r11/effective_tier.c:626-672 | in every interleaving, below 1024 sections and without reallocation, an accepted snapshot or revalidation returns the fields and the state word of the page that the log of completed sections folds to at that moment |
| SnapshotHistory.EveryEventCanBeRecorded | lzx/ljw/kernel_r11/effective_tier.c:245-282 | from any page at rest an idle writer can carry out the section of any event, store by store |
| Scoring.ScoreValues | lzx/ljw/kernel_r11/effective_tier.c:674-699 | the table walk returns the sum of the weights of the bins the six values fall in, or nothing exactly when a value is the smallest 64-bit one |
| Scoring.BinHolds | lzx/ljw/kernel_r11/effective_tier.c:686-690 | a value is beyond exactly the edges below it |
| Scoring.ScoreIsSum | lzx/ljw/kernel_r11/effective_tier.c:684-692 | the score is the sum of six weights, one for each feature |
| Scoring.DeltaMeans | lzx/ljw/kernel_r11/effective_tier.c:818-834 | the delta loses one tier exactly at or below the cold threshold, and otherwise wins as many whole tiers as the thresholds reached and the policy allow |
| Scoring.EffectiveTierMeans | lzx/ljw/kernel_r11/effective_tier.c:836-845 | the effective tier is tier plus delta, stopped at the lowest and the highest tier |
| Scoring.ScoreInRange | lzx/ljw/kernel_r11/effective_tier.c:115-135 | no input drives the score out of -188..204 |
| Scoring.DeltaMonotone | lzx/ljw/kernel_r11/effective_tier.c:818-834 | a higher score never gives a smaller tier delta under any valid policy |
| Scoring.PipelineMonotone | lzx/ljw/kernel_r11/effective_tier.c:847-904 | a page at least as hot in every feature has at least the score, delta, effective tier and effective protection |
| RandomMatch.WalkCount | lzx/ljw/kernel_r11/effective_tier.c:944-962 | from any point of the walk the picks reach exactly the target, or all that is left |
| RandomMatch.Select | lzx/ljw/kernel_r11/effective_tier.c:944-962 | for every random sequence exactly min(target, eligible) candidates are picked |
| RandomMatch.ProducingIsFactorials | lzx/ljw/kernel_r11/effective_tier.c:944-962 | how many remainder vectors produce a given selection, as a product of factorials |
| RandomMatch.SelectionsEquallyLikely | lzx/ljw/kernel_r11/effective_tier.c:944-962 | every selection of the target size arises, and any two from equally many remainder vectors |
| TierDecision.DiffersIffReserved | lzx/ljw/kernel_r11/effective_tier.c:1426-1615 | the actual outcome differs from the native one exactly when a reservation is active, in every mode |
| TierDecision.DepartureIff | lzx/ljw/kernel_r11/effective_tier.c:1426-1615 | the outcome departs exactly when the mode acts on the proposal, the evidence calls for it, both budgets have room and the page accepts the claim |
| TierDecision.DowngradeIff | lzx/ljw/kernel_r11/effective_tier.c:1507-1530 | a downgrade is proposed exactly for good evidence, a cold score, a tier one above the index within 1 to 3, two cold evaluations if required, and no pressure |
| TierDecision.UpgradeIff | lzx/ljw/kernel_r11/effective_tier.c:1503-1530 | an upgrade is proposed exactly for good evidence, a tier not above the index, enough tiers won to pass it, and no pressure |
| TierDecision.DowngradeByLog | lzx/ljw/kernel_r11/effective_tier.c:1507-1530 | the downgrade condition in terms of the page's log, with one earlier evaluation if two cold ones are required |
| TierDecision.UpgradeByLog | lzx/ljw/kernel_r11/effective_tier.c:1503-1530 | the upgrade condition in terms of the page's log |
| TierDecision.ScorerByMode | lzx/ljw/kernel_r11/effective_tier.c:1481-1495 | which scorer each mode uses |
| TierDecision.RecencyMeans | lzx/ljw/kernel_r11/effective_tier.c:1344-1356 | the tier delta of the recency baseline over the whole range of ages |
| TierDecision.RandomMeans | lzx/ljw/kernel_r11/effective_tier.c:1358-1373 | the tier delta of the random baseline by boundary and bucket |
| TierDecision.BudgetAllowsIff | lzx/ljw/kernel_r11/effective_tier.c:928-942 | a budget admits exactly pages within the limit and within their share of the candidates in parts of 10000, or a first single page |
| TierDecision.ProposalReason | lzx/ljw/kernel_r11/effective_tier.c:1457-1530 | why a proposal is not predictive, each reason under its condition |
| TierDecision.OutcomeReason | lzx/ljw/kernel_r11/effective_tier.c:1531-1591 | what becomes of a predictive proposal: no room, the way its claim failed, or nothing in its way |
| TierDecision.DecisionCoheres | lzx/ljw/kernel_r11/effective_tier.c:847-904 | tiers, score, deltas, effective tier and protection of a decision fit together, and the candidates of batch and epoch are counted |
| TierDecision.SpecialAlwaysProtected | lzx/ljw/kernel_r11/effective_tier.c:906-926 | a specially protected page is protected, never reserves and charges neither direction |
| TierDecision.NeverDeparts | lzx/ljw/kernel_r11/effective_tier.c:1375-1388 | shadow mode, a fault, critical pressure and a positive tier two above the index never depart from native |
| TierDecision.StrongNativeNeedsPositiveTier | lzx/ljw/kernel_r11/effective_tier.c:1509-1516 | at two or more tiers above the index some page history, batch and policy make the decision depart from native if and only if the native tier is below 1, which takes an index of -2 or less |
| TierDecision.ReservationCharges | lzx/ljw/kernel_r11/effective_tier.c:1531-1591 | a reservation was allowed by both budgets and charged both counters by the page count; nothing else charges the epoch, and only an allowed proposal charges the batch |
| TierDecision.DowngradeNeedsTwoCold | lzx/ljw/kernel_r11/effective_tier.c:1509-1523 | a surviving downgrade rests on an access and two evaluations after it in this activation, one tier above the index |
| ReservationLedger.LruvecLedger.OpenBatch | lzx/ljw/kernel_r11/effective_tier.c:1314-1331 | a new generation or activation starts a zeroed epoch with the next id of nonzero tag; otherwise counters stay |
| ReservationLedger.EpochRestartsIff | lzx/ljw/kernel_r11/effective_tier.c:1314-1331 | an epoch restarts, with nothing used, exactly for a list's first batch and for another generation or activation than last seen |
| ReservationLedger.LruvecLedger.Feedback | lzx/ljw/kernel_r11/effective_tier.c:1807-1822 | only isolated pages of the current activation move the no-progress count, which saturates |
| ReservationLedger.ProgressCountsFruitless | lzx/ljw/kernel_r11/effective_tier.c:1807-1822 | after any rounds the no-progress count is the saturated number of fruitless rounds of the activation since one that reclaimed |
| ReservationLedger.StaleRoundIgnored | lzx/ljw/kernel_r11/effective_tier.c:1810-1815 | a round of another activation, or when the ledger is in another one, changes nothing |
| ReservationLedger.ScanContext.Prepare | lzx/ljw/kernel_r11/effective_tier.c:1274-1342 | a batch is enabled exactly with mode on, no fault and a config read, and starts with empty counters; a disabled context is cleared but for the mode |
| ReservationLedger.ContextPressure | lzx/ljw/kernel_r11/effective_tier.c:1312-1341 | when a new batch counts as severe, without progress, critical, high or low, and that it starts with nothing used |
| ReservationLedger.ScanContext.DecideCandidate | lzx/ljw/kernel_r11/effective_tier.c:1426-1615 | the in-place decision leaves ledger, context, page and decision as the decision function and the page's evaluation and claim say |
| ReservationLedger.ScanContext.ChargeProposal | lzx/ljw/kernel_r11/effective_tier.c:1531-1591 | the claim is made exactly when both budgets allow it, and the charge follows a claim that succeeded |
| ReservationLedger.ScanContext.CloseReservation | lzx/ljw/kernel_r11/effective_tier.c:1390-1424 | a cancelled reservation releases the page and refunds both counters, or raises the fault; the decision returned holds it no longer |
| ReservationLedger.CancelledOnce | lzx/ljw/kernel_r11/effective_tier.c:1390-1424 | closing a cancelled decision again changes no counter and raises no fault |
| ReservationLedger.KeptIff | lzx/ljw/kernel_r11/effective_tier.c:1625-1633 | finishing keeps a reservation exactly when it is a downgrade or the page was sorted; otherwise both upgrade counters are refunded |
| ReservationLedger.DecideReserves | lzx/ljw/kernel_r11/effective_tier.c:1531-1591 | every reservation a decision makes is of its action's direction and the candidate's pages |
| ReservationLedger.ActionReadsBack | lzx/ljw/kernel_r11/effective_tier.c:1245-1266 | the stored action code reads back as the decision's action and never as none |
| ReservationLedger.ScanContext.Refund | lzx/ljw/kernel_r11/effective_tier.c:1404-1423 | takes the pages back from both counters of the direction, or from neither when one holds too few |
| ReservationLedger.ScanContext.Finish | lzx/ljw/kernel_r11/effective_tier.c:1617-1648 | an uncommitted reservation is cancelled, a committed one kept, and on an isolated page the stored action reads back as the decision's |
| LedgerRuns.RunKeepsInv | lzx/ljw/kernel_r11/effective_tier.c:1274-1648 | the ledger invariant holds in every reachable state |
| LedgerRuns.LedgerBalances | lzx/ljw/kernel_r11/effective_tier.c:1531-1591 | over any run an epoch counter is the pages held or kept since the epoch began, within epoch, batch and ratio limits, and the invariant fault is unreachable |
| LedgerRuns.RefundSucceeds | lzx/ljw/kernel_r11/effective_tier.c:1390-1424 | the page of a held reservation always accepts the release and both counters hold the pages |
| LedgerRuns.CancelRefundsExactly | lzx/ljw/kernel_r11/effective_tier.c:1390-1424 | a cancel takes back exactly what was charged and leaves the other direction and the fault alone |
| LedgerRuns.FinishKeepsIff | lzx/ljw/kernel_r11/effective_tier.c:1617-1633 | in every run, finishing a held reservation keeps counters, pages and tag exactly when it is a downgrade or the page was sorted, and otherwise refunds it and releases the page |
| LedgerRuns.BatchOpensIff | lzx/ljw/kernel_r11/effective_tier.c:1287-1331 | a batch opens exactly with the mode on and no fault, over the epoch of the present generation and activation |
| LedgerRuns.TagAfter | lzx/ljw/kernel_r11/effective_tier.c:1314-1334 | the tag of the n-th later epoch, in closed form |
| LedgerRuns.TagsDistinct | lzx/ljw/kernel_r11/effective_tier.c:1314-1334 | tags are 1..4095 and equal exactly when the epochs are a multiple of 4095 apart |
| LedgerRuns.PrepareTags | lzx/ljw/kernel_r11/effective_tier.c:1314-1334 | within an epoch id and tag stay; a new epoch takes the next id with a nonzero tag and zero counters |
| LedgerRuns.TagsOverRuns | lzx/ljw/kernel_r11/effective_tier.c:1314-1334 | in every run the k-th epoch of a list carries the k-th id: its tag is 1..4095, stays within the epoch and returns exactly after multiples of 4095 epochs |
| ActivationProtocol.RunKeepsInv | lzx/ljw/kernel_r11/effective_tier.c:1983-2029 | the protocol invariant holds in every reachable state of every interleaving |
| ActivationProtocol.BatchConfigIsStable | lzx/ljw/kernel_r11/effective_tier.c:1274-1311 | while a batch holds its section, stored config, sequence and activation number are the ones it opened with |
| ActivationProtocol.ReadsNeverMismatch | lzx/ljw/kernel_r11/effective_tier.c:396-409 | no config read inside a batch that saw the mode on fails or differs |
| ActivationProtocol.PolicyAlwaysValid | lzx/ljw/kernel_r11/effective_tier.c:2071-2127 | the policy is valid whenever the sequence is even, and an applying mode has at most two upgrade tiers |
| ActivationProtocol.PolicyInvalidIff | lzx/ljw/kernel_r11/effective_tier.c:2113-2123 | in every reachable state the stored policy is invalid exactly when a replacement has stored 1 to 3 fields and the last of them is not below the next old one |
| ActivationProtocol.MixturesValidIff | lzx/ljw/kernel_r11/effective_tier.c:2087-2099 | for two accepted configs, every mixture a replacement can show is valid exactly when each new threshold is below the next higher old one |
| ActivationProtocol.ReplacementSafeIff | lzx/ljw/kernel_r11/effective_tier.c:2107-2123 | in every run, a replacement about to begin never shows an invalid policy, whatever else happens until it ends, exactly when it passes that check against the stored config |
| ActivationProtocol.NoBatchWhileOpening | lzx/ljw/kernel_r11/effective_tier.c:2003-2025 | in every run, no batch is past seeing the mode on while an activation is being opened or a config replaced |
| ActivationProtocol.ActivationNumbersFresh | lzx/ljw/kernel_r11/effective_tier.c:2003-2022 | two moments with the mode on carry the same number exactly when the mode stayed on between them |
| ActivationProtocol.ModeCheckOutcome | lzx/ljw/kernel_r11/effective_tier.c:1997-2024 | in every run, a mode change under the mutex opens an activation exactly with the mode off, a number left and at most two tiers for an applying target, turns the mode off exactly when asked while on, and otherwise changes nothing |
| ActivationProtocol.OpeningPublishesTarget | lzx/ljw/kernel_r11/effective_tier.c:2007-2022 | in every run, whatever happens between, the mode published is the one asked for, with the next number |
| ActivationProtocol.OpeningCompletes | lzx/ljw/kernel_r11/effective_tier.c:2013-2019 | the three steps that open an activation can be taken at once and clear the fault |
| ActivationProtocol.ModeCanChange | lzx/ljw/kernel_r11/effective_tier.c:1983-2029 | in every run with the mutex free, every allowed mode change can be carried through by the thread alone |
| ActivationProtocol.GraceCanEnd | lzx/ljw/kernel_r11/effective_tier.c:2025-2025 | in every run a grace period waits only for batches inside their section |
| ActivationProtocol.ReplaceOutcome | lzx/ljw/kernel_r11/effective_tier.c:2107-2116 | a config change goes ahead exactly when the mode is off and otherwise changes nothing |
| ActivationProtocol.ReplacementStores | lzx/ljw/kernel_r11/effective_tier.c:2112-2126 | in every continuation, a replacement that ends has stored exactly the new config, with the sequence even and the mode off |
| ActivationProtocol.ConfigCanChange | lzx/ljw/kernel_r11/effective_tier.c:2071-2127 | in every run with the mutex free and the mode off, any acceptable config can be stored by the thread alone |
| ActivationProtocol.AcceptableIff | lzx/ljw/kernel_r11/effective_tier.c:2093-2103 | the range check accepts exactly a valid policy, a yes or no on two-cold evidence, and budgets that can let a page through |
| ActivationProtocol.BatchCanOpen | lzx/ljw/kernel_r11/effective_tier.c:1274-1311 | in every run with the mode on and no fault, an idle thread can open a batch and holds the stored config, mode and number |
| ActivationProtocol.FaultStopsBatch | lzx/ljw/kernel_r11/effective_tier.c:1290-1296 | a batch that finds the fault raised goes no further |
| CensoredMetrics.DirectionIffProven | lzx-zr/experiments/slap_reentry/offline_eval/metrics.py:6-14 | a direction is returned exactly when every completion orders the pair that way |
| CensoredMetrics.EarliestIffDetermined | lzx-zr/experiments/slap_reentry/offline_eval/metrics.py:17-21 | the earliest return is reported exactly when all completions agree on it |
| CensoredMetrics.DiscardedIffDetermined | lzx-zr/experiments/slap_reentry/offline_eval/metrics.py:34-36 | the discarded-victim value is reported exactly when all completions agree on it |
| CensoredMetrics.LabelValidIffDetermined | lzx-zr/experiments/slap_reentry/dataset/build.py:17-22 | a class is marked valid exactly when every possible remaining time falls in it |
| CensoredMetrics.LabelTells | lzx-zr/experiments/slap_reentry/dataset/build.py:17-22 | a remaining time is given exactly when it is the only possible one; otherwise the label is censored, and an undetermined class is -1 |
| CensoredMetrics.ClassHolds | lzx-zr/experiments/slap_reentry/dataset/build.py:20-20 | a value belongs to the class above exactly the edges it reaches |
| ColdPrecision.ReportedIffTopKnown | lzx-zr/experiments/slap_reentry/offline_eval/metrics.py:37-47 | a value is reported exactly when the set of the K latest returns is the same, untied, in every completion |
| ColdPrecision.ReportedVersusDetermined | lzx-zr/experiments/slap_reentry/offline_eval/metrics.py:37-47 | a reported value is determined; a determined one is withheld exactly when more than K are censored and none of the picked K is |
| QueryMetrics.CountPairs | lzx-zr/experiments/slap_reentry/offline_eval/metrics.py:25-31 | the pair loop counts exactly the proven, correctly ordered and score-tied pairs |
| QueryMetrics.CorrectMeansProven | lzx-zr/experiments/slap_reentry/offline_eval/metrics.py:30-30 | the pairs counted correct are those the score orders as every completion does |
| QueryMetrics.ComparableMeansProven | lzx-zr/experiments/slap_reentry/offline_eval/metrics.py:25-31 | the pairs counted are those every completion orders the same way, the tied ones those the score leaves level |
| QueryMetrics.ScoreQuery | lzx-zr/experiments/slap_reentry/offline_eval/metrics.py:24-50 | victim time, discarded and earliest values are reported exactly when every completion gives the same one, cold hits as the completions give them, all for the ranking by descending score |
| WeightedMedian.CumulativeWeights | lzx-zr/experiments/slap_reentry/offline_eval/metrics.py:78-78 | each entry is the sum of the weights up to it |
| WeightedMedian.SearchSorted | lzx-zr/experiments/slap_reentry/offline_eval/metrics.py:79-79 | the left insertion point in ascending cumulative weights |
| WeightedMedian.ReplicateSorted | lzx-zr/experiments/slap_reentry/offline_eval/metrics.py:69-82 | the list with each value repeated by its weight is sorted, so its middle is an ordinary median |
| WeightedMedian.RankedValue | lzx-zr/experiments/slap_reentry/offline_eval/metrics.py:77-80 | the value at a rank of that list sits where the cumulative weight first reaches the rank |
| WeightedMedian.MedianOfReplicate | lzx-zr/experiments/slap_reentry/offline_eval/metrics.py:77-80 | the two lookups average to the ordinary median of the repeated list |
| WakeupPipe.NoLostWakeup | lzx/service/runtime_monitor/monitor.py:1308-1335 | whenever the loop waits with events queued, the pipe is readable or a producer has yet to write its byte |
| WakeupPipe.MonitorQueuesWake | lzx/service/runtime_monitor/monitor.py:2233-2247 | both queues of the monitor, with drain limits 2048 and 256, lose no wake-up |
| WakeupPipe.NothingLostOrReordered | lzx/service/runtime_monitor/monitor.py:2204-2247 | events are handled in acceptance order, and each offered event is handled, queued, in a producer's hand or counted as dropped |
| WakeupPipe.DroppedIffFull | lzx/service/runtime_monitor/monitor.py:2220-2224 | in every run an event is dropped exactly when the queue holds all it may |
| WakeupPipe.DrainsAreBounded | lzx/service/runtime_monitor/monitor.py:2233-2247 | in every run a drain handles at most its limit and goes on below it, and a read takes up to 65536 bytes off the pipe |
| WakeupPipe.DrainsWithoutTimeout | lzx/service/runtime_monitor/monitor.py:775-805 | from any waiting state without pending producers the bytes in the pipe alone let the loop empty the queue |
| VisitTimeline.Runner.UpdateBase | lzx/service/runtime_monitor/online_duration_lstm.py:645-674 | opens, extends or closes the current segment by the foreground application |
| VisitTimeline.Runner.UpdateSegments | lzx/service/runtime_monitor/online_visit_window.py:92-98 | a switch closes the old segment at the transition time and the history is trimmed |
| VisitTimeline.Runner.ProcessSample | lzx/service/runtime_monitor/online_visit_window.py:108-128 | a sample before the clock is refused, one after a long gap resets, any other updates |
| VisitTimeline.Runner.ProcessEvent | lzx/service/runtime_monitor/online_visit_window.py:76-90 | a late event moves the clock back unless it precedes the last event or the running segment |
| VisitTimeline.TimelineFollowsInputs | lzx/service/runtime_monitor/online_visit_window.py:67-128 | after any inputs the segments are the last ones of the chain of switches the inputs tell, and the clocks those of the last accepted inputs |
| VisitTimeline.RefusedIffTooLate | lzx/service/runtime_monitor/online_visit_window.py:76-90 | which inputs are turned away is decided by the inputs alone, whatever the history length |
| VisitTimeline.SegmentsChain | lzx/service/runtime_monitor/online_duration_lstm.py:645-687 | each segment ends where the next starts, neighbours differ, none is unknown, dwell is max(1, end - start) |
| VisitTimeline.SegmentsTileTime | lzx/service/runtime_monitor/online_duration_lstm.py:676-687 | every instant from the first kept start on lies in exactly one kept segment or in the open one |
| VisitTimeline.HistoryBounded | lzx/service/runtime_monitor/online_visit_window.py:92-98 | the configured length bounds the history if and only if it is at least 1 |
| VisitTimeline.LateEventTakesEffect | lzx/service/runtime_monitor/online_visit_window.py:76-90 | an accepted late event makes its application the foreground from its own time and ends the old segment there |
| VisitTimeline.PaddedAligned | lzx/service/runtime_monitor/online_duration_lstm.py:202-210 | three aligned lists with a 0*1* mask whose masked entries are the last applications with their own durations |
| VisitTimeline.ModelHistory | lzx/service/runtime_monitor/online_visit_window.py:121-124 | the padded history after any inputs has exactly history_len entries, ends in the running segment with its dwell so far, and holds real applications under the mask |
| VisitTimeline.ModelHistoryEntries | lzx/service/runtime_monitor/online_duration_lstm.py:676-687 | the entries before the running segment are the completed ones, latest last, each with its own dwell |
| WssLookup.KeyDeterminesRow | lzx/kernel/v4.2/parp-userspace-four-ops/get_wss_predictor.c:55-77 | a strictly sorted table has at most one row for a key |
| WssLookup.SameLetterIff | lzx/kernel/v4.2/parp-userspace-four-ops/get_wss_predictor.c:33-40 | two characters compare equal exactly when they are equal or one letter in two cases |
| WssLookup.TableIsFirst | lzx/kernel/v4.2/parp-userspace-four-ops/get_wss_predictor.c:45-53 | the table found is the first registered under the name |
| WssLookup.FindRow | lzx/kernel/v4.2/parp-userspace-four-ops/get_wss_predictor.c:55-77 | terminates, returns only a row with the key, and misses none on a sorted table |
| WssLookup.SameAppName | lzx/kernel/v4.2/parp-userspace-four-ops/get_wss_predictor.c:30-43 | names match exactly when they are equal up to ASCII case |
| WssLookup.FindApp | lzx/kernel/v4.2/parp-userspace-four-ops/get_wss_predictor.c:45-53 | the first table registered under the name, or none when no table matches |
| WssLookup.CheckArguments | lzx/kernel/v4.2/parp-userspace-four-ops/get_wss_predictor.c:91-100 | accepts exactly the queries the interface allows: a name, two disjoint windows, positive numbers, a known pressure |
| WssLookup.Overlaps | lzx/kernel/v4.2/parp-userspace-four-ops/get_wss_predictor.c:95-100 | comparing every pair of words detects exactly the overlapping windows |
| WssLookup.Collect | lzx/kernel/v4.2/parp-userspace-four-ops/get_wss_predictor.c:108-124 | four buffered values, or the error of the first operation that cannot be answered |
| WssLookup.CopyOut | lzx/kernel/v4.2/parp-userspace-four-ops/get_wss_predictor.c:125-128 | both windows hold the buffers and every other word is unchanged |
| WssLookup.GetWssPredictor | lzx/kernel/v4.2/parp-userspace-four-ops/get_wss_predictor.c:79-130 | either an error with memory untouched, or for each of the four next operations the working set and page faults of the table's row for it in their own windows, -1 beyond the last, and nothing else changed |
| WssLookup.SucceedsIff | lzx/kernel/v4.2/parp-userspace-four-ops/get_wss_predictor.c:104-124 | succeeds exactly when the current row exists and each of the next four existing operations has usable data |
| WssLookup.StatusMeans | lzx/kernel/v4.2/parp-userspace-four-ops/get_wss_predictor.c:102-124 | which status a query with a table gets: the order of the checks, then the first next operation whose row is missing or unusable |
| WssLookup.RefusedIff | lzx/kernel/v4.2/parp-userspace-four-ops/get_wss_predictor.c:91-103 | exactly which arguments are refused, and that no table means an unsupported application |
| WssLookup.PaddingIffBeyondEnd | lzx/kernel/v4.2/parp-userspace-four-ops/get_wss_predictor.h:41-54 | -1 is written exactly for operations beyond the last one |
| WssLookup.NextQueryAgrees | lzx/kernel/v4.2/parp-userspace-four-ops/get_wss_predictor.c:108-124 | successive queries agree on shared operations, and the later can fail only on the one operation not looked at before |
| RuntimeState.Runtime.HandleEvent | lzx/service/runtime_monitor/state.py:51-117 | the five fields and the returned update are those of the transition function |
| RuntimeState.Runtime.CloseOpened | lzx/service/runtime_monitor/state.py:123-124 | the list comprehension removes every occurrence of the application and keeps the order |
| RuntimeState.Runtime.SetForeground | lzx/service/runtime_monitor/state.py:126-131 | the history gets the application unless it already ends in it, trimmed to its length |
| RuntimeState.Runtime.TrackWindow | lzx/service/runtime_monitor/state.py:133-141 | a new key is tracked and counted; true exactly for the first counted window |
| RuntimeState.Runtime.ForgetWindow | lzx/service/runtime_monitor/state.py:143-152 | the tracked application, else the named one, loses a count; true exactly for the named application's last |
| RuntimeState.AlwaysConsistent | lzx/service/runtime_monitor/state.py:51-152 | opened applications are distinct and hold every counted application, counts are between 1 and the tracked windows, the foreground is open |
| RuntimeState.ExactStep | lzx/service/runtime_monitor/state.py:143-152 | an event keeps counts equal to tracked windows exactly when it is no close of an untracked window of a counted application |
| RuntimeState.MiscountReachable | lzx/service/runtime_monitor/state.py:143-152 | after one opening, closing another window of the same application makes its count differ from its windows |
| RuntimeState.CountsExact | lzx/service/runtime_monitor/state.py:133-152 | if every close names a tracked window, counts are the tracked windows |
| RuntimeState.CloseEndsApplication | lzx/service/runtime_monitor/state.py:87-93 | closing a tracked window ends its application exactly when it was the last one and the event names that application; other applications stay as they were |
| RuntimeState.FirstWindowPredicts | lzx/service/runtime_monitor/state.py:75-80 | an opening asks for a prediction exactly when it brings an application its first window, and an application with windows is open |
| RuntimeState.WindowsFollowEvents | lzx/service/runtime_monitor/state.py:133-144 | after any events a window belongs to the application that opened it first since it was last closed |
| RuntimeState.OpenListOrder | lzx/service/runtime_monitor/state.py:119-124 | a newly open application comes last, an ended one leaves the others in order |
| RuntimeState.SwitchTakesForeground | lzx/service/runtime_monitor/state.py:81-95 | a switch opens its application and makes it the foreground; minimizing, restoring and unmapped events change nothing |
| RuntimeState.ReportMeans | lzx/service/runtime_monitor/state.py:72-117 | what is reported and logged for each kind of event, and when a prediction is asked for |
| RuntimeState.UnknownReport | lzx/service/runtime_monitor/state.py:60-70 | an event of no interest reports the lists as they stand and asks for nothing |
| RuntimeState.LogStutterFree | lzx/service/runtime_monitor/state.py:126-131 | the log of switches never repeats an application immediately |
| RuntimeState.HistoryFollowsLog | lzx/service/runtime_monitor/state.py:81-86 | the history is the end of that log, and ends in the foreground application when there is one |
| RuntimeState.HistoryBounded | lzx/service/runtime_monitor/state.py:126-131 | the configured length bounds the history if and only if it is at least 1 |
| RuntimeState.UnloggedChangesNothing | lzx/service/runtime_monitor/state.py:97-117 | an event without a log row leaves opened applications, foreground and history as they were |

## Left out

- Weak memory ordering and interrupt state: every load and store is an atomic, sequentially consistent step.
- Page-extension lookup: metadata is present for every page; the hashed lock array is one lock per page.
- Cookies and keyed hashes: the random score takes the hash bucket as a parameter.
- Tracing, latency and event counters, stats and config formatting, config parsing: the parsed config tuple is an input.
- The pressure counterfactual fields and the rank bin of a decision, which only feed traces.
- The build-time experimental gate and the metadata-ready gate of a mode change, which only refuse more requests.
- ReservationLedger.ScanContext.Prepare: takes the outcome of the config read as a flag; `ActivationProtocol` models the
  read itself.
- Outcome reporting after reclaim, which re-reads the page and clears the pending action (`SetAction` models that store).
- StateSeqlock.TornReadAfterWrap: reads two fields; the revalidation reads one, which `CommitRevalidates` covers in the
  sequential form.
- PageHistory.CommitRevalidates: covers the page's part of a commit revalidation; the mode, fault and config comparisons
  beside it are plain reads; `ActivationProtocol` shows what stays fixed under a batch.
- The reclaim loop that calls prepare, decide and finish: its serialization per list is an assumption of `LedgerRuns`.
- StateSeqlock and ActivationProtocol model the concurrent code as transition systems on values; the methods of
  `ReusePage` and `ScanContext` are the sequential form of the same sections.
- StateSeqlock.AcceptedReadIsAtomic: excludes reads overlapping a reallocation, which the code does not protect either.
- Page allocation does not pass through an odd sequence in the code; a read that overlaps one is not covered.
- User resampling, quantiles and floating-point rounding in the bootstraps; times and scores are real numbers.
- Ranking metrics divide by K at the end; `ScoreQuery` carries the number of hits.
- The X11 and process-event queues, timers, file descriptors closing at shutdown, and what handlers do with an event.
- Predictions, triggers and CSV rows of the visit-window runner; timestamps and user fields of the state updates.
- Mapping raw events to applications: the mapped application is part of an event.
- The generated table rows: the lookup is proved for every strictly sorted table and every registry.
