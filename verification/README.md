# Verification of the quota scheduler

A Dafny model of the credential scheduler's small state machines, with proofs about every
run of them. Each source component is a state (a datatype, and a class with the program's
own fields where the program updates in place), its critical sections as functions on that
state, methods with the program's loops proved to do exactly what the functions say, and
theorems over all inputs, all histories or all interleavings.

Everything done under one mutex or file lock is one step. Time is an integer that callers
pass in and that does not run backwards within a component; Go's zero time is 0. Quotas,
weights and costs are exact reals. Random tokens and identifiers are inputs assumed to be
new. `dafny verify dfyconfig.toml` checks the whole project.

## What is modelled

| files | component |
|---|---|
| GenerationRecord, GenerationJournal, JournalReading, JournalText, GenerationProtocol, FileProtocol | the generation fence: a byte journal with torn appends and compaction, the protocol any number of instances run on its records, and the same over the bytes |
| ResetCredits, CreditDue, RedemptionFence | at-most-once redemption of reset credits, alone and on top of the fence |
| CredentialAliases, ConcurrencyGate, GateAdmission, GateCap, GateSteps, GateRuns, GateTheorems, GatePicks, GateVerdicts, GateArrivals, GateOvertaking, GateObject | the credential concurrency gate: alias merging, slots, queues, tokens, completion memory |
| FairShare, BalancedRounds | weighted fair share by credits |
| RecoveryMargin, RecoveryEvents | the recovery-margin simulation |
| ReservationBook | quota reservations, settlement and acknowledgement |
| Backoff, RecoveryGuard, BanState | half-open recovery of guarded and banned credentials |
| PacingGate | pacing permits |
| WarmupBudget | the rolling warmup budget |
| QuotaEpoch, EpochRules, EpochRuns, EpochEscapes, EpochObject | epoch sweeps and confirmation |
| SerialRanking, SerialBands, Text | the serial comparator and priority groups |

The handlers of the classes without a loop of their own (a ban recorded, a request
released, a reservation settled, a wait ended) are proved equal to their state functions
too; the theorems are about those functions, and the table lists the methods with loops.

## Where the code does not do what one would expect

Five expected properties are false of the code. Each is stated with the exact condition
under which it holds, and with a run that breaks it.

- A redemption entry can go from pending straight to verified. The confirmation write's
  error is ignored (reset_credits.go:546-575); the jump happens iff that write was lost
  (ResetCredits.PhaseMoves, ResetCredits.ConfirmationCanBeSkipped).
- The slot cap and queue order can break inside one pick. The candidate loop judges each
  credential before later candidates are learned (concurrency.go:545-557), so a candidate
  that joins an idle identity to a full one admits past the limit and the queue
  (GateOvertaking.OvertakingRun). The slot stays within the limit iff the keys that became
  the chosen one had fewer than the limit of slots between them, and it overtakes nobody iff
  none of those keys had an earlier live waiter (GatePicks.PickKeepsCapIff,
  GatePicks.PickIsFifoIff). The cap in every state counts once per merged identity
  (GateTheorems.CapOverRuns).
- A sweep target can be probed twice in one round. The reason for a probe is computed under
  one lock and recorded under the next (quota_refresh.go:413-441); a response header may
  restart the sweep in between. It happens iff the probe was decided before the round began,
  and at most once per sweep (EpochRuns.ProbedAgainIff, EpochEscapes.StrayRun).
- Follow-ups of a pending account are bounded only as the program counts them. A follow-up
  that is sent counts iff its account is still pending when it is recorded, and an account
  that leaves the inventory and returns starts over (EpochRuns.FollowUpCountsIff,
  EpochEscapes.LostFollowUpsHaveNoBound, EpochEscapes.ReturningRestartsTheCount).
- A first-ever journal append that is torn makes the journal unreadable, exactly when it is
  torn strictly inside the line (GenerationJournal.FirstAppendTorn).

## Model

| member | source | states |
|---|---|---|
| GenerationRecord.ResolveFollows | generation_owner.go:101-113 | whatever a reserve, claim, commit or release decides to write, the highest reservation and the active generation do not decrease |
| GenerationRecord.ReserveTakesNext | generation_owner.go:101-113 | a reservation takes the next number and leaves the owner alone; only the last 64-bit number stops it |
| GenerationRecord.ClaimTakesOver | generation_owner.go:175-190 | the newest reservation becomes the one active generation, with its owner; one that a newer reservation or generation overtook changes nothing, and a number never reserved is refused |
| GenerationRecord.ReleaseLeavesTombstone | generation_owner.go:290-299 | a release by the holder leaves its generation and owner on record and no longer active; by anybody else it changes nothing |
| GenerationJournal.JournalFile.ReadLocked | generation_owner.go:491-553 | the line scan reads exactly what the reading function says: blank lines skipped, a torn last line tolerated, anything else malformed or decreasing an error |
| GenerationJournal.JournalFile.CompactTo | generation_owner.go:560-590 | compaction replaces the journal by one line, or fails before or after the rename |
| GenerationJournal.JournalFile.AppendLocked | generation_owner.go:592-628 | an append repairs a missing newline, respects the size limit and may be cut at any byte |
| GenerationJournal.JournalFile.UpdateRecord | generation_owner.go:407-489 | read, compact when torn or long, callback, append: the new bytes and the answer, and the record the callback saw |
| GenerationJournal.ReadShape | generation_owner.go:491-553 | a journal with one durable record and at most one torn append reads as exactly the record it stands for; torn tails are reported iff present; never an error |
| GenerationJournal.AppendStands | generation_owner.go:592-628 | an append cut at any byte leaves the old or the new record standing |
| GenerationJournal.PreparedStands | generation_owner.go:446-487 | compaction first at 3<<18 bytes leaves room for any line of 64 KiB under 1<<20, so the size limit is never hit |
| GenerationJournal.UpdateStands | generation_owner.go:407-489 | one update under any fault leaves the old record or the one the request resolves to, and success means the new one is durable |
| GenerationJournal.HistoryRecovers | generation_owner.go:407-628 | over any history of updates and faults reading never fails, yields the previous or the new record each time, and counters never decrease |
| GenerationJournal.FirstAppendTorn | generation_owner.go:546-548 | with no durable record the journal is unreadable iff the first line is torn strictly inside |
| GenerationJournal.CompactionPreservesReading | generation_owner.go:560-590 | compaction preserves the read result |
| JournalReading.ReadIff | generation_owner.go:491-553 | the reader accepts a file iff every line is blank or a valid record, none goes back behind an earlier one, only an unterminated last line is torn and unless all is blank there is a record; it answers the last record |
| JournalReading.SplitIsExact | generation_owner.go:508-515 | splitting into lines loses nothing |
| JournalReading.AppendFitsIff | generation_owner.go:592-628 | an undisturbed append is refused iff the file would outgrow 1 MiB, and otherwise stands on a line of its own |
| JournalText.JsonCodecIsLawful | generation_owner.go:592-606 | a JSON object text with the struct's field names meets the laws the journal asks of its encoding: no newline, every proper prefix recognised as truncated, one decoder undoes the encoding |
| GenerationProtocol.SchedulerGeneration.ReserveOwnership | generation_owner.go:89-128 | a reservation takes the next ticket of the journal and waits |
| GenerationProtocol.SchedulerGeneration.MarkSuperseded | generation_owner.go:345-372 | an instance that sees a newer generation stops being active |
| GenerationProtocol.SchedulerGeneration.ClaimOwnership | generation_owner.go:161-218 | a claim after a successful refresh succeeds unless a newer generation claimed or retired |
| GenerationProtocol.SchedulerGeneration.CommitAsOwner | generation_owner.go:243-272 | a commit is entered only while the journal's active generation, owner and flag are the instance's own; it succeeds iff it was entered and did not fail itself |
| GenerationProtocol.SchedulerGeneration.ReleaseOwnership | generation_owner.go:282-313 | a release asks the journal for the tombstone of its own generation, and counts as released iff the record it saw was its own |
| GenerationProtocol.TicketsAreUnique | generation_owner.go:101-113 | over any interleaving of instances, crashes and faults, tickets are unique |
| GenerationProtocol.OneOwner | generation_owner.go:256-271 | at any time at most one instance can pass the commit check |
| GenerationProtocol.CommitsAreOrdered | generation_owner.go:243-272 | the tickets of successful commits form a nondecreasing sequence |
| GenerationProtocol.CountersNeverDecrease | generation_owner.go:175-213 | the journal's highest reservation and active generation never decrease |
| GenerationProtocol.NoRevival | generation_owner.go:175-213 | a ticket is active for one contiguous interval |
| GenerationProtocol.RetiredForever | generation_owner.go:290-311 | a generation that was overtaken or has its tombstone stays retired in every continuation |
| GenerationProtocol.RetiredCannotCommit | generation_owner.go:256-271 | a retired ticket never commits again |
| GenerationProtocol.ReleaseRetires | generation_owner.go:282-313 | a release whose record became durable retires the ticket at once, whether or not its caller was told; otherwise the ticket stays active |
| GenerationProtocol.ReleasedNeverCommits | generation_owner.go:256-313 | after a durable release no commit of any continuation carries the ticket |
| GenerationProtocol.ClaimActivates | generation_owner.go:175-190 | the newest reservation, durably claimed, becomes the active ticket with its own owner |
| GenerationProtocol.CommitEntersIff | generation_owner.go:256-271 | a commit is entered iff the active record is the thread's own ticket and owner |
| GenerationProtocol.SectionEnds | generation_owner.go:161-313 | what a section under the lock leaves to publish: that it was overtaken, a claim or a release that went through, otherwise nothing; an overtaken section changes neither record nor commits |
| GenerationProtocol.OvertakenIsSuperseded | generation_owner.go:194-304 | an instance that finds itself overtaken is superseded once it has published that |
| GenerationProtocol.BeginsIff | generation_owner.go:161-286 | an instance begins a claim, or once claimed a commit, check or release, iff its lease is neither superseded nor released |
| GenerationProtocol.LeaseMoves | generation_owner.go:194-216 | only a new reservation replaces a lease; superseded and released are for good, and claimed is published only for this very lease before it was superseded |
| FileProtocol.UpdateIsJournalStep | generation_owner.go:407-489 | every effect of an update on a standing journal is an outcome of the protocol's journal step |
| FileProtocol.UpdateSimulates | generation_owner.go:407-489 | the same from the first update of an empty file on, a torn first append included |
| FileProtocol.RunAgrees | generation_owner.go:89-313 | step by step, a run of all instances over the bytes under any faults is a run of the protocol on the records that the file stands for |
| FileProtocol.FileKeepsOrder | generation_owner.go:101-272 | over any such run of the file tickets are unique and commits come in ticket order |
| FileProtocol.FileNeverRevives | generation_owner.go:175-311 | readers of the file find a ticket active during one contiguous stretch |
| CreditDue.ResetCreditDue | reset_credits.go:143-165 | the verdict is that of the first live card of a complete listing, whatever follows it |
| CreditDue.DueIsEarliest | reset_credits.go:148-162 | a card due is redeemable and no live card expires before it |
| ResetCredits.AttemptJournal.ReserveAttempt | reset_credits.go:512-534 | reserving prunes, refuses conflicting accounts and credits, and makes a pending entry durable or fails |
| ResetCredits.AttemptJournal.WriteAttempt | reset_credits.go:546-575 | a phase write replaces the worker's own entry, or is lost |
| ResetCredits.AttemptJournal.Reconcile | reset_credits.go:387-419 | an entry changes only from confirmed to verified, on a complete later listing with fewer credits and without its own; blocked iff the write failed or an entry of the account is not verified afterwards |
| ResetCredits.ReconcileVerifiesIff | reset_credits.go:390-413 | an entry turns verified iff it was confirmed, is the account's, and a complete list with a known count read after the attempt shows fewer credits than before and not the attempted one; nothing else changes |
| ResetCredits.ReservationTerms | reset_credits.go:512-524 | a reservation is refused iff an entry for the credit, or one of the account that is unverified or younger than a minute, stands in its way, or the journal would exceed 4096 entries; only verified entries older than 90 days are dropped |
| ResetCredits.VerifiedOnEvidence | reset_credits.go:399-578 | over all steps an entry turns verified iff a durable write follows a list that shows the use: that of a reconciliation, or that of its own worker after the confirmation |
| ResetCredits.AtMostOncePerCredit | reset_credits.go:512-534 | over any crashes, lost responses and failed writes, each credit gets at most one POST while its entry is resident |
| ResetCredits.OnlyVerifiedEntriesArePruned | reset_credits.go:317-376 | an entry is deleted only when verified and past retention |
| ResetCredits.PostIsGuarded | reset_credits.go:512-546 | every POST is preceded by its own durable pending entry while all other entries of the account are verified |
| ResetCredits.PhaseMoves | reset_credits.go:546-575 | phases move pending to unknown or confirmed to verified and never back; pending to verified happens iff the confirmation write was lost |
| ResetCredits.ConfirmationCanBeSkipped | reset_credits.go:546-575 | a concrete run in which the lost confirmation write makes the phase jump |
| RedemptionFence.AtMostOnceAcrossInstances | reset_credits.go:317-376 | at most one POST per resident entry over all instances and takeovers, on top of the generation fence |
| RedemptionFence.WritersAreOrdered | reset_credits.go:317-376 | the generations that change the redemption journal never go back |
| RedemptionFence.ChangesAreFenced | reset_credits.go:317-376 | the redemption journal changes only inside a commit of the active generation, by a worker of the very instance that commits |
| RedemptionFence.OwnerIsLetThrough | reset_credits.go:317-376 | a change by the instance whose commit is running goes through exactly as without a fence |
| CredentialAliases.BestKeyIsLeast | concurrency.go:197-207 | the chosen key is the smallest key known for the supplied aliases |
| CredentialAliases.ChosenKeyCases | concurrency.go:197-210 | the chosen key is a known canonical key or, if nothing is known, the first alias |
| CredentialAliases.LearnKeepsIdempotent | concurrency.go:211-238 | one lookup keeps the map flat, gives all supplied aliases one key and redirects exactly the merged keys |
| CredentialAliases.KnownIffSupplied | concurrency.go:235-237 | the map knows exactly the aliases ever supplied |
| CredentialAliases.SameKeyIffConnected | concurrency.go:197-239 | two known aliases share a key iff a chain of supplied lists connects them |
| Text.Transitive | concurrency.go:201 | string order, used to pick keys and break ranking ties, is transitive |
| Text.Total | concurrency.go:201 | and total |
| ConcurrencyGate.RegisterKeepsTokens | concurrency.go:129-160 | tokens and non-warmup requests stay mutual inverses through registration and pruning |
| ConcurrencyGate.ReleaseKeepsTokens | concurrency.go:179-192 | and through release |
| ConcurrencyGate.RingIsRecentHistory | concurrency.go:165-177 | the ring and its set hold exactly the most recent 8192 distinct completed ids in insertion order |
| ConcurrencyGate.CompletedIsNotRevived | concurrency.go:133-136 | registration never revives a remembered id |
| ConcurrencyGate.KeyForKeepsCanonical | concurrency.go:211-238 | after a merge every live slot key and wait key is canonical |
| ConcurrencyGate.MergeMovesSlots | concurrency.go:217-234 | a merge gives the surviving key the sum of the merged slots, empties the merged keys and changes nothing else |
| ConcurrencyGate.MergePreservesWaiting | concurrency.go:223-229 | after a merge a request waits for a credential iff it waited for one that is now the same credential |
| GateCap.KeyForKeepsCap | concurrency.go:197-239 | merging keeps the cap and every slot already promised to an open pick |
| GateCap.PromiseSlot | concurrency.go:259-263 | a credential judged free has room for one more slot |
| GateSteps.QueueKeeps | concurrency.go:277-290 | a queued request keeps its place or gets one larger than all before |
| GateSteps.LearnedIsNoop | concurrency.go:560-564 | a second lookup of learned aliases changes nothing, so queue keys are final |
| GateSteps.EvaluateUnmerged | concurrency.go:545-557 | a candidate loop that merges nothing judges all candidates on the same requests and keys |
| GateTheorems.CapOverRuns | concurrency.go:535-618 | in every reachable state a credential holds at most the limit for each identity merged into it |
| GateTheorems.CapWithoutMerges | concurrency.go:535-618 | a credential that was never merged holds at most the limit, across picks, native admissions, retries and warmups |
| GateTheorems.CommitIsFifo | concurrency.go:541-618 | a pick that merged no keys while under way overtakes no live earlier waiter |
| GateTheorems.ArrivalIsFifo | concurrency.go:756-803 | a native admission overtakes no live earlier waiter, merges or not |
| GateTheorems.WarmupYields | concurrency.go:953-979 | a warmup is admitted only to a credential with no slot and no live waiter |
| GateTheorems.OthersTakeNothing | concurrency.go:179-300 | no other section grants a slot |
| GateTheorems.BooksOverRuns | concurrency.go:129-192 | in every reachable state queue places are distinct, tokens match, keys are canonical and no remembered execution is registered |
| GatePicks.PickKeepsCapIff | concurrency.go:541-620 | whatever merges a pick, or status reads meanwhile, make: its slot keeps the limit iff the old keys joined into the chosen credential together had fewer than the limit of slots still held |
| GatePicks.PickIsFifoIff | concurrency.go:541-620 | and it overtakes nobody iff none of those old keys had an earlier live waiter who still waits |
| GatePicks.UninterruptedPick | concurrency.go:541-620 | without other sections in between both conditions are read off the gate before the pick: the sum of the joined keys' slots, and their live waiters |
| GateVerdicts.PickSelectsIff | concurrency.go:485-604 | a pick selects iff no candidate named preferred is full or wanted by an earlier live waiter at its turn, some candidate is free, and an eligible one is free if any is eligible; the attempt is exactly the free candidates in order; otherwise the request queues behind exactly the preferred, or every eligible, credential |
| GateVerdicts.PreferredWaits | concurrency.go:548-566 | a conversation whose preferred credential is busy queues for that credential alone, however many others are idle |
| GateVerdicts.PickRefuses | concurrency.go:505-532 | an execution rejected before, or past the end of its wait, is rejected; an unknown one is left alone |
| GateArrivals.NativeSlotIff | concurrency.go:762-803 | a native route takes the selected credential's slot iff that is neither full nor wanted by an earlier live waiter, and otherwise queues for it alone, after giving up any other slot |
| GateArrivals.SentIffHolding | concurrency.go:715-855 | an arrival dispatches a request iff it is admitted and then holds the slot of the very credential selected |
| GateArrivals.OverStaysRejected | concurrency.go:725-756 | a request whose wait is over is rejected for good; no arrival gives it a slot or sends it |
| GateArrivals.WarmupStartsIff | concurrency.go:953-979 | a warmup starts iff nobody holds a slot of the credential and nobody live waits for it |
| GateArrivals.AttemptGivesBack | concurrency.go:915-940 | a failed attempt that was sent gives exactly its own slot back and stays registered |
| GateArrivals.FinishGivesBack | concurrency.go:165-192 | a finished execution gives its slot back, leaves no token and is remembered |
| GateArrivals.RegistrationIs | concurrency.go:129-160 | registering a new id drops exactly the requests without a slot older than half an hour, and admits it iff fewer than 8192 remain |
| GateArrivals.RegistrationTokens | concurrency.go:129-160 | the new token names the new id, and an old one stays iff it was not that of a dropped request |
| GateOvertaking.MergeDuringPickOvertakes | concurrency.go:545-557 | in every gate, a pick between an unknown credential and a full one that share an auth_index takes a slot beyond the limit, past everybody waiting |
| GateOvertaking.OvertakingRun | concurrency.go:346-366 | such a pick from the empty gate, with the alias lists the scheduler builds: two slots under a limit of one, an earlier waiter passed |
| GateObject.AccountConcurrencyGate.Register | concurrency.go:129-160 | pruning stale requests and their tokens in one loop, then admitting the id below the limit of 8192; a known or remembered id is not registered anew |
| GateObject.AccountConcurrencyGate.KeyFor | concurrency.go:197-239 | loops over the list, the alias map, the requests and their wait keys: the smallest known key survives, every alias, slot and wait key of a merged key moves to it, and nothing else changes |
| GateObject.AccountConcurrencyGate.Count | concurrency.go:240-253 | the loop counts exactly the slots of the key |
| GateObject.AccountConcurrencyGate.Blocked | concurrency.go:259-276 | the loop finds out whether the key is full or a live earlier waiter wants it |
| GateObject.AccountConcurrencyGate.Judge | concurrency.go:545-557 | the candidate loop looks every candidate up and judges it at once, on what was learned so far |
| GateObject.AccountConcurrencyGate.OpenPick | concurrency.go:485-604 | the first section of a pick: unknown, rejected and expired requests leave, the last attempt is detached, and the request is queued behind its wait keys or goes on with the free candidates as GateVerdicts.PickSelectsIff says |
| GateObject.AccountConcurrencyGate.AdmitNative | concurrency.go:762-803 | a native request gets the slot of the selected credential at once or queues for it, after giving up a slot of another |
| GateObject.AccountConcurrencyGate.After | concurrency.go:715-855 | one round of the after-selection callback: registers, rejects, queues, admits or dispatches in that order of precedence |
| GateObject.AccountConcurrencyGate.BeginWarmup | concurrency.go:953-979 | a warmup takes a slot under a limit of one, or nothing |
| FairShare.ScanIsTop | balanced.go:245-257 | the scan picks most credit, then least recently picked, then first |
| FairShare.ScannedRoundIsFair | balanced.go:241-271 | a round of the program extends a fair history, whatever the pick times |
| FairShare.ClampNeverBinds | balanced.go:188-257 | credits sum to zero and the max(8, 2k) * cost clamp never cuts a round |
| FairShare.CreditsAreClamped | balanced.go:188-257 | credits left over from other costs or pools are cut to max(8, 2k) * cost, and one within that is not touched |
| FairShare.ProportionalShare | balanced.go:241-271 | after n rounds an account is within 1 - 1/k above and (k-1)(1 - 1/k) below n * w / W picks |
| FairShare.WholeRounds | balanced.go:241-271 | fewer than n * w / W + 1 picks and at least n * w / W - (k-1) |
| FairShare.ScanSharesOut | balanced.go:241-271 | n rounds of the program's own scan from zero credit, at any times, keep both integer bounds for every account |
| FairShare.WindowShare | balanced.go:241-271 | in any window of rounds an account gets its share to within k - 1 |
| BalancedRounds.BalancedAccounts.FallbackPick | balanced.go:241-271 | the fallback round: every account credited and clamped, the scan's choice pays, everybody else untouched |
| BalancedRounds.BalancedAccounts.Tentative | balanced.go:81-115 | the tentative round computes the scores and changes nothing |
| BalancedRounds.BalancedAccounts.ReservedPick | adq_runtime.go:437-522 | collisions mint no credit: a granted round starts from the old credits and a refused one changes nothing |
| BalancedRounds.AvailableKeepsOrder | adq_runtime.go:437-522 | the candidates left after refusals keep their order, so ties go to the same one |
| RecoveryMargin.Compute | rotation_pool.go:12-76 | the event loop computes exactly the simulated margin |
| RecoveryMargin.DrainIsExact | rotation_pool.go:59-64 | an interval drains exactly min(need, available) and keeps 0 <= remaining <= weekly |
| RecoveryMargin.MarginIsAdequate | rotation_pool.go:12-76 | the margin is finite and at least 1 iff every interval's demand was met, iff demand * horizon was drained |
| RecoveryMargin.MarginIsAntitone | rotation_pool.go:40-75 | more demand never shows a larger margin |
| RecoveryMargin.DrainKeepsBetter | rotation_pool.go:59-64 | draining keeps the run with less demand ahead in every reservoir, now and for the rest of the week |
| RecoveryMargin.EventsEndTheHorizon | rotation_pool.go:22-39 | the sorted events lie in the horizon and the last one ends it |
| RecoveryEvents.EventRefills | rotation_pool.go:66-72 | an event at a reservoir's own reset refills it to min(capacity, what is left of its week); every other reservoir is as the drain left it |
| RecoveryEvents.DrainOrder | rotation_pool.go:49-58 | before a reservoir that still resets inside the horizon only such are drained that reset no later |
| RecoveryEvents.DrainIsGreedy | rotation_pool.go:59-64 | a reservoir gives nothing before the earlier ones are empty, and loses of its week what it gives |
| RecoveryEvents.IntervalDrains | rotation_pool.go:42-64 | an interval asks for demand times its hours, drains that or everything, and lowers the margin to available over need |
| RecoveryEvents.ReservoirsGrow | rotation_pool.go:23-34 | each usable account brings one reservoir with min(five-hour, week), a weekly-only one its week; no other account brings any |
| RecoveryEvents.EventsAre | rotation_pool.go:22-39 | the events are the end of the horizon and exactly the resets of usable five-hour reservoirs strictly inside it |
| ReservationBook.ReservedWithinCapacity | adq_pbs.go:1005-1032 | an account that reserved since its capacity was set holds at most capacity + 1e-9 in both windows; the tolerance does not accumulate |
| ReservationBook.GrantedIffFits | adq_pbs.go:1017-1031 | a reservation is granted iff, lapsed leases aside, it fits into both capacities plus 1e-9; it is then active under an id never used before, for its time or 45 s |
| ReservationBook.SettleConserves | adq_pbs.go:1105-1148 | settling takes the whole reservation out of what is reserved and adds what was really used to what is owed, max(weekly, 0) and max(five-hour, 0), the latter only if five-hour quota was reserved; once, and none counts in both |
| ReservationBook.SettlementEnds | adq_pbs.go:1088-1148 | a settled reservation is reconciled iff it owes nothing; otherwise it settles until between 30 s and 10 min from now |
| ReservationBook.ObservationClearsIff | adq_pbs.go:1150-1225 | an observation clears a debt iff it is newer than baseline and settlement and shows other usage, more credits used or another reset cycle |
| ReservationBook.ObservationExpiresFirst | adq_pbs.go:1190-1225 | an observation first expires what lapsed, for every account, and then touches only its own account's debts |
| ReservationBook.ExpiryIs | adq_pbs.go:922-952 | time ends a reservation iff it is active past its lease, and a debt iff it settles past its expiry |
| ReservationBook.ReleaseGivesBack | adq_pbs.go:1033-1057 | a release gives back exactly what the reservation holds or owes |
| ReservationBook.CapacityIsLastSet | adq_pbs.go:915-921 | a capacity is what was last set for the account, and never negative |
| ReservationBook.TerminalStays | adq_pbs.go:1033-1057 | released and reconciled are terminal |
| ReservationBook.DebtIsAcknowledged | adq_pbs.go:1150-1225 | debt goes only by expiry, release, or a strictly newer observation that shows a change |
| ReservationBook.Ledger.ExpireLocked | adq_pbs.go:922-952 | one loop moves lapsed reservations to expired and lapsed debts to reconciled, and reports whether anything changed |
| ReservationBook.Ledger.ReservedNow | adq_pbs.go:954-965 | after expiry, the loop sums what the account has reserved in both windows |
| ReservationBook.Ledger.TryReserveFor | adq_pbs.go:1005-1032 | expires, then grants under a fresh id iff both windows hold it with the tolerance |
| ReservationBook.Ledger.ObserveQuotaOf | adq_pbs.go:1190-1225 | one loop over the debts of the account clears the windows that a strictly newer, changed observation covers, and reconciles what owes nothing more |
| Backoff.ComputeRetryDelay | recovery_guard.go:161-179 | the doubling loop computes min(max, base * 2^(failures-1)) with its defaults |
| Backoff.ComputeWarmupDelay | warmup_policy.go:130-141 | the doubling loop computes min(6h, base * 2^(failures-1)) |
| Backoff.RetryDelayDoubles | recovery_guard.go:161-179 | the first failure waits the base and each further one twice as long, up to the maximum |
| Backoff.WarmupDelayDoubles | warmup_policy.go:130-141 | the same for warmups, up to six hours |
| RecoveryGuard.SingleProbe | recovery_guard.go:114-159 | at most one dispatched, unfinished owner per credential in every run |
| RecoveryGuard.FlyingBlocks | recovery_guard.go:128-138 | while a probe is out nobody else is let through, however long it takes |
| RecoveryGuard.GuardLiftedIff | recovery_guard.go:185-216 | a guard is lifted iff its dispatched owner succeeds and no exhaustion evidence came since it reserved |
| RecoveryGuard.RetryNeverEarlier | recovery_guard.go:204-238 | the retry time never moves earlier, and before it nobody reserves |
| RecoveryGuard.FailureBacksOff | recovery_guard.go:204-213 | a failed probe waits out its whole backoff |
| RecoveryGuard.ReservesIff | recovery_guard.go:114-144 | a request is let through a guard iff the guard is ready, past its retry time, for this index, and free, its own, or its owner sent nothing for two minutes |
| RecoveryGuard.BecomesReadyIff | recovery_guard.go:62-112 | a guard becomes ready iff a current snapshot newer than the exhaustion shows every window usable and a five-hour cycle that began after it, while no probe is out |
| RecoveryGuard.GuardedIff | recovery_guard.go:37-239 | a credential becomes guarded iff exhaustion is observed or demanded, and new evidence takes a guard's readiness and never makes its times older |
| RecoveryGuard.EndDecides | recovery_guard.go:185-216 | the end of a request spares, lifts or backs off each guard it owns; an unsent probe costs nothing |
| RecoveryGuard.Guard.ObserveQuota | recovery_guard.go:37-112 | the loops over the windows decide whether the snapshot exhausts the account or is fresh evidence of quota; the guard appears, gets a new generation or becomes ready accordingly |
| RecoveryGuard.Guard.FinishExcept | recovery_guard.go:185-216 | one loop over all guards of the owner but the excepted: lifted on success without newer evidence, otherwise backed off |
| BanState.DeadlineNeverEarlier | main.go:262-294 | a ban's deadline never moves earlier unless the entry was provisional |
| BanState.ProvisionalMayShorten | main.go:281-288 | a provisional ban takes over the deadline of the 429 that replaces it |
| BanState.SingleProbe | main.go:390-429 | at most one owned probe per credential in every run |
| BanState.FlyingBlocks | main.go:390-429 | while an owned probe is out nobody else is admitted, whatever 429s arrive |
| BanState.BanLiftedIff | main.go:433-515 | a ban is lifted iff a matching anonymous probe succeeds, or an owned one that no 429 hit since it began |
| BanState.ProbeStartsIff | main.go:222-231 | a probe starts iff the deadline passed and no probe is out; waiting alone heals nothing |
| BanState.AdmittedIff | main.go:390-429 | a ban lets through the probe's owner, the first lifecycle to bind a live anonymous probe, and a new probe once the deadline passed and none is out; a new one counts as an attempt and gets its lease |
| BanState.HitOnBan | main.go:262-371 | a 429 on a ban adds evidence, and a failure if it answers the anonymous probe; the deadline becomes the latest of the given one, the backoff and, unless provisional, the old one; an owned probe stays out |
| BanState.SentMarks | main.go:470-477 | a probe counts as sent iff its own owner is dispatched while it is out |
| BanState.EndDecides | main.go:483-515 | the end of an owner's request spares, lifts or reopens each ban it probes, with one more failure and its backoff |
| BanState.UsageFails | main.go:433-468 | a failed anonymous probe closes for two minutes or as long as asked; no other failed usage changes a ban |
| BanState.Store.CompleteOwnedExcept | main.go:483-515 | one loop over all bans of the owner but the excepted: lifted if the probe proved the credential, otherwise put back into cooldown |
| PacingGate.PermitsStayApart | continuity.go:287-368 | waiting reservations whose scopes overlap are at least the larger interval apart, in every run |
| PacingGate.ReservationsAreBounded | continuity.go:287-368 | at most 2048 reservations in every run, each with its scope and interval recorded |
| PacingGate.PromiseIsKept | continuity.go:310-324 | a promised permit time does not move while the reservation stands and its scope is the same |
| PacingGate.GrantIsBounded | continuity.go:328-367 | a new wait never exceeds the horizon and keeps its distance from each account's last dispatch |
| PacingGate.PermitIsUnique | continuity.go:328-350 | the earliest permit is determined, in whatever order maps are walked |
| PacingGate.PermitIsEarliest | continuity.go:328-350 | the permit is the earliest time from now on that no last dispatch and no waiting rival hinders |
| PacingGate.AssessmentIs | continuity.go:287-368 | a standing reservation neither late nor moved is kept; otherwise a new one is made iff fewer than 2048 remain and the permit is within the horizon; failing that the caller polls |
| PacingGate.ReservationEndsIff | continuity.go:111-324 | a reservation ends with its execution and, while nothing was sent for it, iff reset, touched by a changed cycle, dropped or late |
| PacingGate.DispatchStamps | continuity.go:125-152 | a dispatch counts once and stamps the account used, or every account of the scope |
| PacingGate.CyclesAdopted | continuity.go:206-240 | an account in another cycle loses its last dispatch and takes the new anchor; one that only drifted keeps the first anchor |
| PacingGate.ResetForgets | continuity.go:172-186 | a reset forgets cycles, scope and last dispatches; what was sent keeps its reservation |
| PacingGate.ContinuityGate.PaceFor | continuity.go:287-368 | loops drop lapsed reservations and find the earliest permit behind the last dispatches and all rivals; then the promise, kept or new, or the refusal |
| PacingGate.ContinuityGate.DispatchedOf | continuity.go:125-152 | a waiting request counts as dispatched once, and the loop stamps the time on the account used, or on its whole scope if that is unknown |
| PacingGate.ContinuityGate.SetPacingCycle | continuity.go:206-240 | the loops find the accounts whose cycle really changed, drop every waiting reservation that touches one of them, and adopt the scope |
| PacingGate.ContinuityGate.ClearPacingScope | continuity.go:242-253 | the loop drops exactly the waiting reservations that have the same scope, and the request's own |
| WarmupBudget.MergeIsUnion | warmup_policy.go:33-64 | the ledger merge is an idempotent union that loses no attempt younger than 24 hours |
| WarmupBudget.MergesCompose | warmup_policy.go:33-64 | merging twice, later, equals merging once with both inputs |
| WarmupBudget.SortedIsUnique | warmup_policy.go:54-63 | the rebuilt list does not depend on map order |
| WarmupBudget.BudgetHolds | warmup.go:242-289 | every 24 hour window holds at most the daily budget of each account, whatever else is merged in |
| WarmupBudget.SpacingHolds | warmup.go:242-289 | any two admitted attempts in the pool are at least the minimum interval apart |
| WarmupBudget.AdmittedIff | warmup.go:242-289 | a warmup is admitted iff every recent attempt of the pool is at least the interval old, the account has budget left of 24 hours, and no remembered outcome holds it |
| WarmupBudget.AdmissionRecords | warmup.go:268-289 | an admission records the attempt and an entry of unknown outcome that keeps the count of failures, and drops only attempts that are no longer recent |
| WarmupBudget.UncertainHolds | warmup.go:268-289 | after an admission its account gets no other warmup for five hours, whatever is loaded, unless the entry is rewritten |
| WarmupBudget.Warmups.Merge | warmup_policy.go:33-64 | the loops rebuild the sorted union |
| WarmupBudget.Warmups.PoolStatus | warmup_policy.go:75-101 | the pool is held iff some attempt lies within the minimum interval |
| WarmupBudget.Warmups.AccountStatus | warmup_policy.go:77-127 | an account is held iff its budget is used or one of its outcomes holds it back |
| WarmupBudget.Warmups.Admit | warmup.go:245-287 | the admission section admits iff neither is held, and records the attempt first |
| QuotaEpoch.QuorumIsHalf | quota_epoch.go:198-207 | a quorum is attainable and at least half |
| EpochRules.QuorumIs | quota_epoch.go:198-207 | everybody in a pool of at most two, otherwise half rounded up |
| EpochRules.SweepProbeIff | quota_epoch.go:374-389 | a sweep probes a target without evidence once per round, inside its window and after the round's delay |
| EpochRules.PendingProbeIff | quota_epoch.go:390-411 | a pending, unobserved account is followed up three times half a minute apart, and after a provider reset later inside the catch-up window |
| EpochRules.BeginIs | quota_epoch.go:279-344 | beginning starts an idle sweep, lets a provider reset take over any other and start afresh, and otherwise only fits the targets to the inventory |
| EpochRules.PrepareIs | quota_epoch.go:346-372 | an inventory forgets accounts that left and begins a first sweep without an epoch, later one for newcomers |
| EpochRules.FinalizeIs | quota_epoch.go:516-588 | a running sweep confirms and closes, or begins a further round, or closes at its deadline or once everybody answered, or runs on, each exactly when its conditions on the fields hold |
| EpochRules.ConfirmedAccountsAre | quota_epoch.go:450-480 | the accounts of a new epoch are the targets; one is done iff used since the sweep started or its answer says so and, after a provider reset, is evidence |
| EpochRules.EpochNameIs | quota_epoch.go:450-480 | an epoch is named after the minute of the reset, with its sequence number if that is the current name |
| EpochRules.NewcomersJoin | quota_epoch.go:553-588 | without a confirmation no account is lost and only a newcomers' sweep within an epoch adds one |
| EpochRules.AnswerIs | quota_epoch.go:590-632 | an answer takes over the sweep if it is new evidence, marks its target, and its account adopts it unless it is older than the epoch |
| EpochRuns.SweepProbesAreBounded | quota_epoch.go:374-426 | a target that stays in a sweep is probed at most once per round and at most four times, counting the probes decided in that sweep; at most one decided before it comes on top |
| EpochRuns.ProbedAgainIff | quota_refresh.go:413-441 | after a sweep probe is recorded its target is to be probed again in the same round iff the probe was decided before the round began, which takes a restart in between |
| EpochEscapes.StrayRun | quota_refresh.go:413-441 | a run from the start in which a target is probed twice in one round |
| EpochRuns.FollowUpsAreBounded | quota_epoch.go:390-436 | since the confirmation, or since it joined, an account got at most three follow-ups that stood when recorded, half a minute apart, and after a provider reset one catch-up ten minutes later inside its window; never a fifth |
| EpochRuns.FollowUpCountsIff | quota_epoch.go:413-436 | a follow-up that is sent counts iff its account is still pending when it is recorded |
| EpochEscapes.LostFollowUpsHaveNoBound | quota_epoch.go:425-436 | for every n there is a run that sends n uncounted follow-ups to one account in one epoch |
| EpochEscapes.ReturningRestartsTheCount | quota_epoch.go:350-353 | an account that leaves the inventory and returns is counted from nothing again in the same epoch |
| EpochRuns.ConfirmationRestsOnQuorum | quota_epoch.go:450-588 | each epoch has the next sequence number and another id; a provider reset rests on evidence from a quorum of the current targets |
| EpochRuns.RoundsFollowEachOther | quota_epoch.go:516-580 | a round begins only after every target without evidence was tried |
| EpochObject.Scheduler.BeginSweepLocked | quota_epoch.go:279-344 | loops reset the targets when a provider reset takes the sweep over and match them to the inventory; the quorum follows |
| EpochObject.Scheduler.ConfirmLocked | quota_epoch.go:450-480 | the loop rebuilds the accounts from the targets, under the next sequence number and an id other than the current one |
| EpochObject.Scheduler.CountsOf | quota_epoch.go:541-551 | the loop counts observed targets and targets with evidence |
| EpochObject.Scheduler.RoundProgress | quota_epoch.go:499-514 | the loop counts the targets that still have to be tried and those tried in this round |
| EpochObject.Scheduler.FinalizeLocked | quota_epoch.go:553-588 | confirms, adopts newcomers in a loop, advances the round or closes the sweep, in that order of precedence |
| EpochObject.Scheduler.ObserveLocked | quota_epoch.go:590-632 | a probe's answer begins a reset sweep, marks its target, updates its account and finalizes |
| SerialRanking.NewSortContext | serial.go:276-299 | the pass computes the pool's maxima, budget group by budget group |
| SerialRanking.ContextIsUnique | serial.go:276-299 | the context depends on the set of candidates, not on their order |
| SerialRanking.LessIsRow | serial.go:319-394 | the whole comparator is one lexicographic order |
| SerialRanking.LessIsStrict | serial.go:319-394 | irreflexive |
| SerialRanking.LessIsTransitive | serial.go:319-394 | transitive, tiers included |
| SerialRanking.LessIsTotal | serial.go:319-394 | total on distinct ids |
| SerialRanking.SortCandidates | serial.go:396-401 | sorting in place yields a ranking of exactly the given candidates under their own context |
| SerialBands.TierIsBand | serial.go:301-317 | a candidate within the band of the fullest of its protection is in the first tier; further down the tier counts the whole bands it lies below |
| SerialBands.TierIsMonotone | serial.go:301-317 | less left never gives a smaller tier |
| SerialBands.FullerBandFirst | serial.go:319-401 | without budgets, of two candidates alike so far in different bands the fuller one comes first in the sorted list |
| SerialBands.MuchFullerFirst | serial.go:319-401 | so one with more than a whole band more left always comes first |
| SerialBands.BudgetTierIsBand | serial_budget.go:107-116 | a budget tier counts the whole 5% bands below the largest budget of the group |
| SerialBands.RicherFirst | serial_budget.go:107-123 | with budgets, of two candidates alike so far in one group the one richer by a band comes first in the sorted list |
| SerialBands.FiveHourLevelsAre | serial.go:351-374 | within a tier a running five-hour cycle, the sooner reset, more room, less used and draining come first, in this order |
| SerialBands.LastLevelsAre | serial.go:375-394 | then more preferred credits, more left, a preferred running cycle, the lower worst window, the longest unselected, the host's priority and the name |
| SerialBands.RankIsFirstPlace | pacing.go:490-497 | a class ranks by its first place in the configured order, and all unlisted classes alike ten places after it |
| SerialRanking.RankingIsUnique | serial.go:396-401 | a ranking is unique |
| SerialRanking.InputOrderIsIrrelevant | serial.go:396-401 | every order of the same candidates ranks to the same list |
| SerialRanking.PriorityFor | quota_priority.go:22-46 | a candidate's deadline is its earliest confirmed reset, else placeholder, else unknown |
| SerialRanking.DeadlineMeans | quota_priority.go:30-44 | the deadline is the soonest known reset ahead of a running window; a live placeholder ranks after every such and nothing known last |
| SerialRanking.DeadlineIsUnique | quota_priority.go:30-44 | and does not depend on the order of its windows |
| SerialRanking.NextGroup | quota_priority.go:111-129 | the next group is exactly the candidates of the best priority, in order; everybody left is strictly worse |
| SerialRanking.GroupsPartition | quota_priority.go:121-127 | group and remainder split the candidates |

## Left out

- File locks, fsync, renames, HTTP, the C ABI, clocks and randomness are not modelled: the exclusive lock works, a rename is atomic, and what they deliver are inputs.
- The journal's text is a parameter with stated laws; JournalText gives one text that meets them, without RFC 3339 dates or JSON escapes, and its decoder is the inverse of that text rather than a JSON parser.
- Trimming of identifiers (strings.TrimSpace) is done by the callers; identifiers here are already trimmed, except where the journal trims lines.
- Notifications, waiting loops and timers: each retry is a step with a new time, and how soon it comes is not said.
- GateTheorems.CommitIsFifo: says nothing about a pick that merged keys while under way; GatePicks.PickIsFifoIff says when queue order is kept then.
- The concurrency gate with enforcement switched off, its event log of rejections and its waiting counters.
- GateObject.AccountConcurrencyGate.After: the recovery and ban verdicts are one input flag; the guards themselves are RecoveryGuard and BanState.
- Sticky conversations, completion corrections, idle credit resets and pool-width overrides of the fair share: its theorem is about constant weights and cost.
- BalancedRounds.BalancedAccounts.ReservedPick: chooses by the plain scan; the leximin choice, sticky conversations and width overrides before it are not modelled.
- ADQ assessment, projection and leximin choice (adq_pbs.go:432-840): floating-point heuristics without an exact order.
- RecoveryMargin: infinities and NaN of floating point; a demand or horizon that is not positive is an explicit case.
- Probe-ready listing, persistence and manual clearing of bans and guards, ban counters, and the normalisation of unknown ban kinds.
- The pacing gate's next-permit hint for callers without an account scope is an input, and actual dispatch times are not spaced.
- Clearing of the warmup ledger after a provider reset, and the choice of the next warmup candidate.
- The evidence test between two weekly windows, the median reset anchor and poll timing of the epoch sweeps are inputs; epoch identifiers are a week number and a suffix, so only consecutive ones are forced apart.
- Quota assessment of a serial candidate (serial.go:60-267) and the serial primary's handoff; the comparator takes the assessed fields as given.
- Order independence of merging quota windows with metadata retention (quota_window_normalize.go): not an exact order.
- Dashboard, status assembly, settings, configuration parsing, header and event-stream parsing, pricing and the Python tooling: plumbing.
