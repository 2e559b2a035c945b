# Agents around a pay-for-work protocol, modelled and proved

This project models the hard parts of the agent roster and proves what they are for:

* **The paid-job engine.** The retry loop that pays natively against a node that may answer
  anything, and the persistent job store: idempotency index, one lane, restart after a crash
  between any two disk writes, and a recovery path that never pays. The store is a class whose
  methods refine a step relation over memory, disk journal and chain; safety is proved over
  every run of that relation.
* **The negotiation engine.** The turn loop is safe for arbitrary policies, and the
  deterministic buyer and seller agree exactly where they should.
* **Screening.** Jaro-Winkler with its match arrays (the greedy scan is a maximum matching),
  the full scan over names, no false clear, and producer against checker: exactly which
  produced reports the checker accepts. The CSV reader reads back all that RFC 4180 can print.
* **The upgrade planner.** Precedence, ranges and searches, the nearest clearing version, the
  independent re-scan, and the comparison of re-runs.
* **Canonical forms and amounts.** The tagged request encoding is canonical and injective; base
  units and decimal text convert back and forth.
* **The memo watcher and the rate limiter**, over whole runs with restarts.
* **The ruling ledger.** Aggregation, ruling verification and the hash chain.

Numbers are exact (`real` or `int`). Hashes are arbitrary functions into a type of one's
choice; tampering results name the collision they would need, or assume the hash collision-free
where they say so, and such hashes exist (`RulingLedger.FreeLedgers`). Signatures are symbolic.
Node, registry, judge, policy and wallet answers are arbitrary inputs. Loops of the source are
loops here, proved equal to a specification function about which the results are then proved.

Six things the proofs brought out:

* `broadcastNativePayment` reads the clock twice around its deadline. If the clock steps back
  between the two readings, an accepted transaction is passed over. An unpaid report can be
  trusted exactly on clocks that never do so, and nothing is sent while an earlier transaction
  is unresolved exactly on clocks that do not do so before the last attempt
  (`PaymentSafety.UnpaidIsTrueExactly`, `RetriesAreSafeExactly`).
* The rate limiter counts by `Date.now()`. On clocks that may step back its window bound holds
  exactly for a limit of one; for any greater limit nothing bounds the calls
  (`RateLimiter.AnyClockBoundExactly`). Its limits may be any positive numbers, whole or not,
  since the environment override checks no more than that; the bounds use their ceilings.
* The hourly limit of paid jobs, kept in memory and rebuilt from the disk, holds over every run
  whose clock does not step back, crashes and restarts included (`HourlyLimit.HourlyLimitHolds`).
* A buyer who will not take a quick offer can end a talk that the budget would have closed;
  it does exactly when the talk ends on a quick offer (`NegotiationPolicies.UnwelcomeQuickOffer`).
  And when the seller has the last turn its final price is never answered, so the buyer's own
  price must already have reached the floor (`NegotiationPolicies.PairAgreesExactly`).
* The checker re-derives severities from scores rounded to six places; the producer takes them
  before rounding. So a produced report can be refused, and the cut at 25 matches can drop the
  severe one (`RoundingWitness.ProducedReportIsRefused`, `TheCutHidesASevereMatch`). Exactly
  when is `ScreeningAgreement.AcceptedExactly` and `ScreenerFacts.CutKeepsVerdictExactly`;
  scores outside two narrow bands are always enough.
* The CSV reader drops blank lines, so a row of one empty field comes back exactly when it was
  quoted (`Csv.RoundTripExactly`).

Files: `NativePayment`, `PaymentSafety`, `PaymentOutcomes`, `ProcurementModel`,
`ProcurementSafety`, `LiveProcurementJobs`, `LaneOrder`, `RecoverySafety`, `FailureRecords`,
`HourlyLimit`, `PaymentsPerKey` (paid jobs); `Money`, `Negotiation`, `NegotiationRecord`,
`NegotiationPolicies`, `NegotiationPrices`; `GreedyMatching`, `JaroWinkler`, `NameMatching`,
`Screener`, `ScreenerFacts`, `ReportVerifier`, `ScreeningAgreement`, `AcceptanceMeaning`,
`RoundingWitness`, `Csv` (screening); `RequestScope`, `TokenAmounts`; `Semver`, `Planner`,
`PlanCoverage`, `ReRuns`; `Watcher`, `RateLimiter`; `Scores`, `Rulings`, `RulingLedger`;
`Collections`, `Lexical`, `Sorting`, `Text` (shared facts). `dafny verify dfyconfig.toml`
checks all.

## Model

| member | source | states |
|---|---|---|
| NativePayment.BroadcastNativePayment | roster/gateway/live-procurement.ts:432-541 | the retry loop signs, broadcasts and ends exactly as `Run` says, for every sequence of node answers |
| NativePayment.WaitForInclusion | roster/gateway/live-procurement.ts:481-531 | the polling loop of one accepted transaction ends as settled, dropped, stopped or fallen through, exactly as `Poll` says |
| NativePayment.DirectInclusion | roster/gateway/live-procurement.ts:342-406 | a direct look-up proves inclusion exactly when an included or confirmed transaction has a block that is not negative, the receipt's hash, and the intended sender, payee, amount, nonce and data; without such a transaction it says nothing, and anything else contradicts the payment |
| NativePayment.PollKeepsNonce | roster/gateway/live-procurement.ts:481-531 | polling keeps the receipt's nonce; a drop carries its proof (reported gone, head more than two past the expected block, nonce unused); it can only fall through on a clock that stepped back |
| PaymentOutcomes.ShowsExactly | roster/gateway/live-procurement.ts:374-404 | a looked-up transaction is the intended one exactly when kind, both addresses up to 0x and case, amount, nonce and any data agree |
| PaymentOutcomes.PollExactly | roster/gateway/live-procurement.ts:481-531 | an accepted transaction settles in a block, drops or stops exactly when some round of answers says so (direct evidence; included or confirmed with a block; without a status call, the nonce passed; reported gone and overdue) and no earlier round decides; otherwise the clock decides |
| PaymentOutcomes.AttemptExactly | roster/gateway/live-procurement.ts:453-540 | from one attempt's answers alone: when it pays and with which receipt, when it passes on, and when it ends open |
| PaymentOutcomes.RunExactly | roster/gateway/live-procurement.ts:432-541 | a run is paid with a receipt exactly when some attempt pays with it and all earlier ones pass on, indeterminate exactly when such an attempt ends open, unpaid exactly when all pass on; the attempt that ends it is the last one made |
| PaymentSafety.OneNoncePerPayment | roster/gateway/live-procurement.ts:432-541 | every transaction of a run carries one nonce, the caller's if it gave one |
| PaymentSafety.SigningBound | roster/gateway/live-procurement.ts:432-541 | at most `attempts` transactions are signed |
| PaymentSafety.RetryOnlyWhenResolved | roster/gateway/live-procurement.ts:432-541 | another transaction is asked for only after the previous one was never sent, refused, or dropped by the code's evidence; the one other way past it is a clock that steps back across the deadline |
| PaymentSafety.RetriesAreSafeExactly | roster/gateway/live-procurement.ts:432-541 | for every clock: whatever the node answers nothing more is sent, or even asked of the wallet, while something is unresolved, exactly when the clock steps back in no attempt before the last |
| PaymentSafety.UnpaidIsTrueExactly | roster/gateway/live-procurement.ts:432-541 | for every clock: whatever the node answers an unpaid report leaves every transaction resolved, and no accepted one is passed over, exactly when the clock steps back in no attempt |
| PaymentSafety.OutcomeMeaning | roster/gateway/live-procurement.ts:432-541 | on a steady clock: unpaid means every transaction was never sent, refused, or dropped by the code's evidence; paid carries the settled receipt of the last attempt; indeterminate means the last one was lost or stopped |
| PaymentSafety.AtMostOnePayment | roster/gateway/live-procurement.ts:432-541 | a chain that takes one transaction per nonce holds at most one of the run's transactions |
| PaymentSafety.SteppedClockLosesAPendingPayment | roster/gateway/live-procurement.ts:432-541 | in whichever attempt the clock steps back, some node makes the run pass over an accepted transaction and report that nothing was paid, and, with an attempt left, send another one |
| LiveProcurement.LiveProcurementJobs.constructor | roster/gateway/live-procurement.ts:745-835 | a restart loads the directory, marks interrupted jobs, rebuilds the key index and establishes the invariant |
| LiveProcurement.LiveProcurementJobs.LoadFile | roster/gateway/live-procurement.ts:745-835 | loading one record: an interrupted job is closed and written back, a complete one may be kept slim |
| LiveProcurement.LiveProcurementJobs.SaveJob | roster/gateway/live-procurement.ts:1244-1250 | one atomic write: memory and disk hold the new record, every earlier write stays |
| LiveProcurement.LiveProcurementJobs.Push | roster/gateway/live-procurement.ts:1224-1242 | a progress event is appended and persisted |
| LiveProcurement.LiveProcurementJobs.RefreshQueuePositions | roster/gateway/live-procurement.ts:1141-1149 | each waiting job shows its position in the lane |
| LiveProcurement.LiveProcurementJobs.PumpQueue | roster/gateway/live-procurement.ts:1151-1178 | an idle lane takes the first waiting job and, if it pays, begins its run |
| LiveProcurement.LiveProcurementJobs.Enqueue | roster/gateway/live-procurement.ts:1135-1139 | the item joins the end of the lane, which is then pumped |
| LiveProcurement.LiveProcurementJobs.StartRequest | roster/gateway/live-procurement.ts:947-1022 | a request is refused, answered with the job its key stands for, sent to recovery, or becomes one new job; the invariant is kept |
| LiveProcurement.LiveProcurementJobs.RecoverJob | roster/gateway/live-procurement.ts:1029-1088 | recovery is refused or enqueued; it begins no paying run and hands over nothing |
| LiveProcurement.LiveProcurementJobs.Advance | roster/gateway/live-procurement.ts:1665-1690 | every step of a run keeps the invariant |
| LiveProcurement.LiveProcurementJobs.PayStep | roster/gateway/live-procurement.ts:2093-2118 | the announcement is persisted before the payment call, and only an announced paying run reaches that call |
| LiveProcurement.LiveProcurementJobs.FinishRun | roster/gateway/live-procurement.ts:1168-1177 | the settled job is closed and the lane passes on |
| ProcurementSafety.ApplyKeeps | roster/gateway/live-procurement.ts:745-1188 | every action (request, recovery, run step, clean-up, restart) keeps the invariant and only appends to the journal |
| ProcurementSafety.StepKeeps | roster/gateway/live-procurement.ts:745-1188 | so does every step, a crash after any prefix of an action's writes included |
| ProcurementSafety.BehaviourKeeps | roster/gateway/live-procurement.ts:745-1188 | so does every run, and the journal of an earlier moment is a prefix of the later one |
| ProcurementSafety.NeverPaysTwice | roster/gateway/live-procurement.ts:947-1022 | over every run: one idempotency key has one job, a job's paying run begins at most once, and at most one payment is handed over per job and per key |
| ProcurementSafety.NoRecordDeniesAPayment | roster/gateway/live-procurement.ts:159-176 | once a payment was handed over, no record written for that job says it failed before payment, and all of them show that it may have been broadcast |
| FailureRecords.FailedBeforePaymentExactly | roster/gateway/live-procurement.ts:1008-1019 | over every run, each failed record ever written says that it failed before payment exactly when no settling event is in it |
| FailureRecords.FailExactly | roster/gateway/live-procurement.ts:1008-1118 | what a failing run leaves: status, payment flag, session, and a finalisation to be tried again exactly for a recovery that failed transiently, with a preview, fewer than three attempts and a broadcast |
| FailureRecords.FinishExactly | roster/gateway/live-procurement.ts:1484-1495 | what a completing run leaves |
| FailureRecords.InterruptedExactly | roster/gateway/live-procurement.ts:764-796 | what a restart makes of a running record |
| FailureRecords.ResumedExactly | roster/gateway/live-procurement.ts:1029-1066 | what resuming makes of a recoverable record: it runs again, one attempt further, for the transaction broadcast last |
| ProcurementSafety.KeysOnDisk | roster/gateway/live-procurement.ts:745-835 | a well-kept journal holds good records only, and no two jobs share a key |
| ProcurementSafety.CrashKeepsDurable | roster/gateway/live-procurement.ts:1244-1250 | a crash keeps the durable half of the invariant, whatever prefix of the writes reached the disk |
| ProcurementSafety.BootKeeps | roster/gateway/live-procurement.ts:745-835 | a restart re-establishes the whole invariant from any durable state |
| ProcurementSafety.ReplayCreatesNothing | roster/gateway/live-procurement.ts:947-1022 | a request whose key is known creates no job and begins no payment: it is answered with that key's job, sent to recovery or refused, and refused with 409 and no effect when the input differs |
| HourlyLimit.FreshReply | roster/gateway/live-procurement.ts:969-981 | a request under an unused key is started exactly when ready, with room in the lane, fewer than the limit started less than an hour ago, and allowed; 503 and 429 exactly otherwise |
| HourlyLimit.ReplayReply | roster/gateway/live-procurement.ts:953-968 | a request under a used key is refused with 409 for another input, else resumed when the job can be recovered and there is room, 503 without room, else answered with the job |
| HourlyLimit.RecoverReply | roster/gateway/live-procurement.ts:1029-1039 | a recovery request is refused with 404, 409 or 503, or resumed, each under its own condition |
| HourlyLimit.StartedIsCreated | roster/gateway/live-procurement.ts:981-1010 | a started job is on disk at once, created now and under its key; no other reply adds a job |
| HourlyLimit.HourlyLimitHolds | roster/gateway/live-procurement.ts:973-978 | over every run whose clock does not step back, crashes and restarts included, no interval of one hour holds more started jobs than the limit |
| ProcurementSafety.RecoveryStartsNoPayment | roster/gateway/live-procurement.ts:1029-1088 | a recovery changes neither the runs begun nor the payments handed over, and takes the last place or an idle lane |
| RecoverySafety.RecoverableWasPaidOnce | roster/gateway/live-procurement.ts:1029-1088 | a job whose record shows a broadcast, as every recoverable one does, was handed over exactly once, and still exactly once at every later moment of any run, across recoveries, crashes and restarts |
| RecoverySafety.BehaviourAccounted | roster/gateway/live-procurement.ts:1665-1690 | over every run, each record that shows a broadcast, in memory, on disk or in the journal, is of a job whose payment was handed over |
| PaymentsPerKey.OneKeyOnePayment | roster/gateway/live-procurement.ts:432-541 | over every run and every node: of all the transactions made for one idempotency key at most one is on a chain that takes one per nonce |
| PaymentsPerKey.OneJobOnePayment | roster/gateway/live-procurement.ts:432-541 | likewise of all the transactions made for one job |
| ProcurementSafety.LaneIsFirstInFirstOut | roster/gateway/live-procurement.ts:1151-1178 | the clean-up passes the lane to the job that has waited longest, and the others keep their order |
| LaneOrder.LineMoves | roster/gateway/live-procurement.ts:1135-1178 | each action changes the line (the running item and those waiting) by the arrival its reply announces at the end and its departure at the front, and by nothing else |
| LaneOrder.ServedInOrder | roster/gateway/live-procurement.ts:1135-1178 | between restarts: the line is what stood there and whoever came since, in that order, less the served ones from the front, and the first of it is the one that runs |
| GreedyMatching.ScanIsMaximum | roster/compliance/matching.ts:119-130 | from any row on, the greedy scan pairs at least as many characters as any matching of the rows and columns left |
| GreedyMatching.MatchCountIsMaximum | roster/compliance/matching.ts:114-130 | the greedy scan pairs a maximum number of equal characters within the window |
| GreedyMatching.MatchCountIsSymmetric | roster/compliance/matching.ts:114-130 | the count does not change when the names are swapped |
| JaroWinkler.MatchedLengths | roster/compliance/matching.ts:133-140 | both match lists have as many characters as were paired, so the transposition pass never runs past the second one |
| JaroWinkler.ScoreRange | roster/compliance/matching.ts:108-151 | the score lies in [0,1] and is 1 exactly for equal non-empty texts |
| JaroWinkler.ScoreIs | roster/compliance/matching.ts:141-150 | the score in closed form: the mean of the matched shares and the share in order, and a tenth of the rest for each of the first four letters in common |
| JaroWinkler.MatchPass | roster/compliance/matching.ts:115-130 | the two flag arrays end up marking exactly the paired rows and columns |
| JaroWinkler.TranspositionPass | roster/compliance/matching.ts:133-140 | the in-place walk counts the places where the matched characters differ |
| JaroWinkler.Similarity | roster/compliance/matching.ts:108-151 | the whole array algorithm computes the specified score |
| NameMatching.DiceTokenOverlap | roster/compliance/matching.ts:157-162 | the loop computes the Dice overlap of two token sets |
| NameMatching.DiceRange | roster/compliance/matching.ts:157-162 | the overlap lies in [0,1] and is 1 exactly for equal non-empty sets |
| NameMatching.VariantExactly | roster/compliance/matching.ts:195-203 | a reading with an empty key scores nothing; any other scores at least either measure and exactly one of them, is named after it, and is exact just on equal keys |
| NameMatching.DiceReaches | roster/compliance/matching.ts:157-162 | the overlap reaches a percentage exactly when twice the shared tokens reach it of all tokens |
| NameMatching.CoreOnlyRaises | roster/compliance/matching.ts:196-217 | a pair gets its core reading exactly when that scores higher than the full one, so the suffix rule never lowers a score; it lies in [0,1] |
| NameMatching.BestNameMatchPrepared | roster/compliance/matching.ts:236-251 | the nested loops find the specified best pair |
| NameMatching.BestMatchIsBest | roster/compliance/matching.ts:236-251 | the reported pair is one of the pairs, with its own score, and no pair at or above the threshold scores higher; none is reported exactly when no pair reaches it |
| NameMatching.RoundingBands | roster/compliance/screener.ts:220-222 | rounding to six places changes the severity exactly when the score lies just below 0.93 (just below 1 for a PEP hit) |
| Screener.ScreenSubject | roster/compliance/screener.ts:239-303 | the loop over the sources builds the specified report, or fails on a snapshot without downloads |
| Screener.ScreenList | roster/compliance/screener.ts:65-218 | the matches of one loaded list are the specified ones |
| Screener.ScreenNamesAgainstEntries | roster/compliance/screener.ts:65-151 | one match per entry whose best pair has a severity |
| Screener.ScreenWalletAgainstSdn | roster/compliance/screener.ts:153-171 | one match per listed address equal to the wallet |
| ScreenerFacts.NamesNearScores | roster/compliance/matching.ts:195-221 | a pair scores at least a percentage exactly when, with suffixes or without, keys are non-empty and equal, or Jaro-Winkler reaches it, or the shared tokens do |
| ScreenerFacts.NameMatchFacts | roster/compliance/screener.ts:65-151 | an entry yields a match exactly when some screened name and some entry name or alias are near to 85 hundredths, and the match reports such a pair |
| ScreenerFacts.NameMatchSevere | roster/compliance/screener.ts:65-151 | the match of an entry is severe exactly when some pair is near to 93 hundredths, or on a PEP list perfect |
| ScreenerFacts.NoFalseClear | roster/compliance/screener.ts:239-303 | a sanctions or PEP source is clear exactly when for no pair of names, in neither reading, the keys are equal or a measure reaches 0.85, and, for OFAC, the wallet is not listed: the cut at 25 hides nothing |
| ScreenerFacts.AllMatchesSevere | roster/compliance/screener.ts:65-171 | before the cut, a list holds a severe match exactly when an entry is severe or the wallet is listed |
| ScreeningAgreement.VerdictExactly | roster/compliance/screener.ts:239-303 | where no best score lies in a rounding band, the verdict on a list is severe, potential or clear exactly as its names and the wallet say |
| Screener.TrimExactly | roster/compliance/matching.ts:300-305 | trimming takes the blanks off both ends and nothing else |
| ScreenerFacts.HitExactly | roster/compliance/screener.ts:173-218 | a filer is reported exactly when some name is its ticker, or has words that all occur in its title or is near it to 93 hundredths |
| Sorting.SortedAtRank | roster/compliance/screener.ts:280 | the sort is stable: an element stands at the place counted by those that precede it or tie with it and came first |
| ScreenerFacts.KeptExactly | roster/compliance/screener.ts:280-281 | a match is kept exactly when fewer than 25 matches score higher, or tie and come first |
| ScreenerFacts.CutKeepsVerdictExactly | roster/compliance/screener.ts:267-291 | the cut keeps a list's verdict exactly when some severe match, if there is one, makes the cut |
| ScreenerFacts.CutKeepsVerdict | roster/compliance/screener.ts:267-291 | keeping the best 25 matches leaves the verdict as it is, when no score was rounded across a threshold |
| ScreeningAgreement.CutKeepsVerdictOutsideTheBands | roster/compliance/screener.ts:267-291 | so it does on every list where no entry's best score lies in a rounding band |
| ScreenerFacts.RegistrationNeverEscalates | roster/compliance/screener.ts:173-218 | a corporate registration match never makes a source other than clear |
| ScreenerFacts.ReportClearMeansNoHit | roster/compliance/screener.ts:229-303 | the report is clear exactly when no loaded list of the panel holds a hit |
| ReportVerifier.CheckVersions | roster/compliance/report.ts:169-202 | no problem exactly when version ids are distinct and attestations genuine |
| ReportVerifier.CheckMatch | roster/compliance/report.ts:252-290 | no problem exactly when the score is in [0,1], the name present, the citations resolve to the source and the severity re-derives |
| ReportVerifier.CheckSource | roster/compliance/report.ts:223-302 | no problem exactly when a gap has a reason, or the citations, the matches and the source verdict hold up |
| ReportVerifier.CheckSources | roster/compliance/report.ts:204-303 | coverage, severities and count are collected; no problem exactly when sources are distinct and all of them hold up |
| ReportVerifier.CheckPanel | roster/compliance/report.ts:305-332 | no problem exactly when the panel is distinct, is what was covered, and holds the expected sources |
| ReportVerifier.VerifyScreening | roster/compliance/report.ts:148-353 | a report is valid exactly when it meets the declarative `Accepts`, with the recomputed verdict and completeness |
| AcceptanceMeaning.AcceptsExactly | roster/compliance/report.ts:148-353 | what acceptance means, entry by entry: a named subject; distinct, genuine list versions; every result and match sound and citing versions of its own source; one result per source, the panel just those sources and the expected ones among them; complete, and severe, potential or clear, exactly as the entries say |
| ScreeningAgreement.VersionsOkExactly | roster/compliance/screener.ts:239-266 | the numbered list versions of a produced report pass exactly when every download is genuine |
| ScreeningAgreement.RefsResolve | roster/compliance/screener.ts:239-266 | the citations a source is given resolve to that source's own versions |
| ScreeningAgreement.PerOkExactly | roster/compliance/screener.ts:239-303 | a produced source result passes exactly when its gap has a reason, or its matches are named and re-derive |
| ScreeningAgreement.AcceptedExactly | roster/compliance/report.ts:148-353 | a produced report is accepted exactly when the subject is named, the panel non-empty, distinct and as expected, attestations genuine, every gap has a reason, and every entry and filer whose match makes the cut has a name, the entry's best score lying outside the rounding bands |
| ScreeningAgreement.AcceptedWhenNamed | roster/compliance/report.ts:148-353 | on lists prepared as the source prepares them, with tickers and gap reasons non-empty, a report on a good panel is accepted when no best score lies in a rounding band, and only then where no source has more than 25 matches |
| RoundingWitness.SharedCore | roster/compliance/matching.ts:108-151 | texts that share a core, permuted at its head, and no letter outside it: the scan counts the whole core, and only the head is out of order |
| RoundingWitness.ProducedReportIsRefused | roster/compliance/report.ts:252-290 | a witness: a genuine report about one name and one listed name, whose score of just under 0.93 is rounded to 0.93, is refused by the checker |
| RoundingWitness.TheCutHidesASevereMatch | roster/compliance/screener.ts:267-291 | a witness: an alias hits the last of 26 entries at 0.93, yet the list and the report come out as only potential, because 25 matches rounded up to 0.93 stand before it |
| ScreeningAgreement.RederivesOutsideTheBands | roster/compliance/screener.ts:220-222 | a name match re-derives exactly when its score lies outside the two rounding bands |
| Negotiation.OnTableFrom | roster/audit-negotiator/negotiate.ts:48-54 | the backward search finds a side's last offer or counter |
| Negotiation.RunNegotiation | roster/audit-negotiator/negotiate.ts:69-126 | the turn loop plays exactly the specified talk, for any policies, throwing ones included |
| Negotiation.NegotiationIsSafe | roster/audit-negotiator/negotiate.ts:69-126 | for arbitrary policies: at most max(2, maxTurns) turns, sides alternate and the seller opens, every recorded move but a rejection passes its own side's guard, and agreed terms pass both guards and are the other side's last proposal |
| NegotiationRecord.TalkExactly | roster/audit-negotiator/negotiate.ts:69-126 | for arbitrary policies: every recorded proposal is what its side said, and the talk ends for the reason it gives; an acceptance is a deal exactly when the other side has a proposal that both guards let settle, and then on that proposal |
| NegotiationPolicies.FindLastCounterpartyMove | roster/audit-negotiator/policies.ts:59-64 | the backward search finds the counterparty's last move |
| NegotiationPolicies.CollectPrices | roster/audit-negotiator/policies.ts:67-73 | the loop collects a side's proposed prices in order |
| NegotiationPolicies.FloorFacts | roster/audit-negotiator/terms.ts:119-151 | floors and asks are whole cents, at least one cent, and no floor exceeds its ask |
| NegotiationPolicies.PriceRises | roster/audit-negotiator/policies.ts:214-271 | the buyer's price never falls, stays whole in cents and never passes its budget |
| NegotiationPolicies.PairFromProposal | roster/audit-negotiator/policies.ts:112-271 | from any buyer proposal of the talk on, the pair agrees exactly as `Agrees` says, whoever has the last turn |
| NegotiationPolicies.PairAgreesExactly | roster/audit-negotiator/policies.ts:112-271 | for a desk that sells above cost with a list margin no lower than the minimum, a buyer whose preference both list, a budget in whole cents, a concession rate in 0..1, and any number of turns: the pair agrees exactly when the buyer opens at a positive price, there are more than two turns, and, if the seller has the last turn, the buyer's last price reaches the preferred floor; if the buyer has it and the talk ends on a quick offer, the buyer takes quick; else its budget reaches that floor. The price lies between the deal's own floor and the budget |
| NegotiationPrices.DealExactly | roster/audit-negotiator/policies.ts:112-271 | the terms of the deal, for any number of turns: the first time the buyer's price reaches the floor, at that price; the first time its next price covers the seller's counter, at the counter, whichever comes first; failing both, on the last offer |
| NegotiationPrices.CounterExactly | roster/audit-negotiator/policies.ts:150-160 | a counter before the last round is in whole cents and within half a cent of the ask less the step of the gap per round, where that is at the floor or above, and else the floor |
| NegotiationPrices.CountersFall | roster/audit-negotiator/policies.ts:150-160 | the counters of a seller that concedes start at the ask and never rise |
| NegotiationPrices.BuyerPriceExactly | roster/audit-negotiator/policies.ts:222-262 | the buyer opens at the discounted ask or its budget and then each time comes its share of the way to the budget, to half a cent |
| NegotiationPrices.ReachExactly | roster/audit-negotiator/policies.ts:80-86 | the projected reach is the buyer's price and its last rise once more |
| NegotiationPrices.PricesExactly | roster/audit-negotiator/terms.ts:119-151 | cost, floor and ask in closed form, to half a cent |
| NegotiationPolicies.OpensExactly | roster/audit-negotiator/policies.ts:219-240 | the buyer opens with its first price exactly when that is positive, and else walks |
| NegotiationPolicies.DeterministicPairAgrees | roster/audit-negotiator/policies.ts:112-271 | when the buyer also has the last turn and opens at half the ask or more: the pair agrees, at a price between the agreed terms' floor and the budget, whenever the budget reaches the preferred floor and a quick offer would be welcome or cannot come; where none can come, exactly when the budget reaches it |
| NegotiationPolicies.UnwelcomeQuickOffer | roster/audit-negotiator/policies.ts:112-271 | when a buyer who can pay but will not take quick has the last turn, the talk fails exactly when it ends on a quick offer |
| NegotiationPolicies.UnwelcomeQuickOfferWalks | roster/audit-negotiator/policies.ts:112-271 | and that happens: a witness whose budget is the preferred floor to the cent |
| RequestScope.EncodingKeepsMeaning | roster/dacs/standard-profile.ts:593-614 | the tagged tree reads back as the value up to key order |
| RequestScope.EncodingIsCanonical | roster/dacs/standard-profile.ts:593-614 | every object of the tree lists its keys in strictly increasing UTF-16 order |
| RequestScope.CanonicalIsUnique | roster/dacs/standard-profile.ts:593-614 | two canonical trees with the same reading are the same tree |
| RequestScope.EncodingIsInjective | roster/dacs/standard-profile.ts:593-614 | two requests encode alike exactly when they are the same value up to object key order, numbers taken by their text |
| RequestScope.HashBindsRequest | roster/dacs/standard-profile.ts:588-614 | with a collision-free hash, equal request hashes mean exactly that the delivered request is the agreed one |
| RequestScope.RefusedExactly | roster/dacs/standard-profile.ts:593-613 | the encoder throws exactly when some value inside is a non-finite number or of an unsupported type |
| Csv.ParseCsv | roster/compliance/sources.ts:247-295 | the character loop computes what the state machine `Run` gives |
| Csv.ReadLine | roster/compliance/sources.ts:247-295 | reading one printed line collects its fields, quoted or bare, with commas, quotes and breaks inside quotes |
| Csv.ReadBreak | roster/compliance/sources.ts:276-284 | CRLF, LF and a lone CR each end the line, whatever follows |
| Csv.ParsePrint | roster/compliance/sources.ts:247-295 | reading any printed document gives exactly the rows of its lines that are not blank |
| Csv.RoundTripExactly | roster/compliance/sources.ts:247-295 | the table comes back exactly when no line prints blank (a lone empty field without quotes) |
| Csv.EveryTableRoundTrips | roster/compliance/sources.ts:247-295 | every table of non-empty rows has a printing that is read back as it was |
| Csv.ReadingNormalises | roster/compliance/sources.ts:247-295 | from any text: rows have fields, and printing and reading again changes nothing |
| TokenAmounts.DigitsAreStripped | roster/dacs/seller-adapter.ts:118-126 | printing a digit string's number drops its leading zeros and nothing else |
| TokenAmounts.UnitsAreExact | roster/dacs/x402-production.ts:239-252 | accepted amounts become exactly their value times ten to the decimals, without leading zeros |
| TokenAmounts.UnitsRoundTrip | roster/dacs/seller-adapter.ts:118-126 | base units survive display text and back, up to leading zeros, exactly when positive; zero is refused on the way back |
| TokenAmounts.DecimalRoundTrip | roster/dacs/x402-production.ts:239-252 | an accepted decimal survives base units and back, up to trailing fraction zeros |
| TokenAmounts.AssetsRoundTrip | roster/dacs/seller-adapter.ts:116-126 | the first trip for every asset name and every positive amount |
| Semver.PrecedenceIsTotal | roster/dep-upgrade/semver.ts:51-78 | precedence is a strict total order on version numbers and prerelease lists |
| Semver.ZeroExactlyWhenEqual | roster/dep-upgrade/semver.ts:72-78 | the comparison is zero exactly on equal versions, and antisymmetric |
| Semver.SectionElevenExample | roster/dep-upgrade/semver.ts:51-78 | the chain of versions that section 11 gives as its example is in ascending order |
| Semver.ComparePrerelease | roster/dep-upgrade/semver.ts:51-70 | the loop decides prerelease order as section 11 of Semantic Versioning 2.0.0 does |
| Semver.CompareSemver | roster/dep-upgrade/semver.ts:72-78 | the loop's sign agrees with section 11 precedence |
| Semver.ParseGroup | roster/dep-upgrade/semver.ts:194-199 | a group admits exactly what passes all comparators its tokens expand to |
| Semver.CaretMeaning | roster/dep-upgrade/semver.ts:137-153 | a caret admits exactly: from the given version up, what keeps everything up to the first non-zero component, and the prereleases of the upper bound; the latter only in prerelease form |
| Semver.TildeMeaning | roster/dep-upgrade/semver.ts:155-172 | a tilde admits exactly: from the given version up, what keeps the given major and minor, and the prereleases of the upper bound; a bare partial means the same |
| Semver.BareMeaning | roster/dep-upgrade/semver.ts:181-188 | a bare full version admits that version alone |
| Semver.TestMeaning | roster/dep-upgrade/semver.ts:174-217 | a star admits everything, and an operator comparator what its comparison says by precedence |
| Semver.MinSatisfying | roster/dep-upgrade/semver.ts:230-241 | the ascending search finds the specified version |
| Semver.MaxSatisfying | roster/dep-upgrade/semver.ts:244-250 | the descending search finds the specified version |
| Semver.LowestIsLeast | roster/dep-upgrade/semver.ts:230-241 | a least parseable listed version in range, whatever the list order; none exactly when no listed one is in range |
| Semver.HighestIsGreatest | roster/dep-upgrade/semver.ts:230-250 | a greatest parseable listed version in range, whatever the list order; none exactly when no listed one is in range |
| Planner.BuildPlan | roster/dep-upgrade/planner.ts:60-168 | the loop builds the specified plan |
| PlanCoverage.CurrentExactly | roster/dep-upgrade/planner.ts:49-54 | the current version is the installed one while it satisfies the declared range, else a least stable published one in range; none exactly when there is neither |
| Planner.CandidatesAreFixes | roster/dep-upgrade/planner.ts:85-102 | the candidate list holds exactly the published stable versions above the current one that clear every known advisory, in ascending order |
| Planner.VulnerableIsPlanned | roster/dep-upgrade/planner.ts:85-120 | a vulnerable dependency becomes one security item to the lowest fix (within the major if there is one, else overall and breaking), with a range that admits it, or, exactly when no fix exists, one unactionable entry |
| Planner.OthersAreNot | roster/dep-upgrade/planner.ts:60-168 | any other dependency gets neither a security item nor a no-fix entry |
| Planner.PlanAnswersEveryVulnerability | roster/dep-upgrade/planner.ts:60-168 | the final sorted plan holds, for every vulnerable dependency, its nearest-fix item or, when nothing fixes it, a no-fix entry, and no other security item |
| PlanCoverage.ExposedIsAnswered | roster/dep-upgrade/planner.ts:60-168 | on the inputs: a dependency whose current version a known advisory bites gets, in the final plan, an upgrade from that version to its nearest fix, or a no-fix entry exactly when nothing fixes it |
| PlanCoverage.InstalledIsAnswered | roster/dep-upgrade/planner.ts:60-168 | in particular an installed version in range that is bitten, with that version as current |
| PlanCoverage.OnlyExposedAreFixed | roster/dep-upgrade/planner.ts:60-168 | every security item of the plan answers such a dependency |
| Planner.PlanIsSafe | roster/dep-upgrade/planner.ts:60-168 | every proposed target, of whatever kind, is published, stable, above the current version, clear of all known advisories and admitted by its new range |
| Planner.MaintenanceIsGood | roster/dep-upgrade/planner.ts:122-160 | in-range upgrades go to the greatest stable version in the declared range, next-major ones to the greatest of all |
| PlanCoverage.MaintenanceExactly | roster/dep-upgrade/planner.ts:122-160 | an in-range upgrade and a next-major one are each proposed exactly when the greatest version concerned is above the current one (by its major) and unbitten, and to it |
| PlanCoverage.DepExactly | roster/dep-upgrade/planner.ts:60-168 | what one dependency contributes: a note when its package or current version is unknown, its maintenance items when nothing bites |
| PlanCoverage.UpgradeIsProposed | roster/dep-upgrade/planner.ts:122-160 | so the final plan holds every such upgrade |
| Planner.PlanIsOrdered | roster/dep-upgrade/planner.ts:163-165 | security items first, then maintenance, then majors, each by name |
| Planner.NothingDroppedOrDoubled | roster/dep-upgrade/planner.ts:60-168 | per package name, security items and no-fix entries together are as many as the vulnerable dependencies |
| Planner.RangeAdmitsTarget | roster/dep-upgrade/planner.ts:37-42 | the new range, in the style of the old one, admits the target |
| PlanCoverage.NewRangeExactly | roster/dep-upgrade/planner.ts:37-42 | the new range keeps the declared style and admits exactly what that style admits at the target, a pinned one the target alone |
| Planner.ReScanCleared | roster/dep-upgrade/execute.ts:350-371 | the result holds exactly the known ids whose advisories, as answered now, bite the version last chosen for their package; distinct and sorted |
| Planner.RescanFindsNothing | roster/dep-upgrade/execute.ts:350-371 | the re-scan of a plan's security targets finds nothing when the registry answers with advisories the plan knew |
| ReRuns.CollectNames | roster/dep-upgrade/execute.ts:227-233 | the gating checks any artifact ran, each once, in the order first met |
| ReRuns.Plurality | roster/dep-upgrade/execute.ts:249-255 | the winner is a largest group, the first met among several |
| ReRuns.CompareReRuns | roster/dep-upgrade/execute.ts:223-261 | agreement exactly when there is an artifact, no divergent index, and no gating hash equal to the absent marker; the group left out of the divergent indices is a largest one, the first met among several |
| ReRuns.AgreementExactly | roster/dep-upgrade/execute.ts:223-261 | given one group, all checks and verdicts agree exactly when no absent marker is reported |
| Watcher.MemoRoundTrip | roster/dacs/rails.ts:35-47 | a memo names exactly the job it was built for |
| Watcher.AddressRoundTrip | roster/dacs/rails.ts:54-63 | the DID of an address leads back to that address in lower case |
| Watcher.SellerWatcher.OnTransfer | roster/dacs/watcher.ts:93-158 | one transfer appends exactly one decision and changes memory and anchors as specified |
| Watcher.DeliveredExactly | roster/dacs/watcher.ts:93-158 | a transfer is delivered exactly when it pays at least the price for a job its payer agreed to with params, the job has no delivery, and the call succeeds |
| Watcher.ReplayedExactly | roster/dacs/watcher.ts:101-115 | a transfer is answered as a replay exactly when its job has a delivery, whatever it pays |
| Watcher.ParkedExactly | roster/dacs/watcher.ts:93-158 | each reason for parking a transfer holds exactly under its own condition |
| Watcher.EffectExactly | roster/dacs/watcher.ts:93-158 | only the call for an entitled, undelivered job can anchor a delivery; memory gains the job exactly when it is delivered, now or before |
| Watcher.OneDecisionPerTransfer | roster/dacs/watcher.ts:69-158 | over any run with any restarts, every transfer has exactly one decision, in order |
| Watcher.AtMostOneDelivery | roster/dacs/watcher.ts:93-158 | no job is delivered twice, restarts, failed calls that anchored and deliveries made elsewhere included |
| Watcher.DeliveredWasEntitled | roster/dacs/watcher.ts:93-158 | every delivered transfer was entitled when it arrived and its log entry is its own payer and amount |
| Watcher.ReplayAfterDelivery | roster/dacs/watcher.ts:101-115 | once a delivery is anchored, every later transfer for the job is a replay |
| Watcher.MockDemLedger.SendTransfer | roster/dacs/rails.ts:98-118 | the transfer is recorded, and all books and anchors become what the listeners of the recipient make of it, one after the other |
| Watcher.EachListenerDecidesOnce | roster/dacs/rails.ts:98-118 | each watcher of the recipient, and no other, logs one decision: what the transfer leads to on the anchors the listeners before it left |
| Watcher.OneSubstrateDeliversOnce | roster/dacs/rails.ts:98-118 | of two watchers on one substrate at most one delivers for a transfer |
| RateLimiter.DemoRateLimiter.Enter | roster/gateway/butler-web.ts:226-237 | 429 exactly when the window is full, else 503 exactly when the demo is busy, both without effect; otherwise the call is counted and holds an unreleased lease |
| RateLimiter.Lease.Leave | roster/gateway/butler-web.ts:235-236 | releasing ends the lease; releasing twice changes nothing |
| RateLimiter.IntervalBound | roster/gateway/butler-web.ts:226-237 | windows at least one length apart admit at most twice the limit in any half-open interval of that length |
| RateLimiter.InOrderBound | roster/gateway/butler-web.ts:226-237 | over any run of calls whose admissions come in clock order, no interval of the window's length holds more than twice the limit from one address |
| RateLimiter.DemoRateLimiter.AtMostTwiceTheLimit | roster/gateway/butler-web.ts:215-238 | so it is at every moment of a limiter whose admissions came in clock order, or whose limit is one |
| RateLimiter.RecordKeeps | roster/gateway/butler-web.ts:226-234 | counting a call keeps the windows apart, filled within the limit, and the buckets in step with what was admitted |
| RateLimiter.SteppedClockAdmitsAnyNumber | roster/gateway/butler-web.ts:226-234 | for every window and every limit above one: on a clock that steps back, the first window takes any number of calls of an address |
| RateLimiter.OneAtATime | roster/gateway/butler-web.ts:226-234 | with a limit of one, calls of an address are a window apart on any clock |
| RateLimiter.AnyClockBoundExactly | roster/gateway/butler-web.ts:226-234 | over all clock readings some number bounds the calls of an address in every interval of the window's length exactly when the limit is one |
| Scores.AggregateScores | roster/evalbot/verdict.ts:27-44 | the loop computes the weighted mean of the scored criteria and both weights |
| Scores.MeanBalances | roster/evalbot/verdict.ts:27-44 | the aggregate is, to half a hundredth, the value about which the counted scores balance by their weights; there is one exactly when they have weight |
| Scores.MeanLiesBetween | roster/evalbot/verdict.ts:27-44 | the aggregate lies between any whole-hundredth bounds of the counted scores |
| Scores.AggregateInRange | roster/evalbot/verdict.ts:27-44 | scores in 0..100 give an aggregate in 0..100 |
| Rulings.VerdictMeaning | roster/evalbot/verdict.ts:53-59 | accept and reject are given exactly when enough was scored and the aggregate lies clear of the band on that side |
| Rulings.TooLittleExactly | roster/evalbot/verdict.ts:53-56 | too little was scored exactly when nothing counted or more weight is open than counted |
| Rulings.ScoreExactly | roster/evalbot/evalbot.ts:93-125 | checks score 100 or 0, judged criteria what the judge said, the others stay open for the reason at hand |
| Rulings.ValidateRubric | roster/evalbot/evalbot.ts:42-57 | accepts exactly the rubrics with criteria, distinct ids, positive weights, threshold in 0..100 and a band of at least zero |
| Rulings.VerifyRulingConsistency | roster/evalbot/ruling.ts:105-143 | accepts exactly the bodies whose scores are well formed and whose aggregate, mode and verdict follow from them |
| Rulings.VerifyRuling | roster/evalbot/ruling.ts:155-173 | accepts exactly the consistent rulings whose hash and signature are genuine for the key |
| Rulings.Evaluate | roster/evalbot/evalbot.ts:93-145 | issues a signed ruling that covers the rubric's criteria in order, exactly for valid rubrics |
| Rulings.IssuedVerifies | roster/evalbot/evalbot.ts:93-145 | an issued ruling verifies, with or without its rubric, exactly when the judge's scores were in 0..100 |
| Rulings.EditPassesExactly | roster/evalbot/ruling.ts:155-173 | an edited body passes under the same hash and signature, for some key and rubric, exactly when it follows from its own scores and collides with the signed body |
| RulingLedger.Ledger.AppendRuling | roster/evalbot/ledger.ts:52-61 | appends the next chained entry; the ledger is valid exactly when it was and the ruling verifies |
| RulingLedger.Ledger.VerifyLedger | roster/evalbot/ledger.ts:73-96 | accepts exactly the ledgers whose numbering, chain, entry hashes and rulings hold |
| RulingLedger.IssuedRulingKeepsValid | roster/evalbot/ledger.ts:52-96 | appending an issued ruling keeps a valid ledger valid exactly when the judge's scores were in 0..100 |
| RulingLedger.LastHashFixesLedger | roster/evalbot/ledger.ts:73-96 | two accepted ledgers that end in the same entry hash are the same sequence, or hold two different contents with one hash; nothing is assumed of the hash |
| RulingLedger.HashFixesHistory | roster/evalbot/ledger.ts:73-96 | so with a collision-free hash one recorded entry hash fixes every entry up to it |
| RulingLedger.FreeLedgers | roster/evalbot/ledger.ts:52-61 | collision-free hashes exist, and under them valid ledgers of issued rulings of every length |

## Left out

- ReportVerifier.VerifyScreening: starts from a typed report, so the tests on the shape of untyped JSON, on version labels and on timestamps are not modelled; the same holds for job records and ledger lines.
- Name normalisation, transliteration and core-suffix tokens: names come prepared, with arbitrary keys and token sets, save where a result asks that an empty name have empty ones (`ScreeningAgreement.Prepared`).
- Trimming and case folding beyond ASCII, list excerpts and programme texts; list version ids are numbers.
- SEC EDGAR: which of several names a report names for a filer.
- Version and range text: versions, range tokens and declared-range styles come parsed, so unparseable ranges (which the source throws on) cannot occur, and a target's text is taken to be read as that version.
- Locale collation is an arbitrary rank of names.
- IEEE rounding, and integers beyond the safe range: arithmetic is exact.
- Wallet, RPC, HTTP, messaging and SDK calls, LLM prompts and judges: their answers are inputs.
- Cryptography: hashes are functions, signatures are pairs of key and signed hash.
- Job store: the two clock readings of one start request are one, and the hourly limit is a whole number.
- Job store: failing disk writes, invalid or foreign job files, job directory permissions, readiness details, timing fields of the queue, and the retry timer of a durable finalisation (its effect, a new recovery request, is modelled).
- Job store: that `runRecovery` contains no payment call is read off the source and built into the run steps; that a recoverable job is never paid again is proved.
- Payments through an x402 facilitator: they count as hand-overs, and of their transactions nothing is said.
- Job store: the phases between announcement and broadcast are one kind of progress event; session records keep only their state.
- LiveProcurement.LiveProcurementJobs.StartRequest: requires the new job's id to be unused, as a random UUID is; the readiness check and the caller's veto are inputs.
- Watcher.SellerWatcher.OnTransfer: transfers are handled one at a time and reads of the substrate succeed, so overlapping deliveries for one job are not modelled.
- Watcher.MockDemLedger.SendTransfer: leaves out the synthetic transaction hash, and each watcher is subscribed once.
- RequestScope: sparse arrays and objects with accessor properties; objects are lists of entries with distinct keys.
- The price of a deep audit is an arbitrary positive function of the scan.
- Policies that change the transcript they are shown.
- `summarizeReputation`, plan rendering, execution sandbox, pricing, configuration and HTTP surface: plumbing or single-branch facts.
- Runners and buyers that only sequence calls (`standard-runner.ts`, `buyer.ts`) are not part of this model.
