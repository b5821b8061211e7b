# Verified model of the Milyonus engine

This project models the parts of the Milyonus agent whose guarantees span many calls, and proves
those guarantees for every input, every run and every answer the surrounding world may give.

* **Verified memory.** `MemoryStore` is the database: rows, the hash-chained ledger, the negative
  memory, all updated in place, with a ghost record of everything that happened (`trace`). Each store
  call is one event; `History.Apply` says what an event does to the database, `History.Guard` under
  which condition the pipeline, the operator's commands and the sleep-time pass issue it, and
  `History.Legal` is a run of such events on a clock that never goes back. The classes are proved to
  follow the events, `Runs` proves what every legal run keeps.
* **Agent loop.** The loop, the budget, the tracer and the conversation are objects; one turn is proved
  equal to a function of the provider, the tools and the approver, which are arbitrary functions, and
  the protocol, termination, accounting and policy theorems are about that function. The two wire
  formats are proved to carry a conversation, and fragment assembly to be independent of chunking.
* **Cron.** The calendar to the minute, cron expressions as text, the five-field matcher with its exceptions,
  and the search.
* **Pairing, clustering, recall and packing.** The lockout bound over runs, the triangle inequality
  behind the clusters, the bounded loss of over-fetched recall, and greedy packing.

Functions the program calls but does not define are parameters: SHA-256 and JSON
(`Ledger.Hasher`), the evidence hash, the tokenizer, the sensitivity hints, the verifier, the operator
signature check and `str.strip` (`History.Env`), `0.5 ** x` (`Trust.Config.halve`), the command scanner and
the irreversibility hints (`RiskPolicy.Scanner`), `json.loads`/`json.dumps`, the provider, the tools and the
approver. Random ids and codes are parameters too. Times are exact reals, and the clock readings within
one store call, or within one `/pair` message, are one instant.

Where the code and its documentation disagree the model follows the code:

* A claim that is never confirmed does not expire. The pipeline sets an expiry on the pending row, but
  only active rows are expired: `Pipeline.UnconfirmedClaimOutlivesExpiry` gives the run, and
  `Pipeline.DueExactlyWhenAdmitted` the rows an expiry pass takes (src/milyonus/memory/pipeline.py:11 and 158-161,
  src/milyonus/memory/store.py:395-407).
* Tools declared safe run unasked, even when the call is irreversible or carries a command the scanner
  blocks: `AgentRuns.IrreversibleCallRunsUnasked` is such a call under safe-only, and `AgentRuns.PolicyExactly`
  states exactly which calls run and which are asked about (src/milyonus/core/loop.py:121,
  src/milyonus/security/risk.py:3-7).
* The ledger has no anchored head, so a truncated ledger verifies (`Ledger.TruncationVerifies`).
* Day of month and day of week must both match, unlike the crontab utility of POSIX.1-2017, so a schedule for one
  date raises in every year in which the date is missing or falls on another weekday; `Cron.FixedDateSchedule` gives
  the exact condition, `Cron.NewYearsMondayFails` an instance and `Cron.LeapDaySchedule` the one for 29 February.
* A turn whose provider keeps asking for tools is stopped by the budget alone, and the budget advances on usage
  events only. `AgentRuns.TurnEndsExactly` states exactly when a turn ends; `AgentRuns.WithoutUsageNeverEnds` is the
  provider for which it never does.
* The chat wire does not carry the error flag of tool results (`WireFormats.ErrorFlagNotSent`).

| File | Contents |
|---|---|
| MemoryModel.dfy, Trust.dfy, Ledger.dfy, Similarity.dfy | rows, decay, hash chain, token similarity |
| History.dfy, Runs.dfy, TrustClock.dfy, Audit.dfy | events, guards, and theorems over whole runs |
| Cascade.dfy, MemoryStore.dfy | the revocation worklist and the store |
| Pipeline.dfy, Operations.dfy, Consolidate.dfy | promotion, operator commands, the sleep-time pass |
| Messages.dfy, AgentLoop.dfy, Risk.dfy, AgentRuns.dfy, RoundMeaning.dfy | conversation, loop, policy, theorems over turns |
| WireFormats.dfy, ToolAssembly.dfy | wire formats and streamed tool calls |
| Calendar.dfy, Cron.dfy, CronText.dfy | calendar, schedule search, cron expressions as text |
| Pairing.dfy, Cluster.dfy, Recall.dfy, Render.dfy, Sorting.dfy | pairing, clustering, recall, packing, the stable sort |

## Model

| member | source | states |
|---|---|---|
| Ledger.Verify | src/milyonus/memory/store.py:164-182 | the verification pass answers true exactly when every entry links to its predecessor and carries the hash of its own body |
| Ledger.IntactAppend | src/milyonus/memory/store.py:149-162 | appending through the head keeps an intact chain intact, whatever is written |
| Ledger.SameHeadSameRecord | src/milyonus/memory/store.py:143-182 | two ledgers that verify and end in one hash agree entry by entry, unless two of the strings they hash collide or one hashes to the genesis value |
| Ledger.TamperingDetected | src/milyonus/memory/store.py:164-182 | changing any entry, or dropping one, while keeping the head hash makes verification fail |
| Ledger.TruncationVerifies | src/milyonus/memory/store.py:164-182 | every truncation of an intact ledger verifies, since the head is anchored nowhere |
| Trust.TrustWithinCeiling | src/milyonus/memory/trust.py:37-53 | a decaying score is positive and at most the ceiling, a T0 score is exactly one |
| Trust.TrustDecays | src/milyonus/memory/trust.py:19-53 | waiting longer, or being sensitive, never leaves more trust |
| Trust.TrustHalves | src/milyonus/memory/trust.py:37-53 | one half-life after its last reaffirmation a row keeps exactly half its ceiling |
| Trust.BelowFloorExactly | src/milyonus/memory/consolidate.py:63-74 | for a half-life of p/q seconds the demotion test holds iff ceiling^p < floor^p * 2^(age*q) |
| TrustClock.RenewalStartsClock | src/milyonus/memory/store.py:246-311 | the last promotion, activation or reaffirmation of a row set its clock, and a promotion or reaffirmation its ceiling, whatever else happened since |
| TrustClock.TrustSinceRenewal | src/milyonus/memory/trust.py:37-53 | at any later time trust is what the last renewal granted, halved for every half-life of the tier gone by: review days for T1 and T2, time-to-live days for T3 and T4, shortened for sensitive rows; T0 stays at one |
| TrustClock.DecayDemotesExactly | src/milyonus/memory/consolidate.py:59-77 | a decay pass that lists an active row demotes it iff that value lies below the floor, and never a T0 row |
| TrustClock.NoDecayBeforeClock | src/milyonus/memory/trust.py:37-53 | a decaying row whose clock has not started, or not before now, is worth its ceiling |
| History.LedgerIsFaithful | src/milyonus/memory/store.py:149-411 | after any sequence of store calls, on known or unknown ids, the ledger verifies and replaying its actions gives the state of every row |
| History.StepFaithful | src/milyonus/memory/store.py:234-429 | what an event records is what it does to the row states, and unlogged events change no state |
| Audit.LedgerTellsTable | src/milyonus/memory/store.py:149-411 | the ledger alone tells, for every row of any guarded run, its state, tier, evidence, sensitivity, verdict and when it was verified, its trust ceiling, when its trust clock started and how often it was reaffirmed |
| Store.MemoryStore.LedgerAgrees | src/milyonus/memory/store.py:149-182 | in every state a store reaches the ledger is intact and replays to the table |
| Store.MemoryStore.LedgerAppend | src/milyonus/memory/store.py:149-162 | one entry is added, chained to the head and holding the given body |
| Store.MemoryStore.VerifyLedger | src/milyonus/memory/store.py:164-182 | decides intactness, and answers true in every state the store reaches |
| Store.MemoryStore.InsertCandidate | src/milyonus/memory/store.py:191-230 | the candidate enters pending with every other column at its default, no other row changes, and the ingest is ledgered |
| Store.MemoryStore.MarkActive | src/milyonus/memory/store.py:238-256 | active with trust and ceiling at one and the clock started now, nothing else changes, and the promotion is ledgered with its verdict and confirmations |
| Store.MemoryStore.ReaffirmMemory | src/milyonus/memory/store.py:258-311 | refuses an unknown row and one reaffirmed too recently without changing anything, else restores the ceiling the next count earns |
| Store.MemoryStore.DemoteToQuarantine | src/milyonus/memory/store.py:313-316 | the row is pending again, nothing else changes, and the demotion is ledgered |
| Store.MemoryStore.StageT0 | src/milyonus/memory/store.py:318-349 | the claim enters staged, T0, attributed to the operator, with its signature and the fingerprint, and is ledgered |
| Store.MemoryStore.ActivateT0 | src/milyonus/memory/store.py:351-361 | active, verified by the operator now, the clock started now; nothing else changes, and the activation is ledgered |
| Store.MemoryStore.MarkRejected | src/milyonus/memory/store.py:369-371 | the row is rejected, nothing else changes, and the rejection is ledgered |
| Store.MemoryStore.RevokeBySource | src/milyonus/memory/store.py:373-393 | ends on any derivation graph; revokes exactly the rows a chain of live rows connects to a live row of the source, leaves every other row as it was, leaves no active or pending row of the source or derived from a revoked row, and lists no id more than twice, twice only if it is both a direct hit and a child |
| Store.MemoryStore.RevokeTop | src/milyonus/memory/store.py:382-391 | one round keeps the worklist invariant and leaves fewer live rows, or as many and a shorter stack |
| Cascade.InvStep | src/milyonus/memory/store.py:382-391 | the worklist invariant survives popping, revoking and pushing the live children |
| Cascade.RevokedHasNoChildrenLeft | src/milyonus/memory/store.py:382-391 | popping an entry that is already revoked pushes nothing |
| Cascade.InvDone | src/milyonus/memory/store.py:373-393 | when the worklist is empty the revoked ids are exactly the reached ones |
| Cascade.CascadeClosed | src/milyonus/memory/store.py:373-393 | every revoked row was active or pending and came from the source or a revoked row, and no row that is still active or pending comes from either |
| Store.MemoryStore.ExpireDue | src/milyonus/memory/store.py:395-407 | expires exactly the active rows whose expiry lies before now, each once |
| Store.MemoryStore.AddConfirmation | src/milyonus/memory/store.py:413-422 | adds one confirmation and returns the new count, or zero for an unknown row |
| Store.MemoryStore.ByState | src/milyonus/memory/store.py:475-480 | the newest rows in a state, newest first, at most 200, and all of them when there are no more |
| Store.MemoryStore.ActiveByActor | src/milyonus/memory/store.py:485-494 | the newest active rows of one actor, at most 200 |
| Runs.FinalStatesAbsorb | src/milyonus/memory/store.py:234-407 | rejected, revoked and expired rows stay so, and content, tier and origin never change, on every continuation of a guarded run |
| Runs.ActiveHasWarrant | src/milyonus/memory/pipeline.py:101-182 | every active row was let in by a guarded promotion or activation of its own and has been active since |
| Runs.PromotionFollowsTier | src/milyonus/memory/pipeline.py:127-182 | over any run an active T4 row was approved by the user; an active T0 row was approved or activated, and activation met the review gap and a good signature on its own message |
| Runs.UnapprovedContentNeedsAuthority | src/milyonus/memory/pipeline.py:118-125 | content no verifier call approves is active only by user approval or the T0 path |
| Runs.OnlyAdmittedRowsExpire | src/milyonus/memory/pipeline.py:147-162 | a row expires only if it was promoted or activated first: an unconfirmed claim never expires |
| Runs.ThirdPartyWaitsForConfirmations | src/milyonus/memory/pipeline.py:147-162 | a T3 row is first promoted automatically on exactly its N-th approved pass, whatever approvals and demotions lie between |
| Runs.CounterCountsPasses | src/milyonus/memory/pipeline.py:147-162 | until then the stored counter is the number of approved passes and stays below N |
| Runs.RejectionPersists | src/milyonus/memory/pipeline.py:107-125 | once content with tokens is recorded as rejected no row with the same tokens passes the checks on any continuation |
| Runs.RejectedNeverAutoPromoted | src/milyonus/memory/pipeline.py:107-125 | no later automatic promotion or confirmation of a row with those tokens |
| Runs.ReaffirmsAreSpaced | src/milyonus/memory/store.py:282-293 | accepted reaffirmations of one row are at least the demanded interval apart, whatever promotions and demotions lie between |
| Runs.NthReaffirmCeiling | src/milyonus/memory/store.py:294-303 | the n-th accepted reaffirmation, if weak, sets score and ceiling to max(floor, 1 - max(0, n-3)/10), counted over the whole run |
| Runs.ScoreBelowCeiling | src/milyonus/memory/store.py:238-367 | ceilings and stored scores lie in (0, 1] in any reachable state, and outside T0 no score exceeds its ceiling |
| Runs.AuthorityNeverDemoted | src/milyonus/memory/consolidate.py:59-77 | no guarded run demotes a T0 row |
| Runs.DemotableStaysDemotable | src/milyonus/memory/trust.py:37-53 | a row below the floor stays below it at every later time unless it is promoted, activated or reaffirmed |
| Pipeline.MemoryPipeline.Propose | src/milyonus/memory/pipeline.py:60-84 | the row starts pending with the named tier or its source kind's: operator T0, user T1, agent T2, third party T3, anything else T4 |
| Pipeline.MemoryPipeline.ProcessOne | src/milyonus/memory/pipeline.py:101-164 | one pass: a row that is not pending is left alone; content as similar as the threshold to rejected content is rejected; else the verifier, shown the contents of the newest active rows, decides, and the tier says what its verdict makes of the row |
| Pipeline.PassIsLegal | src/milyonus/memory/pipeline.py:101-164 | every event of a pass meets its guard and together they have the specified effect |
| Pipeline.ResubmissionIsRejected | src/milyonus/memory/pipeline.py:107-116 | a pass over a pending row with the tokens of recorded rejected content rejects it, whatever the verifier would say |
| Pipeline.UnconfirmedClaimOutlivesExpiry | src/milyonus/memory/pipeline.py:147-162 | the promise that unconfirmed claims expire fails: a proposal and one approved pass leave a pending row past its expiry that no expiry pass takes |
| Pipeline.DueExactlyWhenAdmitted | src/milyonus/memory/store.py:395-407 | in any guarded run a row past its expiry is taken by an expiry pass iff a guarded promotion or activation let it in and it has been active since |
| Pipeline.MemoryPipeline.PromoteByTier | src/milyonus/memory/pipeline.py:127-164 | the tier rules: T1 and T2 promote with their review date, T3 promotes on enough confirmations or is confirmed and dated, T4 and T0 wait |
| Pipeline.ReviewDates | src/milyonus/memory/trust.py:93-96 | promotion sets the review date by the tier's own number of days |
| Pipeline.MemoryPipeline.ProcessPending | src/milyonus/memory/pipeline.py:166-172 | exactly the listed pending rows are passed over, one after the other, each on the table the one before left; the counts add up to the rows listed and equal the table's changes |
| Pipeline.MemoryPipeline.ApprovePending | src/milyonus/memory/pipeline.py:174-182 | promotes a pending row of any tier, refuses everything else without change |
| Operations.StageClaim | src/milyonus/memory/t0.py:37-48 | a claim is staged exactly when the operator's signature over it is good, as exactly the staged row under its new id; otherwise nothing changes |
| Operations.ActivateClaim | src/milyonus/memory/t0.py:51-75 | activates exactly when the row is staged, the review gap has elapsed and the second signature is good over its own message |
| Operations.RevocationsLegal | src/milyonus/memory/store.py:373-393 | a cascade over rows that were live at its start continues a guarded run |
| Operations.RevokeSource | src/milyonus/memory/store.py:373-393 | revocation keeps the run guarded |
| Operations.ExpireClaims | src/milyonus/memory/store.py:395-407 | expiry keeps the run guarded |
| Operations.RenewTrust | src/milyonus/memory/store.py:258-311 | a reaffirmation is accepted exactly when the row exists and the interval has passed, and keeps the run guarded |
| Consolidate.Run | src/milyonus/memory/consolidate.py:47-90 | the quarantine pass over the listed pending rows, then the expiry of exactly the active rows past their date, then rescoring and demotion of the listed rows below the floor, then merging of listed rows of one content into the newest of the most trusted ones; the run stays guarded and the report counts it; with at most 200 active or pending rows every active row ends at or above the floor, active contents are distinct, and the duplicates counted are active rows minus distinct contents |
| Consolidate.DecayPass | src/milyonus/memory/consolidate.py:59-77 | exactly the listed rows are rescored and, below the floor, demoted; the count is the loss of active rows |
| Consolidate.DecayOutcome | src/milyonus/memory/consolidate.py:59-77 | decay makes nothing active, keeps T0 states, and leaves nothing active below the floor when the listing was complete |
| Consolidate.DedupePass | src/milyonus/memory/consolidate.py:79-90 | the listed rows of one stripped content are merged into the first by tier rank |
| Consolidate.DedupeOutcome | src/milyonus/memory/consolidate.py:79-90 | afterwards contents are distinct, no survivor is outranked by a row it replaced, and survivors are as many as contents |
| Consolidate.DedupeIsMerging | src/milyonus/memory/consolidate.py:79-90 | merging rejects listed rows only, keeps of each stripped content the first listed of the most trusted rows, and changes nothing else |
| Consolidate.KeptIsFirst | src/milyonus/memory/consolidate.py:79-90 | every row of the same content listed before the kept one is less trusted |
| Similarity.Triangle | src/milyonus/memory/negative.py:49-55 | Jaccard distance obeys the triangle inequality on all token sets, empty ones included |
| Similarity.JaccardBounds | src/milyonus/memory/negative.py:49-55 | similarity lies in [0, 1], is symmetric, and is one exactly for equal nonempty sets |
| Similarity.JaccardIsShare | src/milyonus/memory/negative.py:49-55 | similarity is the number of shared tokens over the number of all tokens, and zero when one set is empty |
| Similarity.IsRephrase | src/milyonus/memory/negative.py:58-70 | the reported score is the true maximum, the match the first to reach it, and the flag says whether some prior text meets the threshold |
| Cluster.FindClusters | src/milyonus/proactive/suggest.py:29-44 | the messages regrouped: each in one group, near its leader and near no earlier leader; reported by leader and size, most frequent first and equal ones in order of appearance, sizes adding up to the number of messages |
| Cluster.GroupsWellClustered | src/milyonus/proactive/suggest.py:29-41 | leaders are pairwise below the threshold, every member meets it with its leader and with no earlier leader |
| Cluster.ClusterDiameter | src/milyonus/proactive/suggest.py:29-41 | any two members of one cluster have similarity at least 2 * threshold - 1 |
| Cluster.GroupsPartition | src/milyonus/proactive/suggest.py:29-41 | clustering only regroups: every message is in exactly one cluster, as often as it came |
| Calendar.NextMinuteIsNext | src/milyonus/cron/schedule.py:109-116 | carrying through hour, day, month and leap years steps the timeline by exactly one minute |
| Calendar.StampUnique | src/milyonus/cron/schedule.py:109-116 | a valid calendar minute is determined by its place on the timeline |
| Calendar.LaterIsAfter | src/milyonus/cron/schedule.py:109-116 | every later calendar minute is reached by stepping |
| Calendar.WeekdayIsCounted | src/milyonus/cron/schedule.py:95-96 | the weekday of every date is the one counted day by day from Monday, the first of January of year 1 |
| Calendar.MonthLengths | src/milyonus/cron/schedule.py:109-116 | the month lengths by formula, with the 29th of February in years divisible by 16, or by 4 and not by 25 |
| Cron.MatchField | src/milyonus/cron/schedule.py:72-87 | the loop over parts answers as the first part that matches or raises |
| Cron.FieldIsUnion | src/milyonus/cron/schedule.py:72-87 | a field that cannot raise matches exactly the values some part's arithmetic progression reaches |
| Cron.MatchCron | src/milyonus/cron/schedule.py:90-106 | the fields are evaluated in order, none after one that settles the answer, Sunday as 0 and as 7 |
| Cron.MatchesExactly | src/milyonus/cron/schedule.py:90-106 | an expression that cannot raise matches iff minute, hour, day and month lie in the progressions of their fields over 0-59, 0-23, 1-31 and 1-12, and the counted weekday in its field over 0-6, or over 0-7 with Sunday as 7 |
| Cron.AnswersOnWeekday | src/milyonus/cron/schedule.py:95-106 | a schedule for one day of the week matches only on that day, counted from the first of January of year 1 |
| Cron.CronNext | src/milyonus/cron/schedule.py:109-116 | returns the least matching minute strictly after now, on the asked weekday if one is asked for; fails when the next 366 days hold none, raises when evaluation raises first |
| Cron.OutcomeUnique | src/milyonus/cron/schedule.py:109-116 | the three outcomes exclude one another and the first verdict is determined, so each holds exactly in its case |
| Cron.GoodScheduleNeverRaises | src/milyonus/cron/schedule.py:72-106 | an expression without malformed parts and zero steps never raises |
| Cron.WeeklyFoundInAWeek | src/milyonus/cron/schedule.py:90-116 | with any day and month and some admitted minute, hour and weekday a match lies within seven days |
| Cron.YearlyFoundInAYear | src/milyonus/cron/schedule.py:90-116 | with any weekday and an admitted date that exists every year the search never fails |
| Cron.LeapDaySchedule | src/milyonus/cron/schedule.py:109-116 | a schedule for the 29th of February is found iff this year's is still to come or next year's is at most 366 days away |
| Cron.FixedDateSchedule | src/milyonus/cron/schedule.py:90-116 | a schedule for one date and any weekdays is found iff the date of this year or the next two exists, is at most 366 days away and falls on an admitted weekday |
| Cron.NewYearsMondayFails | src/milyonus/cron/schedule.py:97-116 | since the day fields are ANDed, the first of January on a Monday is not found from 2 January 2024 |
| Cron.PhrasesRunWithinAWeek | src/milyonus/cron/schedule.py:124-162 | every schedule a phrase compiles to runs within seven days, whatever time was captured |
| Cron.PhraseRunsExactly | src/milyonus/cron/schedule.py:138-162 | each phrase runs exactly at its time, every hour, every day, on its counted weekday, or from Monday to Friday |
| Cron.ClockTimes | src/milyonus/cron/schedule.py:124-135 | captured times are read off the twelve-hour or the twenty-four-hour clock |
| CronText.PhraseTextParses | src/milyonus/cron/schedule.py:138-162 | the text a phrase compiles to, split and read by the evaluator's own rules, is the phrase's schedule |
| CronText.PhraseTextRunsWithinAWeek | src/milyonus/cron/schedule.py:109-162 | the text of any phrase parses and matches within seven days of any instant |
| CronText.DecimalReadsBack | src/milyonus/cron/schedule.py:72-87 | int() reads back the decimal text of every natural number |
| CronText.RangeField | src/milyonus/cron/schedule.py:72-87 | a written range parses to that range, for all bounds |
| CronText.ExpressionReadsBack | src/milyonus/cron/schedule.py:72-96 | every expression that can be written, with ranges, steps and lists, reads back as itself |
| CronText.IntegerTexts | src/milyonus/cron/schedule.py:72-87 | decimal texts read as their numbers, with a minus sign as the negative, and no text with another character is a number |
| Cron.ParseTime | src/milyonus/cron/schedule.py:124-135 | whatever was captured, the hour and minute are valid |
| Pairing.PairingManager.Redeem | src/milyonus/gateway/pairing.py:106-136 | a locked user changes nothing and is told the minutes left, a wrong code counts and on the fifth locks for an hour, a right one pairs the user on the channel, is consumed and resets the record; right is a code issued for the channel at most an hour ago |
| Pairing.PairingManager.Unpair | src/milyonus/gateway/pairing.py:149-152 | removes the first listing of the user and nothing else |
| Pairing.PairingManager.HandlePair | src/milyonus/gateway/server.py:178-189 | usage, rate limit of ten minutes, mark, then redemption, as one step of the run; done means paired |
| Pairing.CountersStayBelowLimit | src/milyonus/gateway/pairing.py:120-127 | the stored failure counter never reaches five |
| Pairing.GuessBound | src/milyonus/gateway/pairing.py:106-147 | from any state at most 5 * (floor(L/6000) + 1) codes are compared for a user in a window of L seconds without a success |
| Pairing.ChecksArePaced | src/milyonus/gateway/pairing.py:106-147 | the i-th check comes no earlier than ten minutes per check and fifty more per lockout allow |
| Pairing.SuccessNeedsFreshCode | src/milyonus/gateway/pairing.py:114-119 | a success redeems a code issued for that channel within the hour and not used since |
| Pairing.CodesAreSingleUse | src/milyonus/gateway/pairing.py:129-136 | between two redemptions of one code it was issued again |
| Pairing.PairedRedeemed | src/milyonus/gateway/pairing.py:103-136 | whoever is paired redeemed a code on that channel and was not unpaired since |
| Pairing.PairedExactly | src/milyonus/gateway/pairing.py:103-152 | a user is paired iff some redemption on that channel succeeded for them and they were not unpaired since |
| Pairing.FreshCodePairs | src/milyonus/gateway/pairing.py:106-147 | a code issued for the channel within the hour and neither reissued nor redeemed pairs any user without an attempt in the last ten minutes and a wrong code in the last hour |
| AgentLoop.Budget.Record | src/milyonus/core/budget.py:19-21 | one iteration and the tokens of the report are charged |
| AgentLoop.Loop.Consume | src/milyonus/core/loop.py:82-97 | draining a stream joins the text, collects the calls in order and charges every usage report |
| AgentLoop.Loop.ExecuteCall | src/milyonus/core/loop.py:117-150 | one call: asked unless the tool is safe, refused or run on its own arguments, recorded, and answered under its own id |
| AgentLoop.AfterCalls | src/milyonus/core/loop.py:116-151 | as many results and trace records as calls, each result under its call's id |
| AgentLoop.Loop.RunTurn | src/milyonus/core/loop.py:62-152 | the turn, cut off after any number of rounds, is the specified function of the state and the collaborators |
| RoundMeaning.EveryRound | src/milyonus/core/loop.py:62-152 | every round of every turn: the message holds the stream's text and calls in order; each tool is given its call's arguments and its output is the result under that call's id; refused and unknown calls are told as such; budget and provider errors end the turn |
| RoundMeaning.IntakeSays | src/milyonus/core/loop.py:82-97 | draining a stream joins its text, collects its calls in order, and keeps the last usage report and stop reason |
| AgentRuns.TurnKeepsProtocol | src/milyonus/core/loop.py:62-152 | at every loop head, return and provider error each call message is followed at once by the tool message answering its ids in order |
| AgentRuns.TurnEnds | src/milyonus/core/loop.py:67-113 | with a provider that reports usage the turn ends within the iterations left, with at most that many model calls |
| AgentRuns.TurnEndsExactly | src/milyonus/core/loop.py:67-113 | with a provider that keeps to a schedule of usage and tool requests the turn is still running after n rounds iff before each of them the usage so far left both limits unreached and the call asked for a tool |
| AgentRuns.AnyTurnEndsExactly | src/milyonus/core/loop.py:67-113 | the same condition, read off the turn's own calls, is exact for every provider, even one that answers by the history |
| AgentRuns.WithoutUsageNeverEnds | src/milyonus/core/loop.py:67-97 | a provider that only asks for tools and reports no usage never ends a turn and is called once every round |
| AgentRuns.OvershootIsOneCall | src/milyonus/core/budget.py:19-24 | the turn went through a state, after some number of rounds, in which neither limit was reached and from which the one last call brought all further tokens: the token limit is overshot by that call at most |
| AgentRuns.StreamCharges | src/milyonus/core/loop.py:93-95 | a stream charges one iteration and its tokens per usage report |
| AgentRuns.TurnAccounts | src/milyonus/observability/trace.py:53-83 | traced tool calls are the tool results of the conversation; with one usage report per stream the traced tokens and model calls are what the budget was charged |
| AgentRuns.RefusedNeverRuns | src/milyonus/core/loop.py:117-150 | in any turn the tools ran exactly as often as the trace has calls that were not refused |
| AgentRuns.TurnHistoryTravels | src/milyonus/core/loop.py:62-152 | the history a turn leaves reads back from both wires, exactly or up to the error flags |
| AgentRuns.ScheduledRunObeysPolicy | src/milyonus/proactive/runner.py:31-45 | the denied list names the refused calls once each in order; safe-only runs execute nothing but tools declared safe; no executed call of another tool is blocked |
| AgentRuns.PolicyExactly | src/milyonus/proactive/runner.py:31-45 | an unattended call runs iff its tool is declared safe, or the run is authorized and nothing blocks it; it is asked about iff its tool is not declared safe; a refused call is noted with whether it was blocked |
| AgentRuns.IrreversibleCallRunsUnasked | src/milyonus/core/loop.py:117-150 | the promise that irreversible calls are always confirmed fails: a safe-only run executes, unasked, an irreversible and blocked call of a tool declared safe |
| AgentRuns.RunScheduledTask | src/milyonus/proactive/runner.py:48-86 | the run is the turn from one user message with twenty iterations, a fresh trace and denial list; refused calls are errors and are exactly the denied list, safe-only runs only safe tools, and no blocked call of another tool ran |
| RiskPolicy.RiskEngine.ClassifyCall | src/milyonus/security/risk.py:62-94 | decides as specified, and never auto for an irreversible call |
| RiskPolicy.RiskEngine.GrantSession | src/milyonus/security/risk.py:96-102 | a grant adds the tool name unless the caller says irreversible |
| RiskPolicy.AutoExactly | src/milyonus/security/risk.py:62-94 | with any grants a call is auto iff nothing blocks it, it is not irreversible, and its tool is safe or granted |
| RiskPolicy.ClassifyExactly | src/milyonus/security/risk.py:62-94 | block iff the scanner has a blocking finding in the command text; auto iff not blocked, not hinted irreversible, and the tool is safe or granted |
| WireFormats.ToChatWire | src/milyonus/providers/openai_compat.py:30-70 | the loops build the specified entries, system first |
| WireFormats.ChatRoundTrip | src/milyonus/providers/openai_compat.py:30-70 | reading the entries back gives the same conversation with the error flags cleared |
| WireFormats.ErrorFlagNotSent | src/milyonus/providers/openai_compat.py:33-42 | conversations that differ only in error flags have the same wire |
| WireFormats.ChatWirePairs | src/milyonus/providers/openai_compat.py:32-69 | each message with n calls is followed by exactly n tool entries with its ids in order |
| WireFormats.ChatWireSays | src/milyonus/providers/openai_compat.py:30-70 | entry by entry: each result as a tool entry of its id and content, every other message as one entry with its role, its text and images, and its calls with JSON arguments |
| WireFormats.ToBlockWire | src/milyonus/providers/anthropic.py:29-67 | the loops build the specified blocks |
| WireFormats.BlockRoundTrip | src/milyonus/providers/anthropic.py:29-67 | every well-formed message reads back exactly |
| WireFormats.BlockWirePairs | src/milyonus/providers/anthropic.py:29-67 | each tool_use is answered, id by id, in the very next message |
| WireFormats.BlocksSay | src/milyonus/providers/anthropic.py:29-67 | block by block: results in a user message, any other message under its role with images, then text, then calls, or the bare text |
| ToolAssembly.Accumulate | src/milyonus/providers/openai_compat.py:158-167 | each index's slot holds its last id and name and all its fragments joined, in first-seen order |
| ToolAssembly.Assemble | src/milyonus/providers/openai_compat.py:158-179 | one call for each index that got a name, by first appearance, with its last id and name and its joined fragments parsed; or those before the first index whose fragments do not parse |
| ToolAssembly.CallsEmitted | src/milyonus/providers/openai_compat.py:158-179 | the same of the specified emission, said of the deltas and the parser alone |
| ToolAssembly.InterleavingIrrelevant | src/milyonus/providers/openai_compat.py:158-179 | streams that agree index by index and first mention the indices in one order emit the same calls |
| ToolAssembly.SwapIrrelevant | src/milyonus/providers/openai_compat.py:158-179 | adjacent deltas of different indices already mentioned may change places |
| ToolAssembly.SplitIrrelevant | src/milyonus/providers/openai_compat.py:158-179 | an argument fragment may be split anywhere |
| ToolAssembly.AssembleBlocks | src/milyonus/providers/anthropic.py:142-165 | for any block events, one call for each tool block that was stopped, as they closed, with the JSON chunks since its start parsed; or those before the first that does not parse |
| ToolAssembly.BlockCallsEmitted | src/milyonus/providers/anthropic.py:142-165 | the same of the specified fold, said of the events and the parser alone |
| ToolAssembly.BlocksRecovered | src/milyonus/providers/anthropic.py:142-165 | the accumulator recovers exactly the calls the stream meant, in order, however blocks are chunked and whatever prose lies between |
| Recall.CosineAtMostOne | src/milyonus/memory/vector.py:44-45 | the dot product of vectors of length at most one is at most one |
| Recall.DotIsSum | src/milyonus/memory/vector.py:44-45 | the dot product is the sum of the products component by component |
| Recall.NormalisedLength | src/milyonus/memory/embed.py:43-47 | normalising gives length one, or the zero vector |
| Recall.NormalisedDirection | src/milyonus/memory/embed.py:43-47 | normalising divides every dot product by the length |
| Recall.VectorIndex.Upsert | src/milyonus/memory/vector.py:61-70 | replaces or adds one stored vector |
| Recall.VectorIndex.Search | src/milyonus/memory/vector.py:91-110 | the top k of the eligible vectors: distinct, closest first, none omitted closer than one listed |
| Recall.RecallTop | src/milyonus/memory/semantic.py:94-131 | the exact top k, by cosine times trust, of the positive ones among 3k over-fetched hits: distinct, best first and of equal scores the closest first, as many as there are, each with its own cosine and current trust |
| Recall.RecallFor | src/milyonus/memory/semantic.py:94-131 | over any store: active rows only, of the named actor when one is named, every match or k of them, the exact top k of all eligible matches when at most 3k vectors are eligible; over a store the engine can reach omitted matches are bounded, and with normalised vectors no score exceeds its trust, which is at most one |
| Recall.RecallIsTop | src/milyonus/memory/semantic.py:108-131 | over-fetching never shortens the answer, and with at most 3k eligible vectors the answer is the exact top k of all eligible positive matches |
| Recall.RecallOmissions | src/milyonus/memory/semantic.py:108-131 | every eligible positive match is in the answer, or the answer is full and the match scores no more than the k-th result or the smallest over-fetched cosine |
| Recall.MissedIsBounded | src/milyonus/memory/semantic.py:108-131 | a positive match the over-fetch missed scores no more than any over-fetched cosine, and there is none when at most 3k vectors are eligible |
| Recall.ScoreAtMostTrust | src/milyonus/memory/semantic.py:33-41 | with normalised vectors no result scores above its trust |
| Render.Pack | src/milyonus/memory/render.py:24-35 | the text joins the greedily chosen lines, each a bracketed tier and the stripped content, in (tier, newest) order, and stays within the budget |
| Render.PackIsSaid | src/milyonus/memory/render.py:20-35 | a row's line is in iff it still fits after the lines already in, and the text is those lines one below the other |
| Render.ChosenExactlyWhenItFits | src/milyonus/memory/render.py:24-35 | a line is in iff it fits after those chosen before it, and a line left out does not fit in the end either |
| Render.GreedyIsFirstFeasible | src/milyonus/memory/render.py:24-35 | any other feasible choice lacks, at the first difference, a line greedy packing has |
| Render.BuildSnapshot | src/milyonus/memory/render.py:42-61 | both halves stay within their budgets; the agent notes pack the listed rows not from the user or operator, the user half those of the named actor that are, or of all when nobody is named |
| Render.UserHalfUnchangedByOthers | src/milyonus/memory/render.py:54-61 | tables that agree on an actor's active rows allow the same user half, whatever other actors have |
| Sorting.SortSorted | src/milyonus/memory/semantic.py:130-130 | the list sort orders by the given key |
| Sorting.SortStable | src/milyonus/memory/semantic.py:130-130 | the sort is stable: an element that need not move past a later one stays before it |

## Left out

- SQLite, its journal, migrations and files: tables are maps and sequences, each store call is atomic, and there are no concurrent writers.
- Floating point: scores, ceilings, cosines and times are exact reals, and the ledger detail of a reaffirmation holds the unrounded ceiling and interval.
- The wording of reasons: numbers formatted into reason strings are left out; a reason is a fixed text or the verifier's own.
- Detection quality: the injection scanner, the command scanner, the sensitivity and irreversibility hints and the verifier are arbitrary functions.
- Embedding: vectors are given; hashing words into buckets is left out.
- Tokenisation and stop words: similarity starts from token sets.
- Step four of consolidation (src/milyonus/memory/consolidate.py:92-103): it changes no row; the list of contradictory pairs is not modelled.
- Indexing on promotion (src/milyonus/memory/pipeline.py:51-56): best effort, and it changes no row.
- Recall.RecallFor: the number of results is given; the default for a missing one, and the empty answer when embedding is off or fails, are left out.
- Cron clock: time zones, daylight saving and the year 9999 limit of datetime are left out; int() is modelled on ASCII digits with an optional minus sign.
- Natural-language matching: only the schedules the phrases compile to are modelled, not the regular expressions.
- AgentLoop.Loop.RunTurn: takes the number of rounds as a parameter so that providers that never end a turn are covered too; the tracer is always attached.
- AgentLoop.Loop.Consume: a provider that fails is cut off after the events it yielded; cancellation from outside is left out.
- RiskPolicy.RiskEngine.ClassifyCall: the reason text and the list of findings are not returned.
- ToolAssembly.Assemble: one finishing choice; a second one in the same stream would emit the slots again.
- WireFormats.ToChatWire: the data URL of an image is its media type and data, not the formatted string.
- Pairing.GuessBound: per record key; users whose channel and id concatenate alike share a record, as in the program.
- Pairing.PairingManager.NewCode: the alphabet and the randomness of codes are left out.
- Recall.RecallTop: takes the query vector and k as given; embedding failures, which return nothing, are left out.
- Render.UserHalfUnchangedByOthers: the global agent-notes half, which is shared by design, is not separated by user.
- Budget pressure, redundant-call counting, latency, cost and reports: presentation.
