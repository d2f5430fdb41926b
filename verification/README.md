# Verified model of the RONOR governed runtime

RONOR proposes battery dispatch, puts every proposed action through a nine-gate governance
check, and writes every verdict into a hash-chained audit log. Around that sit a document
ingestion pipeline, a human co-signature protocol and a resource sentinel. This project models
the stateful algorithms of these components in Dafny and proves what they promise.

| file | component | main results |
|---|---|---|
| `Dispatch.dfy` | fallback proposer, baseline policy, envelope, replay of allowed actions | trading revenue floor for prices of any sign, envelope safety, rounding drift of the replay |
| `Chunker.dfy` | document chunking | chunk ends never go back; reconstruction; the exact overlap at which chunks start to nest |
| `CanonicalJson.dfy`, `JsonGrammar.dfy` | the canonical printers and a JSON parser (RFC 8259) | canonical text decides equality up to key order; exactly when the two printers agree; the parser accepts exactly the grammar |
| `HashChain.dfy` | append, live and offline verifiers | a head hash pins the history; exactly when the two verifiers agree |
| `Mi9Gate.dfy` | nine gates, verdict join, sliding window | exactly what each verdict takes; hourly limit over every run, and exactly when overlapping work can break it; evaluation is observationally pure |
| `DecisionLoop.dfy` | evaluate, apply, record, deposit | what is gained and charged; a session within the hourly limit, fully audited, realising what was booked |
| `AuditMirror.dfy` | gap accounting of the relational mirror | the exact number of unconfirmed links under any interleaving |
| `RingBuffer.dfy`, `AlertEngine.dfy`, `ResponseController.dfy`, `Forecaster.dfy` | the sentinel | last-n refinement, hysteresis, LIFO degradation ladder, least squares |
| `Cosign.dfy` | held decisions and their release | at most one hand-out per hold, write-ahead audit, and who signed, in every interleaving with crashes |
| `Ingestion.dfy`, `Corpus.dfy` | the eleven-stage pipeline and the batch loop | each outcome exactly on its condition; nothing over the ceiling is ever embedded or stored; no partial writes; idempotence and where it ends |

`Prelude.dfy` and `SentinelTypes.dfy` hold shared vocabulary.

Loops and mutable objects of the source are methods and classes here, each proved against a
specification function or predicate; what the source promises is then proved of that
specification. What an answer says, field by field, is stated besides over the inputs alone
(`GatesDecide`, `AnswersExactly`, `Shows`, `IsCents` and their like). Prices, energy and the regression are exact reals, and the roundings kept are
those of reported figures and of values that are used again. Times are integer milliseconds and
sequence numbers integers. SHA-256 (section 6.2 of FIPS 180-4) is a parameter with
64-character results. It is never taken to be injective: the tamper-evidence results end in
"or two of the strings hashed here collide, or one of them hashes to the genesis value".

## Where the code departs from its description

Each of these is stated as a lemma, with the exact condition where there is one.

- Candidates are compared by hour alone, so the fallback's revenue floor holds only where the
  ticks of one hour lie on one side of the thresholds: `EnvelopeIsPricedAround`,
  `TradingFloorExactly`, and a failing day in `SharedHourBreaksTradingFloor`.
- Replaying allowed actions charges half the cycling cost the proposer budgeted:
  `ReplayChargesHalfPerMwh`.
- With an overlap of more than half the window a chunk can lie inside the one before it:
  `EndsGrowExactly`.
- The knowledge printer and the audit printer are described as one algorithm, but order
  array-index keys differently, and the audit printer drops undefined members and a member
  keyed `__proto__`: `PrintersAgreeExactly`. That member is therefore neither recorded when
  appended nor noticed offline when added to an export: `AppendLosesProto`,
  `AddedProtoPassesOffline`.
- A stored payload that is re-spaced or re-ordered, or whose numbers are written otherwise (`1.0`
  or `1e0` for `1`), breaks the live chain and passes the offline verifier:
  `ReformattingIsSeenLiveOnly`, `RewrittenNumbersAreSeenLiveOnly`, `OfflineAcceptsExactly`. The
  offline verifier also accepts a chain whose claimed head differs from the recomputed one.
- Early returns make gate 6 relax as data ages and gate 8 relax as decisions are counted:
  `AgeingNeverRelaxesExactly`, `CountingRelaxesExactly`.
- The hourly budget counts recorded decisions, so `k` counting executions that overlap between
  evaluation and recording can bring an hour to `autonomous_per_hour + k - 1` and no further:
  `HourlyLimitInFlight`, `BoundIsAttained`. That takes a policy that allows an operational bridge
  request at all, and such a request is irreversible: `BudgetHoldsExactly`. The shipped policy
  holds every irreversible action (src/governance/policies.yaml:101), so it keeps its budget
  however executions overlap: `HeldIrreversiblesKeepBudget`.
- Once the autonomous budget is spent, gate 8 asks for a co-signature without reading
  `cosign_per_hour`: `CosignBudgetBindsExactly`.
- Refusing charges and allowing discharges of one plan moves the battery off the planned charge
  by the net energy refused: `RefusalsShiftSoc`, `RefusalsKeepEnvelope`. A session that ends below
  the planned floor is in `RefusedChargeBreaksFloor`.
- Holding a decision again under a used id re-opens a released one: `AtMostOnceExactly`. The
  program holds each decision under a fresh audit record id (src/orchestrator.ts:219), so it does
  not reuse one itself.
- Duplicate detection compares the first chunk only, so an accepted document need not be stored:
  `AcceptedAreHeldExactly`, `SharedOpeningShadows`. A store whose hash lookup never answers, as
  the Qdrant adapter's does not, stores every offer again: `NoLookupStoresAgain`.
- The store judges objects one by one, and what is refused in part is later reported as held
  (`RetryAfterPartialWriteExactly`, `UnevenVectorsAreWrittenInPart`). This takes an embedder whose
  vectors differ in width from what it declares. Neither of the program's embedders does that, and
  without it nothing is ever written in part: `NoPartialWrite`, `RefusedIsNotHeld`.
- A batch report counts one object written for every duplicate: `ObjectsWrittenExactly`.

## Model

| member | source | states |
|---|---|---|
| `Dispatch.SortByPrice` | src/decision-loop/bess-scenario.ts:234-236 | The result is in ascending price order and has one entry per tick |
| `Dispatch.SortIsStable` | src/decision-loop/bess-scenario.ts:234-236 | At every price the sorted list holds exactly the ticks of that price, in their original order: a stable permutation |
| `Dispatch.ValleyBelowSpike` | src/decision-loop/bess-scenario.ts:238-241 | The valley threshold never exceeds the spike threshold |
| `Dispatch.ThresholdsAreQuantiles` | src/decision-loop/bess-scenario.ts:234-241 | At most 30 (70) per cent of the ticks are cheaper than the valley (spike) threshold, and more than that cost no more |
| `Dispatch.EnvelopeIsExact` | src/decision-loop/bess-scenario.ts:223-255 | The call fails exactly on an empty day; the candidates are exactly the ticks at or past each threshold (reserve: 68 EUR), the floor a tenth, the ceiling nineteen twentieths of the rated energy, and one and a half cycles a day |
| `Dispatch.EnvelopeIsPricedAround` | src/decision-loop/bess-scenario.ts:243-249 | The envelope lets the proposer buy at most at the valley threshold and sell at least at it if and only if ticks of one hour lie together: none above the valley beside one at or below it, none below the valley beside one at or above the spike |
| `Dispatch.DistinctHoursSeparate` | src/decision-loop/bess-scenario.ts:238-249 | Ticks of distinct hours name one price an hour, and one price an hour puts the ticks of an hour together in that sense |
| `Dispatch.DecisionIsExact` | src/decision-loop/gpt-56-adapter.ts:196-280 | Reserve before charging before discharging: each exactly in its hours and when headroom, or more than 0.1 MWh, fits power, limits and budget; a trade is then the most that fits |
| `Dispatch.FallbackTick` | src/decision-loop/gpt-56-adapter.ts:198-280 | One tick of the loop body makes the decision `Decide` makes and leaves the state of charge, revenue and cycled energy of the ledger after that move |
| `Dispatch.FallbackLoop` | src/decision-loop/gpt-56-adapter.ts:186-280 | The loop with its mutable accumulators ends in the ledger of `Plan`, publishing one action per tick |
| `Dispatch.DeterministicFallback` | src/decision-loop/gpt-56-adapter.ts:179-300 | One action per tick showing its move: kind, time, price and confidence, volume to 0.005; revenue, degradation and net are the income, the cycling cost and their difference in the ledger of `Plan` to the cent; the confidence is the mean of the actions' |
| `Dispatch.PlanStaysInEnvelope` | src/decision-loop/gpt-56-adapter.ts:196-280 | For any limits and any prices the state of charge stays between the lower of start and floor and the higher of start and ceiling, and the energy cycled within the daily budget |
| `Dispatch.FallbackKeepsToAsset` | src/decision-loop/gpt-56-adapter.ts:179-280 | On its own envelope the charge stays between a tenth and nineteen twentieths of the rated energy (or its start), at most one and a half rated energies are cycled, trades keep within the power and to hours with a tick at or past their threshold, and bids are the reliable share of the power in hours paying 68 EUR or more |
| `Dispatch.ReserveBidsKeepHeadroom` | src/decision-loop/gpt-56-adapter.ts:200-216 | A reserve bid is made only with one full power step of headroom to the floor and to the ceiling |
| `Dispatch.BookKeepsFloor` | src/decision-loop/gpt-56-adapter.ts:219-271 | Trading revenue plus energy in store valued at a price between the buying and the selling prices never falls, over any sequence of fitting moves |
| `Dispatch.PlanTradingFloor` | src/decision-loop/gpt-56-adapter.ts:196-280 | Trading revenue is at least theta times the energy withdrawn, for any theta that separates the buying from the selling prices, of any sign |
| `Dispatch.FallbackTradingFloor` | src/decision-loop/gpt-56-adapter.ts:179-280 | For every asset and every day whose hours lie together in that sense, the fallback's trading revenue is at least the valley threshold times the energy withdrawn, for prices of any sign |
| `Dispatch.TradingFloorExactly` | src/decision-loop/gpt-56-adapter.ts:196-280 | The floor is kept by every stretch of a day, under every numeric limit and every starting charge, if and only if theta separates the buying from the selling hours |
| `Dispatch.SharedHourBreaksTradingFloor` | src/decision-loop/gpt-56-adapter.ts:192-194 | A concrete day on which one hour carries a cheap and a dear price: its hours do not lie together, and the fallback earns less than the bound |
| `Dispatch.BaselineTick` | src/decision-loop/bess-scenario.ts:154-192 | One tick of the baseline loop follows `BaselineDecide` and updates the accumulators as the ledger does |
| `Dispatch.BaselineDecisionIsExact` | src/decision-loop/bess-scenario.ts:154-192 | The baseline buys exactly in its buying hours below the rated energy and sells exactly in its selling hours above nothing, each time the most that fits |
| `Dispatch.BaselineHoursAreExtreme` | src/decision-loop/bess-scenario.ts:145-147 | With distinct hours it has three of each (fewer on a shorter day), and no hour outside is cheaper (dearer) than one inside |
| `Dispatch.BaselineLoop` | src/decision-loop/bess-scenario.ts:149-192 | The baseline loop ends in the ledger of `BaselinePlan` |
| `Dispatch.RunBaselinePolicy` | src/decision-loop/bess-scenario.ts:144-204 | The plan over the three cheapest and three dearest hours: one action per tick showing its exact move, the final charge of the ledger, and revenue, degradation and their difference to the cent |
| `Dispatch.BaselineTradingFloor` | src/decision-loop/bess-scenario.ts:144-204 | At any price that separates its buying ticks from its selling ones the baseline earns at least that price per MWh withdrawn, and it never leaves the battery's capacity |
| `Dispatch.BaselineIsPricedAround` | src/decision-loop/bess-scenario.ts:145-147 | With one price an hour and at least five ticks, the third-cheapest price separates the baseline's buying ticks from its selling ones |
| `Dispatch.BaselineEarnsThirdCheapest` | src/decision-loop/bess-scenario.ts:144-204 | On such a day the baseline earns at least the third-cheapest price per MWh withdrawn |
| `Dispatch.SeparableExactly` | src/decision-loop/bess-scenario.ts:145-147 | Such a price exists if and only if no tick in a buying hour is dearer than a tick in a selling hour |
| `Dispatch.BaselineFloorExactly` | src/decision-loop/bess-scenario.ts:144-204 | The baseline keeps the floor on every stretch of the day for every battery if and only if the price separates |
| `Dispatch.PublishPublishes` | src/decision-loop/gpt-56-adapter.ts:207-280 | Every published action is the internal move with its volume off by at most 0.005 |
| `Dispatch.ReplayTracksSoc` | src/decision-loop/orchestrator.ts:318-351 | Replaying any actions that publish any moves ends within delta per trade of the booked state of charge |
| `Dispatch.ReplayTracksRevenue` | src/decision-loop/orchestrator.ts:318-351 | Replaying any actions that publish any moves earns the booked trading and reserve income up to delta per unit of price |
| `Dispatch.ReplayTracksFallback` | src/decision-loop/orchestrator.ts:318-351 | Replaying the fallback's two-decimal actions ends within 0.005 MWh per trade of the proposer's own state of charge; the revenue is off by at most 0.005 per unit of price |
| `Dispatch.PerTradeCounts` | src/decision-loop/orchestrator.ts:318-351 | The drift bound of a plan is its number of buys and sells times the drift of one |
| `Dispatch.PerPriceCounts` | src/decision-loop/orchestrator.ts:318-351 | The revenue drift of a replay is at most the number of priced moves times the drift of one at the highest price of the day |
| `Dispatch.ActionIsApplied` | src/decision-loop/orchestrator.ts:318-351 | Applying an action: a trade moves the charge by its volume, pays or earns volume times price and costs half its cycling price; a bid of any kind earns its volume times price and moves nothing; a hold does nothing |
| `Dispatch.ReplayChargesHalfPerMwh` | src/decision-loop/orchestrator.ts:336-349 | The realised degradation is half the per-MWh cost of the energy traded |
| `Dispatch.ReplayChargesHalfTheFallback` | src/decision-loop/orchestrator.ts:336-349 | Replaying the fallback's actions charges half of the cycling cost the proposer budgeted, up to the volume rounding |
| `Dispatch.ReplayAddsNetEnergy` | src/decision-loop/orchestrator.ts:318-351 | A replay moves the state of charge by the energy charged less the energy discharged |
| `Dispatch.PlanPrefix` | src/decision-loop/gpt-56-adapter.ts:196-280 | A published plan cut short is the published plan of the day cut short |
| `Chunker.FindCut` | src/knowledge/chunker.ts:171-202 | The backwards search returns the last admissible boundary of the most preferred kind that has one (paragraph, sentence, newline, space), and the hard limit when none has |
| `Chunker.FindSoftCut` | src/knowledge/chunker.ts:191-202 | When paragraph and sentence have no admissible boundary, the search for newline and space still returns the best cut |
| `Chunker.BestCutIsUnique` | src/knowledge/chunker.ts:171-202 | At most one position meets the description of the best cut |
| `Chunker.Cut` | src/knowledge/chunker.ts:173-202 | The specified cut lies strictly past the half-window and at most at the hard limit, and meets the description |
| `Chunker.LastIndexIsLast` | src/knowledge/chunker.ts:179-201 | `lastIndexOf` gives the last occurrence, or -1 when there is none |
| `Chunker.ChunkText` | src/knowledge/chunker.ts:143-225 | For any normalisation and token estimate: the call succeeds exactly when the overlap is smaller than the size and the normalised text is not empty; the chunks are then the pieces of a chunking with windows of four times the size (at least 16) and overlaps of four times the overlap, numbered, trimmed, and each with the estimate of its untrimmed text |
| `Chunker.TrimIsExact` | src/knowledge/chunker.ts:213-221 | Trimming removes white space at both ends, all of it and nothing else |
| `Chunker.PiecesAreChunking` | src/knowledge/chunker.ts:162-211 | The pieces start at 0, end at the text length, each text is its slice, non-final pieces end at the best cut and are longer than half the window and at most a window, and each start follows the overlap rule |
| `Chunker.ChunkingIsUnique` | src/knowledge/chunker.ts:162-211 | Those pieces are the only sequence that meets the chunking description |
| `Chunker.CutsDoNotGoBack` | src/knowledge/chunker.ts:173-211 | A boundary chosen in one window stays admissible in the next, or a later one is chosen |
| `Chunker.ChunkEndsNeverGoBack` | src/knowledge/chunker.ts:168-211 | Chunk ends never go back, for every text, window and overlap |
| `Chunker.ChunksLeaveNoGap` | src/knowledge/chunker.ts:206-210 | Each start is strictly after the previous start and not after the previous end: strict cursor progress, no gap |
| `Chunker.RebuildIsText` | src/knowledge/chunker.ts:143-211 | Dropping the overlaps and concatenating the pieces gives the text back |
| `Chunker.EndsGrowUpToHalf` | src/knowledge/chunker.ts:206-210 | With an overlap of at most half the window, ends strictly grow |
| `Chunker.LonelyBreakRepeats` | src/knowledge/chunker.ts:206-210 | With an overlap of more than half the window there is a text with a chunk that ends where the one before it ends, so it lies inside it |
| `Chunker.EndsGrowExactly` | src/knowledge/chunker.ts:159-210 | Chunk ends strictly grow on every text if and only if the overlap is at most half the window |
| `Chunker.IsGaplessCover` | src/knowledge/chunker.ts:233-245 | The check returns true exactly for a cover: every index from 0 to total - 1 once, all totals agreeing |
| `Chunker.DistinctInRangeIsCover` | src/knowledge/chunker.ts:238-244 | As many distinct in-range indices as chunks miss no index, though the code never looks for a missing one |
| `Chunker.ChunksAreCover` | src/knowledge/chunker.ts:213-221 | Whatever the chunker produces is a cover |
| `CanonicalJson.KeyOrder` | src/audit/hash-chain.ts:140-143 | The key order of each printer is total, antisymmetric and transitive |
| `CanonicalJson.TextOrderIsLexicographic` | src/audit/hash-chain.ts:140-143 | Text order: a prefix first, otherwise by the first character that differs |
| `CanonicalJson.IndexOrderIsNumeric` | src/audit/hash-chain.ts:140-143 | Array-index keys come in the order of the numbers they write |
| `CanonicalJson.IndexKeyIsExact` | src/audit/hash-chain.ts:140-143 | Array-index keys are the decimal numerals without leading zeros of the numbers up to 2^32 - 2 |
| `CanonicalJson.CanonicalSample` | src/audit/hash-chain.ts:134-147 | The canonical texts of one object, in full, for both printers |
| `CanonicalJson.WalkLooks` | src/audit/hash-chain.ts:138-146 | The walked object has its keys in ascending order and answers every lookup with the walked member the printer keeps: the audit printer drops undefined members and the one keyed `__proto__` |
| `CanonicalJson.ParsePrint` | scripts/verify-chain.ts:39-52 | On JSON trees with distinct keys and settled numbers, parsing (sections 4-7 of RFC 8259) inverts printing |
| `CanonicalJson.ParsePrintReads` | scripts/verify-chain.ts:39-52 | Parsing a printed tree of any numbers gives the same tree with each number read |
| `CanonicalJson.ParsedIsWellFormed` | src/audit/hash-chain.ts:348-353 | When a printed number is read as itself, whatever parsing returns is a tree with distinct keys whose numbers are printed as they are read |
| `CanonicalJson.NumberIsCanonicalExactly` | src/audit/hash-chain.ts:134-147 | A number is canonical text if and only if it is the text it is printed with, so `1.0` is not where it is printed `1` |
| `CanonicalJson.CanonicalParses` | src/audit/hash-chain.ts:134-147 | Canonical text parses back to the walked tree, for both printers, whatever function of its text a number is read by |
| `CanonicalJson.CanonicalIsStable` | src/audit/hash-chain.ts:134-147 | Canonicalising what canonical text parses to gives the same text |
| `CanonicalJson.WalkDecidesSame` | src/audit/hash-chain.ts:134-147 | Two trees walk to the same tree exactly when they are the same up to key order and the members that printer drops |
| `CanonicalJson.CanonicalDecidesSame` | src/audit/hash-chain.ts:134-147 | Two trees have the same canonical text if and only if they are the same up to key order and the members that printer drops |
| `CanonicalJson.PrintersAgreeExactly` | src/knowledge/schema.ts:116-136 | The audit and the knowledge printer give the same text for a tree if and only if none of its objects has an undefined member, a member keyed `__proto__`, or two keys the two orders compare differently (array-index keys beside others) |
| `CanonicalJson.ProtoMemberIsNotPrinted` | src/audit/hash-chain.ts:143 | An object with and without a member keyed `__proto__` has one audit text, though the knowledge printer tells them apart |
| `CanonicalJson.TextSurvives` | src/audit/hash-chain.ts:134-147 | A text member of an object member is read back from the canonical text as it was written |
| `JsonGrammar.ParseIsGrammar` | src/audit/hash-chain.ts:237-247 | Parsing accepts exactly the texts of the grammar of sections 2 to 7 of RFC 8259, and reads each as the value of its syntax tree |
| `JsonGrammar.NumeralsAreExact` | src/audit/hash-chain.ts:237-247 | The number automaton accepts exactly the numerals of section 6: sign, whole part without leading zeros, fraction, exponent |
| `JsonGrammar.LastFieldWins` | src/audit/hash-chain.ts:237-247 | A parsed object has each key once, with the value of its last field |
| `HashChain.AuditChain.Append` | src/audit/hash-chain.ts:159-219 | One row more, under the next number, with the entry's ids, type and time, its canonical payload and the hash of that, linked to the previous head; a taken record id stores nothing |
| `HashChain.BuiltRowsAreEntries` | src/audit/hash-chain.ts:159-219 | Rows built by appending are numbered from 1 without a gap, and each holds its entry's columns and the link to the row before |
| `HashChain.GenesisIsZeros` | src/audit/hash-chain.ts:153 | The head of an empty chain holds nothing but zero digits |
| `HashChain.CheckRow` | src/audit/hash-chain.ts:300-333 | A payload mismatch exactly when the payload hash is wrong, a link mismatch exactly when only the link is, and no fault exactly when payload, link and chain hash are right |
| `HashChain.VerifyChain` | src/audit/hash-chain.ts:293-342 | True exactly when every row passes its three tests; otherwise the sequence number and kind of the first failing row |
| `HashChain.VerifiesSnoc` | src/audit/hash-chain.ts:293-342 | A chain verifies with one more row exactly when it verified and the new row passes against its head |
| `HashChain.BuiltVerifies` | src/audit/hash-chain.ts:159-219 | Every chain built by appending verifies |
| `HashChain.SameChainHashSameRow` | src/audit/hash-chain.ts:162-167 | Two rows that pass with one chain hash agree in payload, hashes and predecessor, or the hash collides on strings hashed here |
| `HashChain.HeadPinsHistory` | src/audit/hash-chain.ts:270-342 | Two verifying chains with one head hash have the same length and the same content row by row, or the hash collides or hits the genesis value on strings they hashed |
| `HashChain.TruncationShowsInHead` | src/audit/hash-chain.ts:270-342 | Every prefix of a verifying chain verifies, but with another head |
| `HashChain.EditIsLocated` | src/audit/hash-chain.ts:293-342 | Editing covered content of one row breaks the chain first at that row or the next; only an edit of the last row can pass, and it changes the head |
| `HashChain.ExportIsRowByRow` | src/audit/hash-chain.ts:348-353 | The export fails exactly on a payload that does not parse, and otherwise carries each row in order, its columns unchanged and its payload parsed |
| `HashChain.VerifyExportedFile` | scripts/verify-chain.ts:60-109 | Accepts exactly when every exported record passes; otherwise the first break; a differing claimed head is only flagged |
| `HashChain.OfflineIsLiveOnReprinted` | scripts/verify-chain.ts:72-94 | Row by row the offline test is the live test on the payload parsed, its numbers read, and printed again |
| `HashChain.VerifiersAgreeOnCanonical` | scripts/verify-chain.ts:60-109 | On canonical payloads, whose numbers are written as they are printed, both verifiers give the same verdict, fault and first break |
| `HashChain.BuiltIsCanonical` | src/audit/hash-chain.ts:159-219 | Every payload stored by append is canonical text |
| `HashChain.BuiltPassesOffline` | scripts/verify-chain.ts:60-109 | A chain built by appending well-formed payloads exports and passes the offline verifier |
| `HashChain.OfflineAcceptsExactly` | scripts/verify-chain.ts:72-94 | A chain accepted live is accepted offline if and only if every payload is canonical text, its numbers included, short of a collision |
| `HashChain.ReformattingIsSeenLiveOnly` | scripts/verify-chain.ts:74-79 | Re-writing one stored payload to any text that parses to a value printed alike breaks the chain live, at that row, and passes offline |
| `HashChain.RewrittenNumbersAreSeenLiveOnly` | scripts/verify-chain.ts:74-79 | Writing its numbers otherwise, at any depth, does too |
| `HashChain.OfflineSeesUpToSame` | scripts/verify-chain.ts:72-94 | Replacing one exported payload by another tree passes offline if and only if the two are the same to the audit printer, short of a collision |
| `HashChain.OfflineEditExactly` | scripts/verify-chain.ts:39-94 | When a printed number is read as itself, an edit of the text of one exported payload passes offline if and only if both texts are read as the same to the audit printer, short of a collision; so `1` for `1.0` passes |
| `HashChain.AddedProtoPassesOffline` | scripts/verify-chain.ts:39-94 | A member keyed `__proto__` added to an exported payload passes offline |
| `HashChain.AppendLosesProto` | src/audit/hash-chain.ts:159-219 | A payload appended with such a member is stored and hashed without it |
| `Mi9Gate.ResolveDomainTier` | src/governance/mi9-gate.ts:318-330 | The loop returns the tier of the nearest classified prefix, or nothing |
| `Mi9Gate.NearestIsLongestAncestor` | src/governance/mi9-gate.ts:318-330 | The nearest classified prefix is the longest dotted ancestor with a tier, and there is none only if no ancestor has one |
| `Mi9Gate.Gate.PruneOldDecisions` | src/governance/mi9-gate.ts:193-198 | Drops from the front exactly the entries before the first of the last 3,600,000 milliseconds |
| `Mi9Gate.Gate.AutonomousCount` | src/governance/mi9-gate.ts:200-203 | The number of allows left after pruning |
| `Mi9Gate.Gate.CosignCount` | src/governance/mi9-gate.ts:205-208 | The number of co-sign verdicts left after pruning |
| `Mi9Gate.Gate.RecordExecution` | src/governance/mi9-gate.ts:246-253 | Appends operational allows and co-signs, and leaves the window alone for any other class or verdict |
| `Mi9Gate.Gate.GateRateLimits` | src/governance/mi9-gate.ts:514-564 | Passes an approved or exempt decision without touching the window, otherwise judges the pruned counts |
| `Mi9Gate.Gate.Evaluate` | src/governance/mi9-gate.ts:605-648 | Nine findings, each exactly as the policy and the decision ask for it; a block, an escalation, a co-signature and an allow each exactly when something asks for it and nothing for more; the co-sign flag and escalation target that go with it, and the first blocking gate |
| `Mi9Gate.GatesAreExact` | src/governance/mi9-gate.ts:271-584 | For each gate, over the fields of the decision and the policy, exactly when it finds block, escalate, co-sign and allow |
| `Mi9Gate.VerdictIsExact` | src/governance/mi9-gate.ts:605-648 | Exactly when the verdict is block, escalate, co-sign and allow: residency, tier of the longest classified ancestor, reversibility, impact, confidence, evidence, budgets, fallback |
| `Mi9Gate.TierHolds` | src/governance/mi9-gate.ts:332-373 | A domain whose tier needs a co-signature is never allowed, one whose tier needs escalation is escalated or blocked, an unacceptable one is blocked |
| `Mi9Gate.JoinAllIsJoin` | src/governance/mi9-gate.ts:590-620 | The verdict is the least one at or above every finding, and is one of them unless it is allow |
| `Mi9Gate.JoinIgnoresOrder` | src/governance/mi9-gate.ts:590-620 | Findings in any order give the same verdict |
| `Mi9Gate.BlockNamesItsGate` | src/governance/mi9-gate.ts:605-648 | A blocking gate is named exactly when the verdict is block, and it is the first that blocks |
| `Mi9Gate.WeakerSupportIsNeverLaxer` | src/governance/mi9-gate.ts:375-620 | Under every policy: a larger impact in the same unit, less confidence, fewer sources, or lost consensus, reversibility, fallback or approval never weakens the verdict |
| `Mi9Gate.UnclassifiedIsBlocked` | src/governance/mi9-gate.ts:332-373 | A domain with no classified ancestor is blocked when the policy states no tier for unknown domains |
| `Mi9Gate.AgeingNeverRelaxesExactly` | src/governance/mi9-gate.ts:465-499 | Gate 6 never relaxes as data ages if and only if sources are short, consensus is reached, or the domain needs none |
| `Mi9Gate.CountingRelaxesExactly` | src/governance/mi9-gate.ts:540-556 | One more autonomous decision relaxes gate 8 exactly when it uses up the autonomous budget while the co-sign budget is already spent |
| `Mi9Gate.RunTracks` | src/governance/mi9-gate.ts:191-253 | Over every run with a clock that does not go back, the window is the whole log front-pruned to the latest cutoff, and the log is in time order |
| `Mi9Gate.PrunedCount` | src/governance/mi9-gate.ts:193-208 | On a sorted queue, counting after front-popping is counting the entries not older than the cutoff |
| `Mi9Gate.EvaluateReadsOnlyTheLog` | src/governance/mi9-gate.ts:514-564 | The verdict is a function of the log, the context and the time, whatever earlier evaluations pruned |
| `Mi9Gate.ProbesChangeNothing` | src/governance/mi9-gate.ts:605-648 | Deleting bare evaluations anywhere in a run changes no recorded decision, no work in flight and no verdict acted on |
| `Mi9Gate.EvaluateIsObservationallyPure` | src/governance/mi9-gate.ts:605-648 | Two runs that execute and record alike decide alike, with evaluations added or deleted anywhere |
| `Mi9Gate.EveryEvaluationIsUndisturbed` | src/governance/mi9-gate.ts:605-648 | In two runs that executed and recorded alike so far, the same evaluation, bare or acted on, gives the same verdict, whatever evaluations were added or deleted before it |
| `Mi9Gate.ApprovedIgnoresWindow` | src/governance/mi9-gate.ts:225-232 | With a valid prior approval the verdict is that of an empty window, whatever the window holds |
| `Mi9Gate.HourlyLimitHolds` | src/governance/mi9-gate.ts:514-564 | Over every run with a clock that does not go back in which an allow is recorded right after it was given, no closed 60-minute window holds more than `autonomous_per_hour` recorded allows without a valid prior approval |
| `Mi9Gate.HourlyLimitInFlight` | src/runtime/api/governance-bridge.ts:185-191 | With at most k counting executions at a time between evaluation and recording, no such window holds more than `autonomous_per_hour` + k - 1 of them |
| `Mi9Gate.BoundIsAttained` | src/runtime/api/governance-bridge.ts:106-191 | For every bridge request that is charged and allowed on an empty window and every k from 1 there is a run with at most k in flight that records exactly that many in one hour |
| `Mi9Gate.BudgetHoldsInFlightExactly` | src/runtime/api/governance-bridge.ts:106-191 | With such a request, every run with at most k in flight keeps the budget if and only if k is at most one |
| `Mi9Gate.BudgetHoldsExactly` | src/runtime/api/governance-bridge.ts:106-191 | Every run, whatever overlaps, keeps the budget if and only if the policy allows no operational bridge request on an empty window |
| `Mi9Gate.HeldIrreversiblesKeepBudget` | src/runtime/api/governance-bridge.ts:113-124 | An operational bridge request is irreversible, so a policy whose verdict on irreversible actions is not allow keeps its budget in every run |
| `Mi9Gate.HeldBridgeRequestIsNotAllowed` | src/runtime/api/governance-bridge.ts:106-150 | A bridge request is not allowed with side effects the policy holds, without dated evidence under a shorter age limit, with one source where consensus is due, with too little confidence (anything above 1 counts as 1), with side effects of unstated impact over a threshold of 1000, or with the EU not admitted |
| `Mi9Gate.TextIsNotBudgeted` | src/runtime/api/governance-bridge.ts:113-117 | A bridge request is charged to the budgets only if it has side effects, and then unless it is approved |
| `Mi9Gate.TextIsHarmless` | src/runtime/api/governance-bridge.ts:121-131 | A request without side effects is reversible, and without a stated impact it reaches no threshold above 1 |
| `Mi9Gate.CosignBudgetBindsExactly` | src/governance/mi9-gate.ts:540-556 | Gate 8 escalates charged work for every count at or over the co-sign budget if and only if the autonomous budget is not spent |
| `DecisionLoop.Act` | src/decision-loop/orchestrator.ts:119-177 | Only an allow is applied to the realised figures and charged to the window |
| `DecisionLoop.RunDecisionLoop` | src/decision-loop/orchestrator.ts:110-256 | On success: one verdict per action, the verdicts, window and realised figures of the specified session, four exact counters, one deposited record per action, and the last record's chain hash; the gain is realised revenue less degradation less the baseline net, to the cent, the fee its share or the cap; no fee for realising no more than the baseline, and executing nothing realises nothing and gains the negated baseline. A taken record id stops it after that action was acted on and before it was deposited |
| `DecisionLoop.ProcessItem` | src/decision-loop/orchestrator.ts:119-222 | The loop body acts on the next action, counts its verdict in the right one of four counters and deposits it, or stops on a taken record id |
| `DecisionLoop.OsaasFee` | src/decision-loop/orchestrator.ts:79-85 | No fee without a gain; otherwise 15 per cent of the gain or 1000 EUR, and never more than either |
| `DecisionLoop.NoGainNoFee` | src/decision-loop/orchestrator.ts:79-85 | A realised net at or below the baseline's is charged nothing |
| `DecisionLoop.ContextIsExact` | src/decision-loop/orchestrator.ts:121-143 | What the gates are told of an action: irreversible exactly when it discharges more than 2 MWh, its worth in EUR to the cent or its bid in MW as impact, and the fixed residency, evidence and fallback |
| `DecisionLoop.HeldActionsAreNotExecuted` | src/decision-loop/orchestrator.ts:119-177 | A session executes nothing when its domain's tier is held, or each action is: a discharge over 2 MWh where irreversible actions are held, a trade or bid worth a co-sign threshold, too little confidence |
| `DecisionLoop.CountersAddUp` | src/decision-loop/orchestrator.ts:112-165 | Allowed, co-signed, escalated and blocked add up to the number of actions |
| `DecisionLoop.EveryVerdictIsAudited` | src/decision-loop/orchestrator.ts:179-221 | The chain grows by exactly one record per action, in order and whatever the verdict, numbered on, with that action's ids, time, the session's domain and its payload; a chain that verified still verifies |
| `DecisionLoop.PayloadStatesVerdict` | src/decision-loop/orchestrator.ts:151-205 | The canonical text of a payload, read back, names the verdict as `mi9Result.verdict` and executed, held-for-cosign, escalated or blocked as `outcome.action` |
| `DecisionLoop.RecordStatesVerdict` | src/decision-loop/orchestrator.ts:179-221 | Read back from the chain, the record of each action shows the verdict it was given as `mi9Result.verdict` and what was done about it as `outcome.action` |
| `DecisionLoop.SessionIsARun` | src/decision-loop/orchestrator.ts:149-177 | A session is a run of the gate: same window, and its allowed actions are what the log gains |
| `DecisionLoop.SessionKeepsHourlyLimit` | src/decision-loop/orchestrator.ts:149-177 | After any run that recorded at once, a session that takes at most an hour executes at most `autonomous_per_hour` of its actions |
| `DecisionLoop.SessionLimitInFlight` | src/decision-loop/orchestrator.ts:149-177 | Beside at most k counting executions in flight, it executes at most `autonomous_per_hour` + k - 1 |
| `DecisionLoop.AllowedPlanIsRealised` | src/decision-loop/orchestrator.ts:165-177 | When every action of the proposer's plan is allowed, the realised state of charge and revenue are the booked ones up to the two-decimal rounding |
| `DecisionLoop.RefusalsShiftSoc` | src/decision-loop/orchestrator.ts:165-177 | Whatever is refused of the proposer's plan, the realised state of charge is the booked one less the net energy refused, up to 0.005 MWh per trade |
| `DecisionLoop.RefusalsKeepEnvelope` | src/decision-loop/orchestrator.ts:165-177 | At every point of such a session the realised charge stays above the floor if no more charging than discharging was refused, and below the ceiling if no less was, up to the same rounding |
| `DecisionLoop.RefusedChargeBreaksFloor` | src/decision-loop/orchestrator.ts:165-177 | A concrete session on the plan, with the shipped EUR thresholds and budgets: a charge worth 1000 EUR is held, the discharge planned after it is allowed, and the battery ends 2 MWh below the floor |
| `AuditMirror.Mirror.NoteLocal` | src/persistence/audit-mirror.ts:270-273 | The first sequence number seen fixes the base; later ones only raise the local maximum |
| `AuditMirror.Mirror.NoteMirrored` | src/persistence/audit-mirror.ts:276-284 | Records the confirmation; afterwards the base is again the least unconfirmed number and the set holds exactly the confirmed numbers above it; the last mirrored number only rises |
| `AuditMirror.Mirror.Starts` | src/persistence/audit-mirror.ts:404-420 | The link is noted in any case; without configuration nothing is counted, and a missing manager is a failure but never a degradation |
| `AuditMirror.Mirror.CountMissing` | src/persistence/audit-mirror.ts:296-307 | The gap is the number of sequence numbers from the first observed up to the limit that were never confirmed |
| `AuditMirror.Mirror.Answered` | src/persistence/audit-mirror.ts:404-480 | A confirmed answer counts as mirrored, anything else as failed, and as a degradation when mirroring is required; reachability follows the answer and an unconfirmed one leaves the gap accounting alone |
| `AuditMirror.Replay` | src/persistence/audit-mirror.ts:253-307 | Over any interleaving of local and confirmed events, the reported gap is the number of unconfirmed sequence numbers from the first observed one on, and the two last numbers are the greatest seen locally and the greatest confirmed |
| `AuditMirror.ArrivalOrderIsIrrelevant` | src/persistence/audit-mirror.ts:270-307 | Two interleavings of the same events that start at the same number report the same gap |
| `RingBuffers.RingBuffer.Create` | src/sentinel/ring-buffer.ts:25-30 | An empty buffer for every capacity of at least one, a refusal otherwise |
| `RingBuffers.RingBuffer.Push` | src/sentinel/ring-buffer.ts:32-36 | The overwritten slots keep standing for the whole stream of pushes plus this one |
| `RingBuffers.RingBuffer.ToArray` | src/sentinel/ring-buffer.ts:39-48 | Exactly the last min(pushes, capacity) items, oldest first |
| `RingBuffers.RingBuffer.Last` | src/sentinel/ring-buffer.ts:51-55 | The last n of the items the buffer still holds, in order |
| `RingBuffers.RingBuffer.Clear` | src/sentinel/ring-buffer.ts:65-69 | The buffer stands for the empty stream again |
| `RingBuffers.AtLeastTwoCovers` | src/sentinel/ring-buffer.ts:82-88 | A series gets the fewest slots that cover the window at the sampling interval, and never fewer than two |
| `RingBuffers.MetricRingBuffer.Record` | src/sentinel/ring-buffer.ts:90-97 | Adds the metric to its own series and leaves the other series as they were |
| `RingBuffers.MetricRingBuffer.Get` | src/sentinel/ring-buffer.ts:104-106 | Each series is the last capacityPerSeries items of the recorded stream filtered by that name |
| `RingBuffers.MetricRingBuffer.Recent` | src/sentinel/ring-buffer.ts:109-111 | The last n items of that name among those still held |
| `RingBuffers.MetricRingBuffer.Latest` | src/sentinel/ring-buffer.ts:114-117 | The last recorded item of that name |
| `AlertEngine.BandIsHighestReached` | src/sentinel/alert-engine.ts:33-42 | A reading is in the highest band whose threshold it reaches |
| `AlertEngine.BandIsExact` | src/sentinel/alert-engine.ts:33-42 | BLACK from 99, RED from 95, ORANGE from 85, YELLOW from 70 per cent of the stated utilisation, or of a value in percent; GREEN below, and without a finite reading |
| `AlertEngine.FoldIsConfirmed` | src/sentinel/alert-engine.ts:132-152 | The series state is the band of the most recent run of at least N equal observations (GREEN if none) and the length of the current run |
| `AlertEngine.TransitionsAtNth` | src/sentinel/alert-engine.ts:144-152 | A change of band is announced exactly at the N-th observation of its run |
| `AlertEngine.TransitionsAreRare` | src/sentinel/alert-engine.ts:132-183 | On one series the changes of band, times N, are at most the observations |
| `AlertEngine.AlertsAreRare` | src/sentinel/alert-engine.ts:132-183 | Over all series of any history, alerts and recoveries together, times N, are at most the available observations |
| `AlertEngine.Engine.AlertsEmittedAreRare` | src/sentinel/alert-engine.ts:116-183 | The engine's own alert counter times N never exceeds the available observations it evaluated |
| `AlertEngine.Engine.Evaluate` | src/sentinel/alert-engine.ts:124-183 | An available metric moves its own series as the fold says, alerts exactly on a confirmed change to a band other than GREEN, with the utilisation and remaining capacity in hundredths, and counts the alert; an unavailable one changes nothing |
| `AlertEngine.Engine.SeverityFor` | src/sentinel/alert-engine.ts:203-205 | The confirmed band of that series |
| `AlertEngine.Engine.ActiveIffConfirmed` | src/sentinel/alert-engine.ts:143-176 | An active alert exists if and only if the confirmed band is not GREEN, and it carries that band |
| `AlertEngine.Engine.AggregateSeverity` | src/sentinel/alert-engine.ts:208-214 | The worst confirmed band over all series |
| `ResponseController.TargetLevelFor` | src/sentinel/response-controller.ts:100-106 | The highest ladder level the severity reaches |
| `ResponseController.TargetIsUnique` | src/sentinel/response-controller.ts:100-106 | Only one level is the highest whose trigger the severity reaches |
| `ResponseController.LadderIsExact` | src/sentinel/response-controller.ts:28-106 | GREEN, YELLOW, ORANGE, RED and BLACK reach levels 0, 2, 5, 7 and 8, and steps from 3 on need an authorisation |
| `ResponseController.Controller.Reconcile` | src/sentinel/response-controller.ts:157-200 | Whatever the level was, it ends at the severity's target capped by the configured maximum, and at 2 when degradation is disabled; the history grows by the actions taken, and its open steps are exactly 1 to the level |
| `ResponseController.Controller.Climb` | src/sentinel/response-controller.ts:161-183 | Applies the missing steps in order, withholding those that need an authorisation not given |
| `ResponseController.Controller.Unwind` | src/sentinel/response-controller.ts:184-196 | Reverses the latest open step first, down to the target |
| `ResponseController.ReconcileAll` | src/sentinel/response-controller.ts:157-200 | After any sequence of severities the level depends on the last one alone and the history replays as a stack whose open steps are exactly 1 to the level |
| `Forecaster.NormalIsLeastSquares` | src/sentinel/forecaster.ts:59-102 | When the times are not all equal, a line whose residuals are orthogonal to the data has the least residual sum of squares of all lines and is the only such line |
| `Forecaster.OtherLinePays` | src/sentinel/forecaster.ts:81-95 | Any other line's residual sum of squares is larger by the sum of squares of the difference of the lines |
| `Forecaster.FitIsOptimal` | src/sentinel/forecaster.ts:68-95 | The computed slope and intercept are least squares, and the residual sum is between zero and the total sum |
| `Forecaster.ClampNeverActs` | src/sentinel/forecaster.ts:95-102 | With a residual sum between zero and the total, R squared lies between 0 and 1 before the clamp, which changes nothing |
| `Forecaster.NoSpreadMeansOneTime` | src/sentinel/forecaster.ts:59-84 | The spread of the times is zero exactly when all timestamps coincide |
| `Forecaster.LinearRegression` | src/sentinel/forecaster.ts:59-102 | Null exactly for too few samples or coinciding timestamps; otherwise the least-squares line over the last 60 samples, its R squared and its time span, each to four decimals, and the sample count |
| `Forecaster.FitWindow` | src/sentinel/forecaster.ts:62-102 | The accumulating loops produce the least-squares fit of the window, or null exactly when its timestamps coincide |
| `Forecaster.LineIsRecovered` | src/sentinel/forecaster.ts:59-102 | Samples on one line give back that line, with no residual |
| `Forecaster.LineIsReported` | src/sentinel/forecaster.ts:59-102 | Samples on one line, a flat one included, are reported as that line to four decimals with an R squared of 1 |
| `Forecaster.Round4IsNearest` | src/sentinel/forecaster.ts:95-102 | Reported figures are whole ten-thousandths, at most half of one away, halves up |
| `Forecaster.TargetIsMetThen` | src/sentinel/forecaster.ts:116-121 | On the line the forecast is drawn on, the target is met half a hundredth of a minute after the reported minute and not half a hundredth before it |
| `Forecaster.NoForecastExactly` | src/sentinel/forecaster.ts:116-121 | No minute is given exactly when the target lies ahead on a flat or falling line, a target already met is zero minutes away, and no minute is negative |
| `Cosign.CosignStore.Hold` | src/governance/cosign-store.ts:93-113 | Afterwards the decision is open under its id with this content, whatever was there; no other id changes, and a store filed by id stays so |
| `Cosign.CosignStore.MarkReleased` | src/governance/cosign-store.ts:148-158 | True exactly when the row was there and open; then the row names this operator and time and nothing else changes; afterwards it is not open |
| `Cosign.HandleCosign` | src/api/router.ts:93-160 | The refusals of an uninterrupted request, each exactly on its condition and changing nothing; otherwise the chain gains one record with the held id and this operator, the row names this operator and time and is otherwise unchanged, and the answer carries the held content |
| `Cosign.HandedOutAtMostPerHold` | src/governance/cosign-store.ts:93-158 | In any interleaving of any number of clients with any crashes, a decision is handed out at most once per time it was held |
| `Cosign.HandedOutAtMostOnce` | src/api/router.ts:93-160 | With fresh record ids each held decision's content is handed out at most once |
| `Cosign.ReleaseIsAlwaysAudited` | src/api/router.ts:121-147 | At every point of every interleaving, also right after a crash, each released decision has its `cosign.release` record on the chain |
| `Cosign.EachHandOutHasItsOwnRecord` | src/api/router.ts:121-147 | Each hand-out is backed by a release record of its own, besides those of requests in flight |
| `Cosign.ReleasesIsNumber` | src/api/router.ts:138-142 | The number of release records counted for an id is the size of the set of places in the chain that hold one |
| `Cosign.ReleasesAreSigned` | src/api/router.ts:121-147 | At every point of every interleaving a row names an operator and a time exactly if it is released, that operator has a release record for it, and every record is of a named operator who looked that decision up |
| `Cosign.HandedOutIsGenuine` | src/api/router.ts:103-159 | Everything stored, in flight or handed out under an id was held under that id |
| `Cosign.HandedOutIsTheHeldContent` | src/api/router.ts:149-159 | With fresh ids the content handed out is the one content ever held under that id |
| `Cosign.ReusedIdIsHandedOutAgain` | src/governance/cosign-store.ts:93-113 | Holding a decision n times under one id, with a release after each, hands it out n times: every hold re-opens the row |
| `Cosign.AtMostOnceExactly` | src/api/router.ts:93-160 | At-most-once is guaranteed over all interleavings for ids held n times if and only if n is at most one |
| `Ingestion.LookupFinds` | src/knowledge/stores/sqlite-store.ts:310-335 | The hash lookup finds a row exactly when one with that hash is stored |
| `Ingestion.Plane.GetByHash` | src/knowledge/stores/sqlite-store.ts:310-335 | An object with that hash if and only if the store is open, answers hashes and holds one; it is a stored row with that hash |
| `Ingestion.Plane.Upsert` | src/knowledge/stores/sqlite-store.ts:153-241 | Writes exactly the objects within the ceiling and of the right vector size, in order, all of them or none; the failures are exactly the other objects, each with its reason; the counts, and success only for a complete write |
| `Ingestion.OkMeansNoFailure` | src/knowledge/stores/sqlite-store.ts:234-240 | A report has no failure if and only if the store was open and everything was written |
| `Ingestion.Plane.Construct` | src/knowledge/ingestion.ts:302-346 | One object per chunk in order, or the reason of the first chunk none can be made of |
| `Ingestion.Plane.Ingest` | src/knowledge/ingestion.ts:80-392 | Each refusal of each stage exactly on its condition, with its status and reason; quarantined and kept exactly for readable requests above the ceiling or unclean; a duplicate names a stored object with that hash; a created document has one row per chunk under the ids answered; exactly the documents not held go to the embedder |
| `Ingestion.AdmissionIsExact` | src/knowledge/ingestion.ts:112-227 | Stages I-1 to I-6: status and reason of each refusal, each exactly on its condition, and quarantine exactly for suspects |
| `Ingestion.WritingIsExact` | src/knowledge/ingestion.ts:228-392 | Stages I-7 to I-11 of a document that can be cut up: duplicate, dimension mismatch, first chunk no object can be made of, degradation, each store failure with its status, and creation, each exactly on its condition |
| `Ingestion.QuarantineIsExact` | src/knowledge/ingestion.ts:137-187 | After any run the quarantine has gained exactly the readable requests above the ceiling or unclean, in the order offered |
| `Ingestion.FailuresAreExact` | src/knowledge/stores/sqlite-store.ts:153-241 | An object fails with a reason if and only if the store is closed, it is above the ceiling, its vector has the wrong size, or it would have been written and the write failed |
| `Ingestion.Plane.CutUp` | src/knowledge/ingestion.ts:189-243 | Stages I-5 to I-7 give the specified outcome and state for a clean request |
| `Ingestion.Plane.IngestChunks` | src/knowledge/ingestion.ts:245-392 | Stages I-8 to I-11 give the specified outcome and state for an admitted request |
| `Ingestion.Plane.Persist` | src/knowledge/ingestion.ts:302-392 | Stages I-10 and I-11 build, write and report what is specified |
| `Ingestion.StagesRunInOrder` | src/knowledge/ingestion.ts:80-392 | The trace is a prefix of I-1 to I-11 in order, each stage passed but the last of a refusal; a success runs all eleven, or eight for a duplicate |
| `Ingestion.NoGapIsEverFound` | src/knowledge/ingestion.ts:220-225 | The gapless-cover refusal of stage I-6 never fires |
| `Ingestion.RunsAreSafe` | src/knowledge/ingestion.ts:137-187 | After any run every stored object is within both ceilings, matches its digest and has a fresh id and a vector of the configured size or none, and every text ever sent to the embedder came from a request within the ceiling that the injection screen passed |
| `Ingestion.DuplicateExactly` | src/knowledge/ingestion.ts:245-267 | An admissible request is a duplicate if and only if the store is open, answers hash lookups and holds the hash of its first chunk, and then nothing changes |
| `Ingestion.SuccessStoresTheDocument` | src/knowledge/ingestion.ts:302-392 | A created document has all its chunks' objects stored, in order |
| `Ingestion.SecondOfferIsANoOp` | src/knowledge/ingestion.ts:245-267 | Once a request was accepted, offering it again at any later point is a duplicate that embeds nothing, writes nothing and changes nothing |
| `Ingestion.NoLookupStoresAgain` | src/knowledge/stores/qdrant-store.ts:560-573 | On a store that never answers a hash lookup a request accepted once is accepted in every later state with such an answer, and every acceptance writes all its chunks |
| `Ingestion.SharedOpeningIsNotStored` | src/knowledge/ingestion.ts:245-267 | An admissible document with the same first chunk as an accepted one is reported as already held, and nothing of it is written |
| `Ingestion.NoPartialWrite` | src/knowledge/stores/sqlite-store.ts:164-184 | With vectors of the width the embedder declares (src/knowledge/embedding/openai-adapter.ts:346-360), a call adds all the objects of its document if it reports it created, and nothing otherwise |
| `Ingestion.RefusedIsNotHeld` | src/knowledge/ingestion.ts:348-377 | Then a refused call leaves the rows as they were, so a retry is a duplicate only if the document was one before, and never after a refusal by an open store |
| `Ingestion.AcceptedAreHeldExactly` | src/knowledge/ingestion.ts:245-392 | For any set of documents: in every run that offers them, with an embedder that keeps its width, every accepted document is wholly held, if and only if none of them opens with a chunk of a storable one that lacks some chunk of it |
| `Ingestion.ShadowedIsLost` | src/knowledge/ingestion.ts:245-267 | Offered after the other, such a document is accepted though not all of it is held |
| `Ingestion.SharedOpeningShadows` | src/knowledge/chunker.ts:164-204 | At every chunk size whose window is below the request's length limit, any two documents with one opening chunk of letters and different one-letter endings are such a pair on a plane that admits and stores both |
| `Ingestion.RetryAfterPartialWriteExactly` | src/knowledge/ingestion.ts:348-377 | With any embedder: after a refusal at I-11 by an open store, a retry succeeds as a duplicate if and only if the store took an object with the first chunk's hash the first time |
| `Ingestion.UnevenVectorsAreWrittenInPart` | src/knowledge/stores/sqlite-store.ts:164-184 | With an embedder that gives the second vector another width, every document of two chunks of letters is refused with one row written, and offering it again is a duplicate whatever the embedder then answers |
| `Corpus.IngestCorpus` | src/knowledge/corpus.ts:140-219 | The batch is the fold of `ingest` over the documents, up to the first failure when stopping; one outcome per document in order, quarantined exactly if suspect, the unattempted ones reported as aborted; the counts are those of the outcomes, and the quarantine gains exactly the suspects attempted |
| `Corpus.ReportedTells` | src/knowledge/corpus.ts:104-130 | An outcome repeats the answer's ids, reason and stages; ingested, held, quarantined, degraded (the eight dependency reasons) and refused each exactly on their condition |
| `Corpus.AttemptIsOutcome` | src/knowledge/corpus.ts:150-179 | An attempted document is quarantined exactly if it is suspect, and ingested, held or degraded only if it can be cut up |
| `Corpus.SummaryIsExact` | src/knowledge/corpus.ts:200-213 | Each count of the report is the number of outcomes of that kind |
| `Corpus.Attempt` | src/knowledge/corpus.ts:150-179 | The loop stops after the first failure when asked to, and each attempted document has the outcome of ingesting it in its turn |
| `Corpus.AttemptedExactly` | src/knowledge/corpus.ts:179-197 | The number attempted is all of them, or ends in the first failure of a stopping batch |
| `Corpus.CountsAddUp` | src/knowledge/corpus.ts:200-212 | The five disposition counts add up to the documents offered |
| `Corpus.OkReportExactly` | src/knowledge/corpus.ts:204-206 | The report is ok if and only if every document was accepted in its turn |
| `Corpus.SecondBatchIsANoOp` | src/knowledge/corpus.ts:140-219 | Offering again a batch that succeeded finds every document a duplicate and changes nothing |
| `Corpus.ObjectsWrittenExactly` | src/knowledge/corpus.ts:213 | `objectsWritten` less the duplicates is the number of rows the batch added, stopped or not, when the embedder keeps its width, and never more whatever the embedder does |

## Left out

- Dispatch.FallbackTradingFloor: does not model floating point; the quantile index `n * 0.7` is computed exactly, and sums and products do not round.
- Dispatch.DeterministicFallback: action ids, reason texts and latency are not modelled.
- Chunker.ChunkText: the size and the overlap are integers, and `normaliseText` and the token estimate are given functions.
- CanonicalJson.CanonicalParses: strings are sequences of characters, so surrogate pairs and lone-surrogate escapes are not modelled; a number is read by a given function from its text to the text it is then printed with, of which only what a lemma states is used; dates, functions, shared references and a top-level undefined are excluded from trees.
- HashChain.VerifyChain: `record_id`, `timestamp`, `decision_id`, `decision_type` and `seq` are stored beside the payload and covered by no hash, so nothing is claimed of them, and a prefix of a valid chain is a valid chain.
- HashChain.AuditChain.Append: the only failure modelled is a record id already in the table.
- Mi9Gate.Gate.Evaluate: one evaluation reads the clock once, where the code reads it several times in a row; reason texts and policy loading are not modelled, and gate 7 passes everything, as in the code.
- Mi9Gate.WeakerSupportIsNeverLaxer: data age and the rate counters are left out because the verdict is not monotone in them, as shown by the two lemmas that say exactly when.
- DecisionLoop.RunDecisionLoop: exposure scoring and its summary and the language-model proposer are not modelled; the baseline's net, identifiers, clock readings and the members of the audit payload other than the verdict and the outcome are parameters.
- AuditMirror.Mirror.Answered: error texts, the time of the last success and health reporting are not modelled.
- RingBuffers.RingBuffer.Push: the capacity is an integer and no stored item is undefined.
- AlertEngine.Engine.Evaluate: cause, resource, recommendation, audit id, timestamp and exhaustion estimate of an alert are not modelled.
- ResponseController.Controller.Reconcile: a ladder step is its level, trigger and authorisation flag; identifiers, descriptions and timestamps are not modelled.
- Forecaster.LinearRegression: sums, products and the rounding itself are exact reals; trend labels and confidence are simple functions of the result.
- Cosign.HandleCosign: parsing of the stored context, the release record's other fields and the HTTP answer's other fields are not modelled.
- Cosign.HandedOutAtMostOnce: the lookup, the audit append and the conditional update are each one atomic step.
- Ingestion.Plane.Ingest: request validation, injection screening, normalisation, the digest and the object schema are given functions, object ids are taken as never repeating, and the other object fields are not modelled.
- Ingestion.SecondOfferIsANoOp: no event deletes from the store, so "later" means after further offers.
- Ingestion.LookupFinds: does not model the schema and digest checks made when a row is read; every row the model stores passes the digest check (`RunsAreSafe`).
- Ingestion.Plane.Upsert: models the SQLite store; of the Qdrant store only that its hash lookup answers nothing.
- HTTP routing, SQLite, Supabase, R2 and Qdrant access, provider calls and logging are input and output.
- `src/orchestrator.ts` and the model-exchange orchestrator, whose error paths let a response out without a verdict: nothing is claimed of them.
- Retrieval, citation resolution, how the knowledge plane comes to its degradation level and the deployment scripts would add only easy members.
