# NiftyShield paper trading: a verified model

This project models the paper-trading core of NiftyShield and proves what it keeps.

- **Gamma scan** (`PaperLedger`, `GammaTables`, `GammaScan`, `GammaAgreement`, `GammaLegs`, `GammaProtocol`,
  `GammaSerial`, `GammaReach`, `GammaRows`): a trade ledger and a signal log changed by entry and exit transactions
  under one write lock. `GammaScan` is the code on a `Connection` object with faults injected at every point.
  `GammaProtocol` is the same transactions cut into micro-steps, interleaved by any number of processes;
  `GammaSerial` adds the process lock, `GammaReach` shows what runs lead to, and `GammaRows` says field by field what
  stands in the rows. A step's label carries every choice the world makes, so statements over all runs are statements
  over all label sequences.
- **Iron condor** (`CondorRoll`, `CondorLadder`, `CondorSignals`, `CondorCycle`, `StrikeSearch`, `CondorWings`,
  `CondorWingExamples`, `CondorStore`, `CloseExecutor`, `CondorActions`, `CondorLedger`, `CondorHistory`): the eight
  documented levels of the signal ladder as a table of conditions that do not refer to each other (the two hard
  delta levels are one row, since the code tests them side by side), the evaluators that must match it, the roll and
  its guards, the profit lock, and the executor that closes and rolls legs. `CondorDeltas`, `CondorGuards`,
  `CondorReadings`, `CondorTicks`, `ClosePrices` and `CondorReturned` tell the answers again from the position list,
  the chain and the feeds alone: which delta closes, which guard stops, what has been gained, at what price a leg is
  traded, what is left open.
- **Signals track** (`SignalLedger`, `SignalPairing`, `SignalCounts`, `SignalReport`, `SignalCash`, `SignalGates`): how
  entries and sales are written, how the report pairs them, its metrics and gates, and the same results counted from
  the money in the ledger and cycle by cycle.
- **Calendar, pricing and text** (`ExpiryMonths`, `ExpiryCalendar`, `ImpliedVol`, `ReportText`, `IndianFormat`,
  `DecimalAmount`, `EodSummary`, `Rounding`).

Decimals are exact `real`s; rounding is written out where the code rounds, and `DecimalAmount` adds the 28 digits
of the decimal context. Functions the code calls on market data (chain lookup, strike search, instrument resolution,
ranking, option price) are arbitrary functions, with a stated hypothesis where one is needed: a ranking is a
permutation, the instrument master gives back the strike a key was resolved for, a price does not fall with
volatility. For the side and reach of a wing the known absolute deltas of a chain fall away from the money, a roll's
candidates are what the search of `StrikeSearch` finds in it, and the narrower-wing search looks strictly between
the wing held and the new short (`src/strategy/roll_utils.py:144-157`). Times, faults, broker answers and store
failures are parameters.

## Where the code does not do what is said of it

- The comment at `scratch/ic_repro/2026-08-24_git_head_ic_nifty_v2.py:1057-1060` calls a positive
  `total_credit_pts` of a roll a credit; the formula at line 1061 is the net debit, and the model follows it.
- The ladder's documentation ranks an extreme delta before used-up rolls; the code tests the put for both before
  the call (`CondorLadder.DocumentedReasonDiffersIff`).
- The debit cap does nothing while no credit is recorded (`CondorRoll.NoCreditNoCap`), and outside the tests nothing
  calls the two methods that record it and reset the roll counters
  (`scratch/ic_repro/2026-08-24_git_head_ic_nifty_v2.py:574-590`).
- A roll approved with the default closing leg does not leave a whole condor
  (`CondorActions.DefaultApprovalBreaksRolls`), a roll opens one unit whatever it closed
  (`CondorActions.RollKeepsSizeIff`), and a Zone 2 lock counts as executed although its roll was aborted
  (`CondorActions.AbortedZoneTwoIsNeverRetried`).
- A Zone 2 lock picks its wings by delta and does not compare them with the wings it replaces, so it may widen a
  vertical (`CondorWings.ZoneTwoWidthByDelta`, `CondorWingExamples.ZoneTwoWidens`).
- A Zone 2 lock can put a long wing on the wrong side of its short, since the engine tests the larger of the two
  widths only (`CondorWingExamples.ZoneTwoCrosses`). A roll cannot (`CondorWings.RollNeverCrosses`), but a call roll can
  pick one contract as short and wing and pay for a vertical of no width, which the width guard lets pass
  (`CondorWings.CollapsesIff`, `CondorWingExamples.CallRollCollapses`).
- The store skips rows whose unique key is taken, so a roll back to a contract sold in that role on the same date
  loses the role (`CondorLedger.ReopeningSoldContractLosesRole`, `CondorHistory.RollBackLosesRole`).
- A full close leaves a leg behind when a role is held in two contracts (`CondorActions.FullCloseFlattensIff`).
- A leg in the money by at most half a cent at expiry would make the closing call raise
  (`CloseExecutor.SettlementPricedIff`). Index levels and strikes quoted to two decimals never give such an amount
  (`CloseExecutor.QuotedSettlementIsPriced`); only a finer quote would.
- Two sales of a contract on one date strand a lot in the gamma ledger (`GammaSerial.SecondSaleOfADayStrands`),
  and runs reach such a state (`GammaReach.SurplusIsReachable`).
- An entry that takes over the purchase row of an earlier attempt on its date, while an entry of that date with a
  later row exists, makes the report pair wrongly without an error (`SignalPairing.PairingIsSoundIff`,
  `SignalPairing.TakingOverBehindHappens`).
- Such an entry logs the premium of its own fill while the row keeps the price of the first attempt, so the report's
  total differs from the money in the ledger by the difference (`SignalCash.SquareIffPaid`,
  `SignalCash.TakingOverMisprices`).
- A half-done exit finished on another date leaves a second sale row, an exit whose contract was sold that day
  leaves none. One of each, and the lengths agree although the pairs are wrong (`SignalCounts.ImproperExitsCancel`).
- `fmt_inr` prints scientific notation for small amounts above six decimals (`IndianFormat.InrReadsBackIff`), and
  rounds a number of more than 28 digits twice, which is wrong by more than half a unit exactly across a tie
  (`DecimalAmount.DecimalWithinHalfUnitIff`, `DecimalAmount.LongDecimalRoundsTwice`).
- `escape_markdown` does not escape backslashes: one before an escapable character is lost, and a reserved character
  behind an odd number of them is left bare (`ReportText.ShownAsWrittenIff`, `ReportText.MarkupLeftIff`).

## Model

| member | source | states |
|---|---|---|
| `PaperLedger.RecordTrades` | src/paper/store.py:687-727 | the batch is split into inserted and skipped rows without loss, the table grows by exactly the inserted ones, and nothing is skipped if and only if the whole batch was inserted |
| `PaperLedger.BatchStoredWholeIff` | src/paper/store.py:687-727 | a batch is stored whole exactly when its unique keys are new to the table and distinct among themselves |
| `GammaScan.Connection.AtomicEntry` | scripts/gamma_scan.py:436-477 | a fault at any point leaves the committed tables untouched; otherwise exactly the one-step entry transaction is committed, and it raises on its own only where that step is undefined |
| `GammaScan.Connection.AtomicExit` | scripts/gamma_scan.py:549-589 | a fault leaves the committed tables untouched; otherwise ledger sale and log exit are committed together, whether or not the ledger insert was swallowed; it reports whether the log row was still unexited |
| `GammaScan.Connection.CloseLongTrade` | scripts/gamma_scan.py:835-843 | inserts unless the unique key is taken and, once the leg nets to 0, closes the contract's open and defended rows |
| `GammaScan.Connection.RecordRows` | scripts/gamma_scan.py:480-486 | one transaction: all rows that are not skipped, or none; none exactly when the database raises or a signal id is already logged or comes twice |
| `GammaScan.Connection.LogEntryError` | scripts/gamma_scan.py:489-497 | writes the audit row of a failed entry if it can and changes nothing else |
| `GammaScan.SelectEntries` | scripts/gamma_scan.py:424-433 | over any ranking, the chosen strike of each direction is the first of its direction in the ranking, and a direction with candidates is never left out |
| `GammaScan.TopOfIsFirst` | scripts/gamma_scan.py:431-433 | no strike of the direction is ranked before the chosen one; only an empty direction has none |
| `GammaScan.Connection.RunEntries` | scripts/gamma_scan.py:500-535 | every evaluated strike ends with exactly one log row whichever entry transactions fail (none only when its audit row failed too); the rows say why they were not filled; ledger and log stay in agreement; the count is the number filled. An abort leaves nothing if the first transaction raised, else the rows of all strikes but those of the direction it struck and of those not reached |
| `GammaScan.Connection.RunExits` | scripts/gamma_scan.py:592-644 | each order that goes through shows its exit on its row, a failed one leaves its row alone and hides no other, dry runs exit nothing, rows no order names keep their content |
| `GammaScan.Connection.RunScan` | scripts/gamma_scan.py:702-710 | a scan reads the open positions, runs entries, then exits: every evaluated strike is accounted for, also when the entries abort; exactly the positions open at the start whose order goes through, tried in turn up to a fatal fault, show their exit, the exit count is their number, and no other row changes |
| `GammaRows.ExitSells` | scripts/gamma_scan.py:549-589 | an exit raises on its own exactly without a contract or a lot; where the contract was not sold on that date the new last ledger row is the sale of this signal on the date of the exit, at the price decided on if positive and 0.05 otherwise; the log row shows the decided price either way, but an exit it shows already is not written over |
| `GammaRows.EntryOutcome` | scripts/gamma_scan.py:436-477 | an open or unflat direction is refused with that reason, a contract bought on that date is a duplicate, anything else is bought at the ask and filled now, each told from the tables alone |
| `GammaRows.EntryRaisesIff` | scripts/gamma_scan.py:447-463 | an entry raises on its own exactly when its signal is logged, or it would buy without a contract, a positive ask or a lot |
| `GammaRows.ScanSaysWhy` | scripts/gamma_scan.py:500-535 | over every ranking and every failure: the row of a strike that was not the best, met a dry run, or came after half past two says which of these it was, and a dry run goes before the hour |
| `GammaRows.FateSaysWhy` | scripts/gamma_scan.py:436-497 | what the row of a tried entry shows when it was bought, refused, a duplicate or failed |
| `GammaAgreement.EntryKeepsAgreement` | scripts/gamma_scan.py:436-477 | an entry keeps the agreement: fills and BUY rows correspond one to one with equal price, date, leg and a null reason, and at most one position per option type is open |
| `GammaAgreement.ExitKeepsAgreement` | scripts/gamma_scan.py:549-589 | an exit keeps the agreement although the result of the ledger insert is ignored |
| `GammaProtocol.StepKeepsInv` | scripts/gamma_scan.py:436-589 | begin, check, ledger write, log write, commit, abort, process start and process death each keep agreement and what a pending transaction promises |
| `GammaProtocol.NeverTwoOpenOfOneType` | scripts/gamma_scan.py:447-472 | under any interleaving of any number of scans, aborts and deaths anywhere and arbitrarily stale candidates, no committed state has two open positions of one option type |
| `GammaProtocol.LedgerAndLogAgree` | scripts/gamma_scan.py:447-473 | in every reachable state a row is filled if and only if its BUY row is committed, if and only if it has a fill price, if and only if it has a fill time; price and contract agree with the BUY row, the time by its date (a ledger row carries no more), and a fill has no unfilled reason |
| `GammaRows.HistoryIsKept` | scripts/gamma_scan.py:436-589 | from any reachable state on, under any interleaving: no row of either table is lost or rewritten, a ledger row is at most closed, a log row at most gains its one exit, and an exit once shown is final |
| `GammaProtocol.ScanNeverExitsItsEntries` | scripts/gamma_scan.py:702-710 | positions are read before entries run, so no scan exits a position it opened |
| `GammaSerial.LegNetsOverRuns` | scripts/gamma_scan.py:447-472 | with scans serialised, each leg's ledger net is 0, and then no position is open, or exactly the quantity of one BUY row of the leg: that of the open position if there is one; net and open position agree exactly when no contract of the leg was sold twice on one date |
| `GammaSerial.LegNetsZeroOrLot` | scripts/gamma_scan.py:447-472 | when every scan has the lot size L, each leg nets to 0 or L, and to L while a position is open |
| `GammaRows.SalesAgreeWithExits` | scripts/gamma_scan.py:561-589 | over all serialised runs: each SELL row is the only sale of a filled, exited signal, on the date of its exit, at its exit price or 0.05 where that is not positive, in its contract, of the quantity bought; and the contract of every exited signal was sold on the date of its exit |
| `GammaSerial.SurplusAbsorbs` | scripts/gamma_scan.py:561-589 | a surplus lot is absorbing: over every continuation the net stays, and every later entry of that direction is a refusal |
| `GammaSerial.NeverStaleFlatLegs` | scripts/gamma_scan.py:835-843 | in every reachable serialised state a contract with net 0 has no row still open or defended |
| `GammaSerial.NoReentryInAScan` | scripts/gamma_scan.py:702-710 | no scan enters a direction it also exits |
| `GammaSerial.SecondSaleOfADayStrands` | scripts/gamma_scan.py:574-585 | the input on which equality of ledger and log fails: a contract already sold on a date, bought and sold again on it, strands its lot |
| `GammaReach.EntryCommits` | scripts/gamma_scan.py:436-477 | the uninterrupted micro-steps of an entry commit exactly the one-step entry transaction |
| `GammaReach.ExitCommits` | scripts/gamma_scan.py:549-589 | the uninterrupted micro-steps of an exit commit exactly the one-step exit transaction and record the sale |
| `GammaReach.CarriedPositionSoldNextDay` | scripts/gamma_scan.py:785-789 | a run of labels from the empty database leads to a flat leg whose contract was sold today after one night: its next purchase is free, its next sale is taken |
| `GammaReach.SurplusIsReachable` | scripts/gamma_scan.py:574-585 | and on to a lot that no open position accounts for |
| `CondorRoll.RollIsSafe` | scratch/ic_repro/2026-08-24_git_head_ic_nifty_v2.py:780-1062 | a roll that passes the guards trades exactly the challenged vertical, is never wider than the old one, keeps the put short below the call short, and with a positive credit costs at most the capped fraction of it, where its net is what the BUY legs pay minus what the SELL legs collect |
| `CondorRoll.RollsIffGuardsPass` | scratch/ic_repro/2026-08-24_git_head_ic_nifty_v2.py:799-807 | a roll happens exactly when all seven documented guards pass and the old legs, strikes and new keys are known, whatever the order of testing |
| `CondorRoll.NoCreditNoCap` | scratch/ic_repro/2026-08-24_git_head_ic_nifty_v2.py:964-978 | with no credit recorded a roll of any debit passes: the cap needs the credit |
| `CondorGuards.BlockedByFirst` | scratch/ic_repro/2026-08-24_git_head_ic_nifty_v2.py:799-1026 | told from the inputs alone, ten conditions in the order of the code: a roll happens exactly when none holds, and a blocked one names the first that does |
| `CondorGuards.RollTradesAtQuotes` | scratch/ic_repro/2026-08-24_git_head_ic_nifty_v2.py:947-1062 | the old short and wing are traded at the chain's last price of their own contracts, the new ones at the last price of their own candidates, in the contracts of their strikes |
| `CondorGuards.StopNamesGuard` | scratch/ic_repro/2026-08-24_git_head_ic_nifty_v2.py:1853-1962 | at the roll level the tick's one event is the roll with the two legs it opens, or the full close that names the first guard to stop it |
| `CondorLadder.ActionsAreWhole` | scratch/ic_repro/2026-08-24_git_head_ic_nifty_v2.py:1319-1519 | at most one event a tick; every ACTION event names a full close, a roll or the Zone 2 lock, never a single spread |
| `CondorTicks.ExpiryForcesClose` | scratch/ic_repro/2026-08-24_git_head_ic_nifty_v2.py:1319-1353 | an open condor on its last day, or within its configured days, is closed whole before anything else, for the reason that applies; no other tick is closed for its expiry |
| `CondorDeltas.LargeDeltaForcesClose` | scratch/ic_repro/2026-08-24_git_head_ic_nifty_v2.py:1359-1430 | past the expiry levels, from the first short position and its chain delta d: d at or beyond the forced level on either side of zero, or at the roll level with the rolls used up, gives exactly one FORCED_CLOSE of the whole condor, put first, with its reason; nothing else gives one for a delta |
| `CondorDeltas.DeltaRollsOrWarns` | scratch/ic_repro/2026-08-24_git_head_ic_nifty_v2.py:1507-1519 | with no level before them firing, a delta as large as the roll level on either side of zero gives one roll or one full close, one as large as the warning level one warning, and a smaller one nothing |
| `CondorDeltas.DeepPutForcesClose` | scratch/ic_repro/2026-08-24_git_head_ic_nifty_v2.py:1359-1430 | a put short at delta -0.60 is closed for its extreme delta |
| `CondorTicks.ProfitDecides` | scratch/ic_repro/2026-08-24_git_head_ic_nifty_v2.py:1434-1505 | past expiry and hard deltas, in money: the profit target closes the condor, else the engine's Zone 2 answer closes it or locks its wings, else Zone 1 is told, each as the only event; and otherwise only rolls, stops and warnings are left |
| `CondorReadings.CreditLessMarkIsProfit` | scratch/ic_repro/2026-08-24_git_head_ic_nifty_v2.py:2326-2375 | there is a mark exactly when the chain has every leg, and entry credit less mark is the profit of the legs, each sold above what it is bought for |
| `CondorReadings.CreditIsSalesLessCosts` | scratch/ic_repro/2026-08-24_git_head_ic_nifty_v2.py:2326-2375 | the entry credit is what the shorts brought in less what the wings cost: the profit when every contract has become worthless |
| `CondorReadings.TargetIsRetainedFraction` | scratch/ic_repro/2026-08-24_git_head_ic_nifty_v2.py:1434-1460 | the profit target closes exactly when a positive credit, the stored one first, leaves at most the retained fraction of it to pay |
| `CondorReadings.ZonesAreSharesOfCredit` | scratch/ic_repro/2026-08-24_git_head_ic_nifty_v2.py:1521-1797 | Zone 2 from its share of the credit gained on, while not executed and both shorts are known; Zone 1 between the two shares, while the stored zone is below it |
| `CondorReadings.ZoneTwoRecords` | scratch/ic_repro/2026-08-24_git_head_ic_nifty_v2.py:1622-1690 | the lock an event carries: executed in zone 2, each side's distance to its own new wing in whole points, the debit added to the debit so far |
| `CondorReadings.ZoneTwoOpens` | scratch/ic_repro/2026-08-24_git_head_ic_nifty_v2.py:1655-1677 | one long wing a side, exactly where the engine chose one whose contract is known, bought at its last price; nothing else |
| `CondorReadings.WingClearsFloorsIff` | scratch/ic_repro/2026-08-24_git_head_ic_nifty_v2.py:414-523 | the wing near its target is taken exactly when its delta by size, mid-price and spread clear their floors, an empty book included |
| `CondorLadder.DocumentedReasonDiffersIff` | scratch/ic_repro/2026-08-24_git_head_ic_nifty_v2.py:1267-1276 | where the code's order differs from the documented one: exactly when the put has used up its rolls without being extreme while the call is extreme |
| `CondorLadder.EngineNeverSeesZone3` | scratch/ic_repro/2026-08-24_git_head_ic_nifty_v2.py:1462-1505 | below a closing zone no lower than the profit target, the profit-lock engine is never asked in that zone |
| `CondorSignals.IronCondor.EvaluateSignals` | scratch/ic_repro/2026-08-24_git_head_ic_nifty_v2.py:1249-1519 | for all inputs, missing deltas and marks included, the tick's events are those of the priority table; the roll counter moves with a signalled roll, Zone 1 is stored when it is signalled, nothing else changes |
| `CondorSignals.IronCondor.EvaluateAdjustment` | scratch/ic_repro/2026-08-24_git_head_ic_nifty_v2.py:594-778 | the loops over both sides give the threshold-by-threshold answer, and the side's counter is bumped exactly on a roll |
| `CondorSignals.IronCondor.CheckProfitLock` | scratch/ic_repro/2026-08-24_git_head_ic_nifty_v2.py:1521-1797 | gives the outcome of the Zone 2 level, else of the Zone 1 level, else nothing, and stores only Zone 1 |
| `CondorSignals.IronCondor.CombinedPnl` | scratch/ic_repro/2026-08-24_git_head_ic_nifty_v2.py:2326-2375 | the loop gives the signed sums over the condor's legs, and no mark at all as soon as one leg is missing from the chain |
| `CondorSignals.EvaluatorsAgreeIff` | scratch/ic_repro/2026-08-24_git_head_ic_nifty_v2.py:645-685 | the second evaluator forces a close only where the ladder does, and misses one exactly when the call's rolls are used up while the put may still roll and no delta is extreme |
| `CondorSignals.AdjustmentAfterHardLevels` | scratch/ic_repro/2026-08-24_git_head_ic_nifty_v2.py:1507-1516 | once levels 1 to 3 pass, the second evaluator never forces a close, the expiry and used-up guards are unreachable, and its answer is the ladder's roll or warning level |
| `CondorCycle.CycleStaysWithinLimits` | scratch/ic_repro/2026-08-24_git_head_ic_nifty_v2.py:574-590 | over every run of ticks after a reset, whichever actions are applied and stored: rolls per side within the cap, put short below call short, rolls together within rolls x cap fraction x credit, the stored lock zone never decreases; with rolls the only stored strike changes, no vertical wider than at entry |
| `CondorCycle.TurnKeepsWidths` | scratch/ic_repro/2026-08-24_git_head_ic_nifty_v2.py:842-1062 | every tick, stored or not, except a stored Zone 2 lock widens no vertical, whatever the chain offers |
| `CondorCycle.TurnKeepsOrder` | scratch/ic_repro/2026-08-24_git_head_ic_nifty_v2.py:842-1062 | one tick, stored or not, keeps the put short below the call short, Zone 2 locks included |
| `CondorWings.ZoneTwoWidthByDelta` | src/strategy/profit_lock_engine.py:349-391 | told by the deltas of the tick: a stored Zone 2 lock puts the wing outside or inside its short just as it has less or more delta than the short, reaches no farther exactly when the wing held has no more delta than the wing chosen, and of a vertical outside before and after the last holds of its width |
| `CondorWingExamples.ZoneTwoWidens` | src/strategy/profit_lock_engine.py:230-262 | a tick of the monthly configuration, within the floor formula, whose lock takes the put vertical from 100 to 200 points |
| `CondorWingExamples.ZoneTwoCrosses` | src/strategy/profit_lock_engine.py:226-262 | a tick whose wings the engine finds and allows, with a short call held down to 0.12: the lock takes the long call from 400 points above it to 200 below |
| `CondorWings.RollNeverCrosses` | scratch/ic_repro/2026-08-24_git_head_ic_nifty_v2.py:870-931 | with both candidates found by the one search over a chain whose deltas fall away, a roll that passes its guards never puts its wing inside the new short; it leaves no width, selling and buying one contract, exactly when the search finds the new short again as its wing |
| `CondorWings.CollapsesIff` | scratch/ic_repro/2026-08-24_git_head_ic_nifty_v2.py:873-916 | from the chain alone: the new short is its own wing exactly when it clears the wing floors, lies in the wing band and every other leg there has more delta, is farther from the wing target, or is as far and loses the tie |
| `CondorWings.RollsKeepWingOut` | scratch/ic_repro/2026-08-24_git_head_ic_nifty_v2.py:780-1062 | over every run whose stored strike changes are rolls, a wing that is not inside its short never gets inside; with bands that do not overlap, as on the monthly put side, one outside stays strictly outside |
| `CondorWingExamples.CallRollCollapses` | src/strategy/ic_expiry_config_v2.py:146-153 | a sparse call side in the monthly bands: the roll passes every guard, trades one contract both ways and pays 158 points |
| `StrikeSearch.FindStrikeByDelta` | src/strategy/roll_utils.py:16-65 | over any listed chain, missing legs, prices and deltas included: the first of the legs in the band that none is preferred to by distance, then open interest; nothing exactly when the band is empty |
| `StrikeSearch.FoundIsNearest` | src/strategy/roll_utils.py:16-65 | calls and puts alike, by the size of the delta: no eligible leg is nearer to the target than the leg found, none as near has more open interest, none listed before it as much; nothing is found exactly when no leg is eligible |
| `StrikeSearch.FoundIsUnique` | src/strategy/roll_utils.py:60-65 | that description has one answer |
| `CondorWings.WingPlaceOverRun` | src/strategy/profit_lock_engine.py:230-262 | over every run the last stored roll or lock that moved a wing tells whether it ends outside or inside its short, and only a lock puts it inside |
| `CondorCycle.WidthOverRun` | scratch/ic_repro/2026-08-24_git_head_ic_nifty_v2.py:1622-1677 | over every run a vertical is at most as wide as at the start or as the widest Zone 2 lock of the run left it |
| `CondorCycle.TurnKeepsLock` | scratch/ic_repro/2026-08-24_git_head_ic_nifty_v2.py:1763-1795 | one tick never lowers the lock zone and leaves an executed lock as it is |
| `CloseExecutor.BuildCloseTrades` | scratch/ic_repro/2026-08-24_git_head_ic_close_executor.py:70-191 | the loop, with its once-loaded master and once-fetched spot, gives one trade per leg at the specified price, or rejects all when a row is invalid |
| `ClosePrices.QuotedLegClosesAtQuote` | scratch/ic_repro/2026-08-24_git_head_ic_close_executor.py:100-113 | a leg with a positive quote is closed within half a cent of it |
| `ClosePrices.ExpiredLegClosesAtPayoff` | scratch/ic_repro/2026-08-24_git_head_ic_close_executor.py:114-160 | an unquoted leg that the first loaded master shows as expired: a call closes within half a cent of spot less strike where that is positive, a put of strike less spot, either at 0.05 where it is not |
| `ClosePrices.OtherLegClosesAtEntry` | scratch/ic_repro/2026-08-24_git_head_ic_close_executor.py:114-175 | any other unquoted leg closes at what it was entered for, a short at its sale average, a long at its cost average |
| `ClosePrices.ClosingTradeOpposes` | scratch/ic_repro/2026-08-24_git_head_ic_close_executor.py:176-191 | each closing trade is on the leg it closes, of its size and against it |
| `CloseExecutor.CloseIcLegs` | scratch/ic_repro/2026-08-24_git_head_ic_close_executor.py:194-258 | the ledger gains the closing batch or stays as it is; raises exactly when a row is invalid |
| `CloseExecutor.RollIcLegs` | scratch/ic_repro/2026-08-24_git_head_ic_close_executor.py:261-368 | close and open trades are offered in one batch or the ledger stays as it is; one unpriced open leg aborts the roll before anything is built |
| `ClosePrices.OpeningTradesFollow` | scratch/ic_repro/2026-08-24_git_head_ic_close_executor.py:326-339 | behind the closing trades one trade for each leg to open, with its contract, direction, size and price |
| `CloseExecutor.ClosingFlattensExactly` | scratch/ic_repro/2026-08-24_git_head_ic_close_executor.py:100-191 | over any position list the closed roles come out flat in every contract and all others keep what they hold |
| `CloseExecutor.SettlementNearIntrinsic` | scratch/ic_repro/2026-08-24_git_head_ic_close_executor.py:138-148 | expiry settlement is within 0.05 of max(intrinsic, 0) |
| `CloseExecutor.SettlementPricedIff` | scratch/ic_repro/2026-08-24_git_head_ic_close_executor.py:143-148 | the settlement is a price the trade model accepts unless the leg is in the money by at most half a cent |
| `CloseExecutor.QuotedSettlementIsPriced` | scratch/ic_repro/2026-08-24_git_head_ic_close_executor.py:143-148 | an index level and a strike quoted to two decimals always settle at a price the trade model accepts |
| `Rounding.HalfEvenIff` | scratch/ic_repro/2026-08-24_git_head_ic_close_executor.py:143-148 | quantising with the default context: the nearest integer, of two as near the even one, and no other |
| `CondorActions.ApplyAction` | scratch/ic_repro/2026-08-24_git_head_ic_nifty_v2.py:2013-2172 | whole new state of lock and ledger and the positions returned; the Zone 2 lock is stored before, and whatever becomes of, the trades; an unknown action is refused |
| `CondorReturned.ActionReturns` | scratch/ic_repro/2026-08-24_git_head_ic_nifty_v2.py:2165-2172 | the returned positions and the selected ones together are the positions given, each as often; returned are exactly those not in the newest contract of a closed role; after a closing action they hold what the ledger then holds, contract by contract |
| `CondorReturned.PositionForRoleIsNewest` | scratch/ic_repro/2026-08-24_git_head_ic_nifty_v2.py:111-127 | the contract an action closes in a role is that of the newest open position, the one listed first of several as new |
| `CondorReturned.AutoCloseLeaves` | scratch/ic_repro/2026-08-24_git_head_ic_nifty_v2.py:2090-2131 | an auto-executed close of a condor without overlapping roles leaves no leg of what it names, and the other side as it was after a spread close |
| `CondorReturned.StoredLockIsExecuted` | scratch/ic_repro/2026-08-24_git_head_ic_nifty_v2.py:2061-2077 | an auto-executed Zone 2 stores exactly the lock its event carried; what a payload leaves out is zero |
| `CondorActions.FullCloseFlattensIff` | scratch/ic_repro/2026-08-24_git_head_ic_nifty_v2.py:2090-2131 | a full close leaves no condor leg exactly when no role is held in two contracts |
| `CondorActions.RollLeavesOneLegIff` | scratch/ic_repro/2026-08-24_git_head_ic_nifty_v2.py:2090-2163 | a role ends a roll with one leg exactly when it is closed and reopened, or kept and not opened at another contract |
| `CondorActions.NoOneSidedCondor` | scratch/ic_repro/2026-08-24_git_head_ic_nifty_v2.py:2053-2163 | every ACTION event applied to a four-leg condor leaves no leg or one per role, exactly when a Zone 2 lock resolves both wings and a roll's approval names the right two legs |
| `CondorActions.DefaultApprovalBreaksRolls` | src/strategy/monitor.py:472-475 | the default of closing `short_put` breaks every roll to fresh contracts: a put roll keeps two wings, a call roll loses the short put |
| `CondorLedger.RoleStoredIff` | src/paper/store.py:687-727 | in the ledger after an action, rows with taken keys skipped, a role holds one leg exactly when its close and opening are both stored, or the close is not and nothing opens elsewhere; it is lost exactly when the close is stored and the opening is not |
| `CondorLedger.LedgerHoldsCondorIff` | src/paper/store.py:687-727 | the ledger then holds a whole condor exactly when every role does so |
| `CondorLedger.ReopeningSoldContractLosesRole` | scratch/ic_repro/2026-08-24_git_head_ic_close_executor.py:296-353 | a roll whose new short contract was already sold in that role on the date leaves the role empty |
| `CondorHistory.RollBackLosesRole` | src/paper/store.py:687-727 | a history that gets there: entry, full close, entry in other contracts and a roll back to the first short contract on one date, for all condors, prices and positions the store answers |
| `CondorHistory.RollBackHappens` | src/paper/store.py:687-727 | such a day happens for any two condors without a shared leg, with the positions the store then groups |
| `CondorActions.RollKeepsSizeIff` | scratch/ic_repro/2026-08-24_git_head_ic_close_executor.py:326-339 | a roll opens one unit, so the condor keeps equal sides exactly when it was one unit large |
| `CondorActions.AbortedZoneTwoIsNeverRetried` | scratch/ic_repro/2026-08-24_git_head_ic_nifty_v2.py:2061-2077 | after a Zone 2 lock that was applied and whose trades did not reach the ledger the lock is stored and the condor as before; over every run from there no tick emits a Zone 2 lock, and a long wing changes only by a stored roll of its side |
| `CondorCycle.UnappliedZoneTwoComesAgain` | scratch/ic_repro/2026-08-24_git_head_ic_nifty_v2.py:2053-2077 | a Zone 2 lock that is signalled and not applied changes nothing, and the same tick gives it again |
| `SignalPairing.PairingIsSoundIff` | scripts/signal_paper_report.py:113-163 | over every history without second or missing sales, with any number of purchase rows left by entries that stopped half way: the strict zip meets unequal lengths exactly while a position is half closed; every closed entry is paired with its own sale if and only if no entry took over a row behind, the entry of a position still open apart |
| `SignalPairing.StepKeepsOrderIff` | scripts/signal_paper_report.py:113-144 | the condition, visible before the step: the order of entries breaks exactly when an entry takes over an unowned purchase row while an entry of the same signal date has a larger trade id |
| `SignalLedger.ExitWritesOneSaleIff` | src/strategy/signal_track_v1.py:770-810 | the condition is exact: an exit keeps one sale row per entry exactly when it is proper (a retry on the date of its sale row, otherwise no repeat of a contract and date already sold) |
| `SignalCounts.ReportIsRightIff` | scripts/signal_paper_report.py:113-163 | over every history in date order, improper exits included: the lists differ in length by second sales, minus missing ones, plus the sale of a half closed position; the strict zip succeeds with every closed entry beside its own sale exactly when there was none of these and no entry took over a row behind |
| `SignalCounts.ImproperExitsCancel` | scripts/signal_paper_report.py:143-163 | unequal lengths do not stay: a second sale of one position and a missing one of the next, and the zip succeeds with a wrong pair |
| `SignalPairing.TakingOverBehindHappens` | scripts/signal_paper_report.py:123-144 | a history that meets the failing condition: an entry stops after its purchase row, another contract is bought and sold, the first is entered again on that date |
| `SignalReport.LoadClosedCycles` | scripts/signal_paper_report.py:143-163 | cycles pair entry and sale position by position; lengths that differ are an error |
| `SignalReport.ByRuleset` | scripts/signal_paper_report.py:179-183 | each occurring version gets exactly its cycles in order, no other version appears |
| `SignalReport.CohortTotalsAddUp` | scripts/signal_paper_report.py:179-183 | the cohorts' totals add up to the total of the whole track |
| `SignalReport.DrawdownAndStreak` | scripts/signal_paper_report.py:201-208 | the one-pass drawdown is the maximum over all i <= j of equity i minus equity j, and the streak is the length of the longest run of losses |
| `SignalReport.SortIsStable` | scripts/signal_paper_report.py:203 | cycles are taken in order of exit date, the same cycles, those of one date in their original order |
| `SignalReport.ComputeMetrics` | scripts/signal_paper_report.py:193-234 | every metric means what its name says over the cohort, win rates overall and by action and the two averages included, the drawdown and streak in exit order |
| `SignalCash.TotalIsCash` | scripts/signal_paper_report.py:113-163 | over every history in which the report is right: its total is what all sale rows bring in less what the sold quantities cost at the entries' premiums; and less what their purchase rows cost exactly as booked, when every step pays as it logs |
| `SignalCash.SquareIffPaid` | src/strategy/signal_track_v1.py:360-400 | over every clean history all logged premiums are the prices of their purchase rows and all sales of what was bought exactly when no entry took over a row with another price and no sale row was of another quantity, each visible before the step |
| `SignalCash.TakingOverMisprices` | src/paper/store.py:2186-2219 | for all prices, a history where it fails: an entry stops after its purchase row, is made again on that date at another price and sold; the report pairs rightly and its total is off by the difference |
| `SignalCash.CyclesAreRows` | scripts/signal_paper_report.py:113-163 | over every history in which the report is right each cycle is one purchase row and one later sale row of the same contract, bought on its signal date, with that sale row's price, date and quantity as its exit, and there are as many cycles as sale rows |
| `SignalCash.WinnersAreSoldAbovePremium` | scripts/signal_paper_report.py:193-208 | of cycles with a positive quantity the winners are those sold above their premium, the losers those sold below |
| `SignalGates.AveragesGiveBack` | scripts/signal_paper_report.py:193-234 | rates, averages and profit factor, multiplied back, give the counts and sums they were taken of |
| `SignalGates.ActionRatesGiveBack` | scripts/signal_paper_report.py:186-234 | every action that occurs has a win rate: the share of its cycles that gained |
| `SignalGates.StreakIsOfLosses` | scripts/signal_paper_report.py:201-208 | there is a streak exactly when a cycle was sold below its premium, and it is the whole cohort exactly when every cycle was |
| `SignalGates.GatesCountCycles` | scripts/signal_paper_report.py:301-341 | the window, exit-path, regime and overnight gates counted off the cycles: 40 of them, five ended by each of stop, target and time, one entered at a VIX above 18, none ended on another day |
| `SignalGates.MoneyGatesIff` | scripts/signal_paper_report.py:312-324 | G4 and G5 pass exactly when gains exceed losses, G6 exactly when there are losses and gains are at least 1.2 times them |
| `SignalReport.GatesImplyEachOther` | scripts/signal_paper_report.py:312-324 | total is gains minus losses, drawdown at most the losses, G4 if and only if G5, G6 implies both |
| `SignalReport.DrawdownGateIff` | scripts/signal_paper_report.py:325-329 | G8 passes exactly when there is a loser and drawdown times losers is at most 8 times the losses |
| `SignalReport.FewLosersPassDrawdown` | scripts/signal_paper_report.py:325-329 | 1 to 8 losing trades always pass G8, none always fails it |
| `SignalReport.EqualLossesPassIff` | scripts/signal_paper_report.py:325-329 | 8 is exact: k equal losses of any size pass G8 if and only if k is at most 8 |
| `ExpiryCalendar.OrdinalRoundTrip` | scratch/_lib/dhan_data_api.py:76-80 | a date comes back from its day number |
| `ExpiryCalendar.DateRoundTrip` | scratch/_lib/dhan_data_api.py:76-80 | a day number inside the calendar comes back from its date |
| `ExpiryCalendar.LastTuesdayIsExpiry` | scratch/_lib/dhan_data_api.py:76-80 | the computed date is the last Tuesday of the month, and fails to exist only from December of the last year on |
| `ExpiryCalendar.KnownTuesday` | scratch/_lib/dhan_data_api.py:76-80 | the calendar anchored: 25 August 2026 is a Tuesday a week before September |
| `ExpiryMonths.Months.LastTuesdayIsUnique` | scratch/_lib/dhan_data_api.py:76-80 | it is the only Tuesday of the month with no later Tuesday in it |
| `ExpiryMonths.Months.ExpiryGap` | scratch/_lib/dhan_data_api.py:76-80 | consecutive last Tuesdays are 28 or 35 days apart |
| `ExpiryCalendar.ExpiryFor` | scratch/_lib/dhan_data_api.py:83-93 | for every code, positive or not, the specified expiry, and an error exactly where the first Tuesday or the result of a weekly code, or the month of a monthly one, is outside the calendar |
| `ExpiryCalendar.ExpiryForIsKth` | scratch/_lib/dhan_data_api.py:83-93 | for every code k >= 1 the result is an expiry of its kind on or after the date with exactly k - 1 before it, and strictly increasing in k |
| `ExpiryCalendar.CodesBelowOne` | scratch/_lib/dhan_data_api.py:83-93 | a weekly code k below 1 is the Tuesday from which on there are exactly 1 - k Tuesdays before the date, a monthly one the near expiry |
| `ExpiryCalendar.ExpiryForIsMonotone` | scratch/_lib/dhan_data_api.py:83-93 | monotone in the date, and idempotent at k = 1 |
| `ImpliedVol.SolveIv` | scratch/chart_poc/2026-10-13_calendar_payoff_poc.py:57-65 | the loop returns the midpoint after 80 halvings |
| `ImpliedVol.SolverInterval` | scratch/chart_poc/2026-10-13_calendar_payoff_poc.py:58-65 | the final interval is exactly 1.99 / 2^80 wide and brackets the target if and only if the whole range does |
| `ImpliedVol.BracketKeptIff` | scratch/chart_poc/2026-10-13_calendar_payoff_poc.py:59-64 | each step keeps price(lo) <= target <= price(hi) and never makes a bracket of an interval that is none |
| `ImpliedVol.SolverAccuracy` | scratch/chart_poc/2026-10-13_calendar_payoff_poc.py:57-65 | prices cross the target within half an interval of the answer; an exact root is that close when the price rises strictly |
| `ImpliedVol.OutsideTheRange` | scratch/chart_poc/2026-10-13_calendar_payoff_poc.py:57-65 | a target outside the range sends the answer to the nearer end |
| `ReportText.TwoReplacesAreOneEscape` | scripts/signal_eod.py:468 | the two replaces in a row equal one escaping pass for every body |
| `ReportText.FenceRoundTrip` | scripts/signal_eod.py:466-469 | every body is read back whole from its fence, so no bare backtick can close it early |
| `ReportText.ReservedIsEscaped` | scratch/telegram_formats/2026-08-08_daily_snapshot_waterfall_format.py:274-276 | no reserved character is left without a backslash right before it |
| `ReportText.EscapeIsInjective` | scratch/telegram_formats/2026-08-08_daily_snapshot_waterfall_format.py:274-276 | no two texts are escaped alike |
| `ReportText.ShownAsWrittenIff` | scratch/telegram_formats/2026-08-08_daily_snapshot_waterfall_format.py:274-276 | a MarkdownV2 reader, for which a backslash escapes codes 1 to 126 and a bare reserved character is markup, shows the text as it was exactly when no backslash in it stands before such a code |
| `ReportText.MarkupLeftIff` | scratch/telegram_formats/2026-08-08_daily_snapshot_waterfall_format.py:274-276 | the reader meets markup, which the escape is there to prevent, exactly when a reserved character of the text follows an odd number of backslashes |
| `ReportText.BackslashLeavesMarkup` | scratch/telegram_formats/2026-08-08_daily_snapshot_waterfall_format.py:274-276 | the shortest such input: a backslash and an underscore |
| `ReportText.ExpectedValueIsMean` | scripts/signal_eod.py:329-338 | the expected value printed is the mean result of the executed trades |
| `IndianFormat.GroupIndian` | scratch/telegram_formats/2026-08-08_daily_snapshot_waterfall_format.py:55-65 | the loop joins the groups of the grouping function with commas |
| `IndianFormat.GroupingReadsBack` | scratch/telegram_formats/2026-08-08_daily_snapshot_waterfall_format.py:55-65 | splitting at the commas gives the Indian grouping, the only one of the digits (last group 3, others 2, first 1 or 2), and removing the commas gives the digits |
| `DecimalAmount.FmtInr` | scratch/telegram_formats/2026-08-08_daily_snapshot_waterfall_format.py:68-94 | gives the signed, grouped, padded text of the decimal taken into the 28-digit context, or an error exactly when quantising needs more digits than the context has |
| `IndianFormat.InrReadsBackIff` | scratch/telegram_formats/2026-08-08_daily_snapshot_waterfall_format.py:68-94 | the text of a magnitude and sign reads back as the rounded amount, except that above six decimals an amount below one millionth is printed in scientific notation and cannot be read |
| `IndianFormat.InrTextShape` | scratch/telegram_formats/2026-08-08_daily_snapshot_waterfall_format.py:68-94 | a minus sign exactly on negative amounts, a plus sign exactly where asked for otherwise, exactly the decimals asked for unless printed in scientific notation, spaces on the left up to the width |
| `DecimalAmount.DecimalWithinHalfUnitIff` | scratch/telegram_formats/2026-08-08_daily_snapshot_waterfall_format.py:68-94 | for every decimal that is printed, of any number of digits: it is read back within half a unit of its last shown decimal exactly when it is readable and the 28-digit rounding did not land half way with the exact amount on the far side |
| `DecimalAmount.AmountNearExact` | scratch/telegram_formats/2026-08-08_daily_snapshot_waterfall_format.py:68-94 | a longer decimal is moved by at most half a unit of its 28th digit before it is quantised |
| `DecimalAmount.LongDecimalRoundsTwice` | scratch/telegram_formats/2026-08-08_daily_snapshot_waterfall_format.py:68-94 | a 31-digit decimal below 1.5 that is rounded across: it is shown as 2 |
| `EodSummary.BuildEodSummary` | scripts/eod_summary.py:103-126 | figures are rounded first; an unmapped strategy, no rows and an unknown bucket are errors, the first unmapped one is named; otherwise the table and the net line of the rounded rows |
| `EodSummary.BuildStrategyTable` | src/notifications/formatting.py:559-640 | the nested loops give one section per bucket that has rows, in bucket order, total line above its members |
| `EodSummary.EachStrategyIsShown` | scripts/eod_summary.py:103-126 | every strategy of a message that is sent has its own line: its name, its floating and its booked result to the nearest rupee in their columns, and their sum |
| `Rounding.HalfUpIff` | src/notifications/formatting.py:540-556 | ROUND_HALF_UP: the nearest integer, of two as near the one farther from zero, and no other |
| `EodSummary.SectionFoots` | src/notifications/formatting.py:559-640 | a bucket's total line is the sum of the member lines below it, column by column |
| `EodSummary.SummaryFoots` | scripts/eod_summary.py:103-124 | every line's total is its two cells; bucket totals, member lines and the net line are one and the same sum |
| `EodSummary.NetWithinOnePerStrategy` | scripts/eod_summary.py:103-124 | the net line is within n rupees of the unrounded total of n strategies |

## Left out

- Broker, Telegram, HTTP, Parquet and process handling, command lines and logging: input and output only.
- Candidate evaluation, ranking, exit rules and the profit-lock engine's arithmetic: arbitrary functions or parameters here.
- Skips of a whole scan (holiday, no chain, no expiry near): they write nothing.
- Telemetry of a gamma scan (excursions, realised R, depth): copied through, no modelled decision reads it.
- SQLite beyond one write lock, unique keys and all-or-nothing commit.
- GammaSerial.LegNetsOverRuns: assumes the lot size does not change while a position is open and the resolver is deterministic, because the code sizes an exit by the current lot size.
- CondorCycle.CycleStaysWithinLimits: takes a Zone 2 roll that reaches the ledger to open both wings; the unresolved case is stated in CondorActions.NoOneSidedCondor.
- CondorCycle.CycleStaysWithinLimits: counts a roll when it is signalled, as the code does, and its debit when its trades reach the ledger.
- CondorWings.RollNeverCrosses: takes the known deltas of a chain to fall away from the money; a chain with stale or inverted deltas is not covered.
- CondorSignals.IronCondor.EvaluateSignals: a store whose profit-lock read or write raises is not modelled, the exception leaves the tick.
- CloseExecutor.RollIcLegs: a missing leg price and a price of 0 are the same value, since one guard rejects both.
- CondorActions.NoOneSidedCondor: speaks of the batch offered to the ledger; CondorLedger.LedgerHoldsCondorIff speaks of the rows stored, and there each role is opened at most once.
- Condor entry beyond its four rows, the counterfactual log and the notifications of the condor strategy.
- SignalPairing.PairingIsSoundIff: other writers of the strategy's rows are not modelled.
- Gates G9 and the reconciliation check and the report's layout: one-line readings of stored fields.
- ExpiryCalendar.ExpiryFor: takes the weekly and monthly branches as two methods; nothing of the loop is lost.
- ImpliedVol.SolveIv: exact reals; floating-point midpoints stop halving before the 80th step.
- ReportText.ExpectedValueIsMean: exact reals; the code takes the win rate through a float.
- Emoji, column widths and wording of messages; the digits of the summary's cells are kept as integers.
