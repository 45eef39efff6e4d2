# Trading engine: a verified model

A Dafny model of the parts of the repository that keep money, evidence and risk
straight, with proofs of what they promise. Money, prices and statistics are real
numbers; a quote that may be missing or not-a-number is an explicit option; a date is a
day number and a time is a minute.

How it is organised:

- **Ledger.** `Instruments`, `Costs`, `Ratios` and `Market` hold the typed models, the
  cost model, gcd arithmetic and everything priced from a snapshot. `LedgerModel` is the
  simulated broker as a state machine over values; `LedgerInvariant`, `OrderProperties`
  and `CollateralProperties` prove what every reachable state satisfies, and
  `OrderWitnesses` holds runs that show where those guarantees end. `MarketRules`,
  `Settlement` and `Postings` say from the inputs alone what is quoted, marked, paid at
  expiry and posted by a fill. `Broker` holds
  the class that mutates positions in place; every method is proved to take the step of
  the state machine that bears its name.
- **Record layers.** `DailyModel`, `DailySweep`, `DailyInvariant` and `DailyRuns` are the
  daily backtester's second book of open trades and records, proved to agree with the
  broker's cash over every run; `DailyExits` and `DailyRecords` say what every exit,
  entry, settlement and final record is; `Backtest` is the class. `IntradayModel`,
  `IntradayRuns`, `IntradayExits`, `IntradayMinutes` and `Intraday` are the same for the
  minute loop with its mandatory flatten.
- **Trial registry.** `RegistryModel` gives the line file, the hash chain, the sidecar and
  the writer as functions of bytes; `RegistryChain` proves tamper evidence,
  `RegistryWriter` that the incremental writer refines a full walk; `Registry` is the
  class, and `Welford` its one-pass variance. The hash and the record codec are
  parameters: of the hash only that it gives digests, and of the codec only that what it
  prints of a record that meets the schema is non-empty, has no newline and parses back.
  `RegistryWitness` shows that such a codec exists for every hash and payload schema.
- **Groups and sizing.** `Ordering`, `Components` and `Sizing`: union-find with path
  halving yields the connected components, and group-capped sizing respects them.
- **Order flow and fills.** `Microstructure` (tick rule, VPIN on an exact volume clock) and
  `ExecutionFills` (market, latent and limit orders).
- **Gates.** `Classifier` and `RegimeDefinitions` (point-in-time regimes), `RiskGate` and `RiskManager` (sizing
  composed with the ledger), `Symbology` (OSI symbols), `Promotion`, `Execution` and
  `Session` with `SessionTrail` (the evidence trail, the gated submit, the trading
  session).

What is true only under a condition. Where a tempting claim fails, the model keeps the
code, shows an input, and states the exact condition.

- A close without repeated legs fills exactly when the stored ratios have gcd 1
  (`CloseFillsIff`); a partial expiry can leave a position where they do not
  (`PartialExpiryStrands`).
- An order can raise equity: a close whose own legs, or whose held legs, repeat a
  (key, side) is matched by a dict that drops all but the last of them
  (`RepeatedOrderLegCreatesMoney`, `RepeatedHeldLegCreatesMoney`). It raises equity exactly
  when the dropped legs are worth more than the friction (`OrderMovesEquity`). Shares also
  need the two quote books to agree on the mid (`UnfairMarksCreateMoney`).
- Buying power after an accepted open is negative in exactly one case
  (`OpenKeepsBuyingPower`, `NegativeLossSlipsThrough`).
- Late revisions of a vol row and late bars of an earlier session change rows that were
  already known: `classify` removes repeated dates, and folds bars into days, before it
  filters by availability (`DedupThenFilterIff`, `GroupThenFilterIff`, with
  `RevisionInterferes` and `LateBarInterferes`). Its documentation speaks of input rows
  available before the open, which holds of the tidied rows.
- An entry that the record schema refuses, as the first of a writer, can leave that writer
  refusing every later append (`RecordsAllFittingIff`, `FreshRegistrySticks`).
- An unterminated registry file can be repaired by appending its newline, exactly when the
  rest of it continues the chain (`RepairedByNewlineIff`).
  The design notes of the registry promise that no public call silently accepts a mutated
  history; a completed read accepts whatever file fits a forged sidecar, so `TamperEvident`
  states it for one sidecar and up to a hash collision.

Outside calls become inputs: market snapshots, exit decisions, proposals, units granted
by a gate, broker answers, correlations, hashes and clocks are arbitrary parameters of a
run, so every theorem is about all of them.

Run `dafny verify dfyconfig.toml` to check the project.

## Model

| member | source | states |
|---|---|---|
| LedgerInvariant.Conservation | src/catalyst/brokers/simulated.py:151-262 | over any run of market updates, orders, synthetic closes and write-backs: cash = start + realised P&L of every position ever opened - basis of the open ones - commissions not charged by a synthetic close |
| LedgerInvariant.Reachable | src/catalyst/brokers/simulated.py:89-431 | every reachable state has increasing ids, well-formed positions, fresh marks wherever all legs are quotable, and exactly the reserves of the open credit structures; the stake is the starting cash |
| LedgerInvariant.StepKeeps | src/catalyst/brokers/simulated.py:89-431 | one step of any kind keeps the invariant and the stake |
| LedgerInvariant.AdvanceKeeps | src/catalyst/brokers/simulated.py:89-116 | marking and settling a whole book keep the invariant and the stake |
| LedgerInvariant.SettledStake | src/catalyst/brokers/simulated.py:159-225 | settling one position, in full or in part, moves cash, realised P&L and basis together |
| LedgerInvariant.SurvivorCarry | src/catalyst/brokers/simulated.py:209-225 | a part-expired position carries its original basis less exactly the cash it was paid |
| LedgerInvariant.PlaceKeeps | src/catalyst/brokers/simulated.py:315-431 | an order, filled or rejected, keeps the invariant and the stake |
| LedgerInvariant.OpenedPosition | src/catalyst/brokers/simulated.py:354-388 | the position an open creates carries minus its premium and holds exactly the reserve it needs |
| LedgerInvariant.ReserveShrinks | src/catalyst/brokers/simulated.py:227-235 | a proportional release leaves the reserve of the remaining units, to the cent |
| LedgerInvariant.ForceKeeps | src/catalyst/brokers/simulated.py:241-262 | a synthetic close keeps the invariant and the stake, its commission included |
| LedgerModel.SettledAtCases | src/catalyst/brokers/simulated.py:159-225 | what expiry does to one position in place: nothing, a retry later, full settlement or partial settlement |
| LedgerModel.TotalUpdate | src/catalyst/brokers/simulated.py:237-239 | how posting or releasing one reserve moves the total held |
| Ratios.ReducedIsExact | src/catalyst/brokers/simulated.py:360-372 | an open stores ratios with gcd 1 whose product with the units is every ordered quantity |
| Ratios.UnitsGreatest | src/catalyst/brokers/simulated.py:365 | the units of an order are divisible by every common divisor of its leg quantities |
| Ratios.UnitsScale | src/catalyst/brokers/simulated.py:365-372 | the units of a structure scaled u-fold are u times its own |
| Market.FairLegIsMarked | src/catalyst/brokers/simulated.py:118-134 | a leg marked at the mid of the book it fills from can be marked whenever it fills, at a non-negative distance, and at none under zeroed frictions |
| Market.FillSplits | src/catalyst/brokers/simulated.py:268-309 | the cash of a filled and marked leg is its mark less its distance from it |
| Market.OptionsAreFair | src/catalyst/brokers/simulated.py:118-134 | options are marked and filled from one book |
| Market.LiveLegsWellFormed | src/catalyst/brokers/simulated.py:221 | dropping expired legs keeps a structure valid and its multiplier, unless all expired |
| Market.ExpirySpotIsRemembered | src/catalyst/brokers/simulated.py:107-112 | the spot seen on an expiry day is the one its options settle at |
| Market.ExpirySpotSurvives | src/catalyst/brokers/simulated.py:107-112 | and it outlives a further session while fewer than four later dates are on record, whatever that session brings |
| Costs.OptionFillIsAdverse | src/catalyst/costs/model.py:62-115 | with a non-negative bid a leg is refused exactly on a crossed book, the better-than-NBBO assertion never fires, and the price is on the adverse side of the mid |
| Costs.EquityFillIsAdverse | src/catalyst/costs/model.py:117-131 | shares are refused exactly on an unusable quote and otherwise fill on the adverse side of the mid at no commission |
| Costs.NbboAssertionFiresIff | src/catalyst/costs/model.py:62-83 | for every configuration the assertion fires exactly on a sale into an uncrossed book whose mid is below minus the tolerance, or whose negative crossed price slippage above 100 % turns into one above the mid |
| Costs.ZeroedConfigIsTheTwin | src/catalyst/backtest/pipeline.py:63-75 | zeroed frictions price options like the frictionless twin: at the mid, free |
| Costs.FrictionOnlyHurts | src/catalyst/costs/model.py:94-115 | on one quote more of any friction never buys lower nor sells higher |
| Costs.OptionFillPays | src/catalyst/costs/model.py:94-115 | the price of an option leg from bid, ask and configuration alone: the mid moved by the spread fraction of the half spread, then by the proportional and the flat slippage, each against the trader, a sale never below zero; the commission is the rate per contract |
| Costs.ShareFillPays | src/catalyst/costs/model.py:117-131 | the same for shares, with slippage in basis points, no flat part and no commission |
| Costs.TwinFillPays | src/catalyst/costs/model.py:143-152 | the frictionless twin fills at the mid, free |
| MarketRules.QuotedBy | src/catalyst/brokers/simulated.py:118-134 | an option is quoted by the first contract of its chain with its key |
| MarketRules.MidIs | src/catalyst/brokers/simulated.py:118-134 | the mid of a leg from its quote, and exactly when there is none |
| MarketRules.FillsIff | src/catalyst/brokers/simulated.py:268-309 | exactly which legs the market can fill |
| MarketRules.PremiumIs | src/catalyst/brokers/simulated.py:311-336 | the premium of a fill is the multiplier times its sales less its purchases |
| MarketRules.MultiplierIs | src/catalyst/core/types/models.py:44-68 | a valid structure is all options at 100 dollars a point or all shares at 1 |
| MarketRules.MarkIs | src/catalyst/brokers/simulated.py:136-149 | a position is marked at the signed sum of its mids and its high water raised to that, or left alone when some leg has no mid |
| MarketRules.StaleCounted | src/catalyst/brokers/simulated.py:136-149 | a market update counts as stale exactly the positions that keep an old mark |
| MarketRules.SpotsAre | src/catalyst/brokers/simulated.py:107-112 | which spots are on record after an update: a positive one of today and the earlier ones, the five latest dates of them |
| Settlement.ExpiryPays | src/catalyst/brokers/simulated.py:151-225 | what expiry does to a position, from its legs and the spots alone: a fully expired one is paid the signed sum of what its calls and puts are worth, or its last mark without a spot, and leaves; a partly expired one is paid for its expired legs and keeps the others, or waits |
| Settlement.NothingDueStays | src/catalyst/brokers/simulated.py:151-225 | after a market update no position consists of expired legs alone, and an expired leg stays only for want of a spot |
| Settlement.BooksAfterUpdate | src/catalyst/brokers/simulated.py:89-116 | the books in force after a market update |
| Postings.OpenPosts | src/catalyst/brokers/simulated.py:338-394 | everything a filled open posts: cash, commission, reserve, stale count and the new position field by field |
| Postings.ClosePosts | src/catalyst/brokers/simulated.py:396-431 | everything a filled close posts, in full or in part |
| Postings.ForcePosts | src/catalyst/brokers/simulated.py:241-262 | everything a synthetic close posts, its telemetry included |
| OrderProperties.OpenFillsIff | src/catalyst/brokers/simulated.py:315-394 | exactly when an open fills |
| OrderProperties.MirrorsIffPermutation | src/catalyst/brokers/simulated.py:406-417 | for distinct legs the dict comparison accepts exactly the permutations of the inverted structure times the units |
| OrderProperties.MirrorsIffCollapsed | src/catalyst/brokers/simulated.py:410-413 | for any legs the dict comparison accepts exactly when the last legs per slot of the order are a permutation of those of the inverted structure times the units |
| OrderProperties.CollapseKeepsSlots | src/catalyst/brokers/simulated.py:410-412 | keeping the last leg of every slot gives distinct legs with the same dict |
| OrderProperties.DroppedIff | src/catalyst/brokers/simulated.py:410-412 | the dict drops nothing exactly when no slot is repeated |
| OrderProperties.AnyCloseFillsIff | src/catalyst/brokers/simulated.py:396-431 | the exact fill condition of a close for any legs, repeated or not |
| OrderProperties.CloseFillsIff | src/catalyst/brokers/simulated.py:396-431 | where no slot is repeated: a close of u units fills exactly when the market can fill it, the position is held with at least u units, its ratios have gcd 1 and the legs are the inverted ratios times u |
| OrderProperties.CloseTakesExactly | src/catalyst/brokers/simulated.py:418-431 | a filled close takes exactly its units out of its position and touches no other |
| OrderProperties.RejectionChangesNothing | src/catalyst/brokers/simulated.py:315-352 | a rejected order changes nothing but the order counter |
| OrderProperties.OpenCostsItsFriction | src/catalyst/brokers/simulated.py:315-394 | a filled open of legs that can be marked costs equity exactly its distance from the marks plus commission |
| OrderProperties.FilledFrictionIsFair | src/catalyst/brokers/simulated.py:268-313 | on fairly marked legs that friction is never negative, and zero under zeroed frictions |
| OrderProperties.CloseMovesEquity | src/catalyst/brokers/simulated.py:396-431 | the exact equity change of every accepted close of legs that can be marked, repeated or not: minus the friction, plus the worth of the order legs and held legs the dict drops |
| OrderProperties.CloseTradesMark | src/catalyst/brokers/simulated.py:396-431 | any accepted close trades the last mark of its units for their premium, less commission |
| OrderProperties.UnmarkedOpenCostsCommission | src/catalyst/brokers/simulated.py:366-382 | an open whose legs cannot all be marked is carried at its entry price and costs exactly its commission |
| OrderProperties.CloseCostsItsFriction | src/catalyst/brokers/simulated.py:396-431 | where neither the order nor the book repeats a leg, a close on fairly marked legs costs exactly its non-negative friction; CloseMovesEquity covers the rest |
| OrderProperties.NoOrderCreatesMoney | src/catalyst/brokers/simulated.py:268-431 | after any run whose opens repeat no leg, a filled order that repeats no leg itself, on fairly marked legs, costs exactly a non-negative friction, and nothing under zeroed frictions |
| OrderProperties.OrderMovesEquity | src/catalyst/brokers/simulated.py:268-431 | after any run at all, the exact equity change of a filled order: with marks for all its legs minus its friction plus the worth of the legs the dict drops; otherwise minus its commission, plus for a close its premium above the last mark of its units; it raises equity exactly when the gain exceeds the cost |
| OrderProperties.RunDistinct | src/catalyst/brokers/simulated.py:221 | runs whose opens repeat no leg never hold a structure with a repeated leg |
| OrderWitnesses.RepeatedHeldLegCreatesMoney | src/catalyst/brokers/simulated.py:410-417 | a run that shorts one call twice, and a close of one of them: filled, 100 dollars gained |
| OrderWitnesses.RepeatedOrderLegCreatesMoney | src/catalyst/brokers/simulated.py:402-431 | a run that holds one call, and a close that sells it twice: filled, 100 dollars gained |
| OrderWitnesses.UnfairMarksCreateMoney | src/catalyst/brokers/simulated.py:89-134 | a share bought from the fill book below its mark: equity rises |
| OrderWitnesses.PartialExpiryStrands | src/catalyst/brokers/simulated.py:209-225 | a run that opens ratios 1 and 2 and lets the near leg expire, after which no close order without repeated legs can fill |
| CollateralProperties.ReachableCollateral | src/catalyst/brokers/simulated.py:227-239 | in every reachable state a position holds a reserve exactly when it was opened for a net credit with a positive loss, the reserve is that loss times open units and multiplier, no reserve outlives its position, and buying power is cash less those losses |
| CollateralProperties.OpenKeepsBuyingPower | src/catalyst/brokers/simulated.py:338-381 | the exact buying power after an accepted open; it is negative only for a net credit with a negative declared loss on an account still below zero |
| OrderWitnesses.NegativeLossSlipsThrough | src/catalyst/brokers/simulated.py:346-352 | a run that ends at buying power -1400, and an order with a negative declared loss that still fills and leaves -1300 |
| CollateralProperties.SettlementMovesBuyingPower | src/catalyst/brokers/simulated.py:199-206 | full settlement moves buying power by the payout plus the freed reserve |
| CollateralProperties.SettlementCostsAtMostTheCredit | src/catalyst/brokers/simulated.py:199-206 | settling no worse than loss plus credit lowers buying power by at most the credit |
| Broker.SimulatedBroker.constructor | src/catalyst/brokers/simulated.py:47-87 | a new broker holds its cash and nothing else |
| Broker.SimulatedBroker.UpdateMarket | src/catalyst/brokers/simulated.py:89-116 | takes the market step of the ledger: new books, remembered spots, fresh marks, expiry |
| Broker.SimulatedBroker.MarkPosition | src/catalyst/brokers/simulated.py:136-149 | marks a position at the signed sum of its mids, or keeps the mark and counts it stale |
| Broker.SimulatedBroker.SettleExpired | src/catalyst/brokers/simulated.py:151-225 | settles every expired leg of the book in order, in place |
| Broker.SimulatedBroker.SettleAt | src/catalyst/brokers/simulated.py:159-225 | settles one position and reports whether it stayed |
| Broker.SimulatedBroker.LegFills | src/catalyst/brokers/simulated.py:268-309 | all modelled fills, or nothing exactly when some leg is unquotable |
| Broker.SimulatedBroker.PlaceOrder | src/catalyst/brokers/simulated.py:315-431 | takes the order step of the ledger and returns its outcome |
| Broker.SimulatedBroker.OpenPosition | src/catalyst/brokers/simulated.py:338-394 | takes the open step: collateral guard, reserve, position, cash |
| Broker.SimulatedBroker.ClosePosition | src/catalyst/brokers/simulated.py:396-431 | takes the close step: strict matching, cash, release, removal |
| Broker.SimulatedBroker.ReservedCollateral | src/catalyst/brokers/simulated.py:237-239 | the sum of the reserves |
| Broker.SimulatedBroker.ForceClose | src/catalyst/brokers/simulated.py:241-262 | takes the synthetic close step |
| Broker.SimulatedBroker.GetEquity | src/catalyst/brokers/simulated.py:445-454 | equity is cash plus the marks of the book |
| DailyRuns.RecordsReconcile | src/catalyst/backtest/backtester.py:331-490 | over any daily run final equity = start + P&L of all records + exactly the commissions finalisation added, nothing stays open, and no record lacked settlement telemetry |
| DailyRuns.TradesMirrorPositions | src/catalyst/backtest/backtester.py:60-75 | at every session end open trades and positions pair up, with max_qty - qty_closed the units held |
| DailyInvariant.AdvanceKeepsDesk | src/catalyst/backtest/backtester.py:390-434 | one market step and sweep keep records in step with the book and with cash, and never meet a missing settlement |
| DailySweep.TelemetryOf | src/catalyst/backtest/backtester.py:412-428 | the settlement dict holds the value at which each fully settled position was paid |
| DailySweep.HeldIffNotFull | src/catalyst/backtest/backtester.py:411-419 | a position is still live after settlement unless it settled in full |
| DailySweep.SettledFlow | src/catalyst/backtest/backtester.py:423-428 | the record of an expired trade is its flow plus what expiry paid |
| DailySweep.FoldedFlow | src/catalyst/backtest/backtester.py:402-407 | folding a partial settlement adds exactly the cash it moved |
| DailySweep.RecordIsConsistent | src/catalyst/backtest/backtester.py:460-490 | a record agrees with itself: exit price times units is the booked credit, and the P&L is the move from entry to exit less commissions |
| DailyRuns.ExitKeepsDesk | src/catalyst/backtest/backtester.py:331-388 | an exit keeps records, book and cash in step |
| DailyRuns.EnterKeepsDesk | src/catalyst/backtest/backtester.py:641-694 | an entry keeps records, book and cash in step |
| DailyRuns.FinalFlow | src/catalyst/backtest/backtester.py:443-458 | the record written at the end is the flow plus the mark less the added commission |
| DailyModel.ClosingUnitsRoundHalfUp | src/catalyst/backtest/backtester.py:341-347 | a scale-out closes the whole number nearest to the asked share, halves up |
| DailyExits.AskedIsClosed | src/catalyst/backtest/backtester.py:341-347 | the share an action asks for exists, is unique, is what the code computes and never exceeds the position |
| DailyExits.ExitCloses | src/catalyst/backtest/backtester.py:339-388 | one exit, from the position, the market and the share asked for: a share of nothing changes nothing, a refused order moves only the order counter, and a fill takes exactly that share from the position and books it, its price and its commission in the trade, records the trade exactly when nothing is left, and sets the first-target flag exactly on such an action |
| DailyExits.ExitsPass | src/catalyst/backtest/backtester.py:331-388 | the exits of a session treat every position as if it were the only one, in book order |
| DailyExits.EnterIs | src/catalyst/backtest/backtester.py:641-694 | an entry sends every leg times the granted units, and a fill opens one position of them and one trade at its price and commission |
| DailyExits.EnteredInOrder | src/catalyst/backtest/backtester.py:150-179 | every entry takes its turn, in order |
| DailyExits.SessionIs | src/catalyst/backtest/backtester.py:150-179 | a session is the market step, then the exits of every position held, then entries that only add |
| DailyExits.EverySession | src/catalyst/backtest/backtester.py:111-184 | the same for every session of a run |
| DailyRecords.SweepIs | src/catalyst/backtest/backtester.py:390-434 | the sweep, trade by trade: the trade of a fully settled position is recorded at the value it settled at, a partial settlement is credited for every unit held, every other trade stays |
| DailyRecords.MissingTelemetry | src/catalyst/backtest/backtester.py:429-434 | what would happen to a trade without settlement telemetry: it is counted and recorded at its entry |
| DailyRecords.FinalizeIs | src/catalyst/backtest/backtester.py:436-458 | at the end every position still held is recorded at its mark, less the commission rate on every one of its contracts, shares included |
| DailyRecords.RecordMadeIs | src/catalyst/backtest/backtester.py:460-490 | every field of a record: identity, average exit price over all units closed, and P&L as the move from entry to exit less all commissions |
| Backtest.Backtester.SweepSettled | src/catalyst/backtest/backtester.py:390-434 | sweeps in place: folds partial settlements, drains them, records what is gone |
| Backtest.Backtester.ProcessExits | src/catalyst/backtest/backtester.py:331-388 | processes the exits of a session in book order |
| Backtest.Backtester.ExitPosition | src/catalyst/backtest/backtester.py:339-388 | sizes, sends and books one exit |
| Backtest.Backtester.EnterProposal | src/catalyst/backtest/backtester.py:641-694 | sends one sized proposal and opens its trade state |
| Backtest.Backtester.FinalizeOpen | src/catalyst/backtest/backtester.py:436-458 | records every position still open |
| Backtest.Backtester.RunOneSession | src/catalyst/backtest/backtester.py:150-179 | one session: market, sweep, exits, entries |
| Backtest.Backtester.Run | src/catalyst/backtest/backtester.py:111-184 | the whole run, ending with every trade recorded |
| IntradayRuns.IntradayReconciles | src/catalyst/backtest/intraday.py:129-250 | over any number of sessions the book ends flat, every entry has exactly one record, and cash = start + P&L of all records, synthetic closes included |
| IntradayRuns.EveryMinute | src/catalyst/backtest/intraday.py:189-237 | at every minute the tags are exactly the broker positions, one per (strategy, symbol), cash and records agree; from the flatten time on nothing is held and the count of entries stays that of the minute before; and after the breaker, fired before or in an earlier minute, nothing is entered |
| IntradayRuns.MinuteKeeps | src/catalyst/backtest/intraday.py:189-237 | the same for one minute, whatever the market and the strategies do |
| IntradayRuns.CloseWholeKeeps | src/catalyst/backtest/intraday.py:417-476 | one close: refused and nothing moves, or the position leaves and its record carries the cash; a forced close never fails |
| IntradayRuns.WholeCloseFills | src/catalyst/backtest/intraday.py:430-440 | a whole close of an unexpired position is refused untouched or fills exactly its units |
| IntradayRuns.FlatKeeps | src/catalyst/backtest/intraday.py:408-415 | the flatten empties the book and the tags and keeps cash and records together |
| IntradayRuns.SendKeeps | src/catalyst/backtest/intraday.py:332-381 | an entry adds one tag for one position and its outlay |
| IntradayRuns.OpenedCommission | src/catalyst/backtest/intraday.py:400-406 | the entry commission the records recompute is the one the broker charged |
| IntradayRuns.UpdateOnlyMarks | src/catalyst/backtest/intraday.py:198-203 | within a session of unexpired legs a market update only re-marks |
| IntradayRuns.HaircutIsAdverse | src/catalyst/backtest/intraday.py:445-446 | the synthetic price never favours the holder, for marks of either sign, exactly when the haircut is at most one |
| IntradayExits.ClosesOrRefuses | src/catalyst/backtest/intraday.py:417-476 | a close that is not forced sells the whole position at the market with its record, exactly when the market can take it, and is otherwise counted as a retry and changes nothing else |
| IntradayExits.ForcedCloses | src/catalyst/backtest/intraday.py:417-476 | a forced close sells at the market where it can, and otherwise at the last mark moved against the holder, at the rate per option contract, counted as synthetic |
| IntradayExits.ExitsPass | src/catalyst/backtest/intraday.py:384-398 | the exits of a minute: every position whose rule fired is sold in one real fill, with its record, its tag gone, or counted for another try; every other stays as it is; nothing is synthetic |
| IntradayExits.LeftIs | src/catalyst/backtest/intraday.py:384-398 | who is sold: exactly the positions whose rule fired and which the market can take |
| IntradayExits.FlatPass | src/catalyst/backtest/intraday.py:408-415 | the flatten: one record for every position, one synthetic fill for each that the market cannot take, one count each |
| IntradayMinutes.MinuteBegins | src/catalyst/backtest/intraday.py:189-209 | a minute begins with its market, the positions re-marked, and the breaker on exactly when it was or when equity is at or below the halt level of the session open |
| IntradayMinutes.AttemptIs | src/catalyst/backtest/intraday.py:223-235 | one proposal: passed over when its strategy holds the symbol, blocked and counted when the breaker is on, otherwise sent for the granted units against its own chains |
| IntradayMinutes.AttemptsInOrder | src/catalyst/backtest/intraday.py:223-235 | every proposal of a minute takes its turn, in order |
| IntradayMinutes.MinuteIs | src/catalyst/backtest/intraday.py:189-237 | a whole minute: market and breaker, then before the flatten time exits and entries that only add, and from it on the flatten |
| IntradayMinutes.MinuteAt | src/catalyst/backtest/intraday.py:189-237 | every minute of a session falls on its grid and takes the state of the one before |
| IntradayMinutes.LoopEnds | src/catalyst/backtest/intraday.py:183-237 | the loop covers its grid to the end of the session |
| IntradayMinutes.SessionIs | src/catalyst/backtest/intraday.py:153-250 | a session with bars runs its minutes from an empty book against its opening equity, sees the market once more and flattens; one without bars does nothing |
| Intraday.IntradayBacktester.ClosePosition | src/catalyst/backtest/intraday.py:417-476 | closes one position whole, synthetically when forced |
| Intraday.IntradayBacktester.ProcessExits | src/catalyst/backtest/intraday.py:384-398 | closes what the exit rules hit; a tag goes only when the position left |
| Intraday.IntradayBacktester.FlattenAll | src/catalyst/backtest/intraday.py:408-415 | force-closes every position of the snapshot |
| Intraday.IntradayBacktester.Enter | src/catalyst/backtest/intraday.py:223-235 | admits at most one position per tag and none after the breaker |
| Intraday.IntradayBacktester.Send | src/catalyst/backtest/intraday.py:332-381 | sizes, sends and tags one entry |
| Intraday.IntradayBacktester.RunMinute | src/catalyst/backtest/intraday.py:189-237 | one decision minute |
| Intraday.IntradayBacktester.RunOneSession | src/catalyst/backtest/intraday.py:153-250 | the minute loop and the mandatory flatten |
| Intraday.IntradayBacktester.Run | src/catalyst/backtest/intraday.py:129-150 | all sessions |
| RegistryChain.TamperEvident | src/edge/research/registry.py:504-586 | two files accepted by completed reads under one sidecar are byte-identical, or two different lines at the same place share a hash |
| RegistryChain.TailDeterminesChain | src/edge/research/registry.py:521-550 | backward induction through prev_sha: equal tails mean equal chains, or a collision |
| RegistryChain.WalkAcceptsIff | src/edge/research/registry.py:504-550 | the walk accepts exactly the joins of newline-free lines that parse, link to the bytes before them from genesis on, and are numbered from one |
| RegistryChain.BrokenStaysBroken | src/edge/research/registry.py:504-550 | a newline-terminated file that fails the walk still fails whatever is appended |
| RegistryChain.UnterminatedIsRepairable | src/edge/research/registry.py:526-530 | without the final newline that is false: a lone line of any valid first record fails and passes once terminated |
| RegistryWriter.RepairedByNewlineIff | src/edge/research/registry.py:526-550 | a file without its final newline never verifies, and writing the newline repairs it exactly when its terminated lines verify and the rest is a record that continues them |
| RegistryChain.WalkedLines | src/edge/research/registry.py:521-550 | number, offset, length, hash and record of every line of a verified file |
| RegistryChain.ReadIff | src/edge/research/registry.py:552-586 | a read completes exactly on an empty file without a sidecar, or on the join of chained lines whose size, number and last hash the sidecar holds |
| RegistryWriter.WriterRefinesWalk | src/edge/research/registry.py:243-299 | from any readable registry any sequence of appends records exactly the entries that meet the schema, keeps every earlier record, numbers new ones by line, points duplicate_of at the first record with the hash, and leaves writer, duplicate map and sidecar equal to a full recomputation, unless the first entry breaks the schema beside a sidecar that does not describe the file |
| RegistryWriter.AppendSyncs | src/edge/research/registry.py:263-299 | the same for one append of an entry that meets the schema, cold or warm, with the exact new link |
| RegistryWriter.RefusedEntry | src/edge/research/registry.py:263-280 | an entry the schema refuses touches nothing on disk but warms a cold writer |
| RegistryWriter.RecordsAllFittingIff | src/edge/research/registry.py:263-299 | every entry that meets the schema is recorded exactly when there is none, or the sidecar describes the file, or the first entry meets the schema |
| RegistryWriter.RefusedFirstEntrySticks | src/edge/research/registry.py:606-625 | otherwise the warmed writer disagrees with the sidecar and refuses every later append as tampering |
| RegistryWriter.FreshRegistrySticks | src/edge/research/registry.py:614-618 | on a fresh registry one refused first entry is enough |
| RegistryWitness.SoundCodecExists | src/edge/research/registry.py:147-176 | whatever the hash and the payload schema, some codec that reads only what meets the schema satisfies the hypothesis of these results |
| RegistryWriter.WarmNeverRefuses | src/edge/research/registry.py:606-650 | after its own appends a warm writer passes its preflight |
| RegistryWriter.DupMapIsFirst | src/edge/research/registry.py:588-594 | the duplicate map holds the first id of every hash and nothing else |
| RegistryWriter.SyncedReads | src/edge/research/registry.py:552-586 | a synced registry passes a completed read, which sees every record |
| RegistryWriter.SlippedEditIsCaughtLater | src/edge/research/registry.py:88-91 | an edit that slips past one warm append leaves a file that every later read refuses |
| RegistryWriter.WarmFileIsCommitted | src/edge/research/registry.py:606-650 | a file that verifies and passes the warm preflight is the committed file, or shows a collision, or ends in a line longer than the committed last one and ending in it |
| RegistryWriter.WarmAppendTells | src/edge/research/registry.py:88-91 | whatever was done to the file under a warm writer, an append that goes through stands on the committed file, or a collision is at hand, or every later read refuses the file |
| RegistryWriter.RebuildCannotLaunder | src/edge/research/registry.py:301-329 | rebuild adopts a file exactly when its chain verifies, leaves it alone, and what it adopts then reads |
| RegistryWriter.MigrationKeepsRecords | src/edge/research/registry.py:331-399 | migration succeeds exactly on a non-empty, terminated file whose every line is an unchained object that meets the schema and is numbered by its line; the result verifies and reads with every record kept but for its link; otherwise nothing changes |
| Registry.TrialRegistry.WalkChain | src/edge/research/registry.py:504-550 | the streaming walk |
| Registry.TrialRegistry.VerifiedLinks | src/edge/research/registry.py:552-586 | a completed read |
| Registry.TrialRegistry.FullVerifyForWrite | src/edge/research/registry.py:588-604 | the cold writer state and duplicate map |
| Registry.TrialRegistry.VerifyWarm | src/edge/research/registry.py:606-650 | the warm preflight |
| Registry.TrialRegistry.CountNewlines | src/edge/research/registry.py:488-502 | the number of newline bytes |
| Registry.TrialRegistry.RecordTrial | src/edge/research/registry.py:243-299 | appends one chained trial, or refuses and leaves the disk alone |
| Registry.TrialRegistry.RebuildIndex | src/edge/research/registry.py:301-329 | recomputes the sidecar from a verified file |
| Registry.TrialRegistry.MigrateLegacy | src/edge/research/registry.py:331-399 | rewrites a legacy file with its chain |
| Registry.TrialRegistry.CumulativeTrialCount | src/edge/research/registry.py:401-409 | the number of verified trials |
| Registry.TrialRegistry.VarOfTrialSharpes | src/edge/research/registry.py:411-429 | the two-pass sample variance of the numeric Sharpes of a verified registry |
| Welford.Variance | src/edge/research/registry.py:411-429 | the one-pass loop computes the two-pass sample variance, skipping what is not numeric |
| Welford.WelfordStep | src/edge/research/registry.py:424-428 | one turn of the loop moves mean and squared deviations to those of one more value |
| Sizing.CorrelationGroups | src/edge/risk/sizing.py:97-150 | validates its arguments and otherwise returns exactly the connected components of the graph of pairs above the threshold, sorted, in order of first member |
| Sizing.GraphIs | src/edge/risk/sizing.py:141-145 | two columns are linked exactly when their correlation over the window is a number strictly above the threshold |
| Sizing.Forest.Find | src/edge/risk/sizing.py:135-139 | path halving terminates at the root and changes no representative |
| Sizing.Forest.Union | src/edge/risk/sizing.py:145 | everything under one root moves under the other and nothing else moves |
| Sizing.LinkAll | src/edge/risk/sizing.py:141-145 | after the pair loop two symbols share a representative exactly when a path joins them |
| Sizing.Buckets | src/edge/risk/sizing.py:147-149 | the dict of components: every symbol once, in the bucket of its root |
| Sizing.GroupsAreComponents | src/edge/risk/sizing.py:147-150 | sorted buckets in order of first member are the connected components |
| Components.ComponentsUnique | src/edge/risk/sizing.py:97-120 | there is only one list of groups with that property |
| Components.OneGroupEach | src/edge/risk/sizing.py:113-116 | no symbol is in two groups |
| Sizing.SizePositions | src/edge/risk/sizing.py:211-265 | refuses exactly the documented bad inputs, with the first error in order; otherwise every symbol, and nothing else, is sized: with mult * kelly * 100 percent when the sum of that over its correlation component is within the cap, else with that share of the cap; in dollars of equity; capped exactly above the cap; its sorted component as group |
| Sizing.SlotIsExact | src/edge/risk/sizing.py:252-264 | the size of one member of a group from equity, kelly, mult and cap |
| Sizing.GroupCap | src/edge/risk/sizing.py:249-264 | a group carries the lesser of its total before caps and the cap, nobody more than before caps, and capped marks exactly the groups above the cap |
| Sizing.GroupProportions | src/edge/risk/sizing.py:255-258 | capping keeps the proportions inside a group |
| Microstructure.TickRuleSigns | src/edge/features/microstructure.py:45-67 | the in-place running maximum and gather compute the recursion: the last non-zero tick, carried |
| Microstructure.AccumulateMaximum | src/edge/features/microstructure.py:58-59 | the running maximum turns marked indices into the index of the last non-zero tick |
| Microstructure.UnsignedIffUnmoved | src/edge/features/microstructure.py:48-50 | a print is unsigned exactly when the price has not moved since the start |
| Microstructure.SignOfLastMove | src/edge/features/microstructure.py:45-67 | a print is a buy exactly when the last move of the price was up, a sale exactly when it was down |
| Microstructure.SignsAreCausal | src/edge/features/microstructure.py:45-67 | later prints never change an earlier sign |
| Microstructure.ImbalanceRange | src/edge/features/microstructure.py:70-75 | signed imbalance lies in [-1, 1] |
| Microstructure.ImbalanceIsNet | src/edge/features/microstructure.py:70-75 | imbalance is what was bought less what was sold, as a share of all volume |
| Microstructure.InterpIsAllocation | src/edge/features/microstructure.py:103-108 | interpolating cumulative side volume at an edge is the print-by-print split at that edge |
| Microstructure.BucketsAreExact | src/edge/features/microstructure.py:83-110 | in every complete bucket both sides are non-negative and together exactly the bucket volume |
| Microstructure.VpinRange | src/edge/features/microstructure.py:78-111 | VPIN is a number exactly when the tape holds n whole buckets, and then lies in [0, 1] |
| Microstructure.VpinIsMeanNet | src/edge/features/microstructure.py:78-111 | VPIN from the prints: the mean size of the net volume of the last n complete buckets, as a share of the bucket volume |
| ExecutionFills.MarketableIsAttributed | src/edge/execution/costmodel.py:152-197 | a market order fills whole unless the quantity or the book is bad, on the adverse side of the mid, with spread plus slippage equal to the signed distance and no negative component |
| ExecutionFills.MarketablePays | src/edge/execution/costmodel.py:152-197 | the price, spread cost, slippage cost and commission of a market order from the quote and the configuration alone |
| ExecutionFills.FillsOffTheArrivalQuote | src/edge/execution/costmodel.py:203-236 | a latent order trades only on a quote of its own transit window, at that quote; the prices of the decision quote never matter; a negative latency and a quote from after the window raise, no quote or one from before the decision fills nothing |
| ExecutionFills.LimitFill | src/edge/execution/costmodel.py:242-312 | raises exactly on a bad argument or path, with the first error in order, and otherwise fills the lesser of the order and everything the crossing quotes offer, with exact status, price and costs |
| ExecutionFills.LimitTakes | src/edge/execution/costmodel.py:284-298 | what a limit order takes of each quote: nothing unless the quote crosses the limit, and then up to the size displayed on the other side, or one contract |
| ExecutionFills.LimitCosts | src/edge/execution/costmodel.py:284-312 | the spread cost of a limit fill, tranche by tranche, from the quotes it took |
| ExecutionFills.PathRefused | src/edge/execution/costmodel.py:272-283 | which quotes make a path unusable |
| ExecutionFills.LimitNeverBeatsMid | src/edge/execution/costmodel.py:283-292 | a crossing quote never lets a limit beat its mid |
| ExecutionFills.TrancheIsAdverse | src/edge/execution/costmodel.py:292-297 | every tranche is at its quote mid or on the adverse side |
| ExecutionFills.AdverseSelectionNonNegative | src/edge/execution/costmodel.py:293-297 | the spread cost of a limit fill is never negative |
| ExecutionFills.FillsAreMonotone | src/edge/execution/costmodel.py:242-312 | filled quantity grows with the aggressiveness of the limit, the length of the path and the size of the order |
| ExecutionFills.FillsIffCrossed | src/edge/execution/costmodel.py:283-291 | something fills exactly when some quote crosses the limit |
| Classifier.NonInterference | src/edge/regime/classifier.py:386-426 | with one vol row per date, inputs that agree on the vol rows and on the daily bars available before the open give the same row |
| Classifier.RawNonInterference | src/edge/regime/classifier.py:285-330 | where no day has both a usable and a not yet usable bar, agreement on the raw bars stamped before the open is enough |
| Classifier.GroupThenFilterIff | src/edge/regime/classifier.py:310-330 | grouping bars into days before filtering by availability is harmless exactly when no day has both |
| Classifier.LateBarInterferes | src/edge/regime/classifier.py:310-330 | one late-stamped bar of an earlier session removes the row that was known without it |
| Classifier.DedupThenFilterIff | src/edge/regime/classifier.py:247-268 | removing repeated dates before filtering by availability is harmless exactly when no date has a late revision |
| Classifier.RevisionInterferes | src/edge/regime/classifier.py:267 | a revision published after the open removes the row that was known before it |
| Classifier.StampIsHonest | src/edge/regime/classifier.py:405-411 | every row is stamped before its session opens and not before any input it used |
| Classifier.UsableBars | src/edge/regime/classifier.py:285-330 | the usable daily bars of a session depend only on raw bars of earlier sessions |
| Classifier.HistoryIsLast | src/edge/regime/classifier.py:266-268 | the tidied history is exactly the last row with a VIX of every date, by date |
| Classifier.PercentileRange | src/edge/regime/classifier.py:168-178 | the midrank percentile lies strictly between 0 and 100 |
| RegimeDefinitions.PercentileIsMidrank | src/edge/regime/classifier.py:168-178 | the percentile is the midrank: the number of values below the last one and the number at most it, averaged over the history |
| Classifier.ConstantIsMedian | src/edge/regime/classifier.py:63-65 | an all-constant history sits at the 50th percentile |
| Classifier.TrendDirection | src/edge/regime/classifier.py:192-210 | a trend points the way the close moved over the window; a history shorter than the window has none |
| Classifier.TrendIsLocal | src/edge/regime/classifier.py:192-210 | only the last 22 sessions decide the trend |
| RegimeDefinitions.TrendIs | src/edge/regime/classifier.py:192-210 | up exactly when the change of the close over 21 sessions exceeds the mean of their widest moves, down exactly when the fall does |
| RegimeDefinitions.DailyBarIs | src/edge/regime/classifier.py:285-330 | a session bar has the highest high, the lowest low and the latest stamp of its bars, a missing high or low degrading to the close, and the close of its latest bar |
| RegimeDefinitions.RowIs | src/edge/regime/classifier.py:351-426 | the row of a session from what is usable at its 9:30 open: state, bucket, percentile, trend and stamp |
| Classifier.LabelsAgree | src/edge/regime/classifier.py:181-217 | a low state never sits in a high-volatility bucket nor a high one in a low bucket, stress needs a usable inverted curve, and the bucket trends exactly when the trend does |
| Classifier.Classify | src/edge/regime/classifier.py:351-426 | the session loop over the tidied inputs; an inverted range raises |
| Classifier.RowsAreClassified | src/edge/regime/classifier.py:387-424 | the rows are exactly those RowFor gives the sessions in range that have a bar |
| Classifier.SessionHasRowIff | src/edge/regime/classifier.py:387-394 | a session has a row exactly when it is in range, its day has a bar, and a vol row and a daily bar were published before its open |
| Classifier.RowsAscend | src/edge/regime/classifier.py:387-424 | one row per session, in session order |
| Symbology.PrintThenParse | src/catalyst/core/symbology.py:31-75 | parsing inverts printing on every canonical key, padded (21 characters) or compact |
| Symbology.RoundTripIff | src/catalyst/core/symbology.py:31-75 | printing then parsing is the identity exactly on the canonical keys: root of the pattern, years 2000-2099, whole thousandths in range |
| Symbology.PrintIsInjective | src/catalyst/core/symbology.py:19-23 | no two canonical keys share a symbol, even with digits, C and P inside roots |
| Symbology.PrintedParts | src/catalyst/core/symbology.py:26-52 | a symbol character by character, and exactly when printing refuses |
| Symbology.LastDays | src/catalyst/core/symbology.py:62-76 | which dates a symbol can name: the days of each month, the 29th of February in leap years only |
| Symbology.ParseThenPrint | src/catalyst/core/symbology.py:62-75 | printing what was parsed gives the symbol back without spaces and final newline |
| Symbology.ParsedIsCanonical | src/catalyst/core/symbology.py:62-75 | whatever the parser accepts is canonical |
| RiskGate.GrantsIff | src/catalyst/risk/manager.py:129-218 | the gate grants n units exactly when the entry is eligible, n units fit every budget and n + 1 do not |
| RiskGate.FitsMeans | src/catalyst/risk/manager.py:165-205 | the four budgets in dollars, from the limits, the request and the account |
| RiskGate.RefusedFor | src/catalyst/risk/manager.py:141-218 | the reason of every refusal: the first check that fails; the last check of the code never does |
| RiskGate.GrantedEntryIsSafe | src/catalyst/risk/manager.py:165-218 | when a granted entry fills, risk deployed stays within the heat cap, a hedge keeps the hedge sleeve within its fraction, and if its all-in debit is within the buffered cash, cash stays above the floor |
| RiskGate.FixedFractionalIsGreatest | src/catalyst/risk/sizing.py:16-38 | the greatest whole number of units whose loss fits the risk budget, never negative |
| RiskGate.BreakerOffIff | src/catalyst/risk/manager.py:62-81 | the breakers let an entry through exactly when equity is above the halt level of the last mark before today and before this week |
| RiskGate.MarkTakesEffectNextDay | src/catalyst/risk/manager.py:48-81 | a recorded mark never touches the breakers of its own day or an earlier one, and is the daily reference of the next day |
| RiskGate.MondayIs | src/catalyst/risk/manager.py:74-76 | the weekly anchor is the last start of a week up to today |
| RiskGate.EntryFills | src/catalyst/risk/manager.py:178-181 | a filled entry of a reduced structure moves cash by its cash flow and deployed risk by its structural loss |
| RiskGate.AtRiskIs | src/catalyst/core/types/models.py:335-344 | what a position has at risk, and what of it the hedge sleeve counts |
| RiskGate.CorrelationLast | src/catalyst/risk/manager.py:206-214 | the correlation count matters only where every other check passed |
| RiskManagement.RiskManager.BreakerState | src/catalyst/risk/manager.py:62-81 | the breaker verdict on the recorded marks |
| RiskManagement.RiskManager.Correlation | src/catalyst/risk/manager.py:87-114 | the cached or measured correlation; what cannot be measured counts as one |
| RiskManagement.RiskManager.CountCorrelated | src/catalyst/risk/manager.py:116-123 | driver positions at or above the threshold; hedges do not count |
| RiskManagement.RiskManager.SizeEntry | src/catalyst/risk/manager.py:129-218 | the gate verdict on the live book, asking for correlations only when every other check has passed |
| RiskManagement.CacheOnlyGrows | src/catalyst/risk/manager.py:90-113 | asking never changes an answer already cached |
| RiskManagement.CacheStaysCurrent | src/catalyst/risk/manager.py:53-114 | every cached correlation was measured on the current history in its month, from the empty cache a new history starts with through every question asked |
| RiskManagement.PairKeyIs | src/catalyst/risk/manager.py:87-92 | a cached answer is shared by exactly the same two symbols in the same month |
| RiskManagement.CountIs | src/catalyst/risk/manager.py:116-123 | the count is the number of driver positions on the same underlying, at or above the threshold, or not measurable |
| Promotion.EligibleIff | src/catalyst/strategies/promotion.py:165-182 | a strategy is eligible exactly when its latest counted backtest passed on unchanged code and some paper session with a round trip was granted while validated, with no failing backtest since |
| Promotion.ValidatedIff | src/catalyst/strategies/promotion.py:104-133 | validated means the latest counted backtest passed; the stored hash is that of its code |
| Promotion.PaperTestedIff | src/catalyst/strategies/promotion.py:136-162 | the paper flag means a granted session with no failing backtest since |
| Promotion.ResearchIsInvisible | src/catalyst/strategies/promotion.py:113-120 | runs with overrides leave no trace |
| Promotion.PassingIff | src/catalyst/strategies/promotion.py:119 | a verdict passes exactly when it begins with CANDIDATE and nowhere says that the test segment is missing |
| Promotion.TrailGrows | src/catalyst/strategies/promotion.py:104-162 | what every event adds to the evidence trail, and the only fields it sets |
| Promotion.PromotionRecord.RecordBacktest | src/catalyst/strategies/promotion.py:104-133 | grants, withdraws and logs from a verdict |
| Promotion.PromotionRecord.RecordPaperSession | src/catalyst/strategies/promotion.py:136-162 | grants only with validation and a round trip, and logs either way |
| Session.SessionIsAccounted | src/catalyst/execution/session.py:64-128 | in every session, exceptions included, tracked positions plus round trips never exceed filled entries |
| Session.GrantedSessionTraded | src/catalyst/execution/session.py:16-17 | a session that earns the paper flag has seen a filled entry and a filled exit |
| SessionTrail.ExitsAre | src/catalyst/execution/session.py:101-116 | the exits of a cycle, position by position: a filled close is a round trip and untracks it, a vanished position is dropped, any other answer counts as rejected, and the first exception stops the cycle |
| SessionTrail.EntryIs | src/catalyst/execution/session.py:118-129 | one due catalyst: what counts as a proposal, what a fill, a rejection or an exception does, and when it is tracked |
| SessionTrail.EntriesInOrder | src/catalyst/execution/session.py:118-129 | due catalysts take their turns in order, up to the first that raises |
| SessionTrail.CycleIs | src/catalyst/execution/session.py:68-129 | a cycle is its exits and then, unless one raised, its entries; whatever raised is one error |
| SessionTrail.SessionBooks | src/catalyst/execution/session.py:64-128 | in every session entries filled are exactly the orders the broker filled, whatever is tracked is one of those, and every cycle and error is counted once |
| SessionTrail.RunsUntil | src/catalyst/execution/session.py:64-84 | the loop takes its cycles in order and stops exactly after the first that leaves nothing tracked with the kill switch on |
| Session.TradingSession.ProcessExits | src/catalyst/execution/session.py:99-115 | the exit half of a cycle, cut short where something raises |
| Session.TradingSession.ProcessEntries | src/catalyst/execution/session.py:117-128 | the entry half of a cycle |
| Session.TradingSession.RunCycle | src/catalyst/execution/session.py:68-77 | one cycle and the error it may leave |
| Session.TradingSession.Run | src/catalyst/execution/session.py:64-83 | the bounded loop and its early end |
| Execution.AcceptedOnlyOnce | src/catalyst/execution/engine.py:90-137 | no entry of a key is sent after one was answered ACCEPTED, and every order sent had passed kill switch, quote age and risk gate |
| Execution.InFlightIsRefused | src/catalyst/execution/engine.py:108-112 | while a key is in flight every further submission of it is refused unsent |
| Execution.SentIff | src/catalyst/execution/engine.py:90-137 | an entry is sent exactly when the switch is off, the quotes are fresh, units are granted, legs exist and no earlier order of its key was accepted |
| Execution.ExecutionEngine.Submit | src/catalyst/execution/engine.py:90-137 | the gated submit |

## Left out

- Floating-point rounding: money, prices and statistics are reals, so the source's 1e-9 tolerances are exact and infinite quotes do not occur.
- DailyRuns.RecordsReconcile: exit fractions are taken to be non-negative, as every exit rule's are; a negative one would ask for negative units.
- IntradayRuns.IntradayReconciles: for unexpired proposals and an engine commission equal to the cost model's, as configured from one profile.
- RiskGate.GrantedEntryIsSafe: the cash floor takes the fill's debit within the buffered cash as a hypothesis, since the validator that should tie the buffer to slippage sits after a return and never runs.
- Sizing.CorrelationGroups: column names are distinct, as in every frame built from a dict; the correlation values are an arbitrary relation.
- Registry.TrialRegistry.RecordTrial: reading, appending and replacing are single steps; crashes between the append and the sidecar and wall-clock stamps are not modelled, and what the schema asks of the payload is a parameter.
- RegistryModel: the lazy generator of `query` is a completed read; an abandoned iterator has checked only its prefix.
- Symbology.Parse: only ASCII digits and letters count; other Unicode digits and case mappings are not modelled.
- Classifier: instants are wall-clock minutes, so daylight-saving shifts are not modelled; missing columns and naive stamps raise in the source before any of this runs.
- RiskManagement.RiskManager.Correlation: the measurement from price history is an arbitrary function that may be undefined.
- Promotion: a corrupt record file is set aside and replaced by a fresh record in the source; histories here have no such reset. Timestamps and free-text details of the log are dropped.
- Session: catalyst selection, chain fetching and structure marks are inputs; waiting between cycles is dropped.
- Daily and intraday trade states: kept as values in a sequence or map field of the backtester object and replaced there, not as objects of their own; strategy references, timestamps and exit-reason strings are dropped.
- Position ids: the broker's order sequence number stands for its id string.
- Exit rules, strategies, the screener, the hedger and catalyst calendars: arbitrary inputs, each settled by reading one branch.
- Minute microstructure frame, default bucket volume, rolling intensity: the default bucket is the whole-session median and is not causal.
- Kelly fraction, single-position sizing and the daily loss halt of `src/edge/risk/sizing.py`: each is one guarded expression or one field.
- Broker and data adapters, reports, option pricing, smile fitting, bootstrap and Monte Carlo: input/output, formatting, transcendental functions or randomness.
