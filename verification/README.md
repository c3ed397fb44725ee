# Order book exchange: a verified model

This project models a price-time priority exchange and proves properties of it in Dafny 4.11: the
matching engine with its order book and order pool, the pre-trade risk checker, the server's message
handlers, the tape-replay harness and the agent simulation. `dafny verify dfyconfig.toml` checks all of
it.

## How it is built

There are two layers for the matching core.

- **The flat book** (`FlatBook`, `Sweeping`, `Market`, `Priority`, `Optimality`, `Equivalences`,
  `Ledger`, `Lifecycle`, `Statuses`, `Exchange`, `Answers`). Each side of a book is one list of resting orders, best first.
  Submitting matches against the head of the other list and then inserts what is left; cancelling
  removes by id; reducing changes one remaining quantity. Market properties are proved here, for every
  sequence of operations.
- **The objects** (`Levels`, `BookState`, `Submissions`, `ObjectPool`, `OrderBook`, `MatchingEngine`). The book holds
  the same facts four times: sorted price levels of first-in first-out lists, an id index, pool storage
  and a free list. An order is placed on its own side first, then swept, then rested or removed. Each
  method is proved to keep the four structures in agreement and to do exactly what the flat book does,
  so everything proved about flat books holds of the objects. A submission is also followed step by step
  on the four structures, down to the order of the free list.

The layers around the core are the risk ledger (`Risk`, `Server`), the replay (`Replay`,
`TapeCancels`), both wired to the engine object in `Harness`, and the simulation (`Agents`, `Maker`,
`TickModel`, `PositionLimit`, `Simulation`).

Main results:

1. On every run the book is uncrossed and in strict price-time order, and each accepted order fills
   exactly the smaller of its size and all crossing interest.
2. At every single trade of every run, nobody who rests on the side of either party has priority over
   that party.
3. A sweep is the best execution among all allocations of the same quantity over the opposite side.
4. Every share of every accepted order is traded, resting or shed; over all symbols, all buy fills and all
   sell fills add up to the engine's volume.
5. An IOC splits; an IOC is a limit order cancelled at once, down to the pool's free list; a market order
   is an IOC at the extreme price.
6. Symbols do not interfere; ids are never reused.
7. The levels, index, pool and matching loop refine the flat book, with no leaked or shared slot.
8. Replay through the risk gate is replay of a filtered tape; cancel rows are characterised exactly.
9. On every server run the engine sees exactly the cancels and the orders within the limits; the ledger
   always shows zero positions and twice the money traded; an engaged kill switch stops all trading.
10. Fills are credited to the resting owner only. On every run of the simulation the market maker's
    recorded position stays within plus or minus 1090, some runs reach both ends, and the documented limit
    of 1000 is kept exactly if position plus resting quote is within it.
11. The status of a resting order tells whether it traded on arrival, and nothing later.
12. Every answer is characterised: an id exactly for a valid order, success of a cancel exactly if shares
    rest, success of a reduction exactly if it asks for less than what rests.
13. A run of the simulation is a run of its agents' moves, in a fixed order, on the book those operations
    alone produce.

## Conventions

- A price is a whole number of units of 2^-1074, the smallest positive double, bounded by the largest
  finite double. Every finite double is such a number and comparisons agree. Money is computed exactly.
- A quantity is a 32-bit unsigned number; the type makes every subtraction prove that it cannot wrap
  around. Where the program adds in 32 bits (`TotalQuantity`, the replay volume) the wrap-around is
  modelled.
- A pool slot is identified by its position in the storage; a pointer is that position. A list iterator
  is represented by the slot in its node. A sorted map is a sorted list of levels, and its sortedness is
  part of the proved invariant.
- The trade callback is the list of trades delivered by the engine; handlers run over the trades of a
  submission before anything else happens, as they do in the program, and do not call the engine.
- Timestamps and latencies are dropped. Random draws, quoted prices and the momentum signal are inputs.

## Where the code and its comments differ

The model follows the code.

- Positions in the simulation are meant to be credited on both sides of a trade
  (include/simulation/Simulation.h:88-90). The owner of an incoming order is registered only after its
  fills were delivered (include/simulation/Trader.h:101-108), so the incoming leg is never credited:
  `PositionsNeedNotBalance` gives a run, `BalanceKeptIff` the exact condition for one order and
  `PositionsSumOnEveryRun` for whole runs.
- The market maker is meant never to hold more than 1000 shares (src/simulation/MarketMaker.cpp:14). The
  gate is tested before a quote of 100 is sent. Noise traders deal in lots of 10
  (src/simulation/NoiseTrader.cpp:24), so the recorded position goes up to 1090 and down to -1090, whatever
  prices are quoted, and no further (`ExtremeIsReached`, `EveryRunOfTheSimulation`). After a tick the others
  cannot take it past 1000 if and only if position plus resting quote is at most 1000 (`LimitKeptIff`,
  `LimitKeptIffOnEveryRun`). Against agents that may send any order at all the bound is 1099
  (`MakerStaysWithinCap`).
- The server means to keep the risk layer's positions current (src/main.cpp:31-36). Both legs go to the
  same symbol, so every position is 0 and the position rule is a size rule (`PositionRuleIsSizeRule`).
- `filled_qty` is described as the shares filled so far (include/core/Order.h:54-55). After a reduction it
  also counts the shares given up: `ReducedCountsAsFilled` gives a run, `FilledQtyCountsReductions` the exact
  condition.
- A cancel row of a tape whose id was refused by the risk check addresses whatever engine order has that
  number (`RefusedIdCancelsAnother`); `CancelIsSafeIff` says exactly when a cancel row is safe.
- `PartiallyFilled` is described as some shares matched and the rest on the book
  (include/core/Types.h:41-44). Only an incoming order is ever given that status: `PartlyFilledYetAccepted`
  gives a run with a partly filled order marked `Accepted`, `StatusTellsArrival` says what the status does
  tell, and `StatusAgreesIff` when it agrees with the fill.

## Model

| member | source | states |
|---|---|---|
| Sweeping.SweepTrades | src/core/MatchingEngine.cpp:150-183 | trade k of a sweep is with the k-th opposite order, at that order's price, never beyond its remaining quantity, and every trade but the last exhausts its order |
| Sweeping.SweepRest | src/core/MatchingEngine.cpp:150-183 | a sweep leaves exactly the untouched orders, plus the last one touched with less remaining if it was not exhausted; a taker with quantity left faces nothing it crosses |
| Sweeping.SweepVolume | src/core/MatchingEngine.cpp:213-222 | what the taker has left plus the traded volume is what it came with, and nothing else about it changes |
| Sweeping.SweepInPriorityOrder | src/core/MatchingEngine.cpp:150-183 | within one submission prices never improve for the taker, ids rise within a price, no resting order trades twice, and prices respect the taker's limit |
| Sweeping.SweepFillsMaximally | src/core/MatchingEngine.cpp:150-183 | over a sorted side a sweep fills the smaller of its size and all crossing interest |
| Sweeping.SweepBounded | src/core/MatchingEngine.cpp:150-183 | the loop makes at most one trade per crossing order |
| Market.InsertKeepsSide | src/core/OrderBook.cpp:21-45 | a new order, having the newest id, goes behind all equal or better prices and keeps the side in strict price-time order |
| Market.SubmitKeepsMarket | src/core/MatchingEngine.cpp:33-106 | a submission keeps the book uncrossed, sorted and made of live limit orders with unique ids |
| Market.CancelKeepsMarket | src/core/OrderBook.cpp:58-89 | so does a cancel |
| Market.ReduceKeepsMarket | src/core/OrderBook.cpp:100-115 | so does a reduction, which keeps queue position |
| Market.RunKeepsMarket | src/core/MatchingEngine.cpp:33-120 | the invariant holds after every run of submissions, cancels and reductions |
| Market.EverySubmitFillsMaximally | src/core/MatchingEngine.cpp:47-96 | on every run an accepted order gets the next id and fills exactly the smaller of its size and all crossing interest |
| Priority.TapeRebuildsSide | src/core/MatchingEngine.cpp:174-183 | applying the trades one by one to the opposite side, each hits the head of what is left, and all of them rebuild the side the sweep leaves |
| Priority.ArrivalIsFirst | src/core/MatchingEngine.cpp:162-172 | an order that trades on arrival is strictly better priced than everything resting on its own side |
| Priority.NobodyIsPassedOver | src/core/MatchingEngine.cpp:150-183 | at the instant of any trade, no resting order on the side of either party has priority over that party |
| Priority.PriorityOnEveryRun | src/core/MatchingEngine.cpp:123-183 | the same for every trade of every run, whatever was cancelled or reduced before |
| Optimality.FrontIsOptimal | src/core/MatchingEngine.cpp:150-183 | exchange argument: taking from the front costs no more than any allocation of the same size |
| Optimality.SweepIsOptimal | src/core/MatchingEngine.cpp:142-193 | a buy pays the least and a sell receives the most among all ways of taking its filled quantity from the opposite side, and its own fills are one of those ways |
| Optimality.BestExecutionOnEveryRun | src/core/MatchingEngine.cpp:142-193 | the same for every submission of every run |
| Equivalences.SweepSplits | src/core/MatchingEngine.cpp:150-183 | sweeping q1 + q2 leaves the same side, takes the same shares from every order and moves the same money as sweeping q1 and then q2 |
| Equivalences.IocSplits | src/core/MatchingEngine.cpp:88-95 | an IOC of q1 + q2 equals two IOCs of q1 and q2 up to the id counter |
| Equivalences.IocIsLimitThenCancel | src/core/MatchingEngine.cpp:83-95 | an IOC gives the answer and trades of a limit order and leaves the book that order would leave if cancelled at once |
| Submissions.IocPoolIsLimitThenCancel | src/core/MatchingEngine.cpp:68-95 | on the four structures an IOC leaves the levels, index, free list, counter and storage that a limit order leaves if cancelled at once; only the order's own slot, free and next to be handed out, may differ in kind and status |
| Equivalences.MarketIsIocAtExtreme | src/core/MatchingEngine.cpp:58-66 | a market order is an IOC at the extreme price, and that price crosses every resting order |
| Ledger.SweepMovesShares | src/core/MatchingEngine.cpp:213-222 | shares leave a resting order exactly as the tape says |
| Ledger.StepConserves | src/core/MatchingEngine.cpp:68-95 | one operation moves the shares of an order between entered, resting, traded and shed, one for one |
| Ledger.EntersOnce | src/core/MatchingEngine.cpp:68-69 | all that ever enters under an id is the quantity of the accepted order that was answered with it |
| Ledger.EveryShareAccountedFor | src/core/MatchingEngine.cpp:68-120 | on every run the quantity of every accepted order is its traded, resting and shed shares |
| Ledger.FilledQtyCountsReductions | include/core/Order.h:54-58 | filled_qty of a resting order is traded plus reduced quantity, hence the traded quantity exactly if it was never reduced |
| Ledger.ReducedCountsAsFilled | src/core/OrderBook.cpp:100-115 | a run on which an order reduced from 10 to 4 has filled_qty 6 and has traded nothing |
| Ledger.BuysEqualSellsEqualVolume | src/core/MatchingEngine.cpp:73-81 | on every engine run the fills of all buy orders of all symbols, and of all sell orders, add up to the engine's total volume |
| Statuses.StatusTellsArrival | src/core/MatchingEngine.cpp:185-190 | on every run a resting order is PartiallyFilled exactly if it traded in the call that issued its id, and Accepted otherwise |
| Statuses.StatusAgreesIff | include/core/Types.h:41-44 | its status agrees with some but not all being filled if and only if it traded on arrival or has neither traded nor been reduced since |
| Statuses.PartlyFilledYetAccepted | include/core/Types.h:41-44 | a run that leaves a partly filled resting order marked Accepted |
| Lifecycle.OnlyIssuedIdsAppear | src/core/OrderBook.cpp:25-25 | an id resting after a call rested before or was issued by it |
| Lifecycle.DepartedStaysGone | src/core/OrderBook.cpp:58-89 | an issued id that no longer rests never rests again on any run |
| Lifecycle.IdsIncrease | include/core/OrderBook.h:155-157 | ids are handed out in strictly increasing order over a run |
| Answers.SubmitAnswers | src/core/MatchingEngine.cpp:47-56 | a submission gets an id, the next one, if and only if it has a quantity and, as a limit order, a positive price; otherwise nothing trades and the book is unchanged |
| Answers.CancelAnswers | src/core/OrderBook.cpp:58-89 | a cancel succeeds if and only if shares of the order rest; the book then lacks that order and is otherwise the same |
| Answers.ReduceAnswers | src/core/OrderBook.cpp:100-115 | a reduction succeeds if and only if it asks for less than what rests; the order then has that quantity and its place in the queue, or is gone at zero; otherwise nothing changes |
| Answers.DepartedCancelFails | src/core/OrderBook.cpp:60-63 | on every engine run, once an issued order has left its book every later cancel of it fails and changes neither book nor statistics |
| Answers.CancelSucceedsOnce | src/core/OrderBook.cpp:60-63 | after a successful cancel every later cancel of the same order fails |
| Levels.PushIsInsert | src/core/OrderBook.cpp:27-42 | appending to the level of a price, created if needed, is inserting into the flat side |
| Levels.PushKeepsWf | src/core/OrderBook.cpp:27-42 | it keeps levels strictly sorted, non-empty, of one price each and in order of arrival |
| Levels.EraseIsDrop | src/core/OrderBook.cpp:71-82 | erasing a node and cleaning up its level removes exactly that slot from the side |
| Levels.EraseKeepsWf | src/core/OrderBook.cpp:208-220 | it keeps the side well formed, with no empty level |
| BookState.LookupFinds | src/core/OrderBook.cpp:58-69 | the index has an id exactly if the order rests, and leads to that order |
| BookState.AddRefinesInsert | src/core/OrderBook.cpp:21-45 | updating levels, index and pool for a new order keeps them in agreement and inserts it into the flat book |
| BookState.RemoveRefinesCancel | src/core/OrderBook.cpp:120-135 | taking an order out of all four structures keeps them in agreement and is a cancel on the flat book |
| BookState.WriteRefinesPut | src/core/MatchingEngine.cpp:220-222 | writing through an order pointer keeps the structures in agreement and changes just that entry of the flat book |
| BookState.ActiveSlotsAreResting | include/core/ObjectPool.h:69-71 | active pool slots, index entries and resting orders are equally many: no leak and no shared slot |
| ObjectPools.ObjectPool.constructor | include/core/ObjectPool.h:38-44 | all initial slots exist and are free, each listed once |
| ObjectPools.ObjectPool.Acquire | include/core/ObjectPool.h:52-61 | hands out a free slot, last freed first, or a new one at the end; slots handed out keep address and contents |
| ObjectPools.ObjectPool.Release | include/core/ObjectPool.h:65-67 | a slot handed out becomes the next to be handed out |
| ObjectPools.ObjectPool.ActiveCount | include/core/ObjectPool.h:69-71 | the number of slots not on the free list, without wrap-around |
| OrderBooks.OrderBook.constructor | src/core/OrderBook.cpp:5-8 | a new book is valid and stands for the empty flat book |
| OrderBooks.OrderBook.AddOrder | src/core/OrderBook.cpp:21-45 | keeps the structures valid and inserts the order, with the next id, into its flat side |
| OrderBooks.OrderBook.CleanupPriceLevel | src/core/OrderBook.cpp:208-220 | the levels left are all the old ones except an empty one at the price, in price order; the other side is untouched |
| OrderBooks.OrderBook.Unlink | src/core/OrderBook.cpp:71-86 | removes an indexed order from level, index and pool: a cancel on the flat book |
| OrderBooks.OrderBook.CancelOrder | src/core/OrderBook.cpp:58-89 | succeeds if and only if the id is indexed; answer and resulting book are those of the flat cancel, and the slot goes to the end of the free list |
| OrderBooks.OrderBook.ReduceOrder | src/core/OrderBook.cpp:100-115 | succeeds if and only if the id is indexed and its order has more left; answer and resulting book are those of the flat reduction, and a refusal changes nothing |
| OrderBooks.OrderBook.RemoveOrder | src/core/OrderBook.cpp:120-135 | takes out an indexed order and ignores one that is not |
| OrderBooks.OrderBook.BestLevel | src/core/OrderBook.cpp:191-199 | there is no level exactly if the side is empty; otherwise the front of the level is the best order |
| OrderBooks.OrderBook.OrderCount | include/core/OrderBook.h:100-101 | counts the resting orders, as many as the active pool slots |
| OrderBooks.OrderBook.TotalQuantity | src/core/OrderBook.cpp:167-185 | the resting shares of a side modulo 2^32 |
| MatchingEngines.MatchingEngine.GetOrderBook | src/core/MatchingEngine.cpp:17-20 | returns the symbol's book, creating an empty one only on first mention; other books are untouched |
| MatchingEngines.MatchingEngine.ExecuteMatch | src/core/MatchingEngine.cpp:213-241 | both orders lose the smaller remaining quantity and the trade names them at the resting price |
| MatchingEngines.MatchingEngine.RetireIfFilled | src/core/MatchingEngine.cpp:178-182 | an exhausted best order leaves all four structures and the flat side loses its head; any other order stays |
| MatchingEngines.MatchingEngine.MatchOnce | src/core/MatchingEngine.cpp:159-183 | one turn of the loop is one step of the flat sweep and one turn on the four structures |
| MatchingEngines.MatchingEngine.MatchOrder | src/core/MatchingEngine.cpp:142-193 | the loop ends and yields the trades, the opposite side and the settled taker of the flat sweep |
| MatchingEngines.MatchingEngine.PlaceAndMatch | src/core/MatchingEngine.cpp:68-71 | placing before matching gives the sweep of the original book, with the order in its place on its own side |
| MatchingEngines.MatchingEngine.DeliverTrades | src/core/MatchingEngine.cpp:73-81 | counts and volume grow by the trades, which reach the callback in order |
| MatchingEngines.MatchingEngine.FinishOrder | src/core/MatchingEngine.cpp:83-96 | only the remainder of a limit order stays; otherwise the side is what it was before the order was placed |
| MatchingEngines.MatchingEngine.SubmitInto | src/core/MatchingEngine.cpp:68-96 | a book's part of a submission is the flat submission, and leaves the four structures, free list included, as the step-by-step definition says |
| MatchingEngines.MatchingEngine.SubmitOrder | src/core/MatchingEngine.cpp:33-106 | id, trades, books and statistics are those of one step of the venue over flat books; an id is given if and only if there is a quantity and, for a limit order, a positive price |
| MatchingEngines.MatchingEngine.CancelOrder | src/core/MatchingEngine.cpp:111-120 | succeeds if and only if the order rests on that symbol's book; books and statistics are those of the venue's cancel, also for an unknown symbol |
| MatchingEngines.MatchingEngine.ReduceOrder | src/core/OrderBook.cpp:100-115 | reducing through the book of a symbol is the venue's reduction, and succeeds if and only if the order rests with more left |
| Exchange.SymbolsAreIndependent | src/core/MatchingEngine.cpp:17-20 | for any interleaving, one symbol's answers, ids, trades and final book are those of its own calls alone |
| Exchange.EveryBookKeepsMarket | src/core/MatchingEngine.cpp:33-120 | every book of every engine run satisfies the market invariant |
| Exchange.StatsDescribeRun | src/core/MatchingEngine.cpp:41-81 | on every run the counters equal the submissions, rejections, successful cancels, trades, volume and money of the calls |
| Risk.Verdict | src/risk/RiskChecker.cpp:24-82 | the answer is the first broken rule in the documented order, or none if no rule is broken |
| Risk.PassesIff | src/risk/RiskChecker.cpp:24-82 | an order passes if and only if the switch is off and size, price, money, projected position and exposure are within the limits |
| Risk.RiskChecker.Check | src/risk/RiskChecker.cpp:24-82 | the same in terms of the checker's fields, with the exact condition of each reason; only the counters change, and stay balanced |
| Risk.CountersTally | include/risk/RiskChecker.h:55-64 | after any sequence of answers each counter is the number of answers of its kind, under the declared numbering |
| Risk.RiskChecker.OnFill | src/risk/RiskChecker.cpp:84-89 | adds a bought and subtracts a sold quantity from one symbol's position, adds the money to the exposure and leaves other symbols alone |
| Risk.RiskChecker.Reject | include/risk/RiskChecker.h:55-64 | one more rejection under one reason; checks remain passes plus rejections and reasons add up |
| Server.HandleKeepsLedger | src/main.cpp:33-36 | every message keeps all positions at zero and exposure at twice the money traded, and exposure never falls |
| Server.ServerLedger | src/main.cpp:33-36 | the same on every server run from a fresh start |
| Server.PositionRuleIsSizeRule | src/risk/RiskChecker.cpp:60-68 | on every server run the position rule is broken exactly if the order is larger than the position limit |
| Server.ExposureRejectionIsFinal | src/risk/RiskChecker.cpp:70-78 | after an exposure rejection every later priced order of at least that money is rejected |
| Server.EngineSeesOnlyWhatPasses | src/network/TcpServer.cpp:135-158 | on every server run the engine's books, tape and counters are those of the cancels and of the tickets within the limits alone; it counts one order for each such ticket and rejects none |
| Server.KillSwitchHalts | src/risk/RiskChecker.cpp:30-33 | from the moment the kill switch is engaged until it is released no order reaches the engine and nothing trades |
| Harness.ServerFront.FeedRisk | src/main.cpp:33-36 | books both legs of every trade, in order |
| Harness.ServerFront.HandleNewOrder | src/network/TcpServer.cpp:135-162 | a refused order is answered with 0 and leaves engine and risk ledger as they were; an accepted one is submitted, answered with the engine's id, and its fills are booked |
| Harness.ServerFront.HandleCancel | src/network/TcpServer.cpp:169-180 | a cancel goes to the engine unchecked, is answered with success if and only if the order rests, and leaves the risk ledger alone |
| Harness.ServerFront.SetKillSwitch | include/risk/RiskChecker.h:82-84 | flips the switch that the first rule reads and nothing else |
| Replay.GateIsAFilter | src/replay/ReplayHarness.cpp:97-154 | replaying through the gate gives the trades, books and id map of replaying, ungated, the tape without the rows that fail a fixed test |
| Replay.ReportMatchesEngine | src/replay/ReplayHarness.cpp:94-168 | new rows are refused or submitted; reported trades and money are the engine's change, reported volume is it modulo 2^32 |
| Replay.ReportCountsRows | src/replay/ReplayHarness.cpp:112-141 | the report counts the new rows, the cancel rows and the new rows turned away |
| Replay.ReplayIsEngineRun | src/replay/ReplayHarness.cpp:112-154 | a replay is the engine run of its rows: each row that passes with its own fields, each cancel with the mapped id or the raw number |
| Harness.ReplayHarness.CountTrades | src/replay/ReplayHarness.cpp:97-107 | the callback counts every trade, with a 32-bit volume |
| Harness.ReplayHarness.NewRow | src/replay/ReplayHarness.cpp:115-139 | a new row is gated, submitted, counted and mapped as the row definition says, and leaves the gate's state alone |
| Harness.ReplayHarness.CancelRow | src/replay/ReplayHarness.cpp:140-154 | a cancel row addresses the mapped id or the raw number |
| Harness.ReplayHarness.ReplayTape | src/replay/ReplayHarness.cpp:86-180 | for every tape the engine and the report end where the row-by-row definition ends |
| TapeCancels.TraceIsReplay | src/replay/ReplayHarness.cpp:112-155 | the history used below follows the replay |
| TapeCancels.CancelHitsItsRow | src/replay/ReplayHarness.cpp:138-149 | a cancel naming an entered row of its symbol removes exactly the order of the latest such row if it rests, and otherwise changes no book |
| TapeCancels.CancelIsSafeIff | src/replay/ReplayHarness.cpp:143-149 | with distinct non-zero tape ids, a cancel row takes out nothing but the order it names if and only if its target does not rest or an earlier row with its id and symbol got past the gate; the engine may hold other orders from the start |
| TapeCancels.RefusedIdCancelsAnother | src/replay/ReplayHarness.cpp:120-146 | a tape on which cancelling a refused row takes another row's order off the book |
| Agents.EachTradeCreditedOnce | src/simulation/Simulation.cpp:62-77 | on every run the fills received by all agents grow by exactly one per logged trade |
| Agents.FillsGoToResting | src/simulation/Simulation.cpp:62-77 | the trades of a taker move each agent's position by the fills of its own resting orders and by nothing else |
| Agents.SendMovesRestingOwners | include/simulation/Trader.h:101-108 | the same for a submission by any agent: the submitter's own leg is credited to nobody |
| Agents.PositionIsPassiveNet | src/simulation/Simulation.cpp:62-77 | on every run an agent's recorded position is the net of its resting fills |
| Agents.TotalsOnEveryRun | include/simulation/Trader.h:71-80 | on every run an agent's cash moves by the money of its resting fills, in for sales and out for purchases, and its fills, orders and cancels are counted one by one |
| Agents.OwnerIsSender | src/simulation/Simulation.cpp:29-33 | on every run the order issued to a move belongs to the agent that made it, for good |
| Agents.AgentsRunTheMarket | src/simulation/Simulation.cpp:62-77 | whoever sends what, the book is that of the operations alone and the log is their trades in order |
| Agents.AggressorHasNoPosition | src/simulation/MomentumTrader.cpp:49-59 | an agent that sends only market or IOC orders keeps its recorded position on every run |
| Agents.BalanceKeptIff | include/simulation/Simulation.h:88-90 | a submission keeps the sum of recorded positions if and only if the order does not trade, which is visible beforehand |
| Agents.PositionsSumOnEveryRun | src/simulation/Simulation.cpp:62-77 | on every run the sum of recorded positions moves by shares sold minus shares bought by incoming orders, so it is kept if and only if these are equal |
| Agents.PositionsNeedNotBalance | include/simulation/Trader.h:101-108 | a run of two orders after which recorded positions sum to -1 |
| Maker.SendMovesStakes | include/simulation/Trader.h:71-80 | a submission by anybody moves shares between the maker's resting quotes and its position one for one |
| Maker.PullKeepsDesk | src/simulation/MarketMaker.cpp:43-51 | after the two cancels the maker has no order on either side and the position it had |
| Maker.TickKeepsDesk | src/simulation/MarketMaker.cpp:42-90 | a tick keeps at most one live quote per side and position plus resting quote within the cap, for any prices |
| Maker.TickSends | src/simulation/MarketMaker.cpp:42-90 | with positive prices, bid below ask: live quotes are cancelled, a bid is sent if and only if the position is below 1000, an ask if and only if it is above -1000, and the tick does not move the position |
| Maker.MakerStaysWithinCap | src/simulation/MarketMaker.cpp:42-90 | whatever the other agents submit, cancel or reduce, the recorded position stays within plus or minus 1099 |
| TickModel.SendLots | src/simulation/NoiseTrader.cpp:24-24 | a submission in whole lots keeps every resting quantity and every recorded position in whole lots |
| TickModel.EveryRunOfTheSimulation | src/simulation/Simulation.cpp:88-108 | on every run of the simulation quantities and positions are in whole lots, the maker is within plus or minus 1090 and the momentum trader's recorded position is 0 |
| TickModel.MomentumGate | src/simulation/MomentumTrader.cpp:49-59 | a rising signal buys 50 at market below 500, a falling one sells 50 above -500, anything else sends nothing |
| TickModel.MomentumFollows | src/simulation/MomentumTrader.cpp:49-59 | with a recorded position of 0, which it has on every run, every signal is followed |
| TickModel.SimulationIsMoves | src/simulation/Simulation.cpp:88-108 | every run of the simulation is the run of its moves, agents acting in a fixed order; fills are counted once per logged trade and positions add up to shares sold minus bought by incoming orders |
| PositionLimit.TickUnwinds | src/simulation/MarketMaker.cpp:78-89 | at or past the limit, on a book with only the maker's quotes, a tick leaves exactly one quote of 100 on the side that unwinds |
| PositionLimit.OthersKeepReach | src/simulation/MarketMaker.cpp:76-89 | whatever the other agents do, the maker's position plus its resting quote does not grow, on either side |
| PositionLimit.LimitKeptIff | src/simulation/MarketMaker.cpp:14-14 | the other agents cannot take the position past 1000 if and only if position plus resting quote is at most 1000, long and short |
| PositionLimit.LimitKeptIffOnEveryRun | src/simulation/MarketMaker.cpp:76-89 | the same after the maker's tick on every run of the simulation, with the others restricted to orders noise traders draw |
| PositionLimit.ExtremeIsReached | src/simulation/NoiseTrader.cpp:16-40 | for any positive quotes with the bid below the ask there are draws that take the position to 1090, and others that take it to -1090 |
| Simulation.Simulator.RouteTrade | src/simulation/Simulation.cpp:62-77 | logs a trade and credits each leg whose owner is registered |
| Simulation.Simulator.SendOrder | include/simulation/Trader.h:101-108 | engine and agents end as the agent model says: fills are routed before the owner is registered |
| Simulation.Simulator.SendCancel | include/simulation/Trader.h:111-114 | counts the cancel, takes the order off the book and succeeds if and only if it rests |
| Simulation.Simulator.MakerOnTick | src/simulation/MarketMaker.cpp:42-90 | the tick on the objects is the tick of the agent model; a bid is live afterwards if and only if the position was below 1000, an ask if and only if above -1000 |
| Simulation.Simulator.MomentumOnTick | src/simulation/MomentumTrader.cpp:49-59 | sends market orders only, behind its position gate, and follows every signal while its recorded position is 0 |
| Simulation.Simulator.RunTicks | src/simulation/Simulation.cpp:88-108 | the tick loop ends where the agent model ends, and from a fresh start the maker is within plus or minus 1090 |

## Left out

- Sockets, threads and the accept loop: calls are atomic steps, as the engine's mutex makes them.
- Wire message layouts: fixed structures without logic.
- Latency timing, timestamps and the latency histogram: a wrapper over a library.
- File reading and number parsing of tapes, including the 15-character symbol limit: a tape is a sequence of rows.
- Rounding of doubles, NaN and infinities: prices and money are exact.
- Wrap-around of 64-bit counters, ids and positions: they are unbounded.
- Orders added directly through the book that `get_order_book` hands out, and ids burnt by `next_order_id`: runs consist of submissions, cancels and reductions.
- `reset_stats`, `set_limits` and the kill switch inside a replay: a replay or server run keeps its limits.
- LimitKeptIffOnEveryRun: allows any number of noise orders before the maker's next tick, where the program lets each of three noise traders send at most one; ExtremeIsReached keeps to the program's own ticks.
- IocIsLimitThenCancel: compares flat books; the pool is compared by IocPoolIsLimitThenCancel.
- Best price, spread, mid price and depth accessors: easy reads of the best level.
- The random walk, the maker's price formula and the momentum trader's window, threshold and cooldown: inputs of the model. The noise traders' draws are inputs within the bounds the code gives them.
- Profit and loss, and starting cash: an agent's cash is relative to its start.
- Callbacks that call the engine again: they would block on the engine's mutex.
