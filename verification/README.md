# Verified model of the quantaTrader order book and its hash table

This project models the two hardest parts of quantaTrader in Dafny and proves what they promise:

* the re-entrant limit order book (`PriceLevelOrderBook` with `Level` and `Order`), where deleting a
  filled order activates stop orders, which are matched, which deletes further orders, all while an
  incoming order is still being matched;
* the Robin Hood hash table behind the id index (`detail::Table`), with its packed info bytes, backward
  shifting, overflow buffer, byte-halving and rehashing.

`dafny verify dfyconfig.toml` checks everything.

## The order book

| file | contents |
|---|---|
| `Orders.dfy` | the order record, its enumerations, and the prices orders are compared with |
| `Exchange.dfy` | the reference exchange: a flat set of orders and a log of events, each legal only if price-time priority, the price limits and the stop prices allow it; theorems over all runs |
| `Waiting.dfy` | stop orders over a run: parked, repriced, triggered only when due |
| `Quiescence.dfy` | how activation ends, and when the code as written leaves no stop buy due |
| `GreedyFill.dfy` | what matching one order amounts to when nothing is activated meanwhile |
| `Levels.dfy` | price levels with cached volumes, the id index, and how the two agree |
| `BookState.dfy` | how index and levels mirror the exchange, step by step |
| `Repricing.dfy` | moving the trailing stop orders of one side |
| `Trailing.dfy` | the thresholds of trailing orders, and when such an order keeps its stop price |
| `Handling.dfy` | what becomes of an incoming order, fill-or-kill above all |
| `QuietBook.dfy` | quiet stop orders as the levels show them |
| `Absorption.dfy` | one activation followed to its end |
| `Arrivals.dfy` | what adding, modifying, cancelling and executing an order amount to |
| `Outcomes.dfy` | where an order is when an operation returns, and where the trailing orders are |
| `OrderBook.dfy` | the class `PriceLevelOrderBook`, method by method |
| `Departures.dfy` | runs in which the book falls short of what its comments promise |
| `FallingStop.dfy` | one more: the stop price of a trailing sell falls |

The class keeps a ghost `log` of events and a ghost `exchange` state. Its invariant `Rep` says that the
log replays on the reference exchange, that it ends in `exchange`, and that index, levels, stop prices and
last traded price agree with it. `Rep` holds at every nested call, not only between public operations. What
is proved about logs that replay (never crossed, price-time priority, conservation, stop orders triggered
only when due) therefore holds for every run of the book, nested activations included. Methods of the class
are proved to terminate: the set of waiting stop orders shrinks with every activation, and each round of
matching lowers the open quantity of the incoming order.

A waiting order's ticket holds its stop price and, if it trails, its distance. It may be parked only if it
is not due, only a `Reprice` event changes the stop price of trailing orders, to what the last price calls
for, and `Trigger` names the quote by which the order was due, which must be one since it was parked; the order
must be the foremost of those that wait on its side, trailing or not like itself. A
nested call may only extend the log by `Internal` events: trades, triggered and repriced stop orders,
incoming orders that rest or leave, and withdrawals of filled orders. `Extends` says so in the contracts.

Where the code departs from its comments the model has both forms. `Variant(advancing, bothFlags)`
selects them and `AS_WRITTEN` is `Variant(false, false)`:

* `advancing`: the fill-or-kill scan (`src/matching/price_level_order_book.cpp:489-496` and `502-509`)
  moves on to the next level. As written it does not, and answers whether the best opposite level
  crosses. If nothing is due when the order comes in, and nothing is activated while it is matched
  (`Handling.Undisturbed`: no order trails, and no waiting order is due at a price the order could trade
  at), the order is filled completely or nothing happens with the advancing scan, and as written exactly
  if enough crosses it or nothing does (`Arrivals.FillOrKillArrives`). `Departures.FillOrKillHalf` is a run
  of the book as written that fails. When stop orders are activated in between, fill-or-kill fails in
  both forms, since they may take what the check has counted (`Departures.FillOrKillDisturbed`).
* `bothFlags`: the flag of the buy pass is kept (`src/matching/price_level_order_book.cpp:360-362`). As
  written the sell pass overwrites it, so that a stop buy may be due when an operation returns. Stop
  sells are quiet in both forms. With the repair stop buys are quiet too. As written they are quiet if no
  stop buy was due when the last pass began (`Quiescence.LastPass`), and, in terms of what a caller can look
  at before the call, if the book is `Calm`: no trailing buy waits, no order has the limit price 0, and no
  price at which something could trade lies between two stop buys that the market can reach. Every public
  operation promises that. It cannot be had for less: for all prices that do lie so,
  `Departures.StopBuyLeftDue` is a run of the book, through its public operations, that leaves the upper
  stop buy due.

Three more places are modelled as the code has them. `setQuantity` computes `quantity` from the open quantity
before it is overwritten (`include/matching/order.h:100-103`), so an order that is cancelled in part after an
execution no longer satisfies quantity = open + executed (`Exchange.BalancedExactly`, with the run
`Exchange.CancelForgets`).

An all-or-none order is documented to execute as a whole or to wait (`include/matching/order.h:33`), but is matched
like one that is good till cancelled: it is executed in part if and only if something crosses it but not enough
(`Handling.AllOrNone`, with the run `Departures.AllOrNoneHalf`).

The threshold of trailing orders is refreshed only when nothing is repriced
(`src/matching/price_level_order_book.cpp:324-326` and `350-352`), so a trailing stop can follow the market against
the trader: it does if and only if the last price is between the threshold and the price the stop was made at
(`Repricing.MovesAgainstExactly`; `FallingStop.TrailingSellFalls` is such a run for all prices that lie so). While
orders trail, the threshold of trailing sells only falls, and that of trailing buys only rises as long as there is
a last price (`Trailing.Onward`). From that every public operation promises (`Outcomes.TrailedSince`): if the last
price is past the threshold there was before, every trailing order of the side is its trail away from the last
price; if it was not past it and no trade since moved the market in their favour, every one has kept its stop price.

What the book demands of its callers is what the code relies on: ids of new orders are new, ids passed in
exist, and the quantity given to `cancelOrder` is at most the open quantity.

## The hash table

| file | contents |
|---|---|
| `InfoBytes.dfy` | load limit, buffer size, the info byte of a key at a slot, halving eight bytes at a time |
| `Layout.dfy` | where elements lie: the ordering invariant and how every operation keeps it |
| `Clusters.dfy` | when info bytes run out for good, by the home slots of the keys alone |
| `KeyMixing.dfy` | the integer hash, the multiplier and why they lose no information |
| `RobinHoodTable.dfy` | the class `Table` over two arrays, proved to agree with a map |

With `Home(key)` and `Bits(key)` from the hash, a key at slot `j` has the info byte
`inc * (j - Home(key) + 1) + Bits(key)`. The invariant `Laid` says that every occupied slot has exactly
this byte and is not before its home, and that info bytes grow by at most `inc` from one slot to the
next. From that follow the Robin Hood order (`Layout.RunIsOrdered` and `Layout.RunStartsAtHome`), the
early end of a probe, and why the sentinel and seven zero bytes are enough padding. The ghost map
`contents` is what the table stands for. The hash is an arbitrary function of key and multiplier.

A table that cannot take another key grows. That overflows only if an info byte has no room at the smallest step,
which means an element 126 slots behind its home. Whether there is one depends on the keys alone: there is if
and only if the keys with homes in some stretch of slots outnumber its slots by 126 or more
(`Clusters.FullExactly`). So `RehashPowerOfTwo` overflows exactly if the keys moved so far are crowded in this
sense when another one follows, `IncreaseSize` exactly if it has to rehash and that happens, and `TryEmplace`
never with fewer than 127 keys, whatever the hash.

## Model

| member | source | states |
|---|---|---|
| Exchange.NeverCrossed | src/matching/price_level_order_book.cpp:143-166 | in every state a run can reach, every resting buy is priced below every resting sell |
| Exchange.PriceTimePriority | src/matching/price_level_order_book.cpp:438-476 | over a whole run, each trade is at the price of the resting order and within the limit of the incoming one, for all that one of the two has open, and any other order resting on that side at that moment has a worse price, or the same price and came to rest later |
| Exchange.LimitIsEntered | include/matching/order.h:93-110 | over a whole run an order keeps the side and the limit it entered with |
| Exchange.ArrivalIsLogged | src/matching/price_level_order_book.cpp:153-166 | an order's place in the time priority is the event that put it to rest, or parked it |
| Exchange.ExecutedIsLogged | include/matching/order.h:105-110 | the executed quantity of every order, in flight, parked or resting, is the sum of its trades and reported executions in the log |
| Exchange.LastIsLogged | src/matching/price_level_order_book.cpp:446-450 | the last traded price is that of the last trade or reported execution in the log, or 0 |
| Exchange.BalancedUnlessCancelled | include/matching/order.h:100-110 | an order that entered balanced and was never cancelled in part satisfies quantity = open + executed, wherever it is |
| Exchange.BalancedExactly | include/matching/order.h:100-110 | when exactly quantity = open + executed: if and only if the order last entered balanced, or was last cancelled in part before any of it was executed |
| Exchange.CancelForgets | include/matching/order.h:100-103 | a run after which an order is not balanced |
| Exchange.BoughtIsSold | src/matching/price_level_order_book.cpp:514-522 | over any run, trades raise what the buy orders have executed by exactly as much as what the sell orders have |
| Exchange.CancelledTo | include/matching/order.h:100-103 | cancelling leaves exactly the given quantity open and what has been executed as it was |
| Exchange.InOnePlace | src/matching/price_level_order_book.cpp:417-431 | an order that is being matched is never also in the book |
| Exchange.GoneIsFilledOrTriggered | src/matching/price_level_order_book.cpp:433-478 | matching and activation lose no order: one that is gone from the book was filled, or was a stop order and has been triggered |
| Exchange.RestsOrIsFilled | src/matching/price_level_order_book.cpp:433-478 | matching and activation lose nothing of a resting order: it still rests, less what has been executed of it, or it is gone and all of it has been executed |
| Exchange.StaysGone | src/matching/price_level_order_book.cpp:433-478 | matching and activation bring in no order |
| Waiting.TriggeredWhenDue | src/matching/price_level_order_book.cpp:367-414 | over a whole run, a stop order is triggered only if its own stop price, as parked or as last repriced, was reached by a last price there was after it had been parked: at or above it for a sell, at or below it for a buy |
| Waiting.StopPriceTimePriority | src/matching/price_level_order_book.cpp:372-388 | over a whole run, stop orders of one side are triggered nearest stop price first, plain ones with the same stop price in the order they were parked; plain and trailing ones apart |
| Waiting.ParkedIsLogged | src/matching/price_level_order_book.cpp:204-208 | a waiting order has the stop price it was parked with, or, trailing, the one that a last price since then called for |
| Waiting.OneTrigger | src/matching/price_level_order_book.cpp:417-431 | while an activated order is dealt with, all other triggers are nested deeper |
| Quiescence.CalmIsQuiet | src/matching/price_level_order_book.cpp:355-365 | as written, if activation begins calm, no stop buy is due at its end, through any cascade of trades |
| Quiescence.CalmKept | src/matching/price_level_order_book.cpp:355-478 | matching and activation keep a calm book calm |
| Quiescence.BothFlagsSuffice | src/matching/price_level_order_book.cpp:358-364 | with both flags kept, no stop buy is due when activation has come to its end |
| Exchange.ReplayPrefix | src/matching/price_level_order_book.cpp:433-478 | every prefix of a run is a run, and the event after it was legal when it happened |
| Orders.TrailedSaturates | src/matching/price_level_order_book.cpp:275-300 | a trailing stop keeps its distance to the market exactly, except that it stays at 0 or at the largest price where the 64-bit range ends |
| Orders.ActivatedKind | src/matching/price_level_order_book.cpp:417-424 | an activated stop order is a market order, a stop-limit order a limit order at its own price, without stop price and trail; nothing else of it changes |
| BookState.ClaimIsPrice | src/matching/price_level_order_book.cpp:132-141 | an order with a limit is bound by its price, a market order trades at any price |
| BookState.LevelsBeyond | src/matching/price_level_order_book.cpp:440-462 | if no resting order crosses an order, every opposite level is beyond its price |
| Trailing.OnwardFurther | src/matching/price_level_order_book.cpp:302-353 | what holds of thresholds and stop prices over two stretches of a run holds over both together: thresholds move against the trader only, and orders stay put while the market does not move in their favour |
| Trailing.OnwardReprice | src/matching/price_level_order_book.cpp:302-323 | so it does when one side is repriced because the market is past its threshold |
| Trailing.OnwardMark | src/matching/price_level_order_book.cpp:324-326 | and when the threshold is set because it is not, or because no order trails |
| Outcomes.HaveTrailed | src/matching/price_level_order_book.cpp:329-353 | when activation has ended, trailing orders are their trail away from the last price if that is past the threshold there was, and where they were if the market has not been past it |
| Repricing.MovesAgainstExactly | src/matching/price_level_order_book.cpp:329-353 | an update moves a stop price against the trader if and only if the last price lies between the threshold and the price the stop was made at, inside the range of prices |
| Quiescence.AllTrailApart | src/matching/price_level_order_book.cpp:175-208 | in every state a run can reach, a waiting trailing order trails by more than nothing |
| Quiescence.RepricesMean | src/matching/price_level_order_book.cpp:302-353 | repricing changes nothing but the stop prices of trailing orders |
| Quiescence.RepricesAreQuiet | src/matching/price_level_order_book.cpp:302-353 | if no stop order is due, repricing makes none due |
| Outcomes.LeftOrRestsStill | src/matching/price_level_order_book.cpp:355-478 | what is activated later brings back no order and loses nothing of one that rests |
| Outcomes.ArrivesAs | src/matching/price_level_order_book.cpp:168-209 | which stop orders wait, at which level, and that the others are matched with their price, quantities and time in force |
| GreedyFill.FillAmount | src/matching/price_level_order_book.cpp:438-476 | with nothing activated meanwhile, matching leaves max(0, open - crossing volume) of the incoming order open and touches no other order in flight |
| GreedyFill.FillIsPrefix | src/matching/price_level_order_book.cpp:438-476 | an order is touched only after every crossing order before it in price-time order is gone, so at most one is left partly filled |
| GreedyFill.FillShrinks | src/matching/price_level_order_book.cpp:438-476 | matching adds nothing to the book, leaves orders that do not cross as they are and only lowers open quantities |
| GreedyFill.FillIsAllOrNothing | src/matching/price_level_order_book.cpp:433-437 | an ungated fill completes the order or changes nothing exactly if enough volume crosses or none does |
| GreedyFill.Fill | src/matching/price_level_order_book.cpp:438-476 | greedy filling ends with the order filled or with nothing left that crosses it |
| GreedyFill.TradeOnceVolume | src/matching/price_level_order_book.cpp:446-455 | one trade takes the same amount from the incoming order and from the crossing volume |
| Levels.LinkedAdd | src/matching/level.cpp:45-54 | emplacing the level, indexing the order and appending it keeps index, levels and cached volumes in agreement |
| Levels.LinkedTake | src/matching/price_level_order_book.cpp:36-73 | taking an order out of its level, and the level out of its map once empty, keeps them in agreement; the volume covers the order |
| Levels.LinkedReduce | src/matching/level.cpp:61-64 | lowering an open quantity and the level volume by the same amount keeps them in agreement, and the assertion on the volume holds |
| Levels.FindLeader | include/matching/price_level_order_book.h:38-54 | the first key of one of the six maps in its order of use, or that the map is empty |
| BookState.FrontIsFirst | src/matching/price_level_order_book.cpp:440-446 | the front order of the leading level is the first in price-time order among all that rest on that side |
| BookState.LeaderDecides | src/matching/price_level_order_book.cpp:443 | if the leading opposite level does not cross, no resting order does |
| BookState.LevelsUncrossed | src/matching/price_level_order_book.cpp:143-166 | every buy level key is below every sell level key |
| BookState.ScanEnd | src/matching/price_level_order_book.cpp:489-511 | when the next level does not cross, all crossing orders have been counted |
| BookState.ConsistentAdd | src/matching/price_level_order_book.cpp:153-166 | booking an order keeps the book in step with the exchange, first-in first-out order within levels included |
| BookState.ConsistentTake | src/matching/price_level_order_book.cpp:36-73 | so does taking one out |
| BookState.ConsistentReduce | src/matching/price_level_order_book.cpp:86-114 | so does lowering an open quantity where the order stands |
| Repricing.ConsistentSwap | src/matching/price_level_order_book.cpp:302-327 | exchanging the trailing levels of one side for levels that group the walked orders by their new price keeps index, levels, volumes and exchange in step |
| Handling.FillOrKill | src/matching/price_level_order_book.cpp:435-437 | if nothing is activated meanwhile: with the advancing scan the order is filled completely or only leaves, and is filled whenever enough crosses it; as written that is so if and only if enough crosses it or nothing does; what is left never rests |
| Handling.AllOrNone | src/matching/price_level_order_book.cpp:143-151 | if nothing is activated meanwhile, an all-or-none order is executed as a whole or not at all if and only if enough crosses it or nothing does; what is left of it rests |
| Arrivals.FillOrKillArrives | src/matching/price_level_order_book.cpp:435-437 | the same for the book, if nothing is due before and no waiting order is due at a price the order could trade at: all or nothing if and only if the scan advances, enough crosses the order, or nothing does |
| Departures.FillOrKillHalf | src/matching/price_level_order_book.cpp:481-512 | a run of the book as written in which a fill-or-kill buy of six takes the five there are |
| Departures.AllOrNoneHalf | src/matching/price_level_order_book.cpp:143-151 | a run of the book as written in which an all-or-none buy of six takes the five there are and rests |
| Departures.FillOrKillDisturbed | src/matching/price_level_order_book.cpp:435-437 | a run in which an order that the advancing check lets through ends with one of three unfilled, since a stop order activated meanwhile takes what was counted |
| Departures.StopBuyLeftDue | src/matching/price_level_order_book.cpp:355-390 | for all prices that lie between two waiting stop buys, the best sell not below the upper one: a run of the book as written, from its construction through its public operations, that returns with that stop buy due |
| FallingStop.TrailingSellFalls | src/matching/price_level_order_book.cpp:329-353 | for all prices threshold < last < top with the order not due at the last: a run of the book as written, through its public operations, in which the stop price of a trailing sell falls from top - trail to last - trail |
| QuietBook.SellsBelow | src/matching/price_level_order_book.cpp:392-414 | with no stop sell due, all levels of stop sells and trailing sells are below the last price |
| QuietBook.BuysAbove | src/matching/price_level_order_book.cpp:367-390 | with stop buys quiet, all their levels are above the market price |
| QuietBook.FrontIsForemost | src/matching/price_level_order_book.cpp:372-388 | the front order of the leading level of stop orders is the first of all of them to be triggered |
| OrderBook.PriceLevelOrderBook.constructor | src/matching/price_level_order_book.cpp:9-15 | an empty book with no last price, nothing due, and both trailing thresholds at their initial values |
| OrderBook.PriceLevelOrderBook.GetBestBuy | include/matching/price_level_order_book.h:38-45 | the highest buy level, or 0 if there is none |
| OrderBook.PriceLevelOrderBook.GetBestSell | include/matching/price_level_order_book.h:47-54 | the lowest sell level, or the largest price if there is none |
| OrderBook.PriceLevelOrderBook.InsertOrder | src/matching/price_level_order_book.cpp:153-166 | the order is indexed and is last in the level of its map and price; everything else is as before; the exchange allows it |
| OrderBook.PriceLevelOrderBook.EraseOrder | src/matching/price_level_order_book.cpp:36-72 | the order leaves index and level, an emptied level leaves the right map, the volume never underflows, and a stop order leaves to be matched only if its own stop price is due at a last price since it was parked |
| OrderBook.PriceLevelOrderBook.TradeWithFront | src/matching/price_level_order_book.cpp:446-450 | one trade with the first order in price-time order at its price, for the smaller open quantity; volumes follow and the assertion on them holds |
| OrderBook.PriceLevelOrderBook.CanMatchOrder | src/matching/price_level_order_book.cpp:481-512 | as written: true if and only if some resting order crosses; advancing: if in addition the crossing volume covers the open quantity |
| OrderBook.PriceLevelOrderBook.Match | src/matching/price_level_order_book.cpp:433-478 | ends with the order filled or every opposite level beyond its price, or untouched if the gate stays shut; equals greedy filling if no waiting order is due at a price the order could trade at; keeps other orders in flight, extends the log by internal events only, and terminates |
| OrderBook.PriceLevelOrderBook.MatchFront | src/matching/price_level_order_book.cpp:443-456 | one round strictly lowers the open quantity, and is one step of greedy filling if nothing is due at its price |
| OrderBook.PriceLevelOrderBook.DeleteOrder | src/matching/price_level_order_book.cpp:36-74 | the order leaves, and whatever is due then is activated to its end; stop sells are quiet afterwards, stop buys too if the book was calm; an order being matched is not affected; if nothing is due, nothing else happens |
| OrderBook.PriceLevelOrderBook.ActivateStopOrders | src/matching/price_level_order_book.cpp:355-365 | terminates with stop sells quiet and, on each side, the threshold equal to the last price or all trailing orders, of which there are some, repriced by it; stop buys due when the last pass began are gone, and if there were none, stop buys are quiet; if nothing is due trailing orders are repriced and nothing else happens |
| OrderBook.PriceLevelOrderBook.ActivatePass | src/matching/price_level_order_book.cpp:359-364 | a pass that asks for another one has used up a stop order; the last one leaves no stop buy that was due at its start and no stop sell due after its buy half |
| OrderBook.PriceLevelOrderBook.HalfPass | src/matching/price_level_order_book.cpp:360-363 | activates something if and only if a stop order of the side was due; on the buy side no plain stop buy that was due at its start is left; the other side's trailing orders have followed the last price; if it activates nothing, only that happens, and nothing becomes due |
| OrderBook.PriceLevelOrderBook.ActivateSide | src/matching/price_level_order_book.cpp:367-414 | activates something if and only if a stop order of the side was due; whatever it triggers itself was due at the last price when its map was taken up |
| OrderBook.PriceLevelOrderBook.Drain | src/matching/price_level_order_book.cpp:372-379 | afterwards no order of the map is due at the price read before the loop; activates if and only if one was; whatever it triggers itself belongs to the map and was due at that price |
| OrderBook.PriceLevelOrderBook.ActivateFront | src/matching/price_level_order_book.cpp:373-379 | one round of that loop triggers the front order by the price read before it |
| OrderBook.PriceLevelOrderBook.ActivateStopOrder | src/matching/price_level_order_book.cpp:416-431 | triggers a stop order that is due, lets its deletion activate others, and then matches it as a market or limit order to its end, with the gate as it is then: what is left of it rests at its limit or is gone; no order in flight is affected |
| OrderBook.PriceLevelOrderBook.AddMarketOrder | src/matching/price_level_order_book.cpp:132-141 | a market order never stays in the book; unless the fill-or-kill gate stopped it, no order rests on the other side when it leaves with something open; exact if nothing is activated meanwhile |
| OrderBook.PriceLevelOrderBook.AddLimitOrder | src/matching/price_level_order_book.cpp:143-151 | an immediate-or-cancel or fill-or-kill order is gone; a good-till-cancel or all-or-none order with something open is last in the level of its price, where no resting order is within its price, and is filled if it is gone; a gated order changes nothing; exact if nothing is activated meanwhile |
| OrderBook.PriceLevelOrderBook.RepriceTrailing | src/matching/price_level_order_book.cpp:302-323 | every trailing order of the side moves exactly once to the level of its new stop price, as the exchange reprices it; orders that land on one level keep their old price and then arrival order; volumes agree again |
| OrderBook.PriceLevelOrderBook.UpdateTrailing | src/matching/price_level_order_book.cpp:302-353 | if the last price is past the threshold (above it for sells, below it for buys) every trailing order of the side gets the stop price its trail away from the last price; if it is not, no order changes and the threshold becomes the last price |
| OrderBook.PriceLevelOrderBook.AddStopOrder | src/matching/price_level_order_book.cpp:168-209 | an order whose stop price, recomputed if it trails, is not reached stands last in the level of that price and nothing else happens; otherwise it is matched to its end as a market or limit order |
| OrderBook.PriceLevelOrderBook.TakeIn | src/matching/price_level_order_book.cpp:17-32 | every type of order is matched or parked as its type, its stop price and the market demand, and stands where that puts it |
| OrderBook.PriceLevelOrderBook.AddOrder | src/matching/price_level_order_book.cpp:17-34 | the order is parked at its stop price, or matched to its end and then rests at its limit or is gone, by its type and time in force; what is due then is activated to its end, which leaves stop buys quiet if the book is calm; trailing orders have followed the market; if the order waits and nothing is due, only trailing orders are repriced besides; the new state is exact if nothing was due before and nothing is activated meanwhile |
| OrderBook.PriceLevelOrderBook.ModifyOrder | src/matching/price_level_order_book.cpp:76-84 | withdraws the order and enters it anew under the new id and price, as adding an order does, with the same outcome; stop buys are quiet afterwards if the book was calm and the new price belongs to its prices; trailing orders have followed the market since the withdrawal |
| OrderBook.PriceLevelOrderBook.DropIfFilled | src/matching/price_level_order_book.cpp:95-98 | an order without open quantity goes, another stays; then stop orders are activated to their end |
| OrderBook.PriceLevelOrderBook.CancelOrder | src/matching/price_level_order_book.cpp:86-99 | the open quantity becomes exactly the given one, what is executed stays; at zero the order is gone; stop orders are activated to their end, so that stop sells are quiet, and stop buys too if the book is calm; trailing orders have followed the market, and nothing else happens if nothing is due |
| OrderBook.PriceLevelOrderBook.ExecuteOrderAt | src/matching/price_level_order_book.cpp:101-114 | the smaller of the given and the open quantity is executed at the given price, which becomes the last; a filled order is gone; stop orders are activated to their end; trailing orders have followed the market, and nothing else happens if nothing is due at that price |
| OrderBook.PriceLevelOrderBook.ExecuteOrder | src/matching/price_level_order_book.cpp:116-130 | the same at the order's own price |
| OrderBook.PriceLevelOrderBook.NeverCrossedNow | src/matching/price_level_order_book.cpp:143-166 | the best buy is below the best sell at every nested call |
| OrderBook.PriceLevelOrderBook.AccountedFor | include/matching/order.h:100-110 | at every nested call each indexed order has executed what the log says, and satisfies quantity = open + executed exactly if the log says so: it last entered balanced, or was last cancelled in part before any of it was executed |
| OrderBook.PriceLevelOrderBook.LastPriceNow | src/matching/price_level_order_book.cpp:446-450 | at every nested call the last traded price is that of the last trade or reported execution |
| OrderBook.PriceLevelOrderBook.ActivateLoneStopBuy | src/matching/price_level_order_book.cpp:355-390 | as written, if exactly one stop buy is due and one resting order absorbs it, stop buys are quiet afterwards if and only if all the others wait above the price it traded at |
| InfoBytes.WithBuffer | libs/robin_hood.h:2152-2155 | the buffer adds the smaller of the load limit and 255 slots |
| InfoBytes.LoadLimit | libs/robin_hood.h:2136-2143 | the load limit is 80 percent rounded down, or within 80 elements of it where the product would not fit, and computed without exceeding 64 bits |
| InfoBytes.Shape.CodeIs | libs/robin_hood.h:1354-1359 | the home slot is the hash above its five lowest bits modulo the buckets; the info byte holds the distance and as many of those bits as the step has room for |
| InfoBytes.HalvedCode | libs/robin_hood.h:2407-2412 | halving an info byte gives the byte computed from scratch with half the step and one hash bit less |
| InfoBytes.HalvesEachByte | libs/robin_hood.h:2415-2419 | shifting the eight-byte word and masking it halves each of its bytes |
| KeyMixing.XorShiftUndone | libs/robin_hood.h:748-752 | shifting by 33, xoring and doing it again gives the word back |
| KeyMixing.TimesTellsApart | libs/robin_hood.h:1354 | multiplication by an odd number modulo 2^64 is injective |
| KeyMixing.MixedKeepsApart | libs/robin_hood.h:748-759 | different 64-bit keys have different hashes under every odd multiplier |
| KeyMixing.AlwaysOdd | libs/robin_hood.h:2458-2462 | every multiplier reachable from the initial one is odd |
| Layout.MeetsNoSmaller | libs/robin_hood.h:1425-1436 | from its home to its slot a stored key meets no smaller info byte than the one it would have |
| Layout.SmallerEndsSearch | libs/robin_hood.h:1436-1436 | a probe that meets a smaller info byte has passed the key if it is stored |
| Layout.RunIsOrdered | libs/robin_hood.h:1363-1394 | within a run, elements are ordered by home slot and then by descending hash bits |
| Layout.RunStartsAtHome | libs/robin_hood.h:1363-1394 | the first element of a run is at its home slot |
| Layout.FoundIsThere | libs/robin_hood.h:1427-1430 | a slot holds a key if and only if the probe's info byte and the key agree |
| Layout.RunEnds | libs/robin_hood.h:2380-2382 | while the table is not full a free slot lies between every home and the end of the buffer |
| Layout.FreeAhead | libs/robin_hood.h:2372-2382 | the byte to be inserted fits, and the shift ends before the end of the buffer |
| Layout.HoldsInsert | libs/robin_hood.h:2347-2397 | insertion adds exactly one pair |
| Layout.HoldsErase | libs/robin_hood.h:2050-2068 | deletion removes exactly one key |
| Layout.HoldsHalve | libs/robin_hood.h:2399-2425 | halving keeps the stored map |
| Clusters.FullExactly | libs/robin_hood.h:2399-2410 | in a table laid out properly, some info byte cannot grow at the smallest step if and only if the keys with homes in some stretch of slots outnumber its slots by 126 or more |
| Clusters.FullIsCrowded | libs/robin_hood.h:1376-1394 | a byte without room is at the end of such a stretch |
| Clusters.CrowdedIsFull | libs/robin_hood.h:1376-1394 | such a stretch leaves some byte without room and rules out every larger step |
| Clusters.FewAreSpread | libs/robin_hood.h:1450-1455 | fewer than 127 keys are never crowded in this sense, wherever their homes are |
| Clusters.SpreadNeverOverflows | libs/robin_hood.h:2226-2235 | keys that are not crowded never overflow, in whatever order they are moved |
| RobinHoodTable.Table.constructor | libs/robin_hood.h:2483-2494 | an unallocated table stores nothing |
| RobinHoodTable.Table.KeyToIdx | libs/robin_hood.h:1348-1360 | home slot and info byte of a key |
| RobinHoodTable.Table.HashesApart | libs/robin_hood.h:1348-1356 | in any reachable table different 64-bit keys have different hashes |
| RobinHoodTable.Table.FindIdx | libs/robin_hood.h:1419-1442 | finds the slot of a key if and only if it is stored, with its value; otherwise the end of the table |
| RobinHoodTable.Table.Find | libs/robin_hood.h:1419-1442 | the value stored under a key, or none |
| RobinHoodTable.Table.Seek | libs/robin_hood.h:2056-2067 | the deletion loop finds a key if and only if it is stored |
| RobinHoodTable.Table.ShiftDown | libs/robin_hood.h:1396-1414 | moves back exactly the elements behind the slot that are away from their home |
| RobinHoodTable.Table.Erase | libs/robin_hood.h:2050-2068 | removes exactly the key and reports whether it was there |
| RobinHoodTable.Table.ShiftUp | libs/robin_hood.h:1376-1394 | moves the slots up by one, each a step further from home; no byte overflows; insertions stop if and only if a byte cannot grow |
| RobinHoodTable.Table.SeekToInsert | libs/robin_hood.h:2349-2363 | finds the key if stored, otherwise the place the Robin Hood order demands |
| RobinHoodTable.Table.OpenSpot | libs/robin_hood.h:2372-2392 | with the new node at the slot the table stores exactly one pair more; insertions stop only if some byte cannot grow |
| RobinHoodTable.Table.TryIncreaseInfo | libs/robin_hood.h:2399-2425 | succeeds if and only if the step is above 2; halves it, keeps the stored map, and allows insertions again |
| RobinHoodTable.Table.HalveBytes | libs/robin_hood.h:2415-2421 | all info bytes are halved and the sentinel is restored |
| RobinHoodTable.Table.InitData | libs/robin_hood.h:2318-2339 | a new table of the given size, with the largest step, stores nothing |
| RobinHoodTable.Table.InsertMove | libs/robin_hood.h:1450-1491 | adds exactly the pair, halving bytes first if needed; overflows if and only if that is needed and impossible |
| RobinHoodTable.Table.SeekPast | libs/robin_hood.h:1461-1465 | the place the Robin Hood order demands, for a key known to be absent |
| RobinHoodTable.Table.NextHashMultiplier | libs/robin_hood.h:2458-2462 | the multiplier changes and stays odd; the slots still hold the map |
| RobinHoodTable.Table.RehashPowerOfTwo | libs/robin_hood.h:2216-2249 | overflows if and only if the keys moved before some element are crowded in the new table; otherwise the new table stores exactly the same map |
| RobinHoodTable.Table.MoveAll | libs/robin_hood.h:2226-2235 | moves exactly the elements of the old slots, or overflows if and only if those before some element are crowded |
| RobinHoodTable.Table.IncreaseSize | libs/robin_hood.h:2428-2456 | keeps the map; allocates eight buckets first, halves the step if that is enough, and otherwise changes the multiplier if less than half full and doubles the buckets if not; overflows if and only if it has to rehash and some keys moved before another are crowded; leaves room if they are not crowded at all |
| RobinHoodTable.Table.Rehash | libs/robin_hood.h:2440-2452 | the last case of that: another multiplier or twice the buckets |
| RobinHoodTable.Table.FullMeans | libs/robin_hood.h:1450-1455 | a table that has only been inserted into is stuck if and only if its keys are crowded |
| RobinHoodTable.Table.InsertKeyPrepareEmptySpot | libs/robin_hood.h:2347-2397 | finds the key if and only if it is stored; otherwise prepares a slot such that the table with the new node stores exactly one pair more; fails only if a rehash was needed and its home slots are crowded, never with fewer than 127 keys, and always if that rehash overflows |
| RobinHoodTable.Table.TryEmplace | libs/robin_hood.h:2260-2286 | adds the pair if and only if the key was absent, and changes nothing else; overflows only if a rehash was needed and its home slots are crowded, never with fewer than 127 keys |

## Left out

- Order and Level objects live in place in the original, linked through an intrusive list and iterators; here they are values in the fields `orders` and `levels`, and an order's place is the key of its level. Aliasing and iterator validity are not captured.
- The six price-to-level maps are one map keyed by map and price.
- 64-bit wrap-around of quantities and level volumes: they are natural numbers, as the code relies on sums that fit. Prices are 64 bits wide.
- Symbol ids, timestamps, events sent to handlers, exports and printing; the assertions on symbol id and level side in `src/matching/level.cpp:46-51`.
- The engine and its dispatch to books by symbol.
- `removeFront`, `removeBack` and `popBack` of `Level`, which the book does not use.
- Handling.AllOrNone: says when an all-or-none order that comes in is executed in part; one that rests may be taken in part by any order that comes in later.
- `last_executed_price` is cut to 32 bits by `execute` (`include/matching/order.h:105`), and so it is in the model; for trades nothing is claimed about it.
- The order in which due stop orders trade is not that in which they are triggered: deleting one activates others before it is matched itself. Only the order of triggering is claimed (`Waiting.StopPriceTimePriority`), and for trailing orders with the same stop price not even that, since repricing regroups them.
- Repricing.MovesAgainstExactly: exact for one update; how often a trailing stop is moved against the trader within one operation hangs on the prices of the trades in between.
- OrderBook.PriceLevelOrderBook.ModifyOrder: where trailing orders are is stated from the moment between withdrawal and new entry on, with the thresholds there were then; a trailing order that enters meets thresholds that no order held in place before.
- Outcomes.HaveTrailed: that trailing buys have followed the market is promised as long as no price 0 has been quoted since, because the code then sets their threshold to 0.
- OrderBook.PriceLevelOrderBook.ActivateStopOrders: as written, quiet stop buys are promised if the book is calm when activation begins, or if no stop buy was due when the last pass began. The first is sufficient, not necessary, since whether a stop buy stays due depends in general on the whole cascade of trades; that it cannot be weakened price by price is what `Departures.StopBuyLeftDue` shows.
- OrderBook.PriceLevelOrderBook.ActivateLoneStopBuy: an exact condition for the case of one due stop buy that one resting order absorbs, with no trailing orders waiting; the general case is the line above.
- OrderBook.PriceLevelOrderBook.AddOrder: the exact new state is stated when nothing is due before and nothing is activated while the order is matched; otherwise the contract says which events may happen, that the new order is matched to its end or parked, and that activation comes to its end.
- Departures.FillOrKillDisturbed: a run of the reference exchange in the order in which the book acts, not a call of the class.
- Memory of the hash table: node construction and destruction, the node pool, allocation failure, and overflow of the slot count when doubling. The old arrays of a rehash are read as sequences.
- RobinHoodTable.Table.RehashPowerOfTwo: after an overflow in the middle of moving, nothing is promised, as in the code.
- RobinHoodTable.Table.InsertKeyPrepareEmptySpot: with crowded keys that one rehash can still place, what the further ones come to is not stated, as it hangs on the next multipliers; and whether the slot held a moved-from node (`overwrite_node`) or none (`new_node`) matters only for memory and is not specified. `increase_size` never reports failure in the code, so the model returns no flag for it.
- Masking the hash with a power of two minus one is modelled as a remainder.
- `reserve`, `rehash`, `compact`, `erase` by iterator, iterators, copying and moving of tables.
