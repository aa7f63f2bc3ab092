# A verified model of the exchange server

This project models the trading core of the FIX exchange and proves what it keeps:

- **The order book of one symbol** (`Matching`, `Book`, `OrderBook`, `Tick`): price maps of first-in-first-out lists, an
  id map per side, the tick direction and the event queue. `OrderBook` holds the classes with the program's loops (erase
  while iterating, step the index back, break out of two loops) and ties every method to the value-level book in `Book`.
  Around it: the price-time reference pass (`Matching.Match`, `MatchLemmas`, `Priority`), the invariant of the book
  (`Index`, `Invariant`), a reference engine without levels and id maps (`FlatBook`), what the levels that are never removed
  cost (`EmptyLevels`, `EmptyLevelRun`), the accounts of every submission over whole runs (`Ledger`, `History`,
  `AddProperties`), and what is accepted, what of it trades and rests, and what owners and taker are told, in terms of the
  orders that rest and of the history alone (`Acceptance`, `Submissions`, `Reporting`).
- **The ticket-ordered execution protocol** (`Tickets` and the `Ticket...` modules, `QueueMutex`): the router, two pipelines
  of an input stage and a worker, and the ticket queue with its spin lock, as a step system in which every read of the spin
  loop is a step of its own.
- **The session sequence numbers** (`Session`, `Peers`): one counter per side for both directions, over two channels.
- **The wire codecs**: FIX text with its checksum (`FixText`, `CheckSum`, `Receiver`, `Reception`) and the binary buffer with
  the messages between the client's processes (`NetBuffer`, `Ipc`, `IpcNetwork`, `IpcLayout`).
- **The heartbeat watch** (`HeartBeat`).

`Core` and `Modulo` hold the shared values and the arithmetic of machine words. Check everything with
`dafny verify dfyconfig.toml`.

## What turned out not to hold

Four promises one might read into the program are false of it; each comes with the exact condition.

- Price levels are never removed, and for the sides the tick rule can stop (BuyMinus, SellPlus) an emptied level can be
  seen from outside: it can stop a sweep after trades, and the taker's event is then never sent
  (`EmptyLevelRun.EmptyLevelHidesEvent`, a run from the empty book). It never changes a trade, a resting order or a price. The
  event is lost if and only if, before the call: the tick rule lets the order begin; the first level in reach that holds
  another user's order has a price that turns the tick against the order; that level alone cannot meet the order; there is
  a further level in reach; and every level in reach behind is empty (`EmptyLevels.BlockedExactly`,
  `EmptyLevels.EmptyLevelsExactly`, `EmptyLevels.EmptyLevelsInBook`).
- A request can be blocked for ever, and its ticket with it, in two ways. An order of another type than Limit loses its
  ticket but is passed on to the worker, which waits for that ticket for ever, so a complete Limit order behind it is never
  executed. And a complete cancel on an unsupported side makes `lockReadOrder` throw out of the input stage, which ends that
  stage with the ticket still in the queue. The stage stops its worker, too, which can leave cancels behind that were fine.
  Nothing at all issued behind a blocked or stranded request is executed (`TicketFate.BlockedStays`,
  `TicketFate.CrashStopsMarket`, `TicketFate.TypeStopsMarket`, `TicketStranded.StrandedStays`). The queue can be emptied if and
  only if no blocked request was issued (`TicketProgress.DrainsIffNotJammed`), and a complete Limit order can be executed if
  and only if nothing of the kind was issued before it (`TicketProgress.ExecutesIffNotStopped`). All three are reached
  (`TicketJams.TypeJams`, `TicketJams.CrashJams`, `TicketJams.StrandJams`).
- A client that has sent anything, by the time it reads the answer to its Logon, that the server had not read when it
  answered is out of step with the server for the rest of the session (`Session.HastyClient`, `Session.UnheardIsFatal`,
  `Session.UnheardIsFixed`); if and only if there was no such message, the two agree (`Session.CountersAgree`). A client that is
  silent from its Logon to the answer has none, whatever it sent before (`Session.SilentClient`, `Session.SilentSession`).
- The client counts in 64 bits and compares with a tag of 32, so once its counter reaches 2^32 it rejects every message,
  while the server wraps and goes on (`Session.ClientCheckExact`, `Session.ServerCheckExact`).

Smaller things the codecs do: `10=1==` is no field but `10=1=` is read as `10=1`; a failed `net::Buffer` stays failed through
`reset` and `clear`.

## Model

| member | source | states |
|---|---|---|
| Tick.TickMeansLastChange | server/src/OrderBook.cpp:250-270 | after any trade history the tick is the direction of the last strict price change in 0, p1, ..., pn: the plain variant if the last trade made it, the Zero variant if the last two prices are equal, ZeroPlus if there was none |
| Tick.RecomputeUnobservable | server/src/OrderBook.cpp:17-28 | recomputing the tick in between, as every permission check does, changes no later tick |
| Matching.BlendExact | server/src/OrderBook.cpp:212-231 | the new average times the new quantity is exactly the old money plus the money of the fill |
| MatchLemmas.MatchSound | server/src/OrderBook.cpp:198-248 | a pass over resting orders fills live orders only, conserves quantity, trades with no order of the same user, and leaves others' orders only if the want is met |
| MatchLemmas.MatchAppend | server/include/Server/OrderBook.inl:20-56 | matching a list in two parts is matching it as one, the second part with what is left |
| MatchLemmas.MatchNodesIsMatch | server/include/Server/OrderBook.inl:32-56 | the inner loop over one level is the reference pass over its orders |
| MatchLemmas.SweepIsMatch | server/include/Server/OrderBook.inl:20-62 | for every side, the level-by-level sweep is one price-time pass over the flattened levels it entered, and leaves the others untouched; it is blocked only for a side the tick rule can stop |
| Priority.MatchCuts | server/include/Server/OrderBook.inl:32-56 | the exact shape of every pass: a consumed front without the user's own orders, at most one partly taken order, an untouched back |
| Priority.PriceTimePriority | server/include/Server/OrderBook.inl:20-56 | whatever stood ahead of a traded order and is not the user's own is gone; the user's own orders stand as before; at most one order is left partly filled, and then the want is met |
| Priority.ReportsAccount | server/src/OrderBook.cpp:204-247 | the events of the resting orders add up to the traded quantity, and say Filled exactly when nothing remains |
| Priority.AggressAccount | server/src/OrderBook.cpp:211-221 | the aggressor's record after any fills: exact remainder, average times quantity is the money spent, last price and quantity are those of the last fill |
| Index.IndexLocates | server/include/Server/OrderBook.hpp:29-53 | a map in agreement with a list has exactly the resting ids, and each entry leads to the one order with that id at its price |
| Index.MatchShrinks | server/include/Server/OrderBook.inl:36-46 | a pass takes exactly the ids of exhausted orders out of the map, and the map still agrees |
| Index.RestInserts | server/include/Server/OrderBook.inl:65-76 | appending to the list found or created at a price is insertion by price and time |
| Index.InsertUnique | server/include/Server/OrderBook.inl:65-76 | pointing the map at the new last node keeps it in agreement |
| Index.EraseIsRemove | server/include/Server/OrderBook.inl:78-83 | erasing through a map entry removes exactly the order the entry stands for, and reading through it finds that order |
| Index.RemoveIndex | server/src/OrderBook.cpp:187-196 | removing one order and its id keeps the map in agreement |
| Invariant.AddEffect | server/src/OrderBook.cpp:79-106 | add sends the front of the opposite side through one pass, leaves the rest of it, and inserts what is left of the order on its own side by price and time |
| Invariant.AddKeeps | server/src/OrderBook.cpp:79-106 | add with a new id keeps the whole invariant of the book: index agreement on both sides, no id on both, every order live on its own side, sorted levels |
| Invariant.AddUncrossed | server/include/Server/OrderBook.inl:20-62 | after add, a bid at or above an ask has the same user as the ask, or is BuyMinus, or the ask is SellPlus |
| Invariant.CancelKeeps | server/src/OrderBook.cpp:108-129 | cancel keeps the whole invariant |
| Invariant.ExecKeeps | server/src/ProcessUnit/Market/NewOrder.cpp:110-182 | the workers' checks provide what add and cancel need: any request keeps the invariant, accepted or not |
| Invariant.RunKeeps | server/src/OrderBook.cpp:79-129 | index agreement and the crossing rule hold in every book reachable from the empty one |
| Invariant.KnownIffResting | server/src/OrderBook.cpp:30-45 | has tells exactly whether an order with the id rests |
| Invariant.RestingFound | server/src/OrderBook.cpp:65-76 | getOrder finds every resting order, its entry locates it, and no other order has its id |
| Acceptance.NewExactly | server/src/ProcessUnit/Market/NewOrder.cpp:110-182 | a new order changes the book if and only if the tick direction lets its side trade and no order with its id rests; it is then added, and otherwise the book is exactly as before |
| Acceptance.CancelExactly | server/src/ProcessUnit/Market/Cancel.cpp:75-93 | a cancel takes exactly one order out of its list, the one with the id, on the book side named, with the quantity named left, and changes nothing else; if there is none it changes nothing |
| Acceptance.FoundIffRests | server/src/OrderBook.cpp:47-76 | looking an id up on a side and reading its order finds an order of that side if and only if one rests |
| FlatBook.AddRefines | server/include/Server/OrderBook.inl:9-63 | for Buy and Sell, add has the same fills, resting orders, tick and events as one pass over a flat list within the limit: emptied levels and index adjustment cannot be seen |
| FlatBook.ExecRefines | server/src/ProcessUnit/Market/Cancel.cpp:75-113 | the same for one request with the workers' checks, against an engine that finds orders by searching for their id |
| FlatBook.RunRefines | server/src/OrderBook.cpp:79-129 | the same over every run of Buy, Sell and cancel requests |
| EmptyLevels.EmptyLevelsOnlyStop | server/include/Server/OrderBook.inl:20-29 | for every side, dropping the empty levels changes no trade and no resting order; the sweep is blocked the same way unless the tick rule stopped it with no order left within its reach |
| EmptyLevels.BlockedExactly | server/include/Server/OrderBook.inl:20-56 | an order the tick rule lets begin is stopped by it if and only if, before the call, the first level in reach with another user's order turns the tick, cannot meet the order alone, and has a level in reach behind it |
| EmptyLevels.EmptyLevelsExactly | server/include/Server/OrderBook.inl:20-62 | with or without emptied levels an order has the same trades and leaves the same resting orders; its own event is lost if and only if it would be stopped so and every level in reach behind the turning one is empty |
| EmptyLevels.EmptyLevelsInBook | server/src/OrderBook.cpp:79-106 | the same for add on a whole book: resting orders, tick and events agree but for that one event, lost exactly under a condition on the book before the call |
| EmptyLevelRun.EmptyLevelHidesEvent | server/include/Server/OrderBook.inl:26-29 | a run from the empty book after which a BuyMinus order is accepted and trades, and its event, sent in the same book without the emptied levels, is not sent |
| Ledger.BlendWithin | server/src/OrderBook.cpp:216-234 | averaging fills within a limit stays within the limit |
| Ledger.PostAllFair | server/src/OrderBook.cpp:198-234 | posting the trades of one order keeps every account exact and within its limit, and changes nobody but the makers and the taker |
| Ledger.TakerIsAggressor | server/src/OrderBook.cpp:84-100 | the account of the taker is the record the matching loop kept |
| History.AddGood | server/src/OrderBook.cpp:79-106 | an accepted new order keeps the invariant of all runs, the accounts and the conserved totals included |
| History.CancelGood | server/src/OrderBook.cpp:108-129 | so does an accepted cancel, which moves exactly the remaining quantity to the cancelled total |
| History.RunGood | server/src/OrderBook.cpp:79-129 | over every run: average times filled quantity is the money of all fills of each submission, first as aggressor and later at rest; no average is outside its limit; per side submitted = resting + traded + cancelled with the same traded total; the tick is that of all trades |
| Submissions.RunTaken | server/src/ProcessUnit/Market/NewOrder.cpp:110-182 | over every run: each submission in the ledger was taken, with the terms of its request, when no order with its id rested and, for BuyMinus, the last change of the trade price until then was none or upward, for SellPlus downward; and every trade is between opposite sides, at the limit of the one that rested, no worse than the limit of the other |
| Submissions.RunRests | server/src/OrderBook.cpp:79-106 | over every run each resting order is what is left of one request, at its price and with everything else it gave; its status is PartiallyFilled if some of it was traded and NewOrder if not |
| Reporting.AddTells | server/src/OrderBook.cpp:198-248 | the events of any add, by the book before and after: in book order, each owner traded with is told the price the order rested at, the quantity it lost, and the order with exact remainder and average; whoever is not told lost nothing; then the taker is told the last trade, all it bought and its exact average, unless nothing was traded or the tick rule stopped it |
| Reporting.AddPlaces | server/include/Server/OrderBook.inl:65-76 | what is left of the taker, by what the other side lost, is placed behind every order at its price or better and in front of every worse one, with the right status; nothing is placed if it bought all |
| AddProperties.EventAccounting | server/include/Server/OrderBook.inl:49-62 | one event per traded resting order, then one for the taker exactly if something was traded and the tick rule did not stop it; the quantities add up; Filled means nothing remains; Buy and Sell are never stopped |
| AddProperties.AddPriority | server/include/Server/OrderBook.inl:20-56 | price-time priority as seen in the book before and after add |
| AddProperties.CancelUndoesAdd | server/src/OrderBook.cpp:79-129 | an order nothing was traded with can be cancelled, and then resting orders, tick and events are as if it had never come |
| OrderBook.BookSide.AddToBook | server/include/Server/OrderBook.inl:65-76 | the level is found or created in its place, the order appended to its list, and the id map points at the new last node |
| OrderBook.BookSide.RemoveFromIdMap | server/src/OrderBook.cpp:187-196 | the id is gone, and whether it was there |
| OrderBook.BookSide.CancelOrder | server/include/Server/OrderBook.inl:78-83 | the level is found by its price and the node erased from its list; the level stays |
| OrderBook.OrderBook.RecomputeTick | server/src/OrderBook.cpp:257-270 | the tick follows the two remembered prices |
| OrderBook.OrderBook.ComputeTick | server/src/OrderBook.cpp:250-255 | a trade at a price |
| OrderBook.OrderBook.AllowTick | server/src/OrderBook.cpp:17-28 | recomputes the tick and answers for it |
| OrderBook.OrderBook.FillOrder | server/src/OrderBook.cpp:198-248 | skips the user's own orders; otherwise both orders, the event and the status are those of one fill of the smaller quantity, and the event tells the owner price, quantity and exact new average |
| OrderBook.OrderBook.FillAt | server/include/Server/OrderBook.inl:33-47 | one turn of the inner loop, with the erasure, the index stepping back, the id map and the tick |
| OrderBook.OrderBook.FillLevel | server/include/Server/OrderBook.inl:33-56 | the inner loop is the pass over the level, for any index adjustment on the way |
| OrderBook.OrderBook.FillOnBook | server/include/Server/OrderBook.inl:9-63 | both loops are the sweep: levels, id map, tick, events and what is returned |
| OrderBook.OrderBook.Add | server/src/OrderBook.cpp:79-106 | the whole new book, whether the id rests already or not; the invariant kept if it does not; an unsupported side changes nothing |
| OrderBook.OrderBook.GetOrderIdInfo | server/src/OrderBook.cpp:169-185 | the entry of the side asked for |
| OrderBook.OrderBook.Cancel | server/src/OrderBook.cpp:108-129 | the whole new book, the invariant kept; an unsupported side changes nothing |
| OrderBook.OrderBook.Has | server/src/OrderBook.cpp:30-45 | the id is in one of the maps |
| OrderBook.OrderBook.HasOn | server/src/OrderBook.cpp:47-63 | the id is in the map of a supported side |
| OrderBook.OrderBook.GetOrder | server/src/OrderBook.cpp:65-76 | the resting order with that id |
| OrderBook.OrderBook.ProcessNewOrder | server/src/ProcessUnit/Market/NewOrder.cpp:110-182 | tick check, then duplicate check, then add; the reply tells which applied, by the tick and the resting orders; the book is that of add if the order is acknowledged and untouched if it is not |
| OrderBook.OrderBook.ProcessCancel | server/src/ProcessUnit/Market/Cancel.cpp:155-197 | unknown order, wrong quantity, or cancelled with the order as it was; the book is untouched unless it is cancelled |
| TicketLine.LineIssue | server/include/Server/ProcessUnit/MarketRouter.inl:10-14 | a new ticket keeps the tickets of its pipeline in the order of its requests |
| TicketLine.LineReport | server/src/ProcessUnit/Market/NewOrder.cpp:52-59 | withdrawing the ticket of an order that keeps going does too |
| TicketLine.LineDrop | shared/Thread/include/Shared/Thread/QueueMutex.inl:44-54 | so does withdrawing the ticket of a request that is rejected |
| TicketLine.LinePop | shared/Thread/include/Shared/Thread/QueueMutex.inl:11-18 | and popping the front one |
| TicketLists.FinishIsWithout | shared/Thread/include/Shared/Thread/QueueMutex.inl:44-54 | with distinct ids, erasing the last ticket with an id leaves exactly the tickets with other ids |
| TicketInvariant.StepInv | server/src/ProcessUnit/Market/NewOrder.cpp:23-185 | every step of the router, the input stages and the workers keeps the invariant of the protocol; what the check lets through is stated by TicketChecks |
| TicketInvariant.BeforeKeepsFront | server/src/ProcessUnit/Market/Cancel.cpp:19-63 | while a worker holds the front, no new ticket and no withdrawal moves it |
| TicketSafety.TicketsMerge | server/include/Server/ProcessUnit/MarketRouter.inl:10-14 | in every reachable state the ticket queue is an order-preserving merge of the two pipelines, and each pipeline is in the order of issue |
| TicketSafety.MutualExclusion | shared/Thread/include/Shared/Thread/QueueMutex.inl:4-9 | although test and set are separate steps, at most one worker is past its look at the front, its ticket is there, and it never finds m_lock set |
| TicketSafety.HolderKeepsTicket | shared/Thread/include/Shared/Thread/QueueMutex.inl:11-18 | no step of anyone takes the holder's ticket from the front but its own release, which pops that ticket |
| TicketSafety.FrontIsThere | server/src/ProcessUnit/Market/Cancel.cpp:44-45 | the cancel pipeline's look at the front never meets an empty queue |
| TicketSafety.EmptyQueueSpins | shared/Thread/include/Shared/Thread/QueueMutex.inl:4-9 | while the queue is empty a turn of the spin loop ends at its first read and changes nothing else |
| TicketSafety.Serialised | server/src/ProcessUnit/Market/NewOrder.cpp:86-156 | in every run the book is the sequential fold of the executed requests, executed in the order of their tickets, each at most once; so everything proved of sequential runs holds |
| TicketFate.TypeStopsOrders | server/src/ProcessUnit/Market/NewOrder.cpp:52-59 | behind an order of another type, otherwise fine, no order is executed in any run |
| TicketChecks.OrderChecked | server/src/ProcessUnit/Market/NewOrder.cpp:23-74 | in every reachable state, what the check does with an order: turned away if incomplete or a Limit order on an unknown side; pushed if a Limit order and fine; without its ticket but going on if of another type |
| TicketChecks.CancelChecked | server/src/ProcessUnit/Market/Cancel.cpp:19-61 | in every reachable state, what the check does with a cancel: turned away if incomplete, ends the stage on an unknown side, and otherwise goes on if and only if an order with the id rests that was sent in with exactly that side |
| TicketChecks.Forwards | server/src/ProcessUnit/Market/NewOrder.cpp:52-73 | what goes on is pushed to the worker, but for an order of another type on an unknown side, which is dropped |
| TicketChecks.TurnedAwayForever | server/src/ProcessUnit/Market/Cancel.cpp:22-38 | what the check turned away has no ticket and is executed in no continuation |
| TicketChecks.OnlyFineExecute | server/src/ProcessUnit/Market/NewOrder.cpp:86-156 | in every run only complete requests of type Limit on a known side are executed |
| TicketFate.CrashStopsMarket | server/src/ProcessUnit/Market/Cancel.cpp:19-37 | a complete cancel on an unsupported side keeps its ticket for ever, and no request issued after it is executed in any run |
| TicketFate.BlockedStays | server/src/ProcessUnit/Market/NewOrder.cpp:52-73 | a blocked request of either kind is never executed and keeps its ticket, and nothing issued after it is executed |
| TicketFate.TypeStopsMarket | server/src/ProcessUnit/Market/NewOrder.cpp:52-59 | behind a complete Limit order behind such an order, no request at all is executed in any run |
| TicketFate.EmptyMeansExecuted | server/src/ProcessUnit/Market/NewOrder.cpp:23-74 | when the queue is empty, every complete Limit order on a supported side has been executed |
| TicketStranded.StrandedStays | server/src/ProcessUnit/Market/Cancel.cpp:66-113 | a request left in the queue of a worker that was stopped keeps its ticket in every run on from there, and nothing issued behind it is executed |
| TicketProgress.StepWorks | server/src/ProcessUnit/Market/NewOrder.cpp:86-185 | every step but the issue of a ticket brings the requests nearer to done, except idle turns of a spin loop away from the front, which lose nothing |
| TicketProgress.FrontCanMove | shared/Thread/include/Shared/Thread/QueueMutex.inl:4-54 | while there is a ticket and the request of the front one is neither blocked nor stranded, the owner of it has a step that brings its request on |
| TicketProgress.FrontStepPersists | shared/Thread/include/Shared/Thread/QueueMutex.inl:4-54 | that step stays the next one, and possible, whatever the other threads do, unless the request is stranded before it |
| TicketProgress.Drain | server/include/Server/ProcessUnit/MarketRouter.inl:10-14 | with no new arrivals these steps, no more than the measure, empty the queue or bring a blocked or stranded request to its front; they strand no other |
| TicketProgress.DrainsIffNotJammed | server/src/ProcessUnit/Market/NewOrder.cpp:52-73 | in a reachable state the queue can be emptied if and only if no blocked request was issued: no complete cancel on an unsupported side, and no complete Limit order behind an otherwise fine order of another type |
| TicketProgress.ExecutesIffNotStopped | server/src/ProcessUnit/Market/NewOrder.cpp:23-156 | in a reachable state a complete Limit order on a supported side can be executed if and only if there was issued before it no otherwise fine order of another type, no complete cancel on an unsupported side and no cancel that such a crash has left behind |
| TicketJams.CrashJams | server/src/ProcessUnit/Market/Cancel.cpp:115-119 | a run from the start after which only a new arrival or an idle turn is possible while the ticket of a cancel on an unsupported side waits |
| TicketJams.TypeJams | server/src/ProcessUnit/Market/NewOrder.cpp:52-73 | such a run for a Limit order behind an order of another type |
| TicketJams.StrandJams | server/src/ProcessUnit/Market/Cancel.cpp:66-80 | a run from the start after which a fine cancel of a resting order is left behind by its worker and only a new arrival or an idle turn is possible |
| TicketProgress.AnySchedule | server/src/ProcessUnit/Market/Cancel.cpp:19-113 | however the threads are scheduled, without new arrivals all but a bounded number of steps are idle turns |
| QueueMutex.QueueMutex.Allow | shared/Thread/include/Shared/Thread/QueueMutex.inl:36-42 | the ticket is last |
| QueueMutex.QueueMutex.Withdraw | shared/Thread/include/Shared/Thread/QueueMutex.inl:44-54 | the last ticket with the id, and no other, is gone; if there was none nothing changes, and the flag says which |
| QueueMutex.QueueMutex.Unlock | shared/Thread/include/Shared/Thread/QueueMutex.inl:11-18 | the flag is clear and the front ticket gone |
| Session.StepInv | server/src/ProcessUnit/Network/TCPInput.cpp:80-81 | every send and read keeps the numbers of both counters and of all messages on their way tied to the counts of messages sent and read |
| Session.AnswerNumbers | client/back/src/ProcessUnit/User/Auth.cpp:50-51 | the answer to the Logon brings the counters together, but for what the server had not read when it stamped it |
| Session.CountersAgree | client/back/src/ProcessUnit/Network/TcpOutput.cpp:19-30 | after the exchange, each counter plus the messages on their way to it is the same on both sides, modulo 2^32 and but for the unheard messages |
| Session.ServerCheckExact | server/src/ProcessUnit/HeaderValidation.cpp:83-88 | when exactly a message passes the server's check, for all counts and with wrap-around |
| Session.ClientCheckExact | client/back/src/ProcessUnit/HeaderValidation.cpp:83-88 | when exactly a message passes the client's check, the mixed widths included |
| Session.BeforeLogin | server/src/ProcessUnit/HeaderValidation.cpp:76-90 | until it is logged in the client numbers its messages 2, 4, 6, ... and the server 1, 3, 5, ..., whatever is read in between; and every message passes a reader that is not logged in; no second answer to a Logon is on its way to a client that is logged in |
| Session.LoggedInIffAsked | server/src/ProcessUnit/User/Logon.cpp:29-53 | in every run the server is logged in if and only if a valid Logon is among the messages it has read |
| Session.SilentClient | server/src/ProcessUnit/User/Logon.cpp:38-53 | a client that is silent between its Logon and the answer leaves nothing unheard, whatever it sent and had refused before and whatever else happens in between |
| Session.UnheardIsFixed | client/back/src/ProcessUnit/User/Auth.cpp:33-51 | how much was unheard at the answer never changes again, and the client stays logged in |
| Session.SilentSession | client/back/src/ProcessUnit/User/Auth.cpp:33-51 | and nothing is unheard for the rest of the session, in every continuation |
| Session.ChecksMeanAllRead | server/src/ProcessUnit/Network/TCPOutput.cpp:20-31 | then a message passes its reader's check if and only if its sender had, when sending, read everything the reader has sent by the time it reads it |
| Session.UnheardIsFatal | server/src/ProcessUnit/HeaderValidation.cpp:76-88 | with anything unheard, the server rejects every message the logged-in client sends |
| Session.HastyClient | client/back/src/ProcessUnit/Network/TcpOutput.cpp:15-45 | a run in which a message of a client that has read everything is rejected |
| Peers.InternalClient.OnRead | server/src/ProcessUnit/Network/TCPInput.cpp:80-81 | a read moves the counter of a logged-in client |
| Peers.InternalClient.OnSend | server/src/ProcessUnit/Network/TCPOutput.cpp:20-31 | the number stamped and the counter after it |
| Peers.InternalClient.VerifyUserSpecific | server/src/ProcessUnit/HeaderValidation.cpp:64-91 | before the login accepted if and only if the target is right; after it if and only if target, sender and number are; and which is blamed otherwise |
| Peers.InternalClient.OnLogon | server/src/ProcessUnit/User/Logon.cpp:29-53 | only the first Logon of a session takes effect |
| Peers.InternalClient.Disconnect | server/src/InternalClient.cpp:53-59 | back to the first state |
| Peers.InternalClient.NextSeqNumber | server/src/InternalClient.cpp:76-79 | one more, in 32 bits |
| Peers.User.OnRead | client/back/src/ProcessUnit/Network/TcpInput.cpp:36-37 | a read moves the counter once logged in |
| Peers.User.OnSend | client/back/src/ProcessUnit/Network/TcpOutput.cpp:19-30 | the number stamped and the counter after it |
| Peers.User.VerifyUserSpecific | client/back/src/ProcessUnit/HeaderValidation.cpp:65-91 | before the login accepted if and only if the sender is right; after it if and only if sender, target and number are; and which is blamed otherwise |
| Peers.User.OnLogon | client/back/src/ProcessUnit/User/Auth.cpp:50-51 | every Logon takes effect |
| Peers.User.NextSeqNumber | client/back/src/User.cpp:22-25 | one more, in 64 bits |
| FixText.SplitText | shared/Utils/include/Shared/Utils/Utils.inl:17-27 | the getline loop computes the pieces between separators |
| FixText.SplitTerminated | shared/Utils/include/Shared/Utils/Utils.inl:17-27 | splitting undoes terminating, for any pieces without the separator |
| FixText.TerminatedSplit | shared/Utils/include/Shared/Utils/Utils.inl:17-27 | terminating undoes splitting up to the last separator: there is no trailing empty piece |
| FixText.KeyValueMeans | server/src/ProcessUnit/Network/TCPInput.cpp:97-101 | a token is taken for the field (k, v) if and only if it is k=v with v not empty, or k=v=, with no = in k or v |
| CheckSum.CountCheckSum | server/src/ProcessUnit/Network/TCPInput.cpp:184-191 | the sum of a token and of its separator, signed chars, 32 bits |
| CheckSum.AddCheckSum | server/src/ProcessUnit/Network/TCPOutput.cpp:57-63 | the message and its trailer with the exact sum modulo 256 |
| CheckSum.TrailerBytes | server/src/ProcessUnit/Network/TCPOutput.cpp:57-63 | the trailer byte by byte: 10=, the sum of the unsigned bytes modulo 256 in decimal, SOH |
| CheckSum.FromCharsMeans | shared/Message-v2/src/FixConvertor.cpp:320-331 | exactly the texts of one or more digits with a value below 256 are read as a byte |
| CheckSum.FromDecimal | shared/Message-v2/src/FixConvertor.cpp:320-331 | reading back a written checksum gives its value |
| Receiver.BuildHeader | server/src/ProcessUnit/Network/TCPInput.cpp:86-155 | the loop over the tokens, its early exits and the final check compute the reply |
| Receiver.DeliveredExactly | server/src/ProcessUnit/Network/TCPInput.cpp:86-155 | a message reaches the output queue if and only if it is in order and its last field is a checksum equal to the sum of all bytes before it, despite wrap-around and the subtraction of the last token; those bytes and that field make up the data |
| Reception.ReceiveExactly | server/src/ProcessUnit/Network/TCPInput.cpp:86-217 | the decision about any bytes: which of the six rejects, in which order, or what header and body are delivered, told by the fields, by where the header ends and by the last field |
| Receiver.RoundTrip | client/back/src/ProcessUnit/Network/TcpInput.cpp:43-112 | for any list of fields without separators, what the sender appends is accepted, and header and body come out as the header makes of the fields |
| Receiver.SingleByteDetected | server/src/ProcessUnit/Network/TCPInput.cpp:193-217 | one byte changed before the checksum field, the last separator included, and the message never reaches the output queue |
| NetBuffer.CheckMeans | shared/Network/src/Buffer.cpp:69-75 | the check that guards every read allows it exactly if the bytes are there, despite the wrap-around of size_t |
| NetBuffer.ReadAllSafe | shared/Network/include/Shared/Network/Buffer.inl:34-67 | on any bytes the cursor never passes the end, a failure is sticky, and a failed reader does not move |
| NetBuffer.ReadAllBack | shared/Network/src/Buffer.cpp:5-35 | any list of values is read back from the middle of any bytes |
| NetBuffer.WrittenMeans | shared/Network/include/Shared/Network/Buffer.inl:7-32 | a number lies on the wire most significant byte first, a string behind its length |
| NetBuffer.ReadFixed | shared/Network/include/Shared/Network/Buffer.inl:34-67 | a value of fixed size is taken if its bytes are there; if not the old one is left and the reader fails where it stands |
| NetBuffer.ReadString | shared/Network/src/Buffer.cpp:24-35 | a string is as long as its length says, or empty, with the cursor behind what could be read |
| NetBuffer.Buffer.PutStr | shared/Network/src/Buffer.cpp:14-22 | the length in 32 bits and as many bytes |
| NetBuffer.Buffer.GetStr | shared/Network/src/Buffer.cpp:24-35 | the string, or an empty one, and the cursor |
| NetBuffer.Buffer.GetU32 | shared/Network/include/Shared/Network/Buffer.inl:47-56 | the number, or what was there before |
| NetBuffer.Buffer.GetF32 | shared/Network/include/Shared/Network/Buffer.inl:58-67 | the bytes of the number, or what was there before |
| NetBuffer.Buffer.CheckSize | shared/Network/src/Buffer.cpp:69-75 | the validity after the check; if it holds the bytes are there |
| NetBuffer.Buffer.Reset | shared/Network/src/Buffer.cpp:47-50 | only the cursor changes: a failure is not forgotten |
| NetBuffer.Buffer.Clear | shared/Network/src/Buffer.cpp:52-56 | the bytes are gone: a failure is not forgotten here either |
| Ipc.BodySizeExact | client/shared/IPC/src/Helper.cpp:6-159 | every builder's BodySize is the number of bytes written after the header if and only if that number fits 32 bits, and always is modulo 2^32 |
| Ipc.RebuildFields | client/shared/IPC/src/Message/Authentification.cpp:7-55 | what the output operators write of any message are values of the kinds the input operators of its type ask for, and rebuild the message |
| Ipc.ReadMessageSafe | client/shared/IPC/src/Header.cpp:10-14 | reading a message from any bytes keeps the cursor inside and a failure sticky |
| Ipc.ReadBack | client/shared/IPC/src/Header.cpp:5-14 | one message built is read back, whatever follows it |
| Ipc.StreamRoundTrip | client/shared/IPC/include/Client/Shared/IPC/IPCNetworkManager.inl:28-59 | any list of built messages, one after the other, is received as the same list, whatever follows |
| IpcLayout.EncodeLayout | client/shared/IPC/src/Helper.cpp:6-159 | every message byte by byte: its place in the enumeration, the length of the body, the values of the body in their order |
| IpcLayout.UnknownType | client/shared/IPC/src/Header.cpp:10-14 | a type outside the enumeration is not read beyond the header |
| IpcLayout.DeliverEnds | client/shared/IPC/include/Client/Shared/IPC/IPCNetworkManager.inl:28-59 | which bytes the receive loop takes for a message, and where it ends |
| IpcNetwork.PutHeader | client/shared/IPC/src/Header.cpp:5-8 | type, then size |
| IpcNetwork.PutExecution | client/shared/IPC/src/Message/Execution.cpp:5-8 | the eight values in their order |
| IpcNetwork.PutBody | client/shared/IPC/src/Message/Authentification.cpp:7-55 | for each type the values of the body in their order |
| IpcNetwork.Build | client/shared/IPC/src/Helper.cpp:6-159 | the bytes of the whole message in a new buffer |
| IpcNetwork.GetHeader | client/shared/IPC/src/Header.cpp:10-14 | type and size |
| IpcNetwork.GetExecution | client/shared/IPC/src/Message/Execution.cpp:10-17 | the eight values in their order, from any bytes |
| IpcNetwork.GetOrder | client/shared/IPC/src/Message/OrderSingle.cpp:10-17 | the five values in their order, from any bytes |
| IpcNetwork.GetBody | client/shared/IPC/src/Message/TokenValidation.cpp:12-30 | for each type the values of the body, from any bytes |
| IpcNetwork.GetMessage | client/GUI/src/BackManager.cpp:100-135 | header, then the body its type calls for; a type outside the enumeration leaves the rest unread |
| IpcNetwork.ReceiveLoop | client/shared/IPC/include/Client/Shared/IPC/IPCNetworkManager.inl:28-59 | header, body, rewound buffer, one message after the other, up to the first body that does not arrive whole |
| HeartBeat.Clamp | server/src/ProcessUnit/User/Logon.cpp:47-47 | the interval is the most whole seconds within both what is asked for and what is configured, but at least one |
| HeartBeat.RunInv | server/src/ProcessUnit/User/HeartBeat.cpp:51-149 | what every logon, heartbeat and poll keeps |
| HeartBeat.DropsOnlyTheSilent | server/src/ProcessUnit/User/HeartBeat.cpp:129-149 | a TestRequest is outstanding exactly while its value is kept; a client is dropped only more than two intervals after its last accepted heartbeat or its logon and more than one after the unanswered TestRequest |
| HeartBeat.UnansweredStays | server/src/ProcessUnit/User/HeartBeat.cpp:62-90 | over every run without a HeartBeat that carries its value a TestRequest stays outstanding, and the client counts as heard no later |
| HeartBeat.AnswerAnswers | server/src/ProcessUnit/User/HeartBeat.cpp:88-101 | a HeartBeat with the value ends it |
| HeartBeat.LeavingIsLeftAlone | server/src/ProcessUnit/User/HeartBeat.cpp:129-132 | polls never change anything about a client that is to be disconnected or is not logged in |
| HeartBeat.SilentIsDropped | server/src/ProcessUnit/User/HeartBeat.cpp:123-151 | a client that sends no HeartBeat before its TestRequest and none with the value after it is dropped, at most two gaps between polls later than two intervals after it was last heard |
| HeartBeat.HeartBeatInfo.OnLogon | server/src/ProcessUnit/User/Logon.cpp:29-47 | the first Logon starts the watch |
| HeartBeat.HeartBeatInfo.ProcessHeartBeat | server/src/ProcessUnit/User/HeartBeat.cpp:62-102 | accepted exactly if no TestRequest is outstanding or the id is its value, and what changes then; otherwise nothing changes, and which reject is sent |
| HeartBeat.HeartBeatInfo.Watch | server/src/ProcessUnit/User/HeartBeat.cpp:129-149 | exactly when a TestRequest is sent, with the current second as its value, and exactly when the client is dropped; otherwise nothing changes |

## Left out

- Floating point: quantities and prices are `float` in the program and exact reals here; rounding is not modelled, and on the
  wire a float is the four bytes it lies in.
- The sign of a quantity: the program does not check it. A new order is taken to ask for a positive quantity, since filling
  divides by the quantity filled so far.
- Reads after an erasure: the sweep reads an order's id after erasing its node and `cancel` uses an id map entry after
  removing it. The model copies first and erases then.
- `std::map`, `std::list` and iterators are value-level lists and handles: a look-up by price and an erasure through an iterator
  are walks along a list here, not steps in a tree or at a link.
- The shared mutexes of the id maps: the check a cancel makes before it is queued is one read of the book.
- The end of a crashed market: the program reports the exception to its core, which shuts the server down; a run here has
  no such step, and the router and the order pipeline go on. A worker may leave whenever it holds nothing and its stage has
  crashed; in the program it must have found its queue empty first. `getOrder` finding the order gone between the two reads
  of a cancel's check is not modelled.
- QueueMutex.QueueMutex: the blocking spin of `lock` is not a method; its reads and its assignment are steps of `Tickets`,
  over sequentially consistent memory. The two calls of `finish` for an unsupported side are one step. A worker without
  a ticket that asks an empty queue for its front, which the program leaves undefined, is told another id.
- Execution ids are taken to be unique, as the random ids of the program are meant to be. Stopping the threads and draining the
  queues at shutdown are not modelled.
- The session: receiving and checking, and stamping and sending, are one step each, with one message per read; the program
  spreads them over threads. Logout, disconnection and reconnection are not part of the runs of `Session`, only of `Peers`.
- Session.ChecksMeanAllRead: stated for fewer than 2^32 messages; `Session.ServerCheckExact` and `Session.ClientCheckExact` say
  what holds without that bound.
- The FIX-Message library (`fix::Header`, `fix::Message`, parsing of message bodies) is not part of this model: what a header
  makes of a field is a parameter. The round trip assumes only that no header takes tag 10.
- FIX BodyLength and the three digits of a FIX checksum: the program writes neither as FIX 4.2 asks; only its own round trip
  is stated.
- Ipc.StreamRoundTrip: bodies of 2^31 bytes and more are outside, because a receive returns an int; a receive is taken to return
  all it is asked for if so much has arrived. Variables a failed read leaves uninitialised are zero here.
- IpcNetwork.ReceiveLoop: ends at a body that does not arrive whole, where the program reports the wrong size and goes on with
  whatever comes next. So does `Ipc.Deliver`. The type of `IpcNetwork.GetMessage` is any of the enumeration's; each handler of
  the program reads the types it knows and logs the others.
- HeartBeat.HeartBeatInfo: the value of a TestRequest is the second it is made of, not its text; the interval is computed in
  reals; each handler is one step.
- Sockets, the selector, process spawning, the database, configuration, logging, the user interface, the acknowledgements
  and rejects as FIX text, and the routing of messages to handlers.
