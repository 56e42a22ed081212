# UrjaSetu verification

A Dafny model of UrjaSetu's simulated energy marketplace, and proofs about it. It covers the
connected ledger of orders, trades, forecasts, meter readings, settlements and receipts; the
market session behind its boundary check; publication of receipts to the write-once registry;
the hash-linked audit log under concurrent appenders; telemetry ingestion; the baseline
forecast; the grid dataset and its verdict; and settlements that append and supersede.

`dafny verify dfyconfig.toml` checks everything.

## How the model is laid out

- `Base`, `Orders`: sums, rounding, orders, order books, proposals.
- `Matching`: the merit-order double auction. `Market`: the boundary check and the fill loop,
  behind any engine that answers in whole units. `MarketSessions`: the life of a session.
- `Ledger`: the tables of the connected marketplace as one value and, for every operation, the
  state it leaves or the error it raises. `Workspace`: the service itself, a class whose fields
  are the tables and whose methods update them by loops; each is proved to do what `Ledger`
  says, rollback included.
- `Admission`, `Clearing`, `Chronology`, `Effects`: what each operation does, said over the tables
  and without the functions of `Ledger`: who may place or accept what, what a clearing trades, who
  is served first, and what the clock operations meter and forecast.
- `Runs`: any sequence of operations from the empty community, and the invariant every step
  keeps (`Trading`, `Delivery`). `Theorems`, `DirectMatch`, `Deadlines`: what follows for whole
  runs. `ReplayLoss`: a run whose replay fails. `Greedy`: the arithmetic of the two-sided
  allocator.
- `Publication`: the protocol between database, worker and registry, step by step.
  `PublicationCalls`: when a call confirms. `PublicationFate`: which receipts still can be.
  `Outbox`: the worker's loop over receipts in place.
- `AuditChain`, `AuditLog`: sealing and verification; concurrent transactions.
- `Predictions`: which measurements a forecast is made of.
- `Telemetry`, `Forecasting`, `GridDataset`, `GridVerdict`, `SettlementHistory`: the services and
  adapters of those names.

Units are the columns' own: energy in 0.0001 kWh, prices in 0.0001 INR/kWh, money in paise,
time in microseconds. At these scales the final `quantize(..., ROUND_DOWN)` of a delivery is the
identity, and the half-even rounding of an amount is `Base.RoundHalfEven`. Rows are named by the
position they were created at, which stands for their UUID; ties the code breaks by creation
time and id are broken by that position. Times, users and proposals come in as parameters, and
so do the grid solver's verdict, the dynamic price, the synthetic meter and the forecast of a
site (`Ledger.Env`): every result holds for all of them.

## What is proved

Over every run of the marketplace, refused operations included: forecast surplus is never
oversold; an order is matched by exactly the energy of its committed and settled trades; no
reading is allocated beyond its export or import; the chronological allocator delivers at least
half of what any feasible allocation could; a trade is settled exactly when it has one
allocation, reconciliation, settlement and receipt; the journal sums to zero and agrees with the
portfolio figures; buyers and sellers stay within their limits to half a paisa a settlement; a
retried accept is free.

Some claims turned out to need a condition. Each is proved as an exact condition, with a
concrete failing case where the condition is not obvious:

- `recover_missing` does not see what it has staged itself (`backend/app/db/session.py:65`), so
  it succeeds exactly when no two due trades lack the same reading.
- With delayed mining a receipt whose committed transaction reverted, or can only revert, is
  never confirmed by any run; every other receipt still can be.
- An audit event older than the tail is accepted once and then wedges the log: verification
  fails from then on and no later transaction can add a row. In every reachable log verification
  passes exactly when the log can still grow.
- The audit documentation says that any removed event is detected. Removal of the last rows is
  not, and neither is dropping the default `payload_version` key from a stored payload.
- The telemetry documentation says a violated natural key becomes a `duplicate` outcome. For
  readings without a measurement it is an error, because those are classified before duplicates.
- A session clears exactly when the boundary check passes, no pairing is stored twice for one
  delivery start, and the moment given is not before the closing. `clear_session` leaves every fill
  number at its default, so an engine that splits a pairing passes the check and fails at the unique
  key of the trades table; a moment before the closing fails at the session row. The shipped auction
  never repeats a pairing, so only an early moment stops it. Quantities finer than the column unit
  pass the check too, and then the stored trades and orders disagree.
- A baseline forecast divides by zero under a capacity of -1 as soon as a point has samples, and
  under a lower capacity exactly when the samples scatter about it by its distance from -1, which
  samples that are not negative never do.
- The forecast bounds enclose the prediction, and fit the table, exactly when the configured
  capacity does not round to a negative power; the service's check looks at neither.
- `market_service` checks a sell against the forecast on its own: two sells of one session can
  together exceed the surplus. Its boundary check leaves prices free of the orders' limits. Only
  the connected workspace rules out both.
- `_validate_result` of the settlement service does not look at the trade the calculator answers
  about, and the one-standing-settlement rule depends on it.

## Model

| member | source | states |
|---|---|---|
| Matching.MatchIsSound | backend/app/domain/policies/market_matching.py:107-151 | every proposal pairs a live buyer and a live seller of different users inside both limits, at their midpoint, over their common window |
| Matching.MatchWithinRemaining | backend/app/domain/policies/market_matching.py:101-157 | no order is proposed for more than it has left, and a spent or dead order for nothing |
| Matching.MatchIsMaximal | backend/app/domain/policies/market_matching.py:107-157 | of any two entries that could still trade, one is full: no bargain is left on the table |
| Matching.NoBuyerPassedOver | backend/app/domain/policies/market_matching.py:108-157 | when a later buyer takes a seller an earlier buyer could have taken, the earlier buyer is full |
| Matching.PriorityAmongBuyers | backend/app/domain/policies/market_matching.py:83-99 | the same over the book itself: price, then time, then id decides among buyers |
| Matching.NoSellerPassedOver | backend/app/domain/policies/market_matching.py:112-157 | when a buyer takes a later seller although an earlier one would have served it, the earlier seller is empty |
| Matching.PriorityAmongSellers | backend/app/domain/policies/market_matching.py:92-99 | price, then time, then id decides among the sellers of the book |
| Matching.MatchPairsOnce | backend/app/domain/policies/market_matching.py:107-157 | the auction proposes each pairing of a buyer and a seller at most once |
| Matching.MeritFacts | backend/app/domain/policies/market_matching.py:83-99 | the merit order is exactly the live entries of a side, each once, best first |
| Matching.Run | backend/app/domain/policies/market_matching.py:69-173 | the nested loops compute `Match`, the function the other results are about |
| Matching.RunRow | backend/app/domain/policies/market_matching.py:112-157 | stopping at a full buyer changes nothing: the inner loop equals a visit to every seller |
| Market.CheckIsExact | backend/app/services/market_service.py:566-620 | the boundary check passes exactly the outputs with known orders on the right sides, positive quantities, non-negative prices, real windows and totals within remaining |
| Market.BaselinePasses | backend/app/services/market_service.py:566-620 | the shipped auction always passes that check |
| Market.FillEffect | backend/app/services/market_service.py:479-486 | after the fill loop each order is matched by exactly what the proposals name it for, and its status says whether that fills it |
| Market.SidesMoveTogether | backend/app/services/market_service.py:387-389 | buy and sell sides are matched by the same total energy |
| Market.CheckIsExactlyStrongEnough | backend/app/services/market_service.py:566-620 | for well-shaped proposals, no order ends overfilled if and only if the totals pass |
| Market.ValidateResult | backend/app/services/market_service.py:566-620 | one pass with running totals finds the first complaint, or none exactly for a valid output |
| Market.CheckTotals | backend/app/services/market_service.py:599-620 | the totals pass exactly when no order is committed beyond what it has left |
| Market.PricesAreFree | backend/app/services/market_service.py:566-620 | the check passes any non-negative price, inside the limits or not |
| MarketSessions.OutputErrorExact | backend/app/services/market_service.py:330-393 | as far as session, orders and trades decide: clearing goes through exactly for a closed session, an engine that answers in whole units, a valid output, no pairing stored twice for one delivery start, and a moment not before the closing |
| MarketSessions.PlacedIff | backend/app/services/market_service.py:149-255 | exactly which orders a session takes, and how they enter |
| MarketSessions.WithdrawnIff | backend/app/services/market_service.py:267-283 | an order is withdrawn exactly while it is open or partly filled |
| MarketSessions.MomentsNoted | backend/app/services/market_service.py:137-140 | closing and clearing note their moments, clearing adds the trades and fills each order by what they take from it, and nothing else moves |
| MarketSessions.RepeatedPairingIsRefused | backend/app/db/models/market.py:274-283 | the same proposal twice, within what both orders have left, passes the boundary check and is refused by the unique key of the trades table |
| MarketSessions.BaselineClears | backend/app/db/models/market.py:90-97 | the shipped auction clears a closed session exactly at a moment not before it closed; an earlier moment is refused by the session row |
| MarketSessions.ShippedEngineClears | backend/app/services/market_service.py:316-440 | so whatever came before, and at every such moment |
| Market.StoredExactlyIff | backend/app/db/models/market.py:238 | a quantity is stored as it is exactly when it is a whole number of column units |
| Market.WholeUnitsAddUp | backend/app/services/market_service.py:479-486 | trades in whole units are stored as what they add up to on their order |
| Market.FinerQuantitiesDisagree | backend/app/services/market_service.py:566-620 | two trades of 0.00006 kWh are stored as twice what they leave on their order, and one of 0.00004 as nothing |
| MarketSessions.StepKeeps | backend/app/services/market_service.py:122-440 | placing, withdrawing, closing and clearing each keep orders, trades and totals in agreement |
| MarketSessions.SessionBalances | backend/app/services/market_service.py:316-440 | over any life of a session and any engine that answers in whole units, each order is matched by exactly its trades and never beyond its energy, its status agrees, and both sides are matched for the same total |
| MarketSessions.ClearedIsFinal | backend/app/domain/enums.py:474-480 | a cleared session clears no more; afterwards orders can only be withdrawn |
| MarketSessions.SurplusCanBeOfferedTwice | backend/app/services/market_service.py:505-531 | two sells of one session can together exceed the surplus each was checked against |
| MarketSessions.MarketSession.PlaceOrder | backend/app/services/market_service.py:149-255 | the checks in their order, one new open order, or the error and no change |
| MarketSessions.MarketSession.CancelOrder | backend/app/services/market_service.py:267-283 | only an active order is withdrawn |
| MarketSessions.MarketSession.Close | backend/app/services/market_service.py:122-141 | succeeds exactly for an open session at a moment not before it opened |
| MarketSessions.MarketSession.Clear | backend/app/services/market_service.py:316-440 | succeeds exactly for a closed session, an engine that answers, a valid output, no repeated pairing and a moment not before the closing; then every fill is applied, and any refusal leaves session, orders and trades as they were |
| MarketSessions.MarketSession.ApplyAll | backend/app/services/market_service.py:387-389 | the loop applies every proposal to both of its orders |
| Workspace.Workspace.PlaceOrder | backend/app/services/workspace_service.py:401-489 | the ledger's placement: same checks in the same order, one new open order, or the error and no change |
| Workspace.Workspace.SumReserved | backend/app/services/workspace_service.py:424-443 | the loop totals exactly what the site's sells hold: matched, plus remaining while active |
| Workspace.Workspace.CancelOrder | backend/app/services/workspace_service.py:492-502 | only the owner's open, unmatched order becomes cancelled |
| Workspace.Workspace.Process | backend/app/services/workspace_service.py:676-776 | one proposal: skipped, or priced, judged against grid and limits, and booked on both orders |
| Workspace.Workspace.ProcessAll | backend/app/services/workspace_service.py:676-777 | the proposal loop folds that over the slot |
| Workspace.Workspace.ProcessSlot | backend/app/services/workspace_service.py:634-700 | one slot: book, match, grid verdict, proposals |
| Workspace.Workspace.ClearMarket | backend/app/services/workspace_service.py:634-781 | all slots in time order, or rollback; returns where its trades begin |
| Workspace.Workspace.AcceptOffer | backend/app/services/workspace_service.py:505-571 | the direct match with its idempotency record, or rollback of every part of it |
| Workspace.Workspace.MeasureDelivery | backend/app/services/workspace_service.py:793-817 | what seller export and buyer import leave for a trade, or nothing while one is not usable |
| Workspace.Workspace.Pay | backend/app/services/workspace_service.py:847-882 | the settlement row, its two opposite postings and the receipt |
| Workspace.Workspace.SettleTrade | backend/app/services/workspace_service.py:785-891 | all rows of one settlement together, or none |
| Workspace.Workspace.ReconcileDue | backend/app/services/workspace_service.py:784-891 | due trades in chronological order, each against what the earlier ones left |
| Workspace.Workspace.MeterSite | backend/app/services/workspace_service.py:156-221 | readings are added where there is none; existing ones stay |
| Workspace.Workspace.MeterAll | backend/app/services/workspace_service.py:188-221 | the same for every site, in any order |
| Workspace.Workspace.WriteSolar | backend/app/services/workspace_service.py:247-265 | the loop writes one solar point for each of the 96 slots of the day and touches no other |
| Workspace.Workspace.WriteLoad | backend/app/services/workspace_service.py:247-265 | the load run joins its points to the solar ones, slot by slot |
| Workspace.Workspace.ForecastSite | backend/app/services/workspace_service.py:224-266 | a site is forecast for the day unless it has been, and then nothing of it changes |
| Workspace.Workspace.ForecastSites | backend/app/services/workspace_service.py:224-266 | site by site, in any order, exactly the sites without a run for the day get one, as if all were forecast at once |
| Workspace.Workspace.AdvanceClock | backend/app/services/workspace_service.py:894-917 | the clock loop ends exactly after the counted intervals; then metering, settlement, forecasts |
| Workspace.Workspace.TickClock | backend/app/services/experience_service.py:62-76 | the clock follows the wall clock, the passed intervals are metered, due trades settled |
| Workspace.Workspace.GoLive | backend/app/services/experience_service.py:45-59 | the clock is reset to wall time and thirty days are metered |
| Workspace.Workspace.OpenAccount | backend/app/services/workspace_service.py:269-349 | a new household with its readings and its forecast, or a refusal |
| Workspace.Workspace.RecoverMissing | backend/app/services/workspace_service.py:920-938 | staged readings are flushed once, then due trades settle; a repeated one loses the whole replay |
| Trading.PlaceKeeps | backend/app/services/workspace_service.py:424-443 | a placed order is backed by unreserved surplus and keeps the book in agreement |
| Trading.CancelKeeps | backend/app/services/workspace_service.py:492-502 | cancelling keeps the book in agreement and frees only what was reserved |
| Trading.FillOneKeeps | backend/app/services/workspace_service.py:676-776 | one proposal, accepted, rejected or skipped, keeps orders and trades in agreement, and the proposals after it still fit |
| Trading.FillAllKeeps | backend/app/services/workspace_service.py:676-776 | so does a whole slot, including a rejection partway through several proposals on one order |
| Trading.SlotFits | backend/app/services/workspace_service.py:655-676 | whatever the auction proposes for a slot fits the orders of the slot |
| Trading.ClearKeeps | backend/app/services/workspace_service.py:634-781 | a whole clearing keeps agreement and promises no more energy of any site and slot |
| Trading.AcceptKeeps | backend/app/services/workspace_service.py:505-571 | so does a direct match |
| Orders.BookShows | backend/app/services/workspace_service.py:655-676 | the engine is shown each eligible order with its own owner, limit and times, and what it has left or the cap |
| Clearing.ClearsEverySlot | backend/app/services/workspace_service.py:644-777 | after a successful clearing every slot has been matched: each proposal of the auction on its eligible orders is a new trade of that slot or one of its orders ended rejected, every new trade is one of those proposals, priced by its quote and committed exactly in a safe slot inside both limits, and a slot that matches nothing gets no trade |
| Clearing.EverySlotIsListed | backend/app/services/workspace_service.py:644-653 | each slot has its list of eligible orders, so the statement covers every slot |
| Clearing.NewTradesAreBargains | backend/app/services/workspace_service.py:676-776 | each new trade joins an open buy and an open sell of one slot, of different households, at the middle of crossing limits, for no more than either had left |
| Admission.TomorrowIsMidnight | backend/app/services/workspace_service.py:224-229 | tomorrow begins at Indian midnight after the clock and lasts a day |
| Admission.PlacedIff | backend/app/services/workspace_service.py:401-489 | over the tables: exactly who may place which order, and the order that enters |
| Admission.WithdrawnIff | backend/app/services/workspace_service.py:492-502 | an order is withdrawn exactly by its owner while nothing of it is matched; another household's is not found |
| Admission.AcceptChecksIff | backend/app/services/workspace_service.py:526-560 | the checks of an accept pass exactly for an offer still there and either an order of the caller's own that is active, opposite, of the same slot and large enough, or leave to place one |
| Admission.OthersOrderIsNotFound | backend/app/services/workspace_service.py:533-540 | another household's order named as one's own is not found |
| Admission.AcceptIsTheCallers | backend/app/services/workspace_service.py:505-571 | a successful fresh accept commits the caller's own order, named or new, against the offer of another household |
| Delivery.SettleOneKeeps | backend/app/services/workspace_service.py:785-891 | settling one committed trade writes one agreeing row of each kind and keeps every meter within its reading |
| Delivery.DueExact | backend/app/services/workspace_service.py:785-789 | the due list is exactly the due trades, each once, by delivery start and then creation |
| Delivery.ReconcileEffect | backend/app/services/workspace_service.py:784-891 | exactly the due trades both of whose meters were read become settled |
| Delivery.ReconcileIdempotent | backend/app/services/workspace_service.py:784-891 | reconciling again at the same clock and readings changes nothing |
| Chronology.FirstComeFirstServed | backend/app/services/workspace_service.py:784-825 | the rows a reconciliation adds are of exactly the due, measured trades, in order of delivery start and then creation, and each takes the least of its quantity and what both meters have left after the rows before it |
| Chronology.SettledNow | backend/app/services/workspace_service.py:848-860 | new settlements are dated at the clock, and orders, readings and earlier settlements stay |
| Delivery.ForecastAllKeeps | backend/app/services/workspace_service.py:224-266 | forecasts are written once per site and day |
| Effects.AddReadingsExactly | backend/app/services/workspace_service.py:156-221 | metering fills exactly the slots asked for that have no reading, each valid, a quarter of an hour long, with what the meter exported and imported; a missing meter fills none |
| Effects.ForecastAllExactly | backend/app/services/workspace_service.py:224-266 | each site without a run for tomorrow gets all 96 slots of it, and nothing else changes |
| Effects.SlotsOfTomorrow | backend/app/services/workspace_service.py:224-229 | those slots are the quarter hours of the Indian day after the clock's |
| Effects.AdvancesIff | backend/app/services/workspace_service.py:894-903 | an advance is refused exactly beyond two days, or for want of a delivery |
| Effects.NothingToDeliver | backend/app/services/workspace_service.py:897-900 | without a committed trade there is nothing to deliver |
| Effects.AdvanceLeaves | backend/app/services/workspace_service.py:894-917 | it ends at the first quarter hour at or after its goal, with every site metered on the way, due trades settled and the next day forecast |
| Effects.TickLeaves | backend/app/services/experience_service.py:62-76 | the clock becomes the last quarter hour of wall time; the passed intervals of thirty days at most are metered, due trades settled, and tomorrow forecast if any passed |
| Effects.LiveLeaves | backend/app/services/experience_service.py:45-59 | going live sets clock and scenario, meters thirty days and forecasts tomorrow |
| Effects.RegisterLeaves | backend/app/services/workspace_service.py:269-349 | a household is admitted exactly when neither it nor its site is known, with its past readings and its forecast |
| Effects.RecoverLeaves | backend/app/services/workspace_service.py:920-938 | a successful replay meters exactly the slots due trades want, under the normal profile, and reconciles |
| Greedy.HalfOfAny | backend/app/services/workspace_service.py:811-817 | an allocation in which every short trade has an exhausted side is at least half of any feasible one |
| Runs.StepKeeps | backend/app/services/workspace_service.py:401-938 | every operation keeps the invariant and takes nothing back |
| Runs.RunKeeps | backend/app/api/deps.py:18-31 | so does any sequence of them, refusals rolled back |
| Runs.Reachable | backend/app/services/workspace_service.py:401-938 | every reachable state satisfies the invariant |
| DirectMatch.PairMatch | backend/app/domain/policies/market_matching.py:69-173 | for two compatible orders capped alike, the auction proposes exactly their one bargain |
| DirectMatch.AcceptCommitsExactly | backend/app/services/workspace_service.py:505-571 | a fresh accept commits one trade of exactly the requested energy between the two orders and touches nothing else |
| DirectMatch.AcceptSucceedsIff | backend/app/services/workspace_service.py:505-571 | a fresh accept goes through exactly when its checks pass, there is energy to trade, the slot is safe and the quote lies inside both limits |
| DirectMatch.RetryIsFree | backend/app/services/workspace_service.py:515-525 | after a successful accept, in every later state, the same request gets the same trade and changes nothing, and a different body is refused |
| DirectMatch.TwoAcceptsShareTheOffer | backend/app/services/workspace_service.py:505-571 | two accepts of one offer together take at most what it had left |
| Theorems.SoldByOrder | backend/app/services/workspace_service.py:767-776 | counted by trade or by sell order, the energy sold is the same |
| Theorems.NoOverselling | backend/app/services/workspace_service.py:424-443 | in every reachable state, for each site and slot, sold energy is at most what sells hold, and that is at most forecast generation less load, if any |
| Theorems.BookAgreesWithTrades | backend/app/services/workspace_service.py:767-776 | in every reachable state an order's matched energy is the sum of its committed and settled trades, within its energy, and its status matches |
| Theorems.PricesWithinLimits | backend/app/services/workspace_service.py:708-737 | every committed or settled trade is priced inside both limits, between different users |
| Theorems.MetersNeverOverdrawn | backend/app/services/workspace_service.py:793-842 | no reading is allocated beyond its export or import over a run; delivered and balancing energy make up the commitment |
| Theorems.HalfOptimalDelivery | backend/app/services/workspace_service.py:784-825 | over any run, delivered energy is at least half of what any feasible allocation of the settled trades could deliver |
| Theorems.SettledExactlyOnce | backend/app/services/workspace_service.py:784-891 | a trade is settled exactly when it has one allocation, reconciliation, settlement and receipt, and never two |
| Theorems.RowsTellTheTrade | backend/app/services/workspace_service.py:815-882 | in every reachable state allocation, reconciliation, settlement, postings and receipt of one trade agree: parties, agreed and delivered energy, and the amount at the trade's own price, half-even to the paisa |
| Theorems.JournalSums | backend/app/services/workspace_service.py:863-864 | opposite postings sum to zero, and per account to credits less debits |
| Theorems.MoneyIsConserved | backend/app/services/workspace_service.py:1089-1097 | in every reachable state the journal sums to zero and each balance is earned less spent as the portfolio computes them |
| Theorems.LimitsHoldRunWide | backend/app/services/workspace_service.py:843-864 | over n settlements a buyer pays at most delivered energy at its limits plus 0.005 n INR, and a seller receives at least that less 0.005 n INR |
| Theorems.HistoryIsKept | backend/app/services/workspace_service.py:156-266 | forecasts, readings, actions, settlement rows and settled or refused trades are never changed later |
| Theorems.ReconcilingTwice | backend/app/services/workspace_service.py:784-891 | in every reachable state reconciling twice is reconciling once |
| Deadlines.AdvanceDeliversAll | backend/app/services/workspace_service.py:894-917 | from an aligned clock with the past measured, a successful delivery run stops at the last delivery and leaves no committed trade |
| Deadlines.ClockStaysAligned | backend/app/services/experience_service.py:24-25 | the clock stays on quarter hours, although it may move back |
| Deadlines.StagedExact | backend/app/services/workspace_service.py:926-934 | the replay stages exactly the readings due trades lack |
| Deadlines.RecoverSucceedsIff | backend/app/services/workspace_service.py:920-938 | it succeeds if and only if no two due trades lack the same reading |
| Deadlines.RecoverSettles | backend/app/services/workspace_service.py:920-938 | when it succeeds, every due trade whose existing readings are usable is settled |
| ReplayLoss.ReplayCanBeLost | backend/app/services/workspace_service.py:920-938 | from the empty community, two registrations, one offer, two purchases of it and an unmetered day lead to a replay that always fails |
| Publication.NextKeeps | backend/app/adapters/ledger/evm.py:48-94 | every protocol step, crash and mining included, keeps the registry, the transactions and the rows in agreement |
| Publication.PublicationIsSafe | backend/app/adapters/ledger/evm.py:48-94 | under any interleaving the registry holds nothing or exactly the digest, at most one transaction succeeded for a key, and a stored confirmation names it |
| Publication.ConfirmationIsFinal | backend/app/services/workspace_worker.py:73-82 | confirmations, known transactions, digests and registry entries are never taken back |
| PublicationCalls.DelayedCallConfirmsIff | backend/app/adapters/ledger/evm.py:56-94 | with mining left for later, a call confirms exactly when the known transaction succeeded, or none is known and the digest is recorded |
| PublicationCalls.CallLeaves | backend/app/adapters/ledger/evm.py:48-94 | under whatever the node answers: the transaction the receipt knows afterwards, whether another was sent, and its status |
| PublicationCalls.AtMostOneTransaction | backend/app/adapters/ledger/evm.py:72-83 | with mine-on-send at most one transaction is ever sent for a receipt, whatever crashes and lost replies come between |
| PublicationCalls.NextCallConfirms | backend/app/adapters/ledger/evm.py:56-94 | and the next undisturbed call confirms it |
| PublicationFate.DoomedStays | backend/app/adapters/ledger/evm.py:84-90 | a receipt whose committed transaction reverted, or must, is confirmed by no run |
| PublicationFate.ConfirmableIff | backend/app/adapters/ledger/evm.py:72-94 | exactly the other receipts can still be confirmed |
| PublicationFate.LostReplyThenDelayCanDoom | backend/app/adapters/ledger/evm.py:84-90 | a concrete run puts the digest on the chain and leaves its receipt unconfirmable |
| PublicationFate.VerifiesIff | backend/app/adapters/ledger/evm.py:97-117 | verification accepts exactly the payload whose digest a successful transaction recorded |
| Outbox.Outbox.MineOne | blockchain/ReceiptRegistry.sol:10-16 | the contract records a non-empty digest once per key and reverts otherwise |
| Outbox.Outbox.Submit | backend/app/adapters/ledger/evm.py:48-83 | the first half of `publish`, in place, is the protocol's |
| Outbox.Outbox.Call | backend/app/adapters/ledger/evm.py:48-94 | so is the whole call, with the receipt as an error leaves it |
| Outbox.Outbox.PublishReceipt | backend/app/services/workspace_worker.py:76-82 | a failed call is kept as pending and committed |
| Outbox.Outbox.Cycle | backend/app/services/workspace_worker.py:73-82 | the loop publishes the picked receipts in turn, each committed on its own |
| Outbox.PublishIsLocal | backend/app/services/workspace_worker.py:76-82 | a call touches its own row only |
| Outbox.QuietCycleConfirms | backend/app/services/workspace_worker.py:73-82 | a quiet cycle with mine-on-send confirms every receipt it picked |
| AuditChain.VerifyChain | backend/app/domain/policies/audit_chain.py:150-198 | the walk reports intact exactly for an intact chain, and otherwise the first broken row with exactly its problems |
| AuditChain.SameHashSamePast | backend/app/domain/policies/audit_chain.py:116-147 | two intact chains that agree on one hash agree on everything up to it |
| AuditChain.OnlyPrefixesVerify | backend/app/domain/policies/audit_chain.py:150-198 | any selection of a chain's rows, in any order and with repeats, verifies exactly when it is a prefix |
| AuditChain.RemovalDetectedIff | backend/app/services/audit_service.py:402-410 | removing a row is detected unless it is the last |
| AuditChain.SwapDetected | backend/app/services/audit_service.py:402-410 | swapping two rows is always detected |
| AuditChain.RewriteDetectedIff | backend/app/services/audit_service.py:402-433 | rewriting a row before the end passes only if nothing hashed changed; the last row can be resealed |
| AuditChain.EditDetectedIff | backend/app/services/audit_service.py:413-433 | an edited event under its stored hash is detected exactly when a field differs, or the payloads differ in more than the presence of the default version |
| AuditChain.SealKeeps | backend/app/domain/interfaces/audit.py:77-85 | sealing keeps every field and payload entry, adds at most the default version, and hashes what is stored |
| AuditChain.IntactRows | backend/app/domain/policies/audit_chain.py:116-147 | in an intact chain each row follows the one before it and carries the hash of its event as stored, or with the default version put back |
| AuditChain.DroppedVersionPasses | backend/app/domain/interfaces/audit.py:77-85 | dropping the version key from a stored payload changes the row and still verifies |
| AuditChain.AnchoringIsHarmless | backend/app/services/audit_service.py:441-470 | any sequence of anchorings leaves the chain as read unchanged and never replaces a reference |
| AuditLog.ListChainAscends | backend/app/repositories/audit.py:82-96 | the listing holds every row once, by moment and then by id |
| AuditLog.LinkExact | backend/app/services/audit_service.py:86-88 | an event is stored as given, hashed as stored, behind a row none was recorded after |
| AuditLog.Extend | backend/app/db/models/audit.py:104-116 | a row linked to the newest row is admitted only when that is the tail, and then extends the line |
| AuditLog.NextKeeps | backend/app/services/audit_service.py:77-104 | recording, committing and aborting, in any interleaving, keep one line and what open transactions may still do |
| AuditLog.OneLineNeverAFork | backend/app/db/models/audit.py:104-116 | whatever the interleaving and timestamps, committed rows are one hash-linked line from one genesis |
| AuditLog.AppendsIff | backend/app/services/audit_service.py:77-104 | a new event enters the log exactly when the tail is the newest row |
| AuditLog.WedgedForever | backend/app/repositories/audit.py:66-80 | once it is not, no run adds another row |
| AuditLog.VerifyPassesIff | backend/app/services/audit_service.py:402-410 | in every reachable log verification passes exactly when the tail is the newest row |
| AuditLog.LateEventWedges | backend/app/repositories/audit.py:66-96 | one event older than the tail is accepted, breaks verification and is the last ever |
| AuditLog.OnTimeChainsVerify | backend/app/repositories/audit.py:66-96 | while each event is newer than what its transaction sees, latest is the tail, listing is commit order, and the chain and every prefix verify |
| AuditLog.AuditTable.Record | backend/app/services/audit_service.py:77-104 | one appended row that keeps every field and payload entry of the event, hashed as stored, behind the newest row; or a refused insert and no change |
| AuditLog.AuditTable.AnchorEvent | backend/app/services/audit_service.py:441-470 | one field of one row, once |
| AuditLog.AuditTable.Verify | backend/app/services/audit_service.py:402-410 | sort, cut to the limit, walk |
| Telemetry.EachKeeps | backend/app/services/telemetry_service.py:120-141 | keys stay unique, stored rows stay, one outcome per reading |
| Telemetry.BatchRefinesSequential | backend/app/services/telemetry_service.py:144-207 | a batch succeeds exactly when its readings one by one all succeed, with the same outcomes and rows |
| Telemetry.StreamBatches | backend/app/adapters/meter/simulator_adapter.py:310-319 | the slices are the consecutive chunks; a size that is not positive is refused |
| Telemetry.ChunkSizeIsIrrelevant | backend/app/adapters/meter/simulator_adapter.py:310-319 | the chunk size changes neither success nor outcomes nor rows |
| Telemetry.ConstraintFailsIff | backend/app/domain/policies/telemetry_quality.py:86-130 | exactly when a known reading makes the insert fail |
| Telemetry.StatusExactly | backend/app/domain/policies/telemetry_quality.py:86-130 | each of the seven statuses, and exactly when a reading has it over the rows before it |
| Telemetry.StoredIff | backend/app/services/telemetry_service.py:311-314 | a known reading is stored exactly unless it is impossible or a duplicate, as it is and with its status |
| Telemetry.LatestExactly | backend/app/repositories/telemetry.py:62-74 | the latest start of a series is the greatest stored, or none |
| Telemetry.RepeatedOutageRaises | backend/app/services/telemetry_service.py:311-314 | the same outage reported twice raises and takes its batch with it |
| Telemetry.ReplayStoresNothing | backend/app/domain/policies/telemetry_quality.py:105-111 | readings that carry measurements never fail, and submitting them again stores nothing |
| Telemetry.MirrorsContext | backend/app/services/telemetry_service.py:298-308 | what the table knows together with what the batch staged is exactly the context of both as one table |
| Telemetry.TelemetryStore.IngestReading | backend/app/services/telemetry_service.py:120-141 | one reading classified and stored, or the error and no change |
| Telemetry.TelemetryStore.Verify | backend/app/services/telemetry_service.py:171-177 | remembering checked meters and assets does not change what is unknown |
| Telemetry.TelemetryStore.IngestBatch | backend/app/services/telemetry_service.py:144-207 | the loop with its staged dictionaries computes the batch, all or nothing |
| Forecasting.GroupByTimeOfDay | backend/app/adapters/forecast/baseline.py:126-141 | each bucket is exactly the measured values of its time of day, in order |
| Forecasting.BoundsEncloseIff | backend/app/adapters/forecast/baseline.py:143-198 | lower, prediction and upper are in order exactly when there are no samples or the capacity does not round to a negative power |
| Forecasting.BoundsOrderedIff | backend/app/db/models/forecasting.py:147-150 | a point fits the table, which wants its bounds in order, exactly under the same condition, although the service does not check it |
| Forecasting.DividesIff | backend/app/adapters/forecast/baseline.py:168-182 | one of the two denominators of the stability is zero exactly for samples under a capacity of -1, or under one below -1 about which they scatter by exactly its distance from -1 |
| Forecasting.OuterDivisionFails | backend/app/adapters/forecast/baseline.py:180-181 | samples -1 and -2 under a capacity of -2 make the outer denominator zero and not the inner one |
| Forecasting.OrdinarySamplesFailIff | backend/app/adapters/forecast/baseline.py:168-182 | samples that are not negative make it zero exactly under a capacity of -1 |
| Forecasting.SomeDividesIff | backend/app/adapters/forecast/baseline.py:101-111 | a forecast raises exactly when the samples of one of its points are of that kind |
| Forecasting.StoredHistoryFailsIff | backend/app/db/models/telemetry.py:124-127 | on history the platform stored, where no channel is negative, it raises exactly under a capacity of -1 with samples for some point |
| Forecasting.Predict | backend/app/adapters/forecast/baseline.py:86-122 | the loop computes the points, refuses too few samples, and raises where a denominator of the confidence is zero |
| Predictions.SolarRestsOnGeneration | backend/app/adapters/forecast/baseline.py:161-211 | a solar point lies between the roundings of bounds on the generation measured at its time of day, is that rounding when all are equal, and is zero without confidence when none was |
| Predictions.LoadRestsOnLoad | backend/app/adapters/forecast/baseline.py:161-211 | the same for load |
| Predictions.SurplusRestsOnDifference | backend/app/adapters/forecast/baseline.py:161-211 | the same for what generation leaves above load where both were measured |
| Predictions.SolarIgnoresLoad | backend/app/adapters/forecast/baseline.py:201-206 | whatever the loads, a solar forecast is the same |
| Predictions.LoadIgnoresGeneration | backend/app/adapters/forecast/baseline.py:201-206 | whatever the generation, a load forecast is the same |
| Predictions.UsableCounts | backend/app/adapters/forecast/baseline.py:88-95 | the measurements counted against the minimum are those of the channel asked for |
| Predictions.BoundsAreOneDeviation | backend/app/adapters/forecast/baseline.py:164-175 | the bounds lie one sample deviation below and above the mean, rounded |
| Predictions.ConfidenceShrinks | backend/app/adapters/forecast/baseline.py:177-182 | the confidence is the share of days sampled, lowered by the deviation in proportion to the mean and one, rounded and kept within 0.05 and 1 |
| Predictions.SteadySamples | backend/app/adapters/forecast/baseline.py:177-182 | samples all alike leave it to their number alone |
| Forecasting.PointsTile | backend/app/adapters/forecast/baseline.py:97-111 | the points are the rounded-up quotient in number, each starting where the last ended |
| Forecasting.EveryMomentOnce | backend/app/adapters/forecast/baseline.py:101-111 | every moment of the horizon lies in exactly one point |
| Forecasting.ValidateResult | backend/app/services/forecast_service.py:312-362 | no complaint exactly for a trusted result, otherwise the first one |
| Forecasting.BaselinePasses | backend/app/services/forecast_service.py:312-362 | every baseline forecast for an admitted horizon passes the service's check |
| Forecasting.GatherHistory | backend/app/services/forecast_service.py:173-240 | one observation per interval start, oldest first, with the first row's end and each channel the sum of what was measured, absent when nothing was |
| GridDataset.BuildNetwork | backend/app/services/grid_validation_service.py:294-340 | the loop collects the edges of each kind over the nodes of the feeder |
| GridDataset.BuiltNetworkIsWellFormed | backend/app/services/grid_validation_service.py:309-333 | edge ids are distinct over both kinds, endpoints are nodes, and each node is a root or the far end of one edge |
| GridDataset.EdgesAreSteps | backend/app/services/grid_validation_service.py:313-333 | the edges of a kind are exactly the steps from a parent to a node of that kind, under its id and rating |
| GridDataset.FeederExactly | backend/app/services/grid_validation_service.py:294-296 | the nodes are those stored for the feeder |
| GridDataset.Number | backend/app/adapters/grid/power_grid_model_adapter.py:131-146 | consecutive numbers, one for each element |
| GridDataset.BuildDataset | backend/app/adapters/grid/power_grid_model_adapter.py:116-271 | every array refers to the right elements; a network without nodes is refused |
| GridDataset.IdsAreExactlyTheRange | backend/app/adapters/grid/power_grid_model_adapter.py:131-256 | over all arrays the solver ids are exactly the numbers from the offset to the returned next one |
| GridDataset.ReferencesAreNodes | backend/app/adapters/grid/power_grid_model_adapter.py:160-256 | every endpoint, source and injection refers to the node meant and no other |
| GridDataset.SlackExactly | backend/app/adapters/grid/power_grid_model_adapter.py:151-158 | the slack buses are the nodes without a parent in the network, or the first node when every node has one |
| GridDataset.KeptExactly | backend/app/adapters/grid/power_grid_model_adapter.py:230-236 | every injection at a known node is kept once, as generation if positive and as load otherwise |
| GridDataset.InjectionsBalance | backend/app/adapters/grid/power_grid_model_adapter.py:230-256 | generation less load is the sum of the injections at known nodes |
| GridDataset.ReverseInverts | backend/app/adapters/grid/power_grid_model_adapter.py:287-296 | the reverse maps lead each solver id back to its own edge and keep lines and transformers apart |
| GridVerdict.VoltageRange | backend/app/adapters/grid/power_grid_model_adapter.py:298-305 | lowest and highest finite voltage, or none |
| GridVerdict.ExtractLoadings | backend/app/adapters/grid/power_grid_model_adapter.py:307-333 | the finite loadings of rated elements and the greatest of them |
| GridVerdict.CollectOverloads | backend/app/adapters/grid/power_grid_model_adapter.py:342-365 | one violation for each loading above the full rating |
| GridVerdict.EvaluateExactly | backend/app/domain/policies/grid_limits.py:45-106 | the aggregate breaches are those of the four limits, each with what was observed and the limit |
| GridVerdict.MergeKeepsEveryType | backend/app/adapters/grid/power_grid_model_adapter.py:467-475 | merging drops no type of breach; the status is safe exactly when the merged list is empty |
| GridVerdict.Judge | backend/app/adapters/grid/power_grid_model_adapter.py:457-484 | safe exactly when every finite voltage is in the band and every rated, finite loading within its limit and the full rating |
| SettlementHistory.NextKeeps | backend/app/services/settlement_service.py:220-324 | a call keeps the standing settlement of each trade the last appended one |
| SettlementHistory.RunKeeps | backend/app/services/settlement_service.py:220-324 | so does any run, every row balances, and earlier rows keep their amounts |
| SettlementHistory.ActiveIsLast | backend/app/repositories/settlement.py:50-61 | the active settlement is the last appended, whatever the moments say |
| SettlementHistory.OneStandsIff | backend/app/services/settlement_service.py:265-285 | an accepted call keeps one standing settlement per trade exactly when the calculator answers about the right trade or one without any |
| SettlementHistory.DishonestCalculatorLeavesTwo | backend/app/services/settlement_service.py:265-285 | two accepted calls about one trade, the second asked about another, leave two settlements standing |
| SettlementHistory.OneReconciliationPerCommit | backend/app/services/settlement_service.py:249-265 | over any run, the reconciliations added are one for each committing call, refused settlements included, and the settlements one for each accepted call |
| SettlementHistory.AppendsAsAsked | backend/app/services/settlement_service.py:267-285 | an accepted call appends the calculation as given, standing, at the moment asked for, and supersedes what stood; any other call leaves the settlements alone |
| SettlementHistory.SettlementTable.SettleTrade | backend/app/services/settlement_service.py:220-324 | record, check, supersede and append, or the error with exactly what was committed |
| SettlementHistory.SettlementTable.SupersedeStanding | backend/app/services/settlement_service.py:267-270 | the loop supersedes what stands for the trade and nothing else |
| SettlementHistory.SettlementTable.ReconcileTrade | backend/app/services/settlement_service.py:151-190 | one reconciliation, complete or not |
| SettlementHistory.StandardPasses | backend/app/domain/policies/settlement.py:261-308 | for a measured delivery and a non-negative price the standard calculator passes the boundary and fits the tables |
| SettlementHistory.StandardAccounts | backend/app/domain/policies/settlement.py:168-205 | settled and balanced energy make up the commitment outside the tolerance; the debit is within half a paisa; the sides differ by what was retained |
| SettlementHistory.StandardCharges | backend/app/domain/policies/settlement.py:276-281 | fee and balancing charge are their fractions of the gross amount and of the balanced energy's price, to the nearest paisa |
| SettlementHistory.StandardRuns | backend/app/domain/policies/settlement.py:261-308 | every run of the standard calculator keeps one standing settlement per trade |

## Left out

- MarketSessions: what the site table, eligibility and the forecast answer comes with the request; several sessions and notifications are left out, and so is the workspace acting on a session's orders.
- The market session row, audit rows, the revision counter and receipt hashes are not part of the workspace state; audit and publication have models of their own.
- Other writers of the same tables are outside a workspace run: `market_service.cancel_order` may cancel partly filled orders, `forecast_service` may add later forecast runs, and `settlement_service` may settle or reconcile any trade id, workspace trades included.
- Readings with an energy asset, and several valid rows for one meter and interval, do not occur in the workspace state; `Telemetry` has the asset in its key.
- Branches that foreign keys or column constraints rule out (a trade without its order, price or grid evidence; a site without a meter; an order without its limit) are not modelled.
- `sim.clock` is not claimed to be monotone: `tick` and `enable_live` reset it to wall time.
- Audit events written in the same transaction as a step are left out of the workspace, the sessions and the settlements, so an audit log that refuses them (`AuditLog.WedgedForever`) is not among the reasons a step, an accept or a replay fails.
- Values that do not fit the width of their column (energies, prices, engine names) are left out; every number of the model is a whole number of its column's unit, which for an engine's answer is an assumption about the engine.
- The grid solve, the dynamic price, the synthetic curves and the weather are parameters; nothing is claimed about them, and a quote or a grid verdict whose own rows break their constraints counts as not given.
- Dictionaries and queries that only read (`Due`, `LastFill`, `OpenIds`, `Starts` in `Ledger`) are functions of the tables; the methods call them as the code calls the database.
- Workspace.Workspace.OpenAccount: registers households only; accounts without a site change no table of the model, and the e-mail and transformer checks are left out.
- Workspace.Workspace.MeterSite: visits the moments in an unspecified order, because readings at different moments do not depend on each other.
- Publication: SHA-256 keys are taken as distinct, so the registry is indexed by receipt; block numbers, chain id and contract address are not stored; the node's chain is not reorganised.
- PublicationCalls.NextCallConfirms: requires a non-zero digest, which the contract requires too.
- Outbox.Outbox.Cycle: the receipts it picks are any ten unconfirmed ones, as the query has no order; `tick`, `advance` and the weather refresh of the same cycle are not in it.
- AuditChain: canonical JSON is not modelled; a payload is a map of canonical values and the digest an arbitrary function, injective where detection is claimed.
- AuditLog: the wait of an insert for another transaction's row is folded into the decision at commit, which allows every behaviour the wait allows.
- Telemetry: notifications, site queries and aggregation are left out, and the error of a failing batch may differ from that of the first failing reading.
- Forecasting.BoundsEncloseIff: takes the standard deviation as the exact root of the sample variance and powers as reals until they are rounded; what floating point rounds to a zero denominator is not told from a denominator near it.
- GridDataset: voltages, impedances and watts are left out; the network has distinct node ids, as the primary key guarantees.
- GridDataset.BuildDataset: assumes the network is well formed, which `BuiltNetworkIsWellFormed` proves of every network the service builds.
- SettlementHistory: the audit events and notifications of a settlement, and how the request is assembled, are left out.
- HTTP, authentication, profiles, dashboards, the assistant, seeding, migrations and the frontend hold no property that spans operations.
