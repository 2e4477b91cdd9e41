# Padel club backend: model and proofs

A Dafny model of the backend that runs a padel club: who holds which court and when, what a booking
costs and who paid for it, tournaments and their brackets, and the small in-memory protocols behind
sessions, queues and rate limits. Each part is written the way the services write it, and the promises
its code and documentation make are proved for every input, every run of calls or every interleaving.

`dafny verify dfyconfig.toml` checks the whole project.

## What is modelled

**The club's tables** (`ClubData`, `RowMoves`, `Tables`). Slots, bookings, players, clubs, courts and fijo
prices as one database value; a row's id is its position. `Inv` gathers what every service relies on: a court
is BOOKED exactly when one live booking holds it, a slot an event holds is BLOCKED, (court, start) is unique,
credit is never negative, and a payment reference is on one booking at most. `Evolves` says what no later call
takes back. `Balance` is the credit ledger of a player.

**Services on those tables.** Each service is a class whose methods update the rows step by step, in the order
and under the conditions of the source, and is proved equal to a rule, a pure function of the old rows.
The laws are then proved about the rules.

| service | class | rules | laws |
|---|---|---|---|
| bookings and payments | `BookingsService` | `BookingRules` | `BookingLaws`, `BandCalls`, `ReleasedCourts`, `TransferMatching` |
| prices | `SlotPricingService` | `Pricing` | `Pricing` |
| events and bulk blocks | `CourtBlockServices`, `EventBands` | `CourtBlocks` | `CourtBlocks` |
| weekly bookings (fijos) | `RecurringService` | `RecurringRules` | `RecurringRules` |

`ClubRuns` puts the calls of all of them in one state machine and proves the promises over every run of atomic
calls. `Interleavings` splits reads from their conditional commits and proves what survives any interleaving;
`LateRevivals` says which bookings a late transfer can bring back there, `RefRaces` when two confirmations share a reference there,
`FijoRaces` when a weekly booking acts on what it read too long ago, and `TurnoOverlaps` when two turnos of a court overlap in time.

**Tournaments.** `Score`, `Draw`, `RoundRobin`, `Zonas` and `Standings` are the libraries of the competitions
module (results, brackets, the circle method and court waves, zonas, tables), with their loops proved against
the definitions. `Bracket` is the tree of linked matches under loads, changes and clears of results, over whole
runs; `BracketService` creates and updates its rows. `Categories` holds the rules of registration, drawing,
undoing, seeding and loading; `CategoryService` performs the drawing ones row by row; `CategoryLaws` and `CategoryRuns` prove what
holds over every run of calls on an event, `FixtureRuns` what a drawn fixture still holds after it, and `Champions` from where a
champion can still be crowned.

**In-memory protocols.** `SessionCache`, `SerialQueue` and `RateLimiter` are classes with the source's fields;
their promises are proved over all interleavings or runs. `SessionAge` puts the cache's runs on a clock.

**Derived views.** `Schedule` (the band grid), `Availability`, `NearestDates` and `MonthSeries`; `PriceDays` compares the two readings
of a price list.

## What the proofs found

The code is modelled as it is. Where it does less than it says, the exact condition is proved and a
concrete case shows the other side.

- A transfer made in time can bring back a booking that was removed from the club's lists: the query for expired
  candidates looks neither at removal nor at who cancelled. Over a run, removed bookings stay dead exactly when no unused transfer
  without a pending booking to wait for it finds, by its payer, one expired booking alone that was removed and whose court is free
  (`RemovedStaysDeadUnlessRevived`, `RemovedStayDeadExactly`, `RemovedComesBack`).
- A transfer is meant never to confirm somebody else's booking. The revive path does not read the receipt, so an expired booking
  that expects only its receipt's payer can be confirmed for a stranger (`StrangerConfirmsExactly`, `StrangerRevives`).
- A booking revived by a late transfer does not pay its applied credit again although the cancellation gave it back. Balances are
  conserved exactly when no unused transfer, without a pending booking to wait for it, finds by its payer one expired booking alone
  that carried a player's credit and whose court is free (`BalancesKeptExactly`, `BalancesConservedExactly`, `CreditComesBackTwice`).
- A band booking looks at the band's exact start and at nothing else, so after a change of opening time a turno can be sold over part of
  another: two live turnos of a court overlap exactly when one already sold runs into the band (`DeskKeepsApartExactly`,
  `BotKeepsApartExactly`, `HalfPastEightOverEight`).
- Confirmations look for their reference and write it later, and no unique index backs the look: a reference ends on two bookings
  exactly when a call confirms with one that another booking got while the call was past its look (`RefsSingleUseInFlightExactly`,
  `TwoLooksRepeat`).
- A fijo's apply flips the slots it read as free without looking again: a slot gets two live bookings exactly when one of them was
  sold meanwhile (`LateApplyExactly`, `SoldMeanwhileIsSoldTwice`).
- A band is offered at the price of its grid's day and its slot is repriced by the calendar day it starts on. Past midnight they agree
  exactly when the list gives both weekdays one price for that start (`RepricedAsOfferedExactly`, `SaturdayNightRepricedAsSunday`).
- The desk's confirmation skips the single-use check for a blank reference, so a blank one can end on two bookings
  (`DeskKeepsRefsExactly`, `BlankRefConfirmsTwo`). Transfers never repeat a reference.
- With reads and writes apart, a revive that read its booking before somebody else confirmed and settled it can still
  confirm it again: in every reachable state a settled booking is settled for good exactly when no such revive is in flight
  (`SettledForGoodExactly`, `StaleReviveReopensSettled`).
- Clearing the winner of a bye is accepted, and no result puts it back: results alone can crown a champion exactly when no bye has
  been cleared (`ClearingAByeIsAccepted`, `FreshByeCanBeCleared`, `ChampionReachableExactly`). Clearing the other results, undoing the
  draw and drawing again does put it back, so with every call of the event a champion is out of reach only when the event is cancelled
  (`ChampionReachableByCallsExactly`).
- The standings comparison is an order, and some listing follows it, exactly when no three level pairs beat each other in a circle
  (`TableHasAnOrderExactly`, `ListingExistsExactly`, `CircleHasNoOrder`).
- `nextAvailableDates` counts a band whose exact start is free even when a slot off the grid covers it: the count is
  never too low, and is right exactly when every clash starts with its band (`CheapCountExactly`, `OffGridSlotOverCounts`).
- `availableBandsForDate` groups by wall-clock start, so an early band of one court and a past-midnight band of another are
  shown as one (`BandsAtTheirTimeExactly`, `TwoMidnightsInOneBand`).
- `bulkBlock` counts a target twice when the request repeats it, although one row is inserted: its counters are right exactly when
  the targets that lack a row, and those that find a free one, have different court starts, and none of the starts that lack a row
  is another club's (`CreatedCountsExactly`, `FlippedCountsExactly`, `DuplicateStartsOverCount`, `DuplicateFreeRowsOverCount`).
- The comment on the session cache bounds by its lifetime how long a change that bypasses the forget takes to show. An entry lives
  that long from when it is stored, so a slow read adds its own duration: the bound holds exactly when no read of that user straddles
  the change (`AnswersOfTheRecentPast`, `ShowsInTimeExactly`, `SlowReadOutlastsLifetime`).

## Reading the statements

- A refused call returns an `Err` and, unless said otherwise, leaves every row as it was. Error constructors stand for the
  HTTP status of the exception; messages are left out.
- The clock is an input. The club's time zone is a strictly increasing function from wall-clock minutes to instants.
- Ids are what the database hands out: positions, or numbers from a counter, and inputs where a rule is a pure function.
- A method that copies its rule line by line has no row below: its contract says that it is the rule. Rows name the methods with a
  loop, a rollback or writes in another order than the rule's.
- A transaction is one atomic step; the unique index is a condition on the insert.
- Environment-tunable limits have their default values (30-minute payment window, 3 no-shows).

## Model

| member | source | states |
|---|---|---|
| ClubRuns.CourtsNeverDoubleBooked | src/bookings/bookings.service.ts:285-557 | After any run of calls a slot is BOOKED exactly when a live booking holds it, that booking is the only one, a slot an event holds is BLOCKED and held by nobody, and no court has two slots with one start |
| TurnoOverlaps.DeskKeepsApartExactly | src/bookings/bookings.service.ts:360-418 | A desk band booking that goes through leaves the live turnos of every court apart in time exactly when no turno sold on that court runs into the band |
| TurnoOverlaps.BotKeepsApartExactly | src/bookings/bookings.service.ts:598-660 | The same for the bot's band booking |
| TurnoOverlaps.HalfPastEightOverEight | src/bookings/bookings.service.ts:383-401 | A concrete club whose court moved its opening by half an hour: the desk books half past eight over the turno held from eight |
| ClubRuns.StepKeeps | src/bookings/bookings.service.ts:328-340 | Every call but a revival keeps all shared invariants, moves rows only forward and changes no player's balance |
| ClubRuns.StepLaw | src/bookings/bookings.service.ts:1291-1346 | Every call, revivals included, keeps the invariants, and moves a balance only by the credit a revival re-attaches |
| ClubRuns.RunLaw | src/bookings/bookings.service.ts:1291-1346 | The same over whole runs, the re-attached credit adding up |
| ClubRuns.DroppingAnEventFreesNoBookedCourt | src/competitions/competitions.service.ts:759-764 | Cancelling or deleting an event leaves the slot of every live booking untouched |
| ClubRuns.CreditLedger | src/bookings/bookings.service.ts:489-518 | Over any run credit is never negative, and credit plus credit on live bookings plus forfeited credit grew by exactly the transfers credited plus what revivals re-attached |
| ClubRuns.BalancesKeptExactly | src/bookings/bookings.service.ts:1291-1346 | A call leaves every player's balance as it was exactly when it is not an unused transfer that no pending booking waits for and whose payer matches one expired booking alone, one that carried a player's credit and whose court is free |
| ClubRuns.BalancesConservedExactly | src/bookings/bookings.service.ts:1291-1346 | Over any run every player ends with the balance it started with exactly when no transfer ever does that |
| ClubRuns.ReferencesSingleUse | src/bookings/bookings.service.ts:1204-1211 | Over any run a non-blank payment reference is on one booking at most, and it stays that booking |
| ClubRuns.ReviveOnlyTheNeverConfirmed | src/bookings/bookings.service.ts:1298-1312 | The revive path never picks a booking that was CONFIRMED at any earlier point of the run |
| ClubRuns.TaggedAmountsDistinct | src/bookings/bookings.service.ts:1074-1118 | While no allocation met a full bucket, pending bookings with allocated amounts wait for pairwise different amounts |
| ClubRuns.RemovedStaysDeadUnlessRevived | src/bookings/bookings.service.ts:1298-1336 | A call leaves a removed booking live exactly when it is an unused transfer that no pending booking waits for and whose payer matches one expired booking alone, a removed one whose court is free |
| ClubRuns.RemovedStayDeadExactly | src/bookings/bookings.service.ts:1298-1336 | Over any run no removed booking is ever live exactly when no transfer ever calls one back |
| BookingLaws.AllocateAmountLaw | src/bookings/bookings.service.ts:1096-1118 | The amount stays in the deposit's whole-peso bucket, within 99 cents, is the deposit itself when nobody waits for it, and is unused exactly when the bucket has a tag left |
| BookingLaws.RoomWhileUnderHundred | src/bookings/bookings.service.ts:1096-1118 | With fewer than 100 pendings in the bucket a free tag is always found |
| BookingLaws.ChargeLaw | src/bookings/bookings.service.ts:666-716 | Credit taken never exceeds what there is or the deposit; credit and transfer make the deposit up to its tag; without a transfer the booking is confirmed at once |
| BookingLaws.SpendAndPutKeeps | src/bookings/bookings.service.ts:666-716 | Taking the credit and creating the booking that carries it cancel out in the ledger, or neither happens |
| BookingLaws.CancellationIsFair | src/bookings/bookings.service.ts:489-518 | A cancellation credits transfer and credit, records the deposit as forfeited, or returns the credit of an unpaid booking; nothing is lost silently |
| BookingLaws.ReviveLaw | src/bookings/bookings.service.ts:1291-1346 | A revival keeps the invariants, rewrites only its booking, and re-attaches exactly the credit the cancellation had returned |
| BookingLaws.ReviveMatchIsRevivable | src/bookings/bookings.service.ts:1298-1312 | What is revived was cancelled, never paid, has no deposit outcome, and its transfer came inside the window |
| BookingLaws.PlayerMoveKeeps | src/bookings/bookings.service.ts:1553-1645 | A move by the player keeps all invariants: the old hour is freed, the new one held by the same booking |
| RowMoves.ReopenKeeps | src/bookings/bookings.service.ts:1325-1345 | Re-taking a slot for a cancelled booking keeps occupancy and references, and adds its credit to the balance |
| RowMoves.CloseOccupancy | src/bookings/bookings.service.ts:446-451 | Freeing the slot of a cancelled booking leaves no live booking on it |
| RowMoves.MoveToKeeps | src/bookings/bookings.service.ts:520-557 | Pointing a live booking at another free slot keeps all invariants and every balance |
| TransferMatching.TransferConfirmsExactly | src/bookings/bookings.service.ts:1197-1346 | A transfer confirms a booking if and only if it is unused and names it: by operation number, else by being the only pending one its payer matches, else as the only expired one its payer matches on a free court |
| TransferMatching.StrangersConfirmNothing | src/bookings/bookings.service.ts:1349-1376 | A booking that expects a payer is confirmed only by a transfer that carries its operation number or comes from an expected payer, save an expired one that expects only its receipt's payer |
| TransferMatching.StrangerConfirmsExactly | src/bookings/bookings.service.ts:1291-1346 | Exactly when a transfer that does not name a booking confirms it: an expired one expecting only its receipt's payer, the only one the payer is let through for, nothing pending, its court free |
| TransferMatching.ChosenExactly | src/bookings/bookings.service.ts:1360-1376 | A candidate is chosen by payer exactly when it matches and no other candidate does |
| TransferMatching.PendingMatchExactly | src/bookings/bookings.service.ts:1213-1282 | The pending booking a transfer names: the only one with its operation number, else the only one its payer matches |
| TransferMatching.ReviveMatchExactly | src/bookings/bookings.service.ts:1298-1336 | The expired booking a transfer brings back: the only one its payer matches, its court still free |
| BandCalls.BotBooksExactly | src/bookings/bookings.service.ts:598-660 | The bot's band booking goes through exactly when the band is of the club's court, ahead and free and the club takes the player; the booking holds that court and start, what is quoted is what the row says, the credit named left the account, and nothing else changed |
| BandCalls.CreateExactly | src/bookings/bookings.service.ts:666-730 | With the player's terms known, creation succeeds exactly when the band is free, whether it had a row or not; a lost band changes nothing |
| BandCalls.BookBandExactly | src/bookings/bookings.service.ts:360-418 | The same for the desk's band booking |
| BandCalls.PlayerMovesExactly | src/bookings/bookings.service.ts:1553-1645 | A player's move goes through exactly for a live booking of that phone and a band ahead and free; the booking lands there, its old hour is on sale at the list price, no other booking or hour changed, and a refusal changes nothing |
| BandCalls.PlaceTakesExactly | src/bookings/bookings.service.ts:383-401 | The existing row or a new one can take the booking exactly when every row at that court and start is a free one of the club |
| ReleasedCourts.CancelExactly | src/bookings/bookings.service.ts:424-480 | A cancellation is accepted exactly for a listed booking not yet cancelled; it closes that booking alone and puts its court back on sale at the list price |
| ReleasedCourts.SweepExactly | src/bookings/bookings.service.ts:1874-1920 | The sweep cancels exactly the bookings whose window is over with no receipt on file, puts exactly their courts back on sale at the list price, and touches nothing else |
| ReleasedCourts.ClosedThenRepriced | src/bookings/bookings.service.ts:1855-1867 | Closing a booking and repricing its slot leaves the slot free at the list price |
| Findings.DeskKeepsRefsExactly | src/bookings/bookings.service.ts:1745-1750 | A desk confirmation keeps every reference, blank ones included, on one booking exactly when it does not repeat a blank one |
| Findings.TransfersKeepRefs | src/bookings/bookings.service.ts:1204-1211 | A transfer never puts a reference, blank or not, on a second booking |
| Findings.BlankRefConfirmsTwo | src/bookings/bookings.service.ts:1745-1750 | A concrete club where two desk confirmations leave the blank reference on two bookings |
| Findings.RemovedComesBack | src/bookings/bookings.service.ts:1298-1312 | A concrete club where a transfer in time revives a removed booking |
| Findings.CreditComesBackTwice | src/bookings/bookings.service.ts:1325-1345 | A concrete club where a transfer in time revives a booking paid in part with credit: the player has the credit on the booking and in hand |
| Findings.StrangerRevives | src/bookings/bookings.service.ts:1311-1323 | A concrete club where a transfer of an unknown payer revives a booking that expects the payer on its receipt |
| BookingsService.BookingsService.TakePlace | src/bookings/bookings.service.ts:328-359 | Locks an existing slot or creates a booked one; otherwise nothing is written |
| BookingsService.BookingsService.PlaceBooking | src/bookings/bookings.service.ts:328-340 | Place and booking together, or neither |
| BookingsService.BookingsService.AllocateTransferAmount | src/bookings/bookings.service.ts:1096-1118 | The tag search in order equals the first free tag of the bucket |
| BookingsService.BookingsService.CreatePendingWithCredit | src/bookings/bookings.service.ts:666-730 | Credit, amount and booking in one transaction; a lost place gives the credit back |
| BookingsService.BookingsService.ReviveExpiredCandidate | src/bookings/bookings.service.ts:1291-1346 | The three writes happen together exactly when a candidate is chosen and its slot is free |
| BookingsService.BookingsService.FindAndCancelExpiredPending | src/bookings/bookings.service.ts:1874-1920 | The expiry sweep over the bookings read as expired, receipts on file excepted |
| BookingsService.BookingsService.MoveBooking | src/bookings/bookings.service.ts:537-551 | Old slot freed, new one locked, booking pointed at it; when the new one was taken in between all of it is undone |
| BookingsService.BookingsService.RescheduleToBandByPlayer | src/bookings/bookings.service.ts:1553-1645 | The player's move: new hour first, then the booking, then the old hour; false leaves everything as it was |
| Interleavings.NoDoubleBookingInFlight | src/bookings/bookings.service.ts:1325-1345 | At every point of every interleaving no slot has two live bookings, and a BOOKED slot is held by one live booking or by one revive about to bring its booking back |
| Interleavings.StaleCommitWritesNothing | src/bookings/bookings.service.ts:437-449 | A cancel or expiry whose booking changed since it was read writes nothing |
| Interleavings.ConfirmedKeepsItsCourt | src/bookings/bookings.service.ts:1839-1851 | A confirmed booking keeps its status, its BOOKED slot and its exclusivity through every interleaving, until a staff cancel that read it confirmed commits |
| Interleavings.RunKeeps | src/bookings/bookings.service.ts:328-334 | Occupancy, counting a revive that re-took its slot as its booking, holds of every interleaving |
| LateRevivals.SettledStaysSettled | src/bookings/bookings.service.ts:1298-1340 | A paid or settled booking stays settled through every interleaving when no revive that read it earlier is in flight |
| LateRevivals.InFlightCanReopen | src/bookings/bookings.service.ts:1298-1340 | From any reachable state where a revive that read the booking is in flight, a continuation leaves that booking not settled, whatever holds its slot |
| LateRevivals.SettledForGoodExactly | src/bookings/bookings.service.ts:1298-1340 | In every reachable state a settled booking stays settled through every continuation exactly when no revive that read it earlier is in flight |
| LateRevivals.StaleReviveReopensSettled | src/bookings/bookings.service.ts:1325-1345 | For any expired booking on a free slot, a run of eleven states where a revive still in flight confirms it again after it was settled |
| RefRaces.StepKeepsRefsExactly | src/bookings/bookings.service.ts:1204-1211 | One step of any interleaving keeps references single-use exactly when it does not confirm with one that another booking has |
| RefRaces.RefsSingleUseInFlightExactly | src/bookings/bookings.service.ts:1204-1211 | Over any interleaving of calls that look for their reference before they confirm, none is ever on two bookings exactly when no call confirms with one that another booking got while the call was past its look |
| RefRaces.TwoLooksRepeat | src/bookings/bookings.service.ts:1745-1750 | From any state with two pending bookings, two confirmations that both look before either writes leave one reference on both |
| Pricing.TargetPriceMeaning | src/pricing/slot-pricing.service.ts:47-74 | A sold slot keeps its price; a fijo's booking sets the fijo's price; otherwise the list does |
| Pricing.RepriceFutureSlotsSettles | src/pricing/slot-pricing.service.ts:80-122 | Every future slot in scope costs its target, sold ones keep their price, everything else is untouched |
| Pricing.RepriceFutureSlotsTwice | src/pricing/slot-pricing.service.ts:80-122 | Repricing again changes nothing |
| Pricing.RepriceSlotAgrees | src/pricing/slot-pricing.service.ts:131-155 | Repricing one slot does to it what the sweep does, and touches no other |
| Pricing.PriceBlind | src/pricing/slot-pricing.service.ts:47-74 | The target never depends on the price the slot has |
| PriceDays.RepricedAsOfferedExactly | src/pricing/slot-pricing.service.ts:60-74 | A free slot on a band of the grid is repriced to what the band is offered at exactly when the price list gives the grid's weekday and the weekday it starts on one price for that start |
| PriceDays.AlwaysAgreeExactly | src/pricing/slot-pricing.service.ts:60-74 | On every day and band of a court the two prices agree exactly when its list does that for every past-midnight band of every weekday |
| PriceDays.SaturdayNightRepricedAsSunday | src/availability/lib/pricing.ts:18-35 | With a Saturday exception at half past midnight, Saturday's last band is offered at 900 and repriced at 500 |
| SlotPricingService.ChangesCount | src/pricing/slot-pricing.service.ts:104-122 | The change list has one entry per slot the repricing changes |
| SlotPricingService.SlotPricingService.RepriceFuture | src/pricing/slot-pricing.service.ts:80-122 | The loop leaves the rows of the rule and returns how many slots changed |
| CourtBlocks.SyncLaw | src/competitions/competitions.service.ts:666-757 | A sync succeeds exactly when no booked slot is in the way and no new start is another club's; then every target is BLOCKED, the event holds nothing outside its targets and no booked slot changed; a refusal writes nothing |
| CourtBlocks.SyncKeeps | src/competitions/competitions.service.ts:666-757 | A sync keeps the shared invariants |
| CourtBlocks.SyncTwice | src/competitions/competitions.service.ts:666-757 | Syncing again right after changes nothing |
| CourtBlocks.SyncCovers | src/competitions/competitions.service.ts:697-714 | Every target's slot exists and is BLOCKED after a sync |
| CourtBlocks.SyncHoldsOnlyTargets | src/competitions/competitions.service.ts:732-735 | The event holds no slot outside its targets after a sync |
| CourtBlocks.SyncSpares | src/competitions/competitions.service.ts:732-741 | Booked slots, and slots neither the event's nor a target's, stay as they were |
| CourtBlocks.ReleaseLaw | src/competitions/competitions.service.ts:759-764 | Dropping an event frees exactly what it held, none of it booked |
| CourtBlocks.BulkBlockLaw | src/slots/slots.service.ts:123-206 | After a bulk block every target has a row that is not free; booked rows and rows off target are untouched |
| CourtBlocks.BulkUnblockLaw | src/slots/slots.service.ts:217-255 | A bulk unblock frees no booked slot and nothing an event holds |
| CourtBlocks.WindowMissesNothing | src/competitions/competitions.service.ts:683-694 | The overall window of the targets misses no slot that overlaps one |
| CourtBlockServices.PrefetchIsEnough | src/competitions/competitions.service.ts:683-694 | The pre-fetched slots hold every slot a target overlaps and the row standing exactly on it |
| CourtBlockServices.EnumerateDates | src/slots/slots.service.ts:258-275 | All days from first to last, refused when the last comes first |
| CourtBlockServices.CompetitionsService.SyncEventBlocks | src/competitions/competitions.service.ts:666-757 | One pass over the targets, then release, claim and create, equals the sync rule |
| CourtBlockServices.CompetitionsService.SortTargets | src/competitions/competitions.service.ts:697-722 | What the pass decides: conflict, rows to create, rows to claim, rows to keep |
| CourtBlockServices.SlotsService.BulkBlockSlots | src/slots/slots.service.ts:159-206 | The rows of the rule, and the three counters it returns |
| CourtBlockServices.SlotsService.BulkUnblockSlots | src/slots/slots.service.ts:217-255 | The rows of the rule, and how many slots were freed |
| CourtBlockServices.CreatedCountsExactly | src/slots/slots.service.ts:186-206 | The rows inserted are never more than those counted as created, and as many exactly when the targets without a row have different court starts and none is taken |
| CourtBlockServices.FlippedCountsExactly | src/slots/slots.service.ts:159-206 | The rows flipped are never more than those counted, and as many exactly when no two targets find the same free row |
| CourtBlockServices.DuplicateStartsOverCount | src/slots/slots.service.ts:140-206 | A repeated target is counted twice and inserted once |
| CourtBlockServices.DuplicateFreeRowsOverCount | src/slots/slots.service.ts:159-206 | A free row found by two equal targets is counted twice and flipped once |
| EventBands.NoBandMissed | src/competitions/lib/blocks.ts:31-49 | A band of any day's grid that overlaps a session is among those found in three days of grids |
| EventBands.FindBandsOverlapping | src/competitions/lib/blocks.ts:37-49 | The loop over three days keeps, by start, the bands that meet the window |
| EventBands.EventTargets | src/competitions/competitions.service.ts:673-681 | One target per court start; a target for every band that overlaps a session on any of the courts, and each target such a band, with its court's price |
| RecurringRules.OccurrenceDaysExact | src/recurring-bookings/recurring-bookings.service.ts:280-304 | A day is an occurrence exactly when it is of that weekday, from today on, not past the end date and inside the cap |
| RecurringRules.ApplyLaw | src/recurring-bookings/recurring-bookings.service.ts:160-270 | Applying keeps the invariants, creates or flips only unskipped dates, leaves booked and blocked slots alone, and adds one booking per slot taken |
| RecurringRules.ApplyTwice | src/recurring-bookings/recurring-bookings.service.ts:160-270 | Applying again with the same dates books and writes nothing |
| RecurringRules.SkippedNeverRebooked | src/recurring-bookings/recurring-bookings.service.ts:185-203 | A date whose booking was cancelled is left as it was |
| RecurringService.NextOccurrences | src/recurring-bookings/recurring-bookings.service.ts:280-304 | The cursor loop lists exactly the occurrence days |
| RecurringService.OccurrencesIncrease | src/recurring-bookings/recurring-bookings.service.ts:280-304 | The occurrences are disjoint and in order whatever the clock |
| RecurringService.NewInBulk | src/recurring-bookings/recurring-bookings.service.ts:221-267 | Creating all slots and then all bookings equals creating them one pair at a time |
| RecurringService.RecurringBookingsService.PlanOccurrences | src/recurring-bookings/recurring-bookings.service.ts:183-219 | One pass decides what to create and what to flip |
| RecurringService.RecurringBookingsService.ApplyForWeeksAhead | src/recurring-bookings/recurring-bookings.service.ts:160-270 | Missing slots created, free ones flipped, a booking on each: the rows and count of the rule, or a refusal that writes nothing |
| FijoRaces.LateApplyExactly | src/recurring-bookings/recurring-bookings.service.ts:172-267 | Whatever calls run between the apply's read and its writes, no slot ends with two live bookings exactly when none of the slots it read as free was sold meanwhile |
| FijoRaces.SoldMeanwhileIsSoldTwice | src/recurring-bookings/recurring-bookings.service.ts:240-267 | Any slot read as free and sold by the desk before the flip ends with two live bookings, and the apply goes through as it would have |
| Schedule.GenerateBands | src/availability/lib/schedule.ts:104-126 | The loop equals the grid of bands from opening to closing |
| Schedule.BandsTile | src/availability/lib/schedule.ts:104-126 | Bands follow one another without gaps, none is cut short and none is left out |
| Schedule.GridIsGood | src/availability/lib/schedule.ts:129-148 | The bands of a court-day are disjoint, ordered and have different wall-clock starts |
| Schedule.ResolveBandPriceCents | src/availability/lib/pricing.ts:18-35 | The weekday's exception wins over the every-day one, which wins over the default |
| Availability.SlotsForDate | src/availability/availability.service.ts:58-118 | The windowed scan offers exactly the bands of the simple definition over the whole table |
| Availability.OffersExactly | src/availability/availability.service.ts:83-117 | A band is offered exactly when it is ahead and no occupied slot overlaps it |
| Availability.WindowHoldsBands | src/availability/availability.service.ts:73-82 | The day's window holds every band of the grid |
| Availability.AvailableBandsForDate | src/availability/availability.service.ts:31-55 | The loop over courts equals grouping all offers and sorting them |
| Availability.GroupedLaw | src/availability/availability.service.ts:39-52 | One group per start, holding exactly its offers: nothing lost, nothing repeated |
| Availability.BandsComeSorted | src/availability/availability.service.ts:53-54 | The bands come out in grid order |
| Availability.BandsAtTheirTimeExactly | src/availability/availability.service.ts:31-55 | The returned list shows every free band of every listed court under its own time exactly when no two of those bands start at the same hour of different days |
| Availability.TwoMidnightsInOneBand | src/availability/availability.service.ts:31-55 | Two courts, one opening at half past midnight and one closing at two, on any day with any clock: both half-past-midnight bands are offered and one of them is shown a day off |
| NearestDates.NextAvailableDates | src/availability/availability.service.ts:125-164 | The loop over days with one pre-fetched set equals the first open days |
| NearestDates.DatesExactly | src/availability/availability.service.ts:149-163 | A day is listed with its count exactly when it is open, inside the horizon and among the first ones |
| NearestDates.CheapCountExactly | src/availability/availability.service.ts:141-162 | The exact-start count is never below what the day offers, and equal exactly when every band ahead that some slot occupies is occupied by one starting with it |
| NearestDates.CheapCountOnTheGrid | src/availability/availability.service.ts:141-162 | The counts agree whenever occupied slots sit on the grid |
| NearestDates.OffGridSlotOverCounts | src/availability/availability.service.ts:141-162 | A slot off the grid makes the count too high |
| Score.EvaluateScore | src/competitions/lib/score.ts:17-41 | The checks and the loop equal the rule of the game |
| Score.EvaluatedExactly | src/competitions/lib/score.ts:17-41 | A side is named winner exactly when it reached its sets with the last one, and nobody sooner |
| Draw.BracketSize | src/competitions/lib/bracket.ts:21-25 | The loop returns the smallest power of two that fits, at least 2 |
| Draw.RoundsForLeast | src/competitions/lib/bracket.ts:21-25 | That size fits everyone and half of it does not |
| Draw.SeedOrderOf | src/competitions/lib/bracket.ts:31-38 | The doubling loop equals the seed order |
| Draw.SeedOrderPermutes | src/competitions/lib/bracket.ts:31-38 | Every seed has exactly one place and every place one seed |
| Draw.TopSeedsMeetLate | src/competitions/lib/bracket.ts:27-38 | The best 2^j seeds are in different matches until only 2^j entrants are left |
| Draw.ByesGoToTopSeeds | src/competitions/lib/bracket.ts:40-49 | A first-round match lacks its second entrant exactly when the first is one of the top seeds |
| Draw.AvoidGroupClashes | src/competitions/lib/bracket.ts:75-89 | The in-place swaps equal visiting the matches in order |
| Draw.ApartIsFair | src/competitions/lib/bracket.ts:75-89 | The swaps keep everyone, move no first entrant and no bye, and make no new clash |
| Draw.ApartClearsWhatItCan | src/competitions/lib/bracket.ts:75-89 | A clash is left only where no swap could clear it |
| Draw.BuildBracket | src/competitions/lib/bracket.ts:45-69 | The loops return the matches of the draw, and refuse fewer than two entrants |
| Draw.DrawnLaw | src/competitions/lib/bracket.ts:45-69 | Everyone is drawn once and only the best seeds lack a rival |
| Draw.DrawnDistinct | src/competitions/lib/bracket.ts:45-69 | Distinct entrants stand at distinct places of the draw |
| Bracket.UpdateKeeps | src/competitions/competitions.service.ts:594-655 | An update keeps the bracket sound: each fed slot equals its feeder's winner, a winner is one of the two pairs, a loaded result is a finished match |
| Bracket.PlayKeeps | src/competitions/competitions.service.ts:594-655 | The same over every run of loads, changes, clears and format changes |
| Bracket.PairsDiffer | src/competitions/competitions.service.ts:636-651 | The two pairs of a match differ and come from disjoint halves of its subtree |
| Bracket.PairCameUp | src/competitions/competitions.service.ts:636-651 | Whoever stands in a match came from a first-round entry of that slot's subtree, winning every match on the way |
| Bracket.WinnerCameUp | src/competitions/competitions.service.ts:636-651 | A winner came from a first-round entry of the match's own subtree |
| Bracket.ChampionWonEveryRound | src/competitions/competitions.service.ts:594-655 | A champion won one match of every round on its path, and no other entry did |
| Bracket.ChampionMeansAllDecided | src/competitions/competitions.service.ts:636-638 | Nobody is champion while a match of the bracket is undecided |
| Bracket.ChampionReachableExactly | src/competitions/competitions.service.ts:623-641 | From any sound state results and format changes alone can still crown a champion exactly when no bye was cleared |
| Bracket.ClearedByeStaysCleared | src/competitions/competitions.service.ts:623-634 | No run of updates and format changes gives a cleared bye a winner again |
| Bracket.ClearingAByeIsAccepted | src/competitions/competitions.service.ts:623-641 | Clearing a bye whose next match is undecided is accepted, takes its pair out of the second round, and no results crown a champion after it |
| Bracket.FreshByeCanBeCleared | src/competitions/competitions.service.ts:768-820 | In a bracket just created every bye can be cleared at once |
| Bracket.CreatedSound | src/competitions/competitions.service.ts:768-820 | The rows created for a draw are a sound bracket, beside the zonas' matches |
| BracketService.CompetitionMatches.CreateBracket | src/competitions/competitions.service.ts:768-820 | Refuses fewer than two entrants; otherwise adds exactly the rows of the draw, linked, byes sent on, under new ids |
| BracketService.CompetitionMatches.CreateRows | src/competitions/competitions.service.ts:782-805 | From the final backwards every match finds the id of its next one |
| BracketService.CompetitionMatches.SendByes | src/competitions/competitions.service.ts:807-819 | The lone pair of every bye wins it and stands in the next round |
| BracketService.CompetitionMatches.UpdateMatch | src/competitions/competitions.service.ts:594-655 | The guards and the two writes equal the rule, and a refusal writes nothing |
| BracketService.NextComesFirst | src/competitions/competitions.service.ts:782-786 | In creation order the next match comes before the matches that feed it |
| RoundRobin.RoundRobinPairings | src/competitions/lib/round-robin.ts:14-31 | The rotating circle lists the pairings of the definition |
| RoundRobin.PairingsAreComplete | src/competitions/lib/round-robin.ts:8-31 | Everyone meets everyone exactly once, and nobody plays twice in a round |
| RoundRobin.PackIntoWaves | src/competitions/lib/round-robin.ts:47-70 | Every pairing is placed once, nobody plays twice in a wave, no court hosts two matches, and a match waits only when no earlier wave had room |
| RoundRobin.FillWave | src/competitions/lib/round-robin.ts:52-68 | One greedy wave places at least one match and keeps those promises |
| RoundRobin.FaceToFace | src/competitions/lib/round-robin.ts:14-31 | Two entrants sit face to face in exactly one round |
| Zonas.SplitIntoGroups | src/competitions/lib/groups.ts:6-16 | The snake loop equals the dealing |
| Zonas.DealtHoldsEveryone | src/competitions/lib/groups.ts:6-16 | Dealing puts every entrant in exactly one zona |
| Zonas.SizesBalanced | src/competitions/lib/groups.ts:1-16 | Zona sizes differ by one at most and none is short of the target |
| Zonas.BestSeedsApart | src/competitions/lib/groups.ts:1-16 | Zona g is headed by seed g |
| Standings.ComputeStandings | src/competitions/lib/standings.ts:26-78 | The tally loop and the sort equal the table and the ranking |
| Standings.RowIsRecord | src/competitions/lib/standings.ts:34-61 | A row is the sum of what each counted match between listed pairs gives its pair |
| Standings.WonEqualsLost | src/competitions/lib/standings.ts:34-61 | Over the table, matches, sets and games won equal those lost |
| Standings.TableHasAnOrderExactly | src/competitions/lib/standings.ts:63-77 | The comparison orders the pairs exactly when no three level pairs beat each other in a circle |
| Standings.RankedByTheRules | src/competitions/lib/standings.ts:63-77 | The ranking loses and repeats nobody, and follows the comparison when no three level pairs beat each other in a circle |
| Standings.ListingExistsExactly | src/competitions/lib/standings.ts:63-77 | Some listing follows the comparison exactly when no three level pairs beat each other in a circle, and then the table is one |
| Standings.CircleHasNoOrder | src/competitions/lib/standings.ts:63-77 | Three pairs in a circle: every listing puts some pair above one that should be above it |
| CategoryLaws.ZonaHasItsShare | src/competitions/competitions.service.ts:439-468 | Every zona as drawn holds at least its share of the pairs |
| CategoryLaws.TableIsTheZona | src/competitions/competitions.service.ts:550-555 | A zona's table lists exactly its pairs |
| CategoryLaws.QualifiedLaw | src/competitions/competitions.service.ts:557-563 | Those who go through are different pairs, each from a place of a zona's table |
| CategoryLaws.EnoughQualify | src/competitions/competitions.service.ts:402-407 | The zonas always send at least two pairs |
| CategoryLaws.QualifiedAreRegistered | src/competitions/competitions.service.ts:557-563 | Those who go through are registered in the category |
| CategoryRuns.NextKeeps | src/competitions/competitions.service.ts:258-655 | Every call on an event keeps its categories sound and no pair in two of them |
| CategoryRuns.RunKeeps | src/competitions/competitions.service.ts:258-655 | The same over every run of calls |
| CategoryRuns.DrawnIsNotRemoved | src/competitions/competitions.service.ts:292-303 | A category with a fixture cannot be removed |
| CategoryRuns.DrawnPairsStay | src/competitions/competitions.service.ts:307-367 | While a fixture exists the category's pairs are those drawn, in the same order |
| CategoryRuns.ZonaResultsFrozen | src/competitions/competitions.service.ts:613-621 | While a zonas category has its bracket every zona match stays decided with its result |
| CategoryRuns.DecidedZonasSeedABracket | src/competitions/competitions.service.ts:533-542 | A bracket can be seeded exactly when no zona match is pending |
| CategoryRuns.ChampionOfTheCategory | src/competitions/competitions.service.ts:594-655 | In any reachable event a champion is a registered pair that won a match of every round |
| Champions.ChampionReachableByCallsExactly | src/competitions/competitions.service.ts:496-655 | From any reachable event with a drawn knockout some run of calls crowns its champion exactly when the event is not cancelled, or the champion is already there: results can be cleared, the draw undone and made again |
| Champions.ClearKnockout | src/competitions/competitions.service.ts:594-655 | Every knockout result of an open event can be cleared by calls, from the final down |
| FixtureRuns.FixturesStay | src/competitions/competitions.service.ts:393-589 | Over any run, while a fixture exists, every two pairs of its round robin or of one of its zonas have exactly one match there, and its straight bracket is drawn from all its pairs |
| FixtureRuns.ZonaTableByTheRules | src/competitions/lib/standings.ts:63-77 | In any reachable event a zona's table follows the comparison exactly when some listing does, which is when it has no circle of level pairs |
| CategoryService.PairingRows | src/competitions/competitions.service.ts:421-437 | The loop with its map of positions numbers the matches of each round |
| CategoryService.CategoriesService.GenerateFixture | src/competitions/competitions.service.ts:393-489 | The guards, the draw of each format and the writes equal the rule for the ids handed out; a refusal is the rule's and writes nothing |
| CategoryService.CategoriesService.DrawAllPlayAll | src/competitions/competitions.service.ts:410-438 | Rounds, or waves over the event's courts, as match rows |
| CategoryService.CategoriesService.DrawZonas | src/competitions/competitions.service.ts:439-468 | Zona by zona: the row, its members, its round robin |
| CategoryService.CategoriesService.DrawStraight | src/competitions/competitions.service.ts:469-477 | The bracket of the registered pairs |
| CategoryService.CategoriesService.ZonaTables | src/competitions/competitions.service.ts:544-555 | The final table of every zona, in order |
| CategoryService.CategoriesService.QualifiedEntrants | src/competitions/competitions.service.ts:557-563 | First of each zona, then second of each, and so on |
| CategoryService.CategoriesService.GenerateBracket | src/competitions/competitions.service.ts:523-572 | Seeds the bracket from the zonas as the rule says, or refuses and writes nothing |
| SessionCache.GetSession | src/auth/auth.service.ts:125-149 | A session is accepted exactly for an active user whose club is the token's |
| SessionCache.AuthService.BeginValidation | src/auth/auth.service.ts:162-177 | Up to the database read: the answer from the cache, or the generation the read starts in |
| SessionCache.AuthService.FinishValidation | src/auth/auth.service.ts:177-182 | After the read: stored only when no forget happened since it began |
| SessionCache.CacheAnswersAsTheDatabase | src/auth/auth.service.ts:57-60 | In every interleaving, once a user's last change was followed by its forget, an answer from the cache is the database's |
| SessionCache.ReadsBeforeAForgetAreDropped | src/auth/auth.service.ts:177-189 | A read that began before any forget is never stored |
| SessionAge.AnswersOfTheRecentPast | src/auth/auth.service.ts:162-182 | In every interleaving an answer from the cache is what the database held at an earlier moment, less than the lifetime plus the read's own duration ago |
| SessionAge.YoungerThanLifetimeExactly | src/auth/auth.service.ts:162-182 | Every answer of an entry is younger than the lifetime exactly when its read took no time |
| SessionAge.ShowsInTimeExactly | src/auth/auth.service.ts:13-18 | A change without a forget shows within the lifetime exactly when no read that saw the old row was stored later than the change |
| SessionAge.SlowReadOutlastsLifetime | src/auth/auth.service.ts:13-18 | For any user and any slow read, a run that still answers the old session a lifetime after the change |
| SerialQueue.OneAtATime | src/common/keyed-serial-queue.ts:18-32 | At most one task of a key runs at any point of any interleaving |
| SerialQueue.StartsInOrder | src/common/keyed-serial-queue.ts:18-32 | Tasks of a key start in the order they were enqueued, each after the one before ended |
| SerialQueue.StartsInTurn | src/common/keyed-serial-queue.ts:19-21 | A task may start exactly when every earlier task of its key has ended |
| SerialQueue.CleanupNeverDropsWork | src/common/keyed-serial-queue.ts:28-30 | Cleanup drops an entry only when its key has nothing left |
| SerialQueue.EntryExactlyWhileBusy | src/common/keyed-serial-queue.ts:27-30 | A drained and cleaned key has no entry; a key with unfinished work has one |
| SerialQueue.FirstOfAKeyCanMove | src/common/keyed-serial-queue.ts:19-26 | A rejected task never stops the chain: the next one can always move |
| SerialQueue.StuckMeansEmpty | src/common/keyed-serial-queue.ts:27-30 | A queue where nothing can move holds no entry |
| SerialQueue.StepsFinish | src/common/keyed-serial-queue.ts:18-32 | Every step but an enqueue brings the queue one moment closer to empty |
| RateLimiter.LlmService.IsRateLimited | src/llm/llm.service.ts:231-247 | The loops over the map equal one step of the definition |
| RateLimiter.PruningChangesNoAnswer | src/llm/llm.service.ts:231-247 | With a clock that does not go back, the answer is the one the full history of accepted calls gives |
| RateLimiter.NoWindowOverBudget | src/llm/llm.service.ts:231-247 | No window of the configured length holds more accepted calls of a player than the budget |
| RateLimiter.ServiceKeepsTheBudget | src/llm/llm.service.ts:231-247 | The same of the calls the service itself lets through |
| RateLimiter.ServedAsRemembered | src/llm/llm.service.ts:231-247 | The calls the service lets through are those of the full history |
| MonthSeries.LastMonthsAreConsecutive | src/ops/ops-month-states.service.ts:31-37 | The months are consecutive over year ends and end with the current one |
| MonthSeries.MonthlyBusiness | src/ops/ops-month-states.service.ts:48-90 | The nested maps and filters give each month the numbers of its definition |
| MonthSeries.JoinedMinusLeft | src/ops/ops-month-states.service.ts:75-86 | Two one-per-club lists differ in size by those who joined minus those who left |
| MonthSeries.MonthCloses | src/ops/ops-month-states.service.ts:75-94 | Paying this month is paying last month plus new payers minus churn |
| MonthSeries.StretchCloses | src/ops/ops-month-states.service.ts:75-94 | Over any tracked stretch the changes add up |

## Left out

- HTTP controllers, guards, request validation, notifications, live events, receipts storage and every call to MercadoPago, OpenAI,
  Meta or Expo: a transfer is its amount, reference, time, account and payer; request fields are taken to be in the range the HTTP layer enforces.
- Staff edits of a raw slot (`SlotsService.create`, `update`, `remove`): they may set any status by hand and are not calls of the
  runs.
- The webhook that confirms by external reference: it does not go through the used-reference check.
- Interleavings.NoDoubleBookingInFlight: moves, weekly applies and event syncs are not split into steps there; other writes to slots appear as
  atomic steps that respect who holds a court. Credit is not followed in that model either.
- BandCalls.BotBooksExactly: the grid's band and its price are inputs of the band calls; the grid and the price list are `Schedule`.
- ClubRuns.ReferencesSingleUse: says nothing of blank references; `Findings` gives their exact condition.
- ClubRuns.TaggedAmountsDistinct: a bucket with all 100 tags in use makes the allocator fall back to the deposit itself, so amounts
  may then repeat.
- No-show marking, attendance answers, product consumption, local payments and the turno bill: the columns a reading of the modelled calls
  needs are there, the calls are not.
- The payer identity learned on a confirmation is kept on the booking only, not copied to the player; the newest confirmed booking of a phone is the last row.
- The player's name, notes, e-mail and audit columns; error texts; log lines.
- `availability` and `competitions` libraries for display (labels, round names, date wording); tariffs for a court in `Pricing` are a function of
  the slot's start; `PriceDays` says what it is for a list of exceptions and a default.
- The loop that turns a bulk block's dates, courts and hours into targets: targets are an input; their days are `EnumerateDates`, and the
  filter of a bulk unblock on hour and weekday is a predicate on the slot's start.
- RecurringService.RecurringBookingsService.ApplyForWeeksAhead: read and writes are one atomic step there; `FijoRaces` puts other calls between
  the read and the writes, and nothing between the three batches of writes.
- CourtBlockServices.CompetitionsService.SyncEventBlocks: its last count check cannot fail, because the transaction is one step.
- Registration calls (categories and pairs), event updates and cancellation are rules in `Categories`, not methods; people behind a pair, fees and
  sessions' validation are left out.
- CategoryService.CategoriesService.GenerateFixture: the pairs query's order and the groups query's order are the modelled sort and the order of creation.
- Standings.ComputeStandings: when the comparison is no order the result is that of a stable insertion sort; JavaScript leaves it to the engine.
- SessionCache.CacheAnswersAsTheDatabase: assumes each change to a user is followed by its forget; `SessionAge` says what holds when one is missing.
- SerialQueue.OneAtATime: promises settle in any order the steps allow; memory use and unhandled rejections are left out.
- Dashboards other than `monthlyBusiness`, recording of month states, demo data, the bot's conversation and the language model's prompts.
