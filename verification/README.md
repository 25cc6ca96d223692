# A verified model of the descending-price auction

This project models three things and proves what they promise each other.

**The auction state machine.** `Rules` is one function from a state and a logged command to the next
state and its events, with the branches, constants and saturating operations of
`crates/auction-core/src/state.rs`. `Machine.AuctionState` is the same machine as an object whose
methods update fields in place, loop by loop, over a `Ladder.PriceLadder` that keeps a map of queues;
every method is proved to compute the rule of the same name. The theorems about whole runs are in
`History`: collateral is conserved to the unit and stays under the highest ceiling posted, supply is
conserved, every key is in one place and answered once, the event stream alone reproduces the public
state, prices only descend, and a retry executes nothing. `Matching` shows that the nested loops over
price levels hand every bid an entitlement that can be read off the window as an unordered
collection; `Payout` and `Fairness` carry that through settlement and clearing to the record each
bidder is answered from. `Promises` takes the documentation's promises that the code does not always
keep and says, for each, exactly when it does; `Witnesses` and `NegativeLimit` are short auctions on
which they fail. `Commands` says what each command does to the state and to every field of its events,
over runs, in terms that do not name the rules.

**The clock and the wake-up.** `Schedule` proves `time_to_reach` the exact inverse of `price_at` and
says exactly when it is. `Wakeup` proves the engine's deadline exact: on a live auction a tick does
something if and only if the deadline has passed. Each owed tick shrinks the auction, so the engine
left alone stops ticking (`Engine.LeftAlone`).

**The log, recovery and the acknowledgement pipeline.** `Framing`, `Segments` and `Journal` take
records to bytes in segment files and back through rotation, torn tails, a crash at any byte and
reopening. `Recovery` proves that recovery is the run of the whole log whichever snapshot it starts
from. `Committer` and `Replication` are the writer and standby loops. `Pipeline` puts engine, writer,
standby and ack thread together as freely interleaved steps, with crashes and restarts between any
two, and proves that nothing is shown or acknowledged ahead of the disk, that nothing acknowledged is ever
lost, and that while every thread is there everyone who asked can be answered.

`Loops`, `Keys`, `Soundness`, `Money`, `Lifecycle`, `Stream`, `Descent` and `Provenance` hold the
invariants, each taken through every loop and handler of a command. `Auction`, `Bounded` and `Sums`
are vocabulary and arithmetic.

`dafny verify dfyconfig.toml` checks everything.

## Assumptions

The code relies on the following without enforcing it, and the model says so in `requires` clauses:

- `Config.WellFormed`: supply is positive, the floor is not negative, the schedule is one its
  constructors accept and a stepped clock has steps of some length. With steps of no length
  `price_at` is at the floor at once while `time_to_reach` is not, and with a negative floor the
  descent can be wider than the drop can count (`Witnesses.FloorNeverReached`);
  `Schedule.ClockAdjunctionExactly` says exactly when the two agree, for every schedule the
  constructors accept.
- `Command.Admissible`: resting limits are not negative. The state machine itself accepts one below
  zero; `NegativeLimit.NegativeLimitsBreakTheCeiling` is a run of four commands that then breaks the
  ceiling, and `Money.AdmissionIsSafeExactly` says exactly which admissions are safe.
- Sequence numbers are gapless (`apply` panics otherwise), and short of overflow.
- The deadline results stop one instant short of the last nanosecond a u64 can hold, where saturated
  times are taken for real ones: `Wakeup.SaturatedDeadlineStays` is an auction that would then be
  ticked for ever, and `Wakeup.WhenTheDeadlineIsExact` says exactly when the deadline is right.

## Where the code and its documentation differ

- `docs/invariants.md` I3 puts the clearing price at the instant of exhaustion. The code clears at the
  price of the window, which is the clock at the window's last instant. When the command that ends
  the auction finds an elapsed window that sells out, that can be a price the clock no longer shows
  (`Witnesses.ClearedAtAPriceGoneBy`); `Promises.ClearingPriceExactly` gives the price in every case
  and says exactly when it is the clock's.
- I7 promises a retry the original outcome. The code answers with the record as it stands once an
  elapsed window has been closed (`Witnesses.RetriedAfterTheBoundary`).
  `Promises.RetryAnswersTheSameExactly` says exactly when that is the original answer.
- I9 compares with a participant's ceiling. A ceiling can be lowered under what is already at stake,
  and fills then cost more than it allows (`Witnesses.FilledAboveTheCeiling`). The bound that always
  holds is the highest ceiling ever posted; `Promises.CeilingHoldsExactly` and
  `Promises.CeilingHoldsOverRunsExactly` say exactly when the ceiling as it stands is respected.
- The comment on `set_outcome` says nothing erases units allocated against a key. Recording a waiting
  outcome would; `Keys.FillSurvivesExactly` says exactly what does not, and no run records anything
  else over a fill (`History.RecordsMoveForward`).
- The ladder's `total_qty` is the sum of its bids only as long as that sum fits a u64: `Insert` and
  `Requeue` say exactly so, and `Witnesses.TotalLost` and `Witnesses.TotalCanBeLost` are three free
  bids on which it is lost.

## Model

| member | source | states |
|---|---|---|
| Schedule.ClockAdjunction | crates/auction-core/src/schedule.rs:86-155 | for both kinds of schedule, every target whose fall fits an i64 and every instant but the last: the price is at or below the target exactly from the reported time on, and never if none is reported, saturated or not |
| Schedule.ClockAdjunctionExactly | crates/auction-core/src/schedule.rs:46-155 | for every schedule the constructors accept: the reported time is right at every instant there is if and only if the target lies outside the descent, or steps have length, the exact time fits u64, and the fall fits an i64 unless the clock never moves |
| Schedule.TooFarIsPromised | crates/auction-core/src/schedule.rs:86-155 | a moving clock is given a time for a target further down than an i64 can count, and is not there by then nor ever |
| Witnesses.FloorNeverReached | crates/auction-core/src/schedule.rs:86-179 | a concrete clock that is promised to reach its floor and never does |
| Schedule.PriceDescends | crates/auction-core/src/schedule.rs:86-111 | the price never rises with time |
| Schedule.PriceAt | crates/auction-core/src/schedule.rs:86-111 | the price stays between floor and start at every instant |
| Schedule.LinearPriceExactly | crates/auction-core/src/schedule.rs:100-106 | a linear clock above the floor has come down by the whole units among the rate times the elapsed nanoseconds over 1_000_000_000, neither more nor less |
| Schedule.LinearPriceBySeconds | crates/auction-core/src/schedule.rs:100-106 | on whole seconds a linear clock has come down by exactly the rate each second, until the floor |
| Schedule.SteppedPriceExactly | crates/auction-core/src/schedule.rs:93-99 | a stepped clock has come down by exactly one step size for each whole step duration, and stands still within a step, until the floor |
| Schedule.NoStepsNoPrice | crates/auction-core/src/schedule.rs:93-99 | with steps of no length the price is at the floor at once |
| Schedule.ScaledDropFits | crates/auction-core/src/schedule.rs:100-106 | the linear drop never overflows i128 |
| Schedule.CeilReaches | crates/auction-core/src/schedule.rs:168-171 | the rounded-up quotient is the least multiple that reaches |
| Matching.SortBidsSorts | crates/auction-core/src/state.rs:461-462 | the window sort is ordered by price descending then sequence, and a permutation |
| Matching.StorageOrderIsIrrelevant | crates/auction-core/src/state.rs:461-462 | with distinct sequence numbers, one set of bids has one sorted order |
| Matching.LeftoverFits | crates/auction-core/src/state.rs:704-715 | flooring leaves over fewer units than the level has bids |
| Matching.BonusLeavesNothing | crates/auction-core/src/state.rs:710-727 | one pass of the remainder loop places every unit left over |
| Matching.BonusTopsUpTheFirst | crates/auction-core/src/state.rs:716-724 | the pass tops up exactly the first bids of the level, one unit each |
| Matching.AllocateTotal | crates/auction-core/src/state.rs:698-729 | a level sells the lesser of its demand and the supply |
| Matching.AllocateWithin | crates/auction-core/src/state.rs:698-729 | no bid of a level is allocated more than it asked for |
| Matching.MatchTotals | crates/auction-core/src/state.rs:464-482 | a window sells the lesser of demand and supply, and is exhausted exactly when nothing remains |
| Matching.MatchFull | crates/auction-core/src/state.rs:464-530 | unless supply runs out everyone is filled in full, so no remainder is ever requeued |
| Matching.MatchingIsEntitlement | crates/auction-core/src/state.rs:461-482 | the nested loops give every bid exactly its closed-form, order-free entitlement |
| Matching.EntitlementUnordered | docs/auction-rules.md:104-124 | entitlements depend on the set of bids only |
| Matching.AllocationBounds | crates/auction-core/src/state.rs:704-724 | the loops allocate nobody more than requested, and at a contested level everybody the floored pro-rata share or one unit more |
| Matching.HigherPriorityFirst | crates/auction-core/src/state.rs:443-482 | a bid the loops allocate anything implies every bid of strictly higher priority is allocated its whole request |
| Matching.OddUnitsGoToTheEarliest | crates/auction-core/src/state.rs:710-724 | at a contested level a bid ranked later is never allocated more above its floored share than one ranked earlier |
| Matching.ArrivalOrderIsWorthOneUnit | docs/auction-rules.md:104-124 | run the loops on a window and on the same bids renumbered: no bid's allocation differs by more than one unit |
| Matching.ArrivalOrderSellsTheSame | docs/auction-rules.md:104-124 | renumbering the bids of a window leaves the total sold unchanged |
| Matching.TopUp | crates/auction-core/src/state.rs:715-724 | the remainder loop over one level computes the one-pass bonus |
| Matching.AllocateLevel | crates/auction-core/src/state.rs:698-729 | the allocation of one level, floors and remainder pass together |
| Matching.FindLevelEnd | crates/auction-core/src/state.rs:469-473 | the inner loop stops exactly where the level ends |
| Matching.ServeLevel | crates/auction-core/src/state.rs:474-481 | serving one level is one turn of the level-by-level matching |
| Matching.MatchSorted | crates/auction-core/src/state.rs:464-482 | the loops over levels and within them compute the level-by-level matching |
| Ladder.PushBackIsInsert | crates/auction-core/src/ladder.rs:67-70 | pushing at the back of a level is inserting behind it in one flat queue, and no level is ever empty |
| Ladder.PushFrontIsRequeue | crates/auction-core/src/ladder.rs:132-138 | pushing at the front of a level is inserting ahead of it in the flat queue |
| Ladder.SplitOffIsDrain | crates/auction-core/src/ladder.rs:77-89 | splitting the map at a price cuts the flat queue at the same place |
| Ladder.DrainSplits | crates/auction-core/src/ladder.rs:77-89 | draining takes exactly the limits at or above the price, in order, and keeps the rest in order |
| Ladder.InsertKeepsOrder | crates/auction-core/src/ladder.rs:67-70 | an arrival keeps the queue ordered by limit descending, then sequence |
| Ladder.RemoveIsSearch | crates/auction-core/src/ladder.rs:108-128 | removing level by level, cheapest first, removes the bid a search of the flat queue finds |
| Ladder.PriceLadder.NextTrigger | crates/auction-core/src/ladder.rs:62-64 | the next trigger is the limit of the head of the queue |
| Ladder.PriceLadder.Insert | crates/auction-core/src/ladder.rs:67-70 | the new queue, and that the running total stays exact if and only if the sum fits u64 |
| Ladder.PriceLadder.Requeue | crates/auction-core/src/ladder.rs:132-138 | the new queue, a bid for nothing dropped, and when the running total stays exact |
| Ladder.PriceLadder.DrainTriggered | crates/auction-core/src/ladder.rs:77-89 | returns and removes exactly the triggered prefix of the queue, keeping the total exact |
| Ladder.PriceLadder.DrainAll | crates/auction-core/src/ladder.rs:95-102 | returns the whole queue in order and leaves the ladder empty |
| Ladder.PriceLadder.Remove | crates/auction-core/src/ladder.rs:108-128 | removes one matching bid of that participant and key, or nothing when there is none |
| Ladder.Locate | crates/auction-core/src/ladder.rs:108-128 | finds the first match in the cheapest level that has one |
| Machine.AuctionState.constructor | crates/auction-core/src/state.rs:82-97 | a new auction is the initial state |
| Machine.AuctionState.ReserveFor | crates/auction-core/src/state.rs:601-611 | succeeds exactly when the cost fits and is available, and what it does to the accounts either way |
| Keys.FillSurvivesExactly | crates/auction-core/src/state.rs:618-652 | a recorded fill stays recorded with at least its quantity if and only if what is recorded next is not a waiting outcome nor a smaller fill already withdrawn; other keys are untouched |
| Machine.AuctionState.Refuse | crates/auction-core/src/state.rs:613-616 | a refusal is recorded and said |
| Machine.AuctionState.GiveBack | crates/auction-core/src/state.rs:454-457 | releasing a reservation and answering the bid that held it |
| Machine.AuctionState.RefuseWindow | crates/auction-core/src/state.rs:394-400 | the loop over bids in flight computes the refusal of all of them |
| Machine.AuctionState.RefuseLadder | crates/auction-core/src/state.rs:586-589 | the loop over resting bids computes the refusal of all of them |
| Machine.AuctionState.RepriceFill | crates/auction-core/src/state.rs:550-583 | one turn of the repricing loop: record, collateral, fill and event |
| Machine.AuctionState.Clear | crates/auction-core/src/state.rs:545-596 | the repricing and refusal loops compute the clearing rule, state and events |
| Machine.AuctionState.SettleBid | crates/auction-core/src/state.rs:484-530 | one turn of the settlement loop: release, refuse or fill, and requeue |
| Machine.AuctionState.SettleBids | crates/auction-core/src/state.rs:484-530 | the settlement loop computes the settlement rule, state and events |
| Machine.AuctionState.FlushWindow | crates/auction-core/src/state.rs:449-537 | sort, match, settle and clear together compute the flush rule |
| Machine.AuctionState.CloseElapsedWindow | crates/auction-core/src/state.rs:434-441 | closes the open window exactly when time has moved past it |
| Machine.AuctionState.OnOpen | crates/auction-core/src/state.rs:206-215 | opening computes the opening rule |
| Machine.AuctionState.Take | crates/auction-core/src/state.rs:243-286 | the take branch computes the take rule, matching at once when batching is off |
| Machine.AuctionState.Rest | crates/auction-core/src/state.rs:287-318 | the resting branch computes the resting rule |
| Machine.AuctionState.OnBid | crates/auction-core/src/state.rs:218-320 | the bid handler computes the bid rule |
| Machine.AuctionState.OnCancelResting | crates/auction-core/src/state.rs:322-347 | the withdrawal handler computes the withdrawal rule |
| Machine.AuctionState.TriggerResting | crates/auction-core/src/state.rs:356-371 | the loop moving triggered bids into the window computes the trigger rule |
| Machine.AuctionState.OnTick | crates/auction-core/src/state.rs:349-386 | the tick handler computes the tick rule |
| Machine.AuctionState.OnCancel | crates/auction-core/src/state.rs:388-405 | the cancellation handler computes the cancellation rule |
| Machine.AuctionState.Apply | crates/auction-core/src/state.rs:167-204 | one command on the object is one application of the rules, and keeps the invariant between commands |
| Commands.Dispatched | crates/auction-core/src/state.rs:167-204 | every run goes on by closing the window that has elapsed and then by the command alone, at the latest instant so far |
| Commands.BidAnswered | crates/auction-core/src/state.rs:218-320 | a fresh bid in any run: refused for the first objection there is, with the clock where the reason carries it and nothing moved; else queued at the clock of its window's last instant behind the bids already there, or placed on the ladder in order at its limit, with exactly its cost reserved; and what the event carries |
| Commands.TakenAtOnce | crates/auction-core/src/state.rs:282-285 | with batching off an admitted take is filled in the same command, at the clock of its instant, with what it asks for or all there is |
| Commands.WithdrawalExactly | crates/auction-core/src/state.rs:322-347 | in any run, window open or not: if and only if a bid of the participant rests under the key, it alone is gone, the others keep their order, its cost and nothing else is free, and the record and the last event say so; otherwise nothing changes and the answer is the record, if there is one |
| Commands.OpenedExactly | crates/auction-core/src/state.rs:206-215 | a pending auction, and no other, goes live and announces the starting price and the whole supply |
| Commands.CeilingSetExactly | crates/auction-core/src/state.rs:187-190 | one ceiling moves to what was asked, whatever the status and whatever is at stake; nothing else changes |
| Commands.CancelledExactly | crates/auction-core/src/state.rs:388-405 | once: everyone in flight and then everyone resting is told in turn, exactly their records become refusals, and only what fills cost stays committed |
| Commands.ClearsExactly | crates/auction-core/src/state.rs:545-596 | the events of a clearing in order, each markdown carrying the price it had; every fill at the one price; everyone resting refused as unfilled; the true totals |
| Commands.TickJoinsExactly | crates/auction-core/src/state.rs:349-371 | a tick in a window above the floor: exactly the resting bids whose limit the clock has reached join the window, in order and with their reservations, and nothing is said |
| Commands.TickEndsAtTheFloor | crates/auction-core/src/state.rs:373-386 | a tick at the floor ends the auction at the floor with nobody left waiting |
| Commands.TickSettlesExactly | crates/auction-core/src/state.rs:349-386 | with batching off, above the floor: the bids reached are settled on the spot, and the auction ends if and only if they ask for all there is |
| Soundness.WindowPriceBounds | crates/auction-core/src/state.rs:407-422 | a window's price is at or below the clock anyone in it saw, no earlier window is cheaper, and it is never below the floor |
| Soundness.WindowPriceExactly | crates/auction-core/src/state.rs:407-422 | in plain arithmetic: which window an instant lies in, and that the window is priced at the clock of its own last instant, or of the last instant there is; with batching off, at the clock of the instant |
| Soundness.WindowPriceAtLast | crates/auction-core/src/state.rs:407-422 | any instant whose successor lies in the next window is the one its whole window is priced at |
| Soundness.SameWindowExactly | crates/auction-core/src/state.rs:407-412 | two instants share a window if and only if no multiple of its width lies between them |
| Commands.OpenWindowsPricedAtTheirEnd | crates/auction-core/src/state.rs:407-422 | in every run the open window is the one its latest instant lies in, priced at the clock of that window's last instant; with batching off none stays open |
| Soundness.MatchedFacts | crates/auction-core/src/state.rs:464-530 | matching a live window either fills everyone, so that no remainder is requeued, or sells out; nobody gets more than requested and no unit is lost |
| Soundness.FlushIsSound | crates/auction-core/src/state.rs:449-537 | after a flush the auction is live with supply left or cleared at the window price with an empty ladder, and everything else is sound |
| Soundness.ClearIsSound | crates/auction-core/src/state.rs:545-596 | after clearing every fill carries the clearing price, and supply and ledger are intact |
| Soundness.TickIsSound | crates/auction-core/src/state.rs:349-386 | a tick keeps the invariant through trigger, flush and close at the floor |
| Soundness.ApplyIsSound | crates/auction-core/src/state.rs:167-204 | every command keeps the invariant: ledger, supply, window, ladder order, status |
| Money.AdmissionExactly | crates/auction-core/src/state.rs:218-320 | a fresh bid is admitted if and only if it is for something, the auction is live, the clock is where it needs it, and its cost fits under the ceiling on top of everything owed |
| Money.ReserveOpensExactly | crates/auction-core/src/state.rs:601-611 | asking for a reservation opens an account, granted or not, unless the cost does not even fit |
| Money.AdmissionIsSafeExactly | crates/auction-core/src/state.rs:601-611 | an admission keeps every solvent account solvent if and only if the price is not negative or the cost does not fit |
| Money.ClearBalances | crates/auction-core/src/state.rs:550-589 | clearing frees exactly the repriced differences and the resting reservations |
| Money.SettledBalances | crates/auction-core/src/state.rs:484-530 | settling a window trades reservations for costs exactly and never commits more |
| Money.FlushBalances | crates/auction-core/src/state.rs:449-537 | a flush, with or without clearing, keeps every account balanced and never raises it |
| Money.ApplyBalances | crates/auction-core/src/state.rs:167-204 | every command keeps each account equal to what is owed, and under the highest ceiling posted |
| Keys.RefusePendingMirrors | crates/auction-core/src/state.rs:453-459 | refusing bids in flight leaves every record mirroring what is still held, with one answer each |
| Keys.SettleMirrors | crates/auction-core/src/state.rs:484-530 | settling leaves every record mirroring its fill or its refusal, with one answer each |
| Keys.RepriceMirrors | crates/auction-core/src/state.rs:550-583 | repricing moves the record together with the fill it mirrors and answers nobody again |
| Stream.FlightWaits | crates/auction-core/src/state.rs:618-652 | a bid in flight is recorded as waiting when it is settled, so the merging arms are never reached |
| Lifecycle.ApplyHandles | crates/auction-core/src/state.rs:167-204 | every command keeps each record mirroring what is held, moves records forward only, and counts answers |
| Stream.SettleHeard | crates/auction-core/src/event.rs:114-120 | the events of a settlement tell a listener its fills, records and supply |
| Stream.RepriceHeard | crates/auction-core/src/event.rs:126-128 | the events of a repricing tell a listener the new fills and records, silence meaning no change |
| Stream.ApplyTold | crates/auction-core/src/event.rs:80-137 | a listener that is up to date, who believes a markdown only from the price last heard and takes supply and unsold units from the events, stays so by hearing each command's events |
| Descent.RepriceSays | crates/auction-core/src/state.rs:569-582 | every markdown is strictly downward and to one price |
| Descent.SettleSays | crates/auction-core/src/state.rs:484-530 | nobody in a window is turned away unless it sold out |
| Descent.ApplyProceeds | crates/auction-core/src/state.rs:155-204 | every command: the price does not rise, fills persist, an ended auction is final and its events are true |
| Provenance.ApplyTraced | crates/auction-core/src/state.rs:167-204 | every command keeps each fill and live bid traceable to the record that asked for it |
| History.RunsAreSound | crates/auction-core/src/state.rs:160-204 | every run of a gapless log reaches a sound state, numbered by the log's last record |
| History.ClockIsLatest | crates/auction-core/src/state.rs:176-186 | an auction's time is the latest timestamp in its log, whatever order they came in |
| History.SupplyIsConserved | docs/invariants.md:15-26 | fills and remaining supply always make up the whole, with no saturation, and live implies supply left |
| History.CollateralIsConserved | docs/invariants.md:105-115 | in every run what a participant has committed is exactly its fills, its bids in flight and its resting bids, and at most the highest ceiling posted |
| History.FinishedAuctionsHoldOnlyFills | crates/auction-core/src/state.rs:541-596 | a finished auction has only fills committed, no window and no ladder |
| History.KeysAreKept | crates/auction-core/src/state.rs:618-652 | in every run each record mirrors what is held, exactly the submitted keys have records, and answers are counted |
| History.OnePlacePerKey | docs/invariants.md:87-95 | a key is in exactly one of fills, window and ladder, or in none; nothing is filled twice under one key |
| History.FillIsQuoted | crates/auction-core/src/state.rs:550-567 | every fill is quoted, at its own quantity and price, by the outcome a retry is answered from |
| History.QuoteIsFilled | crates/auction-core/src/state.rs:626-651 | every recorded fill mirrors a fill record, and the merged outcome of a fill then withdrawn never occurs |
| History.ExactlyOneAnswer | docs/invariants.md:117-123 | no submission is finally answered twice, and each is answered once by the time the auction is over |
| History.RecordsMoveForward | crates/auction-core/src/state.rs:618-652 | a record never loses its quantity and changes only by being settled or getting cheaper |
| History.RetryExecutesNothing | crates/auction-core/src/state.rs:228-232 | a known key gives exactly the state that time and the closed window leave, and ends in a duplicate notice with the record as it then stands |
| History.EventsReproduceTheAuction | crates/auction-core/src/event.rs:80-137 | folding the events of any run reproduces fills, outcomes, supply, status and clearing price |
| History.EventsTellTheTruth | crates/auction-core/src/state.rs:488-596 | sold out is said only in the step that ends the auction with nothing left, markdowns are strict and the final totals add up |
| History.EverythingWasAskedFor | crates/auction-core/src/state.rs:242-318 | every fill and live bid goes back to a logged submission, for at most its quantity and at most the price it agreed to |
| Payout.SettlePays | crates/auction-core/src/state.rs:484-530 | the settlement loop leaves in the record of each bid exactly what it was allocated, or word that supply ran out |
| Payout.FlushPays | crates/auction-core/src/state.rs:449-596 | closing a live window leaves each bid's allocation at the window's price in its record, through the clearing if it sold out |
| Fairness.WindowsAreDistinct | crates/auction-core/src/state.rs:461-462 | in every run no two bids of the window share a sequence number and none is for nothing |
| Fairness.FlushIsFair | crates/auction-core/src/state.rs:449-537 | wherever a live window is closed, the record of every bid in it is its order-free entitlement, filled at the window's price, or supply exhausted when that is nothing |
| Fairness.EveryWindowIsFair | crates/auction-core/src/state.rs:434-537 | in every run a command that finds the open window elapsed first pays every bid in it exactly its entitlement |
| Fairness.EveryTickIsFair | crates/auction-core/src/state.rs:349-386 | in every run a tick that settles a window on the spot, just triggered bids included, pays every bid in it exactly its entitlement |
| Fairness.ArrivalOrderPaysWithinAUnit | docs/auction-rules.md:104-124 | two auctions that differ only in arrival order within a window: nobody's recorded units differ by more than one |
| Fairness.StorageOrderNeverMatters | crates/auction-core/src/state.rs:449-482 | in every run the storage order of the window changes nothing, neither state nor events |
| History.PriceNeverRises | crates/auction-core/src/state.rs:154-158 | over any continuation the published price does not rise, no fill is lost or dearer, and an ended auction stays as it ended |
| History.OneClearingPrice | docs/invariants.md:28-47 | fills descend; once cleared every fill and every recorded fill carries one price, between floor and start, that the clock takes at some instant |
| NegativeLimit.NegativeLimitsBreakTheCeiling | crates/auction-core/src/state.rs:287-301 | a concrete run in which a negative resting limit leaves a participant committed above every ceiling posted |
| Promises.CeilingHoldsExactly | docs/invariants.md:105-115 | a participant within the ceiling as it stands is within it after a command if and only if the command does not put that ceiling under what is at stake |
| Promises.CeilingHoldsOverRunsExactly | docs/invariants.md:105-115 | throughout a run nobody is above the ceiling as it stands if and only if no command ever puts a ceiling under what is at stake |
| Promises.WithinCoversFills | docs/invariants.md:105-115 | within the ceiling, what the fills cost is within it too |
| Witnesses.FilledAboveTheCeiling | crates/auction-core/src/state.rs:187-190 | a concrete run in which a lowered ceiling is exceeded, first by what is at stake and then by what the fills cost |
| Promises.FlushClearsExactly | crates/auction-core/src/state.rs:466-537 | closing a window ends the auction if and only if demand reaches supply, and then at the window's price |
| Promises.ClearingPriceExactly | docs/invariants.md:40-47 | the clearing price of every run, at the floor included, and that it is the clock of the clearing instant if and only if no elapsed window sold out or its price is still the clock's |
| Witnesses.ClearedAtAPriceGoneBy | crates/auction-core/src/state.rs:407-441 | a concrete run whose price steps inside the window and which clears at a price the clock no longer shows |
| Promises.FlushTouchesExactly | crates/auction-core/src/state.rs:449-596 | closing a window changes a record if and only if its bid is in the window, or the window sells out and the record rests or quotes another price |
| Promises.RetryAnswersTheSameExactly | docs/invariants.md:87-95 | a retry is answered with the outcome on record before it if and only if no window has elapsed, or the bid is not in it and the clearing, if any, does not touch the record |
| Witnesses.RetriedAfterTheBoundary | crates/auction-core/src/state.rs:228-232 | a concrete bid queued and retried after the window's end, answered otherwise than at first |
| Witnesses.TotalLost | crates/auction-core/src/ladder.rs:67-70 | three insertions after which the ladder's running total is not the sum of its bids |
| Witnesses.TotalCanBeLost | crates/auction-core/src/state.rs:287-318 | a run in which a participant with nothing posted rests those three bids |
| Wakeup.WindowCloseIsExact | crates/auction-engine/src/clock.rs:84-92 | the closing time has passed exactly when the instant lies in a later window |
| Wakeup.DeadlineIsDue | crates/auction-engine/src/engine.rs:547-579 | the deadline has passed exactly when a window, a trigger or the floor is due |
| Wakeup.DeadlineIsExact | crates/auction-engine/src/engine.rs:547-579 | short of the last instant, a tick says nothing and changes only time and sequence number if and only if it comes before the deadline or there is none |
| Wakeup.TickMattersExactly | crates/auction-core/src/state.rs:349-386 | a tick says nothing and changes only time and sequence number if and only if the auction is not live or nothing is due |
| Wakeup.WhenTheDeadlineIsExact | crates/auction-engine/src/engine.rs:547-579 | the deadline is right about a tick at every instant but the last, and at the last if and only if there is none or something is due |
| Wakeup.SaturatedDeadlineStays | crates/auction-engine/src/engine.rs:572-578 | a concrete auction whose saturated deadline has passed at the last instant though nothing is due, and which the tick it calls for leaves as it was |
| Wakeup.TickRemovesItsCause | crates/auction-engine/src/engine.rs:541-579 | an owed tick strictly shrinks the auction, and either ends it or leaves it due strictly later |
| Wakeup.SelfTicksAreFinite | crates/auction-engine/src/engine.rs:547-579 | left alone the engine issues at most as many ticks as the auction's measure |
| Engine.NextDeadline | crates/auction-engine/src/engine.rs:547-579 | the deadline read off the live object and its ladder of queues is the deadline of its state |
| Engine.LeftAlone | crates/auction-engine/src/engine.rs:480-539 | ticking whenever the deadline has passed writes boundedly many ticks and leaves nothing due |
| Framing.RecordRoundTrip | crates/auction-wal/src/record.rs:56-58 | decoding a payload gives back the record |
| Framing.FrameRoundTrip | crates/auction-wal/src/record.rs:53-116 | decoding a frame, whatever follows it, gives back the record and the frame's length |
| Framing.RecordReadsExactly | crates/auction-wal/src/record.rs:91-116 | bytes decode to a record if and only if they begin with that record's payload |
| Framing.FrameInBytes | crates/auction-wal/src/record.rs:53-69 | the frame byte by byte: payload length and checksum as little-endian words, then the payload |
| Framing.DecodesExactly | crates/auction-wal/src/record.rs:91-116 | a buffer decodes to a record only if its header's checksum is that of the payload behind it; which buffers are incomplete, which malformed and which a record |
| Framing.AlteredPayload | crates/auction-wal/src/record.rs:104-108 | a frame whose payload has been altered to one with another checksum is incomplete, whatever follows |
| Framing.UnreadablePayload | crates/auction-wal/src/record.rs:104-116 | a payload sealed with its own checksum that no record begins is malformed |
| Framing.TornFrame | crates/auction-wal/src/record.rs:91-108 | a frame cut anywhere short of its end is incomplete, never misread |
| Framing.EncodeInto | crates/auction-wal/src/record.rs:53-69 | reserving, writing and patching the header appends exactly the frame |
| Segments.AppendReads | crates/auction-wal/src/segment.rs:65-95 | appending a frame to whole records appends its record |
| Segments.CutReads | crates/auction-wal/src/segment.rs:65-95 | a segment cut at any byte reads back as a prefix holding every record that ends before the cut |
| Segments.TruncateReads | crates/auction-wal/src/wal.rs:265-287 | cutting off exactly the unreadable tail loses no record and leaves nothing unreadable |
| Segments.TornReads | crates/auction-wal/src/segment.rs:65-95 | an undecodable tail is all that is left unread, and is measured exactly |
| Segments.AlteredFrameEnds | crates/auction-wal/src/segment.rs:65-95 | behind whole records, an altered frame is where reading ends and everything from it on is trailing |
| Segments.UnreadableFrameIsCorrupt | crates/auction-wal/src/segment.rs:65-95 | behind whole records, a sealed payload that is no record makes the segment corrupt at that offset |
| Segments.ReadSegmentFile | crates/auction-wal/src/segment.rs:65-95 | the reading loop computes the records, trailing bytes or corruption of a segment |
| Journal.ReadAllIsFlat | crates/auction-wal/src/wal.rs:224-262 | intact segments read back as one flat list |
| Journal.SealedDamageIsReported | crates/auction-wal/src/wal.rs:232-242 | damage in a sealed segment is always reported, never skipped |
| Journal.ReadAllExactly | crates/auction-wal/src/wal.rs:224-262 | for any bytes on the disk: the reading is the whole list, the first damaged segment or the two numbers either side of the first gap, each if and only if that is what the disk holds |
| Journal.AlteredSealedFrameIsDamage | crates/auction-wal/src/wal.rs:232-242 | an altered frame in a sealed segment is reported as damage to that segment |
| Journal.AlteredLastFrameIsTheEnd | crates/auction-wal/src/wal.rs:224-262 | an altered frame in the last segment ends the log there, with every record before it read |
| Journal.UnreadableFrameIsReported | crates/auction-wal/src/wal.rs:224-262 | a sealed payload that is no record is an error in every segment, the last included |
| Journal.AppendKeeps | crates/auction-wal/src/wal.rs:136-164 | an append that follows adds exactly one record at the end, rotating or not, and any other is refused |
| Journal.AppendPlaces | crates/auction-wal/src/wal.rs:136-164 | the frame goes behind the active segment if that is empty or the frame fits, and otherwise alone into a fresh one |
| Journal.SegmentsAreSized | crates/auction-wal/src/wal.rs:149-153 | over any run from an empty directory, crashes included, no segment exceeds the limit unless it holds a single record |
| Journal.RotateKeeps | crates/auction-wal/src/wal.rs:196-216 | rotation changes nothing in the log |
| Journal.SyncKeeps | crates/auction-wal/src/wal.rs:171-181 | a sync puts everything appended on the disk |
| Journal.OpenKeeps | crates/auction-wal/src/wal.rs:81-133 | reopening loses and gains no record, leaves an appendable log, and reading before and after truncation agrees |
| Journal.CrashKeeps | crates/auction-wal/src/wal.rs:265-287 | a crash at any unsynced byte leaves a gapless prefix that holds everything acknowledged |
| Journal.AcknowledgedRecordsSurvive | crates/auction-wal/src/wal.rs:81-287 | over any run of appends, syncs, rotations, crashes and reopenings acknowledged records stay in place and the log stays gapless and readable |
| Journal.SyncedRecordsSurvive | crates/auction-wal/src/wal.rs:81-287 | from an empty directory: whatever came before a sync and whatever comes after, nothing synced is taken back |
| Journal.SegmentedRoundTrip | crates/auction-wal/src/wal.rs:136-287 | any gapless records, any segment size, any cut of a further frame: exactly the whole records read back, and writing on after reopening reads back as the concatenation |
| Committer.LogFiles.Append | crates/auction-wal/src/wal.rs:136-164 | the method computes the append rule, including its refusal |
| Committer.LogFiles.Sync | crates/auction-wal/src/wal.rs:171-181 | the method computes the sync rule and returns the new mark |
| Committer.LogFiles.Roll | crates/auction-wal/src/wal.rs:196-216 | the method computes the rotation rule |
| Committer.ReadLog | crates/auction-wal/src/wal.rs:224-262 | the loops over segments and records compute the whole reading or its error |
| Committer.OpenLog | crates/auction-wal/src/wal.rs:81-133 | opening yields exactly the reopened log, or nothing when it cannot be read |
| Committer.Watermark.Publish | crates/auction-wal/src/commit.rs:70-80 | the mark never falls, and does not move once closed |
| Committer.Watermark.Close | crates/auction-wal/src/commit.rs:88-96 | closing is final and leaves the mark where it is |
| Committer.Watermark.Poll | crates/auction-wal/src/commit.rs:98-110 | a waiter is released exactly when its record is durable, and turned away exactly when the mark is closed below it |
| Committer.Gather | crates/auction-wal/src/commit.rs:267-292 | gathering a batch loses and reorders nothing |
| Committer.AppendBatch | crates/auction-wal/src/commit.rs:330-332 | the loop over a batch writes the longest stretch that follows without a gap, all of it exactly when the batch follows gaplessly |
| Committer.WriteBatch | crates/auction-wal/src/commit.rs:329-339 | a batch succeeds exactly when it follows gaplessly; then all of it is on disk and published, otherwise the mark has not moved |
| Committer.Run | crates/auction-wal/src/commit.rs:232-327 | however batches fall the log grows by the longest stretch of the queue without a gap, all of it on disk and marked when that is the whole queue; the mark ends closed, never fell and never ran ahead of the disk |
| Recovery.FindLatestUsable | crates/auction-wal/src/snapshot.rs:135-143 | the first snapshot that loads, everything before it failing to, and none only if none does |
| Recovery.RecoverLog | crates/auction-wal/src/replay.rs:41-105 | the recovery loop computes snapshot choice, skipping, gap check and replay |
| Recovery.RecoveryIsReplay | crates/auction-wal/src/replay.rs:41-105 | over a non-empty gapless log, whichever snapshot is picked, recovery is the run of the whole log and resumes one past its end, saying which snapshot it used and how many records it replayed |
| Recovery.RecoveryIsReplayExactly | crates/auction-wal/src/replay.rs:46-64 | recovery is the run of the log if and only if the log is not empty or there is no snapshot |
| Recovery.RecoverExactly | crates/auction-wal/src/replay.rs:41-105 | for any log and any snapshot: what lies past the snapshot is replayed if and only if it goes on from it without a gap, and how many; otherwise the two numbers at the first gap are reported and nothing is replayed |
| Recovery.StartsBeyond | crates/auction-wal/src/replay.rs:74-81 | a log that starts beyond the snapshot is out of sequence at its first record |
| Recovery.RecoveryAfterCrash | crates/auction-wal/src/replay.rs:41-105 | recovery before and after tail truncation agrees, and the reopened log expects the number recovery resumes at |
| Recovery.Follow | crates/auction-wal/src/replay.rs:107-119 | following one record is applying it |
| Recovery.FollowAll | crates/auction-wal/src/replay.rs:107-119 | following a whole log record by record reaches the state of the run |
| Replication.Confirmation.Publish | crates/auction-engine/src/replication.rs:96-103 | the confirmation mark never falls |
| Replication.Confirmation.WaitFor | crates/auction-engine/src/replication.rs:109-121 | the waiting loop is released exactly when some look finds the record confirmed before a sleep ran out of time, and gives the replica up exactly when one ran out first |
| Replication.Follow | crates/auction-engine/src/replication.rs:209-237 | the standby continues the run and confirms exactly what it has applied |
| Pipeline.MovesKeep | crates/auction-engine/src/engine.rs:381-675 | every step of every thread, sends to a thread about to go included, and every crash keeps the chain from command to acknowledgement, takes back nothing the mark covers, and moves mark, view and replies only forward |
| Pipeline.NothingRunsAhead | crates/auction-engine/src/engine.rs:607-675 | under every interleaving every reply, every broadcast and the view stay within what the ack thread let through, that within the mark, the mark within what is synced, that within what is appended and applied |
| Pipeline.AcknowledgedForGood | docs/invariants.md:74-85 | whatever happens after a reply, any disk a further crash could leave still holds the acknowledged record in its place, and replaying it gives the events the reply carried |
| Pipeline.ShownInOrder | crates/auction-engine/src/engine.rs:650-673 | field by field, the view shows the status, supply, clearing price, clock and number of the run as of the last record shown, its price the clearing price or else the clock's, as does whoever heard every event of that run; nothing has been said since; broadcasts are every event since the restart, in order; replies go out one per command, in sequence over all restarts, each with exactly its command's events; and of the commands passed exactly those that asked have been answered |
| Pipeline.ShownOnlyForward | crates/auction-engine/src/engine.rs:607-675 | along every interleaving, restarts included, view, ack thread and mark only go forward and no reply is taken back |
| Pipeline.GuardedRepliesAreReplicated | crates/auction-engine/src/engine.rs:629-648 | a reply sent in sync mode with the standby not declared lost is for a command the standby has applied, its state being the run of a prefix that contains it |
| Pipeline.EveryReplyIsGuarded | crates/auction-engine/src/engine.rs:629-648 | until the standby is given up every reply of the incarnation is a guarded one |
| Pipeline.GivenUpExactly | crates/auction-engine/src/engine.rs:629-648 | the standby is given up only by the ack thread losing it, and until the next restart |
| Pipeline.WriterNeverRefuses | crates/auction-engine/src/engine.rs:381-430 | what the engine submits always continues the log, so the writer never stops over a gap |
| Pipeline.EveryoneCanBeAnswered | crates/auction-engine/src/engine.rs:381-675 | from every reachable situation with all threads there, some steps without a new command leave every applied record on disk, passed and shown, and everyone who asked answered |
| Pipeline.RestartKeeps | crates/auction-engine/src/engine.rs:206-229 | restarting from any crash, with any usable snapshot, resumes as the run of the surviving log |
| Pipeline.AlwaysRestartable | crates/auction-engine/src/engine.rs:206-229 | whatever a crash left can be read, reopened and recovered |
| Pipeline.SequenceIsNeverViolated | crates/auction-core/src/state.rs:162-175 | the state machine accepts every number the sequencer hands out, across restarts too |

## Left out

- Gateway, projector and load generator: they hold no logic yet.
- Threads, parking, spinning, linger timing, channel capacities and the reading of clocks: steps are
  taken in any order and timestamps are arbitrary.
- File-system errors and directory listings: segments are numbered from zero without holes, and a
  write that fails stops the writer.
- The checksum: any function of the payload. The payload codec is a concrete one, little-endian with
  tagged variants, which tolerates trailing bytes.
- Manifest JSON, metrics, tracing, snapshot files as bytes, snapshot pruning and when the engine
  chooses to take a snapshot.
- `RateLimited` and `Busy`: the core never gives them.
- Pipeline.MovesKeep: the writer's private batch buffer is part of its queue, and it may sync and
  publish between any two appends, which allows every batching the code can do and more.
- Pipeline.RestartKeeps: assumes a snapshot that is not ahead of the log agrees with it, and none over
  an empty log. Snapshots are handed off before their sequence is durable and stale ones stay behind,
  so this cannot be derived from the code; a restart begins with a fresh standby.
- Journal.CrashKeeps: a crash keeps a prefix of the unsynced bytes; sectors written out of order are
  not modelled. Altered bytes are judged where they are read (`Journal.ReadAllExactly`), not produced
  by a crash.
- Wakeup.TickRemovesItsCause: leaves out ticks in the last nanosecond of u64, where it does not hold
  (`Wakeup.SaturatedDeadlineStays`).
- Recovery.RecoverLog: works on state values, since restoring a ladder from a snapshot's bytes is not
  modelled; replay without a snapshot also runs on the object in `Recovery.FollowAll`.
- That the engine's own tick precedes queued traffic at a window boundary, and that no triggerable bid
  rests between ticks: neither holds, since the channel is polled before the deadline is looked at.
