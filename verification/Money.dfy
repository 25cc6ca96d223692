/** Collateral is conserved exactly: every command leaves each account committed to precisely what
    its fills cost and its live bids reserve, and only an admitted bid can raise that. */
module Money {
  import opened Auction
  import opened Bounded
  import opened Loops
  import opened Rules
  import opened Schedule
  import opened Soundness
  import opened Sums
  import Ladder
  import Matching

  ghost predicate Balanced(s: State, p: Participant) {
    Committed(s, p) == Owed(s.fills, Flight(s), s.resting, p)
  }

  function Ceiling(s: State, p: Participant): I64 {
    CollateralOf(s.collateral, p).limit
  }

  /** From `s` to `r` the books still balance, and `p` has no more at stake than before. */
  ghost predicate Eases(s: State, r: State, p: Participant) {
    Balanced(r, p) && Ceiling(r, p) == Ceiling(s, p) && Committed(r, p) <= Committed(s, p)
  }

  lemma OwedIsNonNegative(c: Config, s: State, p: Participant)
    requires c.WellFormed() && Sound(c, s)
    ensures Sum(s.fills, FillCost(p)) >= 0 && Sum(Flight(s), PendingCost(p)) >= 0
         && Sum(s.resting, RestingCost(p)) >= 0
  {
    SumNonNegativeFills(s.fills, p);
    if s.window.Some? {
      CompeteReserved(s.window.value.price, s.window.value.bids);
      SumNonNegativeCosts(Flight(s), p);
    }
    SumNonNegativeLimits(s.resting, p);
  }

  lemma CompeteReserved(price: I64, bids: seq<PendingBid>)
    requires AllCompete(price, bids)
    ensures price >= 0 || bids == []
    ensures forall i :: 0 <= i < |bids| ==> Reserved(price, bids[i]) && Reserved(0, bids[i])
  {
    if bids != [] {
      assert Competes(price, bids[0]);
    }
  }

  lemma LedgerPays(fills: seq<Fill>, price: I64)
    requires Ledger(fills) && price >= 0
    ensures forall i :: 0 <= i < |fills| ==> Payable(fills[i])
    ensures forall i :: 0 <= i < |fills| ==> Payable(RepricedFrom(fills, price, 0)[i])
    ensures NoneBelow(fills, price) ==> forall i :: 0 <= i < |fills| ==> price <= fills[i].price
  {}

  /** The ledger and the ladder between the two loops of a clearing. */
  lemma RepricedShape(s: State, price: I64)
    ensures var begun := s.(status := Status.Cleared, clearing := Some(price));
            var r := RepriceFrom(begun, price, 0).st;
            && r.fills == RepricedFrom(s.fills, price, 0) && r.resting == s.resting
            && Clear(s, price).st.collateral == RefuseResting(r.(resting := []), s.resting, Unfilled).st.collateral
  {
    RepriceFrame(s.(status := Status.Cleared, clearing := Some(price)), price, 0);
  }

  /** The two loops of a clearing, over one account. */
  lemma ClearAccount(s: State, price: I64, p: Participant, rest: nat)
    requires Ledger(s.fills) && NoneBelow(s.fills, price) && price >= 0 && AllCovered(s.resting)
    requires rest == Sum(s.resting, RestingCost(p))
    requires Committed(s, p) == Sum(s.fills, FillCost(p)) + rest
    ensures Holds(Clear(s, price).st.collateral, p, Ceiling(s, p), Sum(RepricedFrom(s.fills, price, 0), FillCost(p)))
    ensures 0 <= Sum(RepricedFrom(s.fills, price, 0), FillCost(p)) <= Sum(s.fills, FillCost(p))
  {
    hide Sum, Ledger, NoneBelow, RepricedFrom, Payable, RepriceFrom, RefuseResting, FillCost, RestingCost, Clear, Covered;
    var begun := s.(status := Status.Cleared, clearing := Some(price));
    var repriced := RepriceFrom(begun, price, 0).st;
    LedgerPays(s.fills, price);
    RepricedShape(s, price);
    RepriceBalances(begun, price, 0, p, rest);
    SumNonNegativeFills(repriced.fills, p);
    RefuseRestingBalances(repriced.(resting := []), s.resting, Unfilled, p, Sum(repriced.fills, FillCost(p)));
  }

  /** Clearing frees the repriced difference and every resting reservation, to the unit. */
  lemma ClearBalances(s: State, price: I64, p: Participant)
    requires Ledger(s.fills) && NoneBelow(s.fills, price) && price >= 0
    requires AllCovered(s.resting) && s.window == None && Balanced(s, p)
    ensures Eases(s, Clear(s, price).st, p)
  {
    SumNonNegativeLimits(s.resting, p);
    ClearShape(s, price);
    ClearAccount(s, price, p, Sum(s.resting, RestingCost(p)));
    hide Clear, Ledger, NoneBelow, RepricedFrom;
  }

  lemma SortedCost(bids: seq<PendingBid>, p: Participant)
    ensures Sum(Matching.SortBids(bids), PendingCost(p)) == Sum(bids, PendingCost(p))
  {
    Matching.SortBidsSorts(bids);
    SumPermutation(Matching.SortBids(bids), bids, PendingCost(p));
  }

  lemma MatchedReady(s: State)
    requires s.window.Some? && s.supply > 0 && AllCompete(s.window.value.price, s.window.value.bids)
    ensures var w, bids, m := s.window.value, Matching.SortBids(s.window.value.bids), Matched(s);
            && |m.allocs| == |bids| && NothingOver(bids, m.allocs, m.exhausted)
            && forall i :: 0 <= i < |bids| ==> Reserved(w.price, bids[i]) && m.allocs[i] <= bids[i].qty
  {
    hide Matched, NothingOver, Reserved;
    MatchedFacts(s);
    CompeteReserved(s.window.value.price, Matching.SortBids(s.window.value.bids));
  }

  /** The settlement loop over one account. */
  lemma SettledAccount(s: State, p: Participant, others: nat)
    requires s.window.Some? && s.supply > 0 && AllCompete(s.window.value.price, s.window.value.bids)
    requires Committed(s, p) == others + Sum(Flight(s), PendingCost(p))
    ensures var w, m := s.window.value, Matched(s);
            && |m.allocs| == |Matching.SortBids(w.bids)|
            && var paid := Sum(NewFills(s.nextFillId, w.price, Matching.SortBids(w.bids), m.allocs), FillCost(p));
               && Holds(SettledWindow(s).st.collateral, p, Ceiling(s, p), others + paid)
               && 0 <= paid <= Sum(Flight(s), PendingCost(p))
  {
    hide Matched, AllCompete, Sum, NewFills, Settle, Reserved, NothingOver, FillCost, PendingCost, Matching.SortBids, Holds;
    var w, bids, m := s.window.value, Matching.SortBids(s.window.value.bids), Matched(s);
    MatchedReady(s);
    SortedCost(w.bids, p);
    SettleBalances(s.(window := None, supply := m.remaining), w.price, bids, m.allocs, m.exhausted, p, others);
  }

  lemma LiveWindow(c: Config, s: State)
    requires c.WellFormed() && Sound(c, s) && s.status.Live? && s.window.Some?
    ensures s.supply > 0 && AllCompete(s.window.value.price, s.window.value.bids)
  {}

  lemma SettledLedger(c: Config, s: State, p: Participant)
    requires c.WellFormed() && Sound(c, s) && s.status.Live? && s.window.Some?
    ensures var w, m := s.window.value, Matched(s);
            && |m.allocs| == |Matching.SortBids(w.bids)|
            && Sum(SettledWindow(s).st.fills, FillCost(p)) == Sum(s.fills, FillCost(p))
                + Sum(NewFills(s.nextFillId, w.price, Matching.SortBids(w.bids), m.allocs), FillCost(p))
            && SettledWindow(s).st.resting == s.resting && SettledWindow(s).st.window == None
  {
    hide Matched, AllCompete, Sum, NewFills, Settle, Reserved, NothingOver, FillCost, Matching.SortBids;
    var w, bids, m := s.window.value, Matching.SortBids(s.window.value.bids), Matched(s);
    LiveWindow(c, s);
    MatchedReady(s);
    SettleFrame(s.(window := None, supply := m.remaining), w.price, bids, m.allocs, m.exhausted);
    SumConcat(s.fills, NewFills(s.nextFillId, w.price, bids, m.allocs), FillCost(p));
  }

  lemma NothingInFlight(s: State, p: Participant)
    requires s.window == None
    ensures Owed(s.fills, Flight(s), s.resting, p) == Sum(s.fills, FillCost(p)) + Sum(s.resting, RestingCost(p))
  {}

  lemma SettledBalances(c: Config, s: State, p: Participant)
    requires c.WellFormed() && Sound(c, s) && s.status.Live? && s.window.Some? && Balanced(s, p)
    ensures Eases(s, SettledWindow(s).st, p)
  {
    hide Matched, SettledWindow, NewFills, Sum, Sound, FillCost, PendingCost, RestingCost, AllCompete;
    OwedIsNonNegative(c, s, p);
    LiveWindow(c, s);
    SettledLedger(c, s, p);
    SettledAccount(s, p, Sum(s.fills, FillCost(p)) + Sum(s.resting, RestingCost(p)));
    NothingInFlight(SettledWindow(s).st, p);
  }

  lemma FlushBalances(c: Config, s: State, p: Participant)
    requires c.WellFormed() && Sound(c, s) && s.status.Live? && Balanced(s, p)
    ensures Eases(s, Flush(s).st, p)
  {
    if s.window.None? {
      FlushNothing(s);
    } else {
      hide Settle, Clear, Flush, SettledWindow, Matched;
      var settled, price := SettledWindow(s).st, s.window.value.price;
      SettledBalances(c, s, p);
      SettledShape(c, s);
      FlushSteps(s);
      if Matched(s).exhausted {
        WindowPriceBounds(c, s.window.value.index, s.now);
        assert price >= 0 by { CompeteReserved(price, s.window.value.bids); }
        ClearBalances(settled, price, p);
      }
    }
  }

  lemma {:induction false} JoinedCost(bids: seq<RestingBid>, p: Participant)
    ensures Sum(Joined(bids), PendingCost(p)) == Sum(bids, RestingCost(p))
  {
    if bids != [] {
      JoinedCost(bids[1..], p);
      assert Joined(bids)[1..] == Joined(bids[1..]);
    }
  }

  /** A triggered bid moves to the window with its reservation. */
  lemma TriggerBalances(c: Config, s: State, p: Participant)
    requires c.WellFormed() && Sound(c, s) && Current(c, s) && s.status.Live? && Balanced(s, p)
    ensures Eases(s, Trigger(c, s, s.now), p)
  {
    hide Trigger, Ladder.AtLeast;
    var clock := c.PriceAt(s.now);
    var high, low := Ladder.Triggered(s.resting, clock), Ladder.Untriggered(s.resting, clock);
    TriggerShape(c, s);
    JoinedCost(high, p);
    SumConcat(Flight(s), Joined(high), PendingCost(p));
    assert high + low == s.resting;
    SumConcat(high, low, RestingCost(p));
  }

  lemma BottomBalances(c: Config, s: State, p: Participant)
    requires c.WellFormed() && Sound(c, s) && s.status.Live? && AtFloor(c.schedule, s.now) && Balanced(s, p)
    ensures Eases(s, Bottom(c, s).st, p)
  {
    hide Flush, Clear, Balanced, NoneBelow, Staged;
    FlushBalances(c, s, p);
    if s.window.Some? {
      FlushIsSound(c, s);
    } else {
      FlushNothing(s);
    }
    var flushed := Flush(s).st;
    if flushed.status.Live? {
      FloorIsLow(c, flushed);
      ClearBalances(flushed, c.schedule.floor, p);
    }
  }

  lemma TickBalances(c: Config, s: State, p: Participant)
    requires c.WellFormed() && Sound(c, s) && Current(c, s) && Balanced(s, p)
    ensures Eases(s, OnTick(c, s, s.now).st, p)
  {
    if s.status.Live? {
      hide Flush, Bottom, Trigger, Sound, Balanced;
      TriggerIsSound(c, s);
      TriggerBalances(c, s, p);
      var triggered := Trigger(c, s, s.now);
      var matched := if c.batchWindow == 0 then Flush(triggered) else Step(triggered, []);
      if c.batchWindow == 0 {
        FlushBalances(c, triggered, p);
        if triggered.window.Some? {
          FlushIsSound(c, triggered);
        } else {
          FlushNothing(triggered);
        }
      }
      if matched.st.status == Live && AtFloor(c.schedule, s.now) {
        BottomBalances(c, matched.st, p);
      }
    }
  }

  lemma CancelBalances(c: Config, s: State, p: Participant)
    requires c.WellFormed() && Sound(c, s) && Current(c, s) && Balanced(s, p)
    ensures Eases(s, OnCancel(s).st, p)
  {
    if !s.status.Terminal() {
      var begun := s.(status := Status.Cancelled, window := None);
      OwedIsNonNegative(c, s, p);
      if s.window.Some? {
        CompeteReserved(s.window.value.price, s.window.value.bids);
      }
      RefusePendingFrame(begun, Flight(s), NotLive);
      RefusePendingBalances(begun, Flight(s), NotLive, p, Sum(s.fills, FillCost(p)) + Sum(s.resting, RestingCost(p)));
      var emptied := RefusePending(begun, Flight(s), NotLive).st.(resting := []);
      RefuseRestingFrame(emptied, s.resting, NotLive);
      RefuseRestingBalances(emptied, s.resting, NotLive, p, Sum(s.fills, FillCost(p)));
    }
  }

  lemma CloseBalances(c: Config, s: State, p: Participant)
    requires c.WellFormed() && Sound(c, s) && Balanced(s, p)
    ensures Eases(s, CloseElapsed(c, s, s.now).st, p)
  {
    hide Flush;
    if s.window.Some? {
      FlushBalances(c, s, p);
    }
  }

  // ---------------------------------------------------------------- admission

  /** Admitting a bid commits exactly its cost, and never past the ceiling. */
  lemma ReserveIsExact(coll: map<Participant, Collateral>, q: Participant, price: I64, qty: U64, p: Participant)
    requires price >= 0 && CollateralOf(coll, q).committed >= 0
    ensures var c, cost := CollateralOf(coll, p), if q == p && CanReserve(coll, q, price, qty) then price * qty else 0;
            && Holds(Reserve(coll, q, price, qty), p, c.limit, c.committed + cost)
            && cost >= 0 && (cost > 0 ==> c.committed + cost <= c.limit)
    ensures CanReserve(coll, q, price, qty) ==> qty <= I64_MAX
  {
    if CanReserve(coll, q, price, qty) {
      CostMonotone(0, price, 0, qty);
    }
  }

  /** Asking for a reservation opens an account, granted or not, unless the cost does not even fit. */
  lemma ReserveOpensExactly(coll: map<Participant, Collateral>, p: Participant, price: I64, qty: U64)
    ensures Reserve(coll, p, price, qty).Keys
         == coll.Keys + if qty <= 0x7FFF_FFFF_FFFF_FFFF && -0x8000_0000_0000_0000 <= price * qty <= 0x7FFF_FFFF_FFFF_FFFF then {p} else {}
  {
    hide ClampI64;
  }

  /** An account nobody could complain about. */
  ghost predicate Solvent(a: Collateral) {
    0 <= a.committed <= a.limit
  }

  /** Exactly which admissions keep every account solvent: those at a price that is not negative, and
      those refused outright because their cost does not fit. */
  lemma AdmissionIsSafeExactly(price: I64, qty: U64, p: Participant)
    requires qty > 0
    ensures (forall a: Collateral :: Solvent(a) ==> Solvent(CollateralOf(Reserve(map[p := a], p, price, qty), p)))
            <==> price >= 0 || CheckedCost(price, qty).None?
  {
    if price >= 0 || CheckedCost(price, qty).None? {
      forall a: Collateral | Solvent(a)
        ensures Solvent(CollateralOf(Reserve(map[p := a], p, price, qty), p))
      {
        if CheckedCost(price, qty).Some? {
          ReserveIsExact(map[p := a], p, price, qty, p);
        }
      }
    } else {
      var idle := Collateral(0, 0);
      var drop: nat := -(price as int);
      MulMonotone(drop, 1, qty);
      assert price * qty == -(drop * qty);
      assert !Solvent(CollateralOf(Reserve(map[p := idle], p, price, qty), p));
    }
  }

  /** A step that admits at most one bid: the books balance, and `p` is within the ceiling if it has
      more at stake than before. */
  ghost predicate Admits(s: State, r: State, p: Participant) {
    && Balanced(r, p) && Ceiling(r, p) == Ceiling(s, p)
    && (Committed(r, p) <= Committed(s, p) || Committed(r, p) <= Ceiling(s, p))
  }

  /** Joining the window with a reservation already made. */
  lemma QueuedBalances(s: State, reserved: State, index: U64, price: I64, bid: PendingBid, p: Participant)
    requires Balanced(s, p) && reserved == s.(collateral := reserved.collateral)
    requires PendingCost(p)(bid) >= 0
    requires Holds(reserved.collateral, p, Ceiling(s, p), Committed(s, p) + PendingCost(p)(bid))
    requires PendingCost(p)(bid) > 0 ==> Committed(s, p) + PendingCost(p)(bid) <= Ceiling(s, p)
    ensures var queued := PushPending(reserved, index, price, bid);
            var answered := queued.(outcomes := SetOutcome(queued.outcomes, bid.key, Outcome.Queued(bid.qty)));
            Admits(s, answered, p)
  {
    hide Sum, SetOutcome, FillCost, RestingCost, PendingCost;
    SumSnoc(Flight(s), bid, PendingCost(p));
    assert Flight(PushPending(reserved, index, price, bid)) == Flight(s) + [bid];
  }

  lemma AdmitsEases(s: State, t: State, r: State, p: Participant)
    requires Admits(s, t, p) && Eases(t, r, p)
    ensures Admits(s, r, p)
  {}

  /** What a bid asks the account to reserve, per unit. */
  function AskingPrice(c: Config, s: State, kind: BidKind): I64
    requires c.WellFormed()
  {
    match kind
    case Take(_) => c.PriceAt(LastInstant(c, s.now))
    case Resting(limit) => limit
  }

  /** Whether the clock stands where the bid needs it. */
  predicate PricedRight(c: Config, s: State, kind: BidKind)
    requires c.WellFormed()
  {
    match kind
    case Take(expected) => expected - c.priceTolerance <= c.PriceAt(s.now) <= expected + c.priceTolerance
    case Resting(limit) => limit <= c.PriceAt(s.now)
  }

  /** With the books balanced a reservation succeeds exactly when it fits under the ceiling on top of
      everything already at stake. */
  lemma ReservesExactly(c: Config, s: State, p: Participant, price: I64, qty: U64)
    requires c.WellFormed() && Sound(c, s) && Balanced(s, p) && price >= 0
    ensures CanReserve(s.collateral, p, price, qty) <==>
            qty <= I64_MAX && Owed(s.fills, Flight(s), s.resting, p) + price * qty <= Ceiling(s, p)
  {
    hide Owed, Sound;
    SolventAndPriced(c, s, p);
    CostMonotone(0, price, 0, qty);
  }

  /** A fresh bid is admitted exactly when it is for something, the auction is live, the clock stands
      where the bid needs it, and its cost fits under the ceiling on top of all the participant owes;
      otherwise it is refused. */
  lemma AdmissionExactly(c: Config, s: State, seqno: U64, p: Participant, key: Key, qty: U64, kind: BidKind)
    requires c.WellFormed() && Sound(c, s) && Current(c, s) && Balanced(s, p)
    requires key !in s.outcomes && SubmitBid(p, key, qty, kind).Admissible()
    ensures var ev := OnBid(c, s, seqno, s.now, p, key, qty, kind).ev;
            && ev != []
            && (ev[0].Queued? || ev[0].Rested? <==>
                && 0 < qty <= I64_MAX && s.status.Live? && PricedRight(c, s, kind)
                && Owed(s.fills, Flight(s), s.resting, p) + AskingPrice(c, s, kind) * qty <= Ceiling(s, p))
            && (ev[0].Queued? || ev[0].Rested? || ev[0].Rejected?)
  {
    SolventAndPriced(c, s, p);
    WindowPriceExactly(c, s.now);
    ReservesExactly(c, s, p, AskingPrice(c, s, kind), qty);
    hide LastInstant, Sound, Balanced, Owed, CanReserve, Reserve, Flush, SetOutcome, Ladder.Arriving, WindowPrice, WindowIndex, Ceiling;
  }

  lemma TakeBalances(c: Config, s: State, seqno: U64, q: Participant, key: Key, qty: U64, expected: I64, p: Participant)
    requires c.WellFormed() && Sound(c, s) && Current(c, s) && s.status.Live? && qty > 0
    requires Balanced(s, p) && Balanced(s, q)
    ensures Admits(s, OnTake(c, s, seqno, s.now, q, key, qty, expected).st, p)
  {
    hide Flush, Reserve, CanReserve, Sound, SetOutcome, Owed, WindowPrice, WindowIndex, PushPending, Eases, CollateralOf;
    var index := WindowIndex(c, s.now);
    var price := WindowPrice(c, index);
    var reserved := s.(collateral := Reserve(s.collateral, q, price, qty));
    SolventAndPriced(c, s, q);
    ReserveIsExact(s.collateral, q, price, qty, p);
    AccountsAside(c, s, reserved);
    if CanReserve(s.collateral, q, price, qty) {
      var bid := PendingBid(seqno, q, key, qty, price, price, None);
      QueuedBalances(s, reserved, index, price, bid, p);
      if c.batchWindow == 0 {
        var queued := PushPending(reserved, index, price, bid);
        var answered := queued.(outcomes := SetOutcome(queued.outcomes, key, Outcome.Queued(qty)));
        PushIsSound(c, reserved, bid);
        AccountsAside(c, queued, answered);
        FlushBalances(c, answered, p);
        AdmitsEases(s, answered, Flush(answered).st, p);
      }
    }
  }

  lemma SolventAndPriced(c: Config, s: State, q: Participant)
    requires c.WellFormed() && Sound(c, s) && Balanced(s, q)
    ensures CollateralOf(s.collateral, q).committed >= 0
    ensures WindowPrice(c, WindowIndex(c, s.now)) >= 0
  {
    OwedIsNonNegative(c, s, q);
    WindowPriceBounds(c, WindowIndex(c, s.now), s.now);
  }

  /** Joining the ladder with a reservation already made. */
  lemma RestedBalances(s: State, coll: map<Participant, Collateral>, bid: RestingBid, p: Participant)
    requires Balanced(s, p) && RestingCost(p)(bid) >= 0
    requires Holds(coll, p, Ceiling(s, p), Committed(s, p) + RestingCost(p)(bid))
    requires RestingCost(p)(bid) > 0 ==> Committed(s, p) + RestingCost(p)(bid) <= Ceiling(s, p)
    ensures var r := s.(collateral := coll, resting := Ladder.Arriving(s.resting, bid),
                        outcomes := SetOutcome(s.outcomes, bid.key, Outcome.Resting(bid.qty)));
            Admits(s, r, p)
  {
    hide Sum, SetOutcome, Ladder.AtLeast, FillCost, PendingCost, RestingCost;
    SumInsert(s.resting, Ladder.AtLeast(s.resting, bid.limit), bid, RestingCost(p));
  }

  lemma RestBalances(c: Config, s: State, seqno: U64, q: Participant, key: Key, qty: U64, limit: I64, p: Participant)
    requires c.WellFormed() && Sound(c, s) && limit >= 0
    requires Balanced(s, p) && Balanced(s, q)
    ensures Admits(s, OnRest(c, s, seqno, s.now, q, key, qty, limit).st, p)
  {
    hide Reserve, CanReserve, SetOutcome, Ladder.Arriving, Owed, CollateralOf, Sound;
    SolventAndPriced(c, s, q);
    ReserveIsExact(s.collateral, q, limit, qty, p);
    if CanReserve(s.collateral, q, limit, qty) {
      RestedBalances(s, Reserve(s.collateral, q, limit, qty), RestingBid(seqno, q, key, qty, limit), p);
    }
  }

  /** Withdrawing the bid at position `i` of the ladder. */
  lemma WithdrawnCost(resting: seq<RestingBid>, i: nat, p: Participant)
    requires AllCovered(resting) && i < |resting|
    ensures Sum(Ladder.Without(resting, i), RestingCost(p)) == Sum(resting, RestingCost(p)) - RestingCost(p)(resting[i])
    ensures 0 <= RestingCost(p)(resting[i]) <= Sum(resting, RestingCost(p))
    ensures resting[i].limit >= 0 && resting[i].qty <= I64_MAX
  {
    SumRemove(resting, i, RestingCost(p));
    assert Covered(resting[i]);
    CostMonotone(0, resting[i].limit, 0, resting[i].qty);
    SumNonNegativeLimits(Ladder.Without(resting, i), p);
  }

  lemma CancelRestingBalances(c: Config, s: State, q: Participant, key: Key, p: Participant)
    requires c.WellFormed() && Sound(c, s) && Balanced(s, p)
    ensures Eases(s, OnCancelResting(s, q, key).st, p)
  {
    hide Release, Sum, SetOutcome, Ladder.Search, FillCost, PendingCost, Ladder.Without, AllCovered;
    var found := Ladder.Search(s.resting, q, key);
    Ladder.SearchFinds(s.resting, q, key);
    if found.Some? {
      var b := s.resting[found.value];
      OwedIsNonNegative(c, s, p);
      WithdrawnCost(s.resting, found.value, p);
      ReleaseIsExact(s.collateral, q, b.limit, b.qty, p);
    }
  }

  /** The highest ceiling so far, once `cmd` has been considered. */
  function Raised(peak: int, cmd: Command, p: Participant): int {
    if cmd.SetCollateral? && cmd.participant == p then Max(peak, cmd.ceiling) else peak
  }

  lemma DispatchBalances(c: Config, s: State, seqno: U64, cmd: Command, p: Participant, peak: int)
    requires c.WellFormed() && Sound(c, s) && Current(c, s) && cmd.Admissible()
    requires forall q :: Balanced(s, q)
    requires Ceiling(s, p) <= peak && Committed(s, p) <= peak
    ensures var r := Dispatch(c, s, seqno, cmd).st;
            && Balanced(r, p) && Committed(r, p) <= Raised(peak, cmd, p)
            && Ceiling(r, p) == (if cmd.SetCollateral? && cmd.participant == p then cmd.ceiling else Ceiling(s, p))
            && Ceiling(r, p) <= Raised(peak, cmd, p)
            && (cmd.SetCollateral? ==> Committed(r, p) == Committed(s, p))
  {
    hide OnTake, OnRest, OnCancelResting, OnTick, OnCancel, Owed;
    match cmd
    case Open =>
    case SetCollateral(q, ceiling) =>
    case SubmitBid(q, key, qty, kind) =>
      if key !in s.outcomes && qty > 0 && s.status.Live? {
        assert Balanced(s, q);
        match kind
        case Take(expected) => TakeBalances(c, s, seqno, q, key, qty, expected, p);
        case Resting(limit) => RestBalances(c, s, seqno, q, key, qty, limit, p);
      }
    case CancelResting(q, key) => CancelRestingBalances(c, s, q, key, p);
    case Tick => TickBalances(c, s, p);
    case Cancel => CancelBalances(c, s, p);
  }

  lemma ClosedBalances(c: Config, s: State, r: LogRecord, p: Participant)
    requires c.WellFormed() && Between(c, s) && InSequence(s, r.seqno) && Balanced(s, p)
    ensures var t := Closed(c, s, r);
            Balanced(t, p) && Ceiling(t, p) == Ceiling(s, p) && Committed(t, p) <= Committed(s, p)
  {
    hide CloseElapsed;
    StampIsSound(c, s, r.seqno, r.ts);
    CloseBalances(c, Stamp(s, r.seqno, r.ts), p);
  }

  /** Every command conserves collateral, and keeps every participant within the highest ceiling
      ever posted for it. */
  lemma ApplyBalances(c: Config, s: State, r: LogRecord, p: Participant, peak: int)
    requires c.WellFormed() && Between(c, s) && InSequence(s, r.seqno) && r.cmd.Admissible()
    requires forall q :: Balanced(s, q)
    requires Ceiling(s, p) <= peak && Committed(s, p) <= peak
    ensures var t := Apply(c, s, r).st;
            Balanced(t, p) && Ceiling(t, p) <= Raised(peak, r.cmd, p) && Committed(t, p) <= Raised(peak, r.cmd, p)
  {
    hide Dispatch, CloseElapsed, Raised, Balanced, Ceiling, Committed, Between, Sound, Current;
    ClosedIsSound(c, s, r);
    forall q ensures Balanced(Closed(c, s, r), q) {
      ClosedBalances(c, s, r, q);
    }
    ClosedBalances(c, s, r, p);
    DispatchBalances(c, Closed(c, s, r), r.seqno, r.cmd, p, peak);
  }
}
