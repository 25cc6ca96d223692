/** The shape every reachable auction has, kept by every step of a command. */
module Soundness {
  import opened Auction
  import opened Bounded
  import opened Loops
  import opened Rules
  import opened Schedule
  import opened Sums
  import Ladder
  import Matching

  // ---------------------------------------------------------------- windows and the clock

  lemma WindowsAdvance(c: Config, t1: U64, t2: U64)
    requires t1 <= t2
    ensures WindowIndex(c, t1) <= WindowIndex(c, t2)
  {
    if c.batchWindow > 0 {
      FloorAdvances(t1, t2, c.batchWindow);
    }
  }

  lemma LastCovers(c: Config, t: U64)
    ensures t <= WindowLast(c, WindowIndex(c, t))
  {}

  lemma LastAdvances(c: Config, i: U64, j: U64)
    requires i <= j
    ensures WindowLast(c, i) <= WindowLast(c, j)
  {
    MulMonotone(c.batchWindow, i, j);
  }

  /** Nobody in a window fills above the price they saw, and later windows are no dearer. */
  lemma WindowPriceBounds(c: Config, index: U64, t: U64)
    requires c.WellFormed() && index <= WindowIndex(c, t)
    ensures WindowPrice(c, WindowIndex(c, t)) <= WindowPrice(c, index)
    ensures WindowPrice(c, WindowIndex(c, t)) <= c.PriceAt(t)
    ensures 0 <= c.schedule.floor <= WindowPrice(c, WindowIndex(c, t))
  {
    LastAdvances(c, index, WindowIndex(c, t));
    PriceDescends(c.schedule, WindowLast(c, index), WindowLast(c, WindowIndex(c, t)));
    LastCovers(c, t);
    PriceDescends(c.schedule, t, WindowLast(c, WindowIndex(c, t)));
  }

  /** The last instant of the window that `t` lies in: `t` itself with batching off. */
  function LastInstant(c: Config, t: U64): U64 {
    var w: int := c.batchWindow;
    if w == 0 then t
    else
      FloorReaches(t, w, t / w + 1);
      Min((t / w + 1) * w - 1, 0xFFFF_FFFF_FFFF_FFFF)
  }

  /** Which window `t` lies in. */
  function NumberOf(c: Config, t: U64): (n: U64)
    ensures c.batchWindow > 0 ==> n * (c.batchWindow as int) <= t < (n + 1) * (c.batchWindow as int)
  {
    if c.batchWindow == 0 then t
    else
      FloorReaches(t, c.batchWindow, t / c.batchWindow);
      FloorReaches(t, c.batchWindow, t / c.batchWindow + 1);
      t / c.batchWindow
  }

  /** A window's number and its price in plain arithmetic. */
  lemma WindowPriceExactly(c: Config, t: U64)
    requires c.WellFormed()
    ensures WindowIndex(c, t) == NumberOf(c, t)
    ensures WindowPrice(c, WindowIndex(c, t)) == c.PriceAt(LastInstant(c, t))
  {
    var w: int := c.batchWindow;
    if w > 0 {
      FloorReaches(t, w, t / w);
      assert (t / w + 1) * w == t / w * w + w;
    }
  }

  /** The same, by any instant `u` that is the last of the window `t` lies in. */
  lemma WindowPriceAtLast(c: Config, t: U64, u: U64)
    requires c.WellFormed() && c.batchWindow > 0 && u < U64_MAX
    requires t / c.batchWindow == u / c.batchWindow && (u + 1) / c.batchWindow == u / c.batchWindow + 1
    ensures WindowPrice(c, WindowIndex(c, t)) == c.PriceAt(u)
  {
    WindowPriceExactly(c, t);
    LastOfStretch(u, c.batchWindow);
    hide WindowPrice, WindowIndex, PriceAt;
  }

  /** Two instants share a window exactly when no multiple of its width lies between them. */
  lemma SameWindowExactly(c: Config, t1: U64, t2: U64)
    requires t1 <= t2
    ensures WindowIndex(c, t1) == WindowIndex(c, t2) <==>
            if c.batchWindow == 0 then t1 == t2 else t2 < (t1 / c.batchWindow + 1) * (c.batchWindow as int)
  {
    if c.batchWindow > 0 {
      FloorAdvances(t1, t2, c.batchWindow);
      FloorReaches(t2, c.batchWindow, t1 / c.batchWindow + 1);
    }
  }

  // ---------------------------------------------------------------- shape

  ghost function Flight(s: State): seq<PendingBid> {
    if s.window.Some? then s.window.value.bids else []
  }

  function FillQty(f: Fill): int {
    f.qty
  }

  /** A bid in flight competes at the price it reserved at, which is at or above what it will pay. */
  ghost predicate Competes(price: I64, b: PendingBid) {
    && Reserved(price, b)
    && b.priority == b.reservePrice
    && (b.restingLimit.Some? ==> b.restingLimit.value == b.reservePrice)
    && (b.restingLimit.None? ==> b.reservePrice == price)
  }

  /** Fill records are numbered in order, worth something, and never dearer than an earlier one. */
  ghost predicate Ledger(fills: seq<Fill>) {
    && (forall i :: 0 <= i < |fills| ==> Payable(fills[i]) && fills[i].id == i)
    && forall i, j :: 0 <= i < j < |fills| ==> fills[i].price >= fills[j].price
  }

  ghost predicate NoneBelow(fills: seq<Fill>, price: I64) {
    forall i :: 0 <= i < |fills| ==> fills[i].price >= price
  }

  ghost predicate AllAt(fills: seq<Fill>, price: I64) {
    forall i :: 0 <= i < |fills| ==> fills[i].price == price
  }

  ghost predicate AllCompete(price: I64, bids: seq<PendingBid>) {
    forall i :: 0 <= i < |bids| ==> Competes(price, bids[i])
  }

  ghost predicate AllCovered(bids: seq<RestingBid>) {
    forall i :: 0 <= i < |bids| ==> Covered(bids[i])
  }

  /** The clock produced this price. */
  ghost predicate Called(c: Config, price: I64)
    requires c.WellFormed()
  {
    exists t: U64 :: c.PriceAt(t) == price
  }

  /** The open window was priced for an instant the clock has reached, below every fill so far. */
  ghost predicate Windowed(c: Config, s: State)
    requires c.WellFormed()
  {
    match s.window
    case Some(w) =>
      && w.bids != [] && AllCompete(w.price, w.bids)
      && w.index <= WindowIndex(c, s.now) && w.price == WindowPrice(c, w.index)
      && NoneBelow(s.fills, w.price)
    case None => NoneBelow(s.fills, WindowPrice(c, WindowIndex(c, s.now)))
  }

  ghost predicate Staged(c: Config, s: State)
    requires c.WellFormed()
  {
    match s.status
    case Pending => s.fills == [] && s.window == None && s.resting == [] && s.clearing == None
    case Live => s.supply > 0 && s.clearing == None && Windowed(c, s)
    case Cleared =>
      && s.window == None && s.resting == [] && s.clearing.Some?
      && AllAt(s.fills, s.clearing.value) && Called(c, s.clearing.value)
    case Cancelled => s.window == None && s.resting == [] && s.clearing == None
  }

  ghost predicate Sound(c: Config, s: State)
    requires c.WellFormed()
  {
    && Ledger(s.fills)
    && s.nextFillId == |s.fills|
    && Sum(s.fills, FillQty) + s.supply == c.totalSupply
    && AllCovered(s.resting) && Ladder.Ordered(s.resting)
    && Staged(c, s)
  }

  /** Between commands the open window is the one the clock is in, and batching is on. */
  ghost predicate Current(c: Config, s: State) {
    s.window.Some? ==> s.window.value.index == WindowIndex(c, s.now) && c.batchWindow > 0
  }

  // ---------------------------------------------------------------- clearing

  lemma ClearShape(s: State, price: I64)
    ensures var r := Clear(s, price).st;
            r == s.(status := Status.Cleared, clearing := Some(price), resting := [],
                    fills := RepricedFrom(s.fills, price, 0),
                    collateral := r.collateral, outcomes := r.outcomes)
  {
    var begun := s.(status := Status.Cleared, clearing := Some(price));
    RepriceFrame(begun, price, 0);
    var repriced := RepriceFrom(begun, price, 0).st;
    RefuseRestingFrame(repriced.(resting := []), repriced.resting, Unfilled);
  }

  lemma {:induction false} RepricedTotal(fills: seq<Fill>, price: I64)
    ensures Sum(RepricedFrom(fills, price, 0), FillQty) == Sum(fills, FillQty)
  {
    if fills != [] {
      RepricedTotal(fills[1..], price);
      assert RepricedFrom(fills, price, 0)[1..] == RepricedFrom(fills[1..], price, 0);
    }
  }

  lemma ClearIsSound(c: Config, s: State, price: I64)
    requires c.WellFormed()
    requires Ledger(s.fills) && s.nextFillId == |s.fills|
    requires Sum(s.fills, FillQty) + s.supply == c.totalSupply
    requires s.window == None && price >= 0 && Called(c, price)
    ensures Sound(c, Clear(s, price).st) && Clear(s, price).st.status == Status.Cleared
  {
    ClearShape(s, price);
    RepricedTotal(s.fills, price);
  }

  // ---------------------------------------------------------------- flushing

  /** What the settlement loop appends to the ledger. */
  lemma {:induction false} NewFillsAt(id: nat, price: I64, bids: seq<PendingBid>, allocs: seq<U64>)
    requires |allocs| == |bids|
    requires price >= 0 && AllCompete(price, bids)
    requires forall i :: 0 <= i < |bids| ==> allocs[i] <= bids[i].qty
    ensures var fs := NewFills(id, price, bids, allocs);
            && (forall i :: 0 <= i < |fs| ==> Payable(fs[i]) && fs[i].id == id + i && fs[i].price == price)
            && Sum(fs, FillQty) == Sum(allocs, Matching.Units)
    decreases |bids|
  {
    if bids != [] {
      NewFillsAt(if allocs[0] == 0 then id else id + 1, price, bids[1..], allocs[1..]);
      var rest := NewFills(id + 1, price, bids[1..], allocs[1..]);
      assert allocs[0] != 0 ==> NewFills(id, price, bids, allocs)[1..] == rest;
    }
  }

  lemma LedgerGrows(fills: seq<Fill>, price: I64, more: seq<Fill>)
    requires Ledger(fills) && NoneBelow(fills, price)
    requires forall i :: 0 <= i < |more| ==> Payable(more[i]) && more[i].id == |fills| + i && more[i].price == price
    ensures Ledger(fills + more) && NoneBelow(fills + more, price)
  {}

  /** Sorting keeps the bids, so it keeps whatever holds of each. */
  lemma SortKeepsCompete(price: I64, bids: seq<PendingBid>)
    requires AllCompete(price, bids)
    ensures AllCompete(price, Matching.SortBids(bids)) && Matching.Positive(Matching.SortBids(bids))
  {
    Matching.SortBidsSorts(bids);
    var sorted := Matching.SortBids(bids);
    forall i | 0 <= i < |sorted| ensures Competes(price, sorted[i]) {
      assert sorted[i] in multiset(sorted);
      assert sorted[i] in bids;
    }
  }

  /** The matching a flush performs. */
  function Matched(s: State): Matching.Match
    requires s.window.Some?
  {
    Matching.MatchLevels(Matching.SortBids(s.window.value.bids), s.supply, false)
  }

  /** The state once the matched window is settled, before any clearing. */
  function SettledWindow(s: State): Step
    requires s.window.Some?
  {
    var w, bids, m := s.window.value, Matching.SortBids(s.window.value.bids), Matched(s);
    Matching.SortLength(w.bids);
    Settle(s.(window := None, supply := m.remaining), w.price, bids, m.allocs, m.exhausted)
  }

  lemma FlushSteps(s: State)
    requires s.status.Live? && s.window.Some?
    ensures var settled, price := SettledWindow(s), s.window.value.price;
            Flush(s) == if Matched(s).exhausted
                        then Step(Clear(settled.st, price).st, settled.ev + Clear(settled.st, price).ev)
                        else settled
  {}

  /** Matching a live window either fills everyone or sells out. */
  lemma MatchedFacts(s: State)
    requires s.window.Some? && s.supply > 0 && AllCompete(s.window.value.price, s.window.value.bids)
    ensures var bids, m := Matching.SortBids(s.window.value.bids), Matched(s);
            && |m.allocs| == |bids| && AllCompete(s.window.value.price, bids)
            && (forall i :: 0 <= i < |bids| ==> m.allocs[i] <= bids[i].qty)
            && NothingOver(bids, m.allocs, m.exhausted)
            && m.remaining + Sum(m.allocs, Matching.Units) == s.supply
            && (m.exhausted <==> m.remaining == 0)
  {
    var bids, m := Matching.SortBids(s.window.value.bids), Matched(s);
    SortKeepsCompete(s.window.value.price, s.window.value.bids);
    forall i | 0 <= i < |bids| ensures m.allocs[i] <= bids[i].qty {
      Matching.MatchWithin(bids, s.supply, false, i);
    }
    Matching.MatchFull(bids, s.supply);
    Matching.MatchTotals(bids, s.supply);
  }

  /** Settling touches only the ledger, the accounts and the records. */
  lemma SettledShape(c: Config, s: State)
    requires c.WellFormed() && Sound(c, s) && s.status.Live? && s.window.Some?
    ensures var w, r, m := s.window.value, SettledWindow(s).st, Matched(s);
            && r == s.(window := None, supply := m.remaining, fills := r.fills, nextFillId := r.nextFillId,
                       collateral := r.collateral, outcomes := r.outcomes)
            && s.fills <= r.fills && r.nextFillId == |r.fills|
            && Ledger(r.fills) && NoneBelow(r.fills, w.price)
            && Sum(r.fills, FillQty) + r.supply == c.totalSupply
  {
    var w, bids, m := s.window.value, Matching.SortBids(s.window.value.bids), Matched(s);
    MatchedFacts(s);
    var fills := NewFills(|s.fills|, w.price, bids, m.allocs);
    SettleFrame(s.(window := None, supply := m.remaining), w.price, bids, m.allocs, m.exhausted);
    NewFillsAt(|s.fills|, w.price, bids, m.allocs);
    LedgerGrows(s.fills, w.price, fills);
    SumConcat(s.fills, fills, FillQty);
  }

  lemma FlushIsSound(c: Config, s: State)
    requires c.WellFormed() && Sound(c, s) && s.status.Live? && s.window.Some?
    ensures var r := Flush(s).st;
            && Sound(c, r) && r.window == None && r.now == s.now && r.lastSeq == s.lastSeq
            && (r.status.Live? || r.status.Cleared?)
            && r.resting == if r.status.Live? then s.resting else []
  {
    var w, settled := s.window.value, SettledWindow(s).st;
    FlushSteps(s);
    SettledShape(c, s);
    MatchedFacts(s);
    WindowPriceBounds(c, w.index, s.now);
    assert Called(c, w.price) by {
      assert c.PriceAt(WindowLast(c, w.index)) == w.price;
    }
    if Matched(s).exhausted {
      ClearShape(settled, w.price);
      ClearIsSound(c, settled, w.price);
    }
  }

  /** Accounts and records play no part in the shape. */
  lemma AccountsAside(c: Config, s: State, t: State)
    requires c.WellFormed() && t == s.(collateral := t.collateral, outcomes := t.outcomes, lastSeq := t.lastSeq)
    ensures Sound(c, s) <==> Sound(c, t)
    ensures Current(c, s) <==> Current(c, t)
  {}

  // ---------------------------------------------------------------- the commands

  ghost predicate Below(bids: seq<RestingBid>, bound: int) {
    forall i :: 0 <= i < |bids| ==> bids[i].seqno < bound
  }

  /** What a step leaves alone on its way through a tick. */
  ghost predicate Onward(s: State, r: State) {
    && r.now == s.now && r.lastSeq == s.lastSeq
    && forall bound :: Below(s.resting, bound) ==> Below(r.resting, bound)
  }

  /** What holds between any two commands. */
  ghost predicate Between(c: Config, s: State)
    requires c.WellFormed()
  {
    && Sound(c, s) && Current(c, s)
    && Below(s.resting, if s.lastSeq.Some? then s.lastSeq.value + 1 else 0)
  }

  /** The next record is one past the last. */
  predicate InSequence(s: State, seqno: U64) {
    s.lastSeq.Some? ==> seqno == s.lastSeq.value + 1
  }

  lemma InitBetween(c: Config)
    requires c.WellFormed()
    ensures Between(c, Init(c))
  {}

  lemma StampIsSound(c: Config, s: State, seqno: U64, ts: U64)
    requires c.WellFormed() && Sound(c, s)
    ensures Sound(c, Stamp(s, seqno, ts))
  {
    var now: U64 := Max(ts, s.now);
    WindowsAdvance(c, s.now, now);
    WindowPriceBounds(c, WindowIndex(c, s.now), now);
  }

  lemma CloseIsSound(c: Config, s: State)
    requires c.WellFormed() && Sound(c, s)
    requires s.window.Some? ==> c.batchWindow > 0
    ensures var r := CloseElapsed(c, s, s.now).st;
            && Sound(c, r) && Current(c, r) && r.now == s.now && r.lastSeq == s.lastSeq
            && (r.resting == s.resting || r.resting == [])
  {
    hide Flush;
    if s.window.Some? && WindowIndex(c, s.now) > s.window.value.index {
      FlushIsSound(c, s);
    }
  }

  /** One more bid in the window of the instant. */
  lemma PushIsSound(c: Config, s: State, bid: PendingBid)
    requires c.WellFormed() && Sound(c, s) && s.status.Live?
    requires s.window.Some? ==> s.window.value.index == WindowIndex(c, s.now)
    requires Competes(WindowPrice(c, WindowIndex(c, s.now)), bid)
    ensures var index := WindowIndex(c, s.now);
            var r := PushPending(s, index, WindowPrice(c, index), bid);
            && Sound(c, r) && r.window.Some? && r.window.value.index == index && r == s.(window := r.window)
  {
    var index := WindowIndex(c, s.now);
    var price := WindowPrice(c, index);
    var r := PushPending(s, index, price, bid);
    assert AllCompete(price, r.window.value.bids);
  }

  /** An admitted quantity fits an i64. */
  lemma ReserveFits(coll: map<Participant, Collateral>, p: Participant, price: I64, qty: U64)
    ensures CanReserve(coll, p, price, qty) ==> qty <= I64_MAX
  {}

  lemma TakeIsSound(c: Config, s: State, seqno: U64, p: Participant, key: Key, qty: U64, expected: I64)
    requires c.WellFormed() && Sound(c, s) && Current(c, s) && s.status.Live? && qty > 0
    ensures var r := OnTake(c, s, seqno, s.now, p, key, qty, expected).st;
            && Sound(c, r) && Current(c, r) && r.now == s.now && r.lastSeq == s.lastSeq
            && (r.resting == s.resting || r.resting == [])
  {
    hide Flush, Reserve, Sound, WindowIndex, WindowPrice;
    var index := WindowIndex(c, s.now);
    var price := WindowPrice(c, index);
    var reserved := s.(collateral := Reserve(s.collateral, p, price, qty));
    AccountsAside(c, s, reserved);
    AccountsAside(c, s, Reject(s, key, PriceMoved(c.PriceAt(s.now))).st);
    AccountsAside(c, s, Reject(reserved, key, InsufficientCollateral).st);
    if CanReserve(s.collateral, p, price, qty) {
      var bid := PendingBid(seqno, p, key, qty, price, price, None);
      WindowPriceBounds(c, index, s.now);
      PushIsSound(c, reserved, bid);
      var queued := PushPending(reserved, index, price, bid);
      var answered := queued.(outcomes := SetOutcome(queued.outcomes, key, Outcome.Queued(qty)));
      AccountsAside(c, queued, answered);
      if c.batchWindow == 0 {
        FlushIsSound(c, answered);
      }
    }
  }

  /** A bid that has just arrived stands last at its limit. */
  lemma ArrivalIsOrderly(flat: seq<RestingBid>, bid: RestingBid)
    requires Ladder.Ordered(flat) && Below(flat, bid.seqno) && AllCovered(flat) && Covered(bid)
    ensures var placed := Ladder.Arriving(flat, bid);
            Ladder.Ordered(placed) && Below(placed, bid.seqno + 1) && AllCovered(placed)
  {
    Ladder.InsertKeepsOrder(flat, bid);
  }

  lemma RestIsSound(c: Config, s: State, seqno: U64, p: Participant, key: Key, qty: U64, limit: I64)
    requires c.WellFormed() && Sound(c, s) && Current(c, s) && s.status.Live? && qty > 0
    requires limit >= 0 && Below(s.resting, seqno)
    ensures var r := OnRest(c, s, seqno, s.now, p, key, qty, limit).st;
            && Sound(c, r) && Current(c, r) && r.now == s.now && r.lastSeq == s.lastSeq
            && Below(r.resting, seqno + 1)
  {
    hide Reserve, Ladder.Arriving;
    if CanReserve(s.collateral, p, limit, qty) {
      ArrivalIsOrderly(s.resting, RestingBid(seqno, p, key, qty, limit));
    }
  }

  lemma CancelRestingIsSound(c: Config, s: State, p: Participant, key: Key)
    requires c.WellFormed() && Sound(c, s)
    ensures var r := OnCancelResting(s, p, key).st;
            && Sound(c, r) && (Current(c, s) ==> Current(c, r)) && r.now == s.now && r.lastSeq == s.lastSeq
            && forall bound :: Below(s.resting, bound) ==> Below(r.resting, bound)
  {
    hide Release, Ladder.Search;
  }

  /** Everything the clock has reached joins the window it is in. */
  lemma TriggerShape(c: Config, s: State)
    requires c.WellFormed() && (s.window.Some? ==> s.window.value.index == WindowIndex(c, s.now))
    ensures var r, clock, index := Trigger(c, s, s.now), c.PriceAt(s.now), WindowIndex(c, s.now);
            && r == s.(resting := Ladder.Untriggered(s.resting, clock), window := r.window)
            && Flight(r) == Flight(s) + Joined(Ladder.Triggered(s.resting, clock))
            && (r.window.Some? ==>
                  && (s.window.None? ==> Flight(r) != [])
                  && r.window.value.index == index
                  && r.window.value.price == if s.window.Some? then s.window.value.price else WindowPrice(c, index))
            && (s.window.Some? ==> r.window.Some?)
  {
    hide WindowPrice, WindowIndex, Trigger, Ladder.AtLeast;
    var clock, index := c.PriceAt(s.now), WindowIndex(c, s.now);
    JoinWindowFrame(s.(resting := Ladder.Untriggered(s.resting, clock)), index, WindowPrice(c, index),
                    Ladder.Triggered(s.resting, clock));
    TriggerIs(c, s);
  }

  lemma TriggerIsSound(c: Config, s: State)
    requires c.WellFormed() && Sound(c, s) && Current(c, s) && s.status.Live?
    ensures var r := Trigger(c, s, s.now);
            && Sound(c, r) && r == s.(resting := Ladder.Untriggered(s.resting, c.PriceAt(s.now)), window := r.window)
            && (r.window.Some? ==> r.window.value.index == WindowIndex(c, s.now))
            && Onward(s, r)
  {
    var clock, index := c.PriceAt(s.now), WindowIndex(c, s.now);
    var price, bids := WindowPrice(c, index), Ladder.Triggered(s.resting, clock);
    Ladder.DrainSplits(s.resting, clock);
    WindowPriceBounds(c, index, s.now);
    JoinedCompete(price, bids);
    TriggerShape(c, s);
    hide WindowPrice, WindowIndex, Trigger, Ladder.AtLeast, Joined;
  }

  lemma TriggerIs(c: Config, s: State)
    requires c.WellFormed()
    ensures var clock, index := c.PriceAt(s.now), WindowIndex(c, s.now);
            Trigger(c, s, s.now) == JoinWindow(s.(resting := Ladder.Untriggered(s.resting, clock)), index,
                                               WindowPrice(c, index), Ladder.Triggered(s.resting, clock))
  {}

  lemma JoinedCompete(price: I64, bids: seq<RestingBid>)
    requires AllCovered(bids) && price >= 0
    requires forall b :: b in bids ==> b.limit >= price
    ensures AllCompete(price, Joined(bids))
  {
    forall i | 0 <= i < |bids| ensures Competes(price, Joined(bids)[i]) {
      assert bids[i] in bids;
    }
  }

  /** The floor is below every fill. */
  lemma FloorIsLow(c: Config, s: State)
    requires c.WellFormed() && Sound(c, s) && s.status.Live? && s.window == None
    ensures NoneBelow(s.fills, c.schedule.floor)
  {}

  lemma BottomIsSound(c: Config, s: State)
    requires c.WellFormed() && Sound(c, s) && s.status.Live? && AtFloor(c.schedule, s.now)
    ensures var r := Bottom(c, s).st;
            Sound(c, r) && r.window == None && r.status.Cleared? && Onward(s, r)
  {
    hide Flush, Clear;
    if s.window.Some? {
      FlushIsSound(c, s);
    } else {
      assert Flush(s) == Step(s, []) by { FlushNothing(s); }
    }
    var flushed := Flush(s).st;
    if flushed.status.Live? {
      assert c.PriceAt(s.now) == c.schedule.floor;
      ClearShape(flushed, c.schedule.floor);
      ClearIsSound(c, flushed, c.schedule.floor);
    }
  }

  lemma FlushNothing(s: State)
    requires s.window.None?
    ensures Flush(s) == Step(s, [])
  {}

  lemma TickIsSound(c: Config, s: State)
    requires c.WellFormed() && Sound(c, s) && Current(c, s)
    ensures var r := OnTick(c, s, s.now).st;
            Sound(c, r) && Current(c, r) && Onward(s, r)
  {
    hide Flush, Bottom, Trigger, Sound;
    assert Onward(s, s);
    if s.status.Live? {
      TriggerIsSound(c, s);
      var triggered := Trigger(c, s, s.now);
      var matched := if c.batchWindow == 0 then Flush(triggered) else Step(triggered, []);
      if c.batchWindow == 0 {
        if triggered.window.Some? {
          FlushIsSound(c, triggered);
        } else {
          FlushNothing(triggered);
        }
      }
      if matched.st.status == Live && AtFloor(c.schedule, s.now) {
        BottomIsSound(c, matched.st);
      }
    }
  }

  lemma CancelShape(s: State)
    ensures var r := OnCancel(s).st;
            r == if s.status.Terminal() then s
                 else s.(status := Status.Cancelled, window := None, resting := [],
                         collateral := r.collateral, outcomes := r.outcomes)
  {
    if !s.status.Terminal() {
      var begun := s.(status := Status.Cancelled, window := None);
      RefusePendingFrame(begun, Flight(s), NotLive);
      var pending := RefusePending(begun, Flight(s), NotLive).st;
      RefuseRestingFrame(pending.(resting := []), pending.resting, NotLive);
    }
  }

  lemma CancelIsSound(c: Config, s: State)
    requires c.WellFormed() && Sound(c, s) && Current(c, s)
    ensures var r := OnCancel(s).st;
            Sound(c, r) && Current(c, r) && Onward(s, r)
  {
    hide OnCancel;
    CancelShape(s);
  }

  lemma BidIsSound(c: Config, s: State, seqno: U64, p: Participant, key: Key, qty: U64, kind: BidKind)
    requires c.WellFormed() && Sound(c, s) && Current(c, s)
    requires SubmitBid(p, key, qty, kind).Admissible() && Below(s.resting, seqno)
    ensures var r := OnBid(c, s, seqno, s.now, p, key, qty, kind).st;
            && Sound(c, r) && Current(c, r) && r.now == s.now && r.lastSeq == s.lastSeq
            && Below(r.resting, seqno + 1)
  {
    hide Sound, OnTake, OnRest;
    AccountsAside(c, s, Reject(s, key, ZeroQuantity).st);
    AccountsAside(c, s, Reject(s, key, NotLive).st);
    if key !in s.outcomes && qty > 0 && s.status == Live {
      match kind
      case Take(expected) => TakeIsSound(c, s, seqno, p, key, qty, expected);
      case Resting(limit) => RestIsSound(c, s, seqno, p, key, qty, limit);
    }
  }

  lemma DispatchIsSound(c: Config, s: State, seqno: U64, cmd: Command)
    requires c.WellFormed() && Sound(c, s) && Current(c, s)
    requires cmd.Admissible() && Below(s.resting, seqno)
    ensures var r := Dispatch(c, s, seqno, cmd).st;
            && Sound(c, r) && Current(c, r) && r.now == s.now && r.lastSeq == s.lastSeq
            && Below(r.resting, seqno + 1)
  {
    hide OnBid, OnCancelResting, OnTick, OnCancel;
    match cmd
    case Open =>
      if s.status == Pending {
        WindowPriceBounds(c, WindowIndex(c, s.now), s.now);
      }
    case SetCollateral(p, ceiling) => AccountsAside(c, s, OnSetCollateral(s, p, ceiling).st);
    case SubmitBid(p, key, qty, kind) => BidIsSound(c, s, seqno, p, key, qty, kind);
    case CancelResting(p, key) => CancelRestingIsSound(c, s, p, key);
    case Tick => TickIsSound(c, s);
    case Cancel => CancelIsSound(c, s);
  }

  /** Where the elapsed window has been closed and the command is about to be considered. */
  function Closed(c: Config, s: State, r: LogRecord): State {
    CloseElapsed(c, Stamp(s, r.seqno, r.ts), Max(r.ts, s.now)).st
  }

  lemma ClosedIsSound(c: Config, s: State, r: LogRecord)
    requires c.WellFormed() && Between(c, s) && InSequence(s, r.seqno)
    ensures var t := Closed(c, s, r);
            && Sound(c, t) && Current(c, t) && Below(t.resting, r.seqno)
            && t.now == Max(r.ts, s.now) && t.lastSeq == Some(r.seqno)
  {
    StampIsSound(c, s, r.seqno, r.ts);
    CloseIsSound(c, Stamp(s, r.seqno, r.ts));
  }

  /** Every command keeps the shape of the auction. */
  lemma ApplyIsSound(c: Config, s: State, r: LogRecord)
    requires c.WellFormed() && Between(c, s) && InSequence(s, r.seqno) && r.cmd.Admissible()
    ensures var t := Apply(c, s, r).st;
            && Between(c, t) && t.lastSeq == Some(r.seqno) && t.now == Max(r.ts, s.now)
  {
    hide Dispatch, CloseElapsed;
    ClosedIsSound(c, s, r);
    DispatchIsSound(c, Closed(c, s, r), r.seqno, r.cmd);
  }
}
