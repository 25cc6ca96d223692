/** Prices only descend, fills are never lost, a finished auction stays finished, and the events say
    so truthfully. */
module Descent {
  import opened Auction
  import opened Bounded
  import opened Loops
  import opened Rules
  import opened Schedule
  import opened Soundness
  import opened Sums
  import Ladder
  import Matching

  /** The published price: the clearing price once there is one, the clock before that. */
  function Price(c: Config, s: State): I64
    requires c.WellFormed()
  {
    if s.clearing.Some? then s.clearing.value else c.PriceAt(s.now)
  }

  /** Every earlier fill is still there, under the same terms or a lower price. */
  ghost predicate Persist(before: seq<Fill>, after: seq<Fill>) {
    && |before| <= |after|
    && forall i :: 0 <= i < |before| ==>
         after[i] == before[i].(price := after[i].price) && after[i].price <= before[i].price
  }

  ghost predicate Descends(c: Config, s: State, r: State)
    requires c.WellFormed()
  {
    && s.now <= r.now
    && Price(c, r) <= Price(c, s)
    && Persist(s.fills, r.fills)
    && (s.status.Terminal() ==>
          r.status == s.status && r.fills == s.fills && r.supply == s.supply && r.clearing == s.clearing)
  }

  /** What an event claims about the state its command leaves behind. */
  ghost predicate True(c: Config, t: State, e: Event) {
    && (e.Rejected? && e.reason == SupplyExhausted ==> t.status.Cleared? && t.supply == 0)
    && (e.Repriced? ==> t.status.Cleared? && t.clearing == Some(e.to) && e.to < e.from)
    && (e.Cleared? ==>
          && t.status.Cleared? && t.clearing == Some(e.price)
          && e.unsold == t.supply && e.filled == c.totalSupply - t.supply)
  }

  ghost predicate AllTrue(c: Config, t: State, ev: seq<Event>) {
    forall i :: 0 <= i < |ev| ==> True(c, t, ev[i])
  }

  ghost predicate Proceeds(c: Config, s: State, step: Step)
    requires c.WellFormed()
  {
    Descends(c, s, step.st) && AllTrue(c, step.st, step.ev)
  }

  lemma DescendsChain(c: Config, s: State, t: State, r: State)
    requires c.WellFormed() && Descends(c, s, t) && Descends(c, t, r)
    ensures Descends(c, s, r)
  {}

  /** What was true when it was said stays true. */
  lemma StaysTrue(c: Config, s: State, r: State, ev: seq<Event>)
    requires c.WellFormed() && Descends(c, s, r) && AllTrue(c, s, ev)
    ensures AllTrue(c, r, ev)
  {
    forall i | 0 <= i < |ev| ensures True(c, r, ev[i]) {
      assert True(c, s, ev[i]);
    }
  }

  lemma ProceedsChain(c: Config, s: State, one: Step, two: Step)
    requires c.WellFormed() && Proceeds(c, s, one) && Proceeds(c, one.st, two)
    ensures Proceeds(c, s, Step(two.st, one.ev + two.ev))
  {
    hide Descends, True;
    DescendsChain(c, s, one.st, two.st);
    StaysTrue(c, one.st, two.st, one.ev);
  }

  lemma ProceedsNothing(c: Config, s: State)
    requires c.WellFormed()
    ensures Proceeds(c, s, Step(s, []))
  {}

  /** A step that leaves price, ledger, supply and status alone and says nothing about them. */
  lemma ProceedsAside(c: Config, s: State, step: Step)
    requires c.WellFormed()
    requires step.st == s.(resting := step.st.resting, window := step.st.window,
                           collateral := step.st.collateral, outcomes := step.st.outcomes)
    requires |step.ev| <= 1
    requires step.ev != [] ==>
               var e := step.ev[0];
               !(e.Rejected? && e.reason == SupplyExhausted) && !e.Repriced? && !e.Cleared?
    ensures Proceeds(c, s, step)
  {}

  // ---------------------------------------------------------------- what the loops say

  ghost predicate Refusals(ev: seq<Event>, reason: RejectReason) {
    forall i :: 0 <= i < |ev| ==> ev[i].Rejected? && ev[i].reason == reason
  }

  lemma {:induction false} RefusePendingSays(s: State, bids: seq<PendingBid>, reason: RejectReason)
    ensures Refusals(RefusePending(s, bids, reason).ev, reason)
    decreases |bids|
  {
    if bids != [] {
      var b := bids[0];
      hide SetOutcome, Release;
      RefusePendingSays(Reject(s.(collateral := Release(s.collateral, b.participant, b.reservePrice, b.qty)), b.key, reason).st,
                        bids[1..], reason);
    }
  }

  lemma {:induction false} RefuseRestingSays(s: State, bids: seq<RestingBid>, reason: RejectReason)
    ensures Refusals(RefuseResting(s, bids, reason).ev, reason)
    decreases |bids|
  {
    if bids != [] {
      var b := bids[0];
      hide SetOutcome, Release;
      RefuseRestingSays(Reject(s.(collateral := Release(s.collateral, b.participant, b.limit, b.qty)), b.key, reason).st,
                        bids[1..], reason);
    }
  }

  ghost predicate Markdowns(ev: seq<Event>, price: I64) {
    forall i :: 0 <= i < |ev| ==> ev[i].Repriced? && ev[i].to == price && ev[i].to < ev[i].from
  }

  /** Repricing is strictly downward, to one price. */
  lemma {:induction false} RepriceSays(s: State, price: I64, i: nat)
    requires i <= |s.fills|
    requires forall j :: i <= j < |s.fills| ==> price <= s.fills[j].price
    ensures Markdowns(RepriceFrom(s, price, i).ev, price)
    decreases |s.fills| - i
  {
    if i < |s.fills| {
      RepriceStep(s, price, i);
      hide RepriceFrom, Quote, Release;
      RepriceOneShape(s, price, i);
      RepriceSays(RepriceOne(s, price, i).st, price, i + 1);
    }
  }

  ghost predicate Settlements(ev: seq<Event>, exhausted: bool) {
    forall i :: 0 <= i < |ev| ==>
      ev[i].Filled? || (ev[i].Rejected? && ev[i].reason == SupplyExhausted && exhausted)
  }

  /** Nobody in a window is turned away unless it sold out. */
  lemma {:induction false} SettleSays(s: State, price: I64, bids: seq<PendingBid>, allocs: seq<U64>, exhausted: bool)
    requires |allocs| == |bids| && NothingOver(bids, allocs, exhausted) && Matching.Positive(bids)
    ensures Settlements(Settle(s, price, bids, allocs, exhausted).ev, exhausted)
    decreases |bids|
  {
    if bids != [] {
      SettleStep(s, price, bids, allocs, exhausted);
      hide Settle, Release, Commit, SetOutcome, NothingOver, Ladder.Returning;
      SettleSays(SettleOne(s, price, bids[0], allocs[0], exhausted).st, price, bids[1..], allocs[1..], exhausted);
      assert bids[0] in bids;
    }
  }

  // ---------------------------------------------------------------- clearing and flushing

  /** Saturating addition never bites: the fills of an auction total what it has sold. */
  lemma {:induction false} TotalIsExact(fills: seq<Fill>)
    requires Sum(fills, FillQty) <= U64_MAX
    ensures TotalFilled(fills) == Sum(fills, FillQty) >= 0
  {
    if fills != [] {
      var n := |fills| - 1;
      assert fills == fills[..n] + [fills[n]];
      SumSnoc(fills[..n], fills[n], FillQty);
      TotalIsExact(fills[..n]);
    }
  }

  /** What a clearing says: every markdown is strictly down to the one price, and the totals add up. */
  lemma ClearSays(c: Config, s: State, price: I64)
    requires NoneBelow(s.fills, price) && Sum(s.fills, FillQty) + s.supply == c.totalSupply
    ensures AllTrue(c, Clear(s, price).st, Clear(s, price).ev)
  {
    var begun := s.(status := Status.Cleared, clearing := Some(price));
    var repriced := RepriceFrom(begun, price, 0);
    var emptied := repriced.st.(resting := []);
    var refused := RefuseResting(emptied, repriced.st.resting, Unfilled);
    RepriceSays(begun, price, 0);
    RefuseRestingSays(emptied, repriced.st.resting, Unfilled);
    ClearShape(s, price);
    RepricedTotal(s.fills, price);
    TotalIsExact(RepricedFrom(s.fills, price, 0));
    hide RepriceFrom, RefuseResting, TotalFilled, Sum, RepricedFrom, NoneBelow;
    assert Clear(s, price).ev == repriced.ev + refused.ev + [Event.Cleared(price, TotalFilled(refused.st.fills), s.supply)];
  }

  lemma PersistRepriced(before: seq<Fill>, fills: seq<Fill>, price: I64)
    requires Persist(before, fills) && NoneBelow(fills, price)
    ensures Persist(before, RepricedFrom(fills, price, 0))
  {
    var after := RepricedFrom(fills, price, 0);
    forall i | 0 <= i < |before|
      ensures after[i] == before[i].(price := after[i].price) && after[i].price <= before[i].price
    {
      assert after[i] == fills[i].(price := price) && fills[i] == before[i].(price := fills[i].price);
    }
  }

  /** Clearing what an auction settled since `s`, at a price no higher than the one published at `s`. */
  lemma ClearProceeds(c: Config, s: State, settled: State, price: I64)
    requires c.WellFormed() && s.status.Live? && s.now <= settled.now
    requires NoneBelow(settled.fills, price) && Persist(s.fills, settled.fills)
    requires Sum(settled.fills, FillQty) + settled.supply == c.totalSupply
    requires price <= Price(c, s)
    ensures Proceeds(c, s, Clear(settled, price))
  {
    hide Clear, Sum, Persist, NoneBelow, RepricedFrom, AllTrue;
    ClearSays(c, settled, price);
    ClearShape(settled, price);
    PersistRepriced(s.fills, settled.fills, price);
  }

  lemma PersistItself(fills: seq<Fill>)
    ensures Persist(fills, fills)
  {}

  lemma SettledProceeds(c: Config, s: State)
    requires c.WellFormed() && Sound(c, s) && s.status.Live? && s.window.Some?
    ensures Descends(c, s, SettledWindow(s).st)
    ensures Settlements(SettledWindow(s).ev, Matched(s).exhausted)
  {
    hide Settle, Matched, NothingOver, Ledger, Sum;
    SettledShape(c, s);
    MatchedFacts(s);
    var w, bids, m := s.window.value, Matching.SortBids(s.window.value.bids), Matched(s);
    SortKeepsCompete(w.price, w.bids);
    SettleSays(s.(window := None, supply := m.remaining), w.price, bids, m.allocs, m.exhausted);
  }

  /** Everything said about a sold-out window is borne out by the clearing that follows. */
  lemma SoldOutProceeds(c: Config, s: State, settled: Step, price: I64)
    requires c.WellFormed() && Descends(c, s, settled.st) && !settled.st.status.Terminal()
    requires Settlements(settled.ev, true) && settled.st.supply == 0
    requires Proceeds(c, settled.st, Clear(settled.st, price))
    ensures var r := Clear(settled.st, price);
            Proceeds(c, s, Step(r.st, settled.ev + r.ev))
  {
    hide Descends, Clear;
    var r := Clear(settled.st, price);
    ClearShape(settled.st, price);
    DescendsChain(c, s, settled.st, r.st);
  }

  lemma FlushProceeds(c: Config, s: State)
    requires c.WellFormed() && Sound(c, s) && s.status.Live?
    requires s.window.Some? ==> s.window.value.price <= Price(c, s)
    ensures Proceeds(c, s, Flush(s))
  {
    hide Settle, Clear, Flush, SettledWindow, Matched, Descends, Price;
    if s.window.None? {
      FlushNothing(s);
      ProceedsNothing(c, s);
    } else {
      FlushSteps(s);
      SettledProceeds(c, s);
      SettledShape(c, s);
      MatchedFacts(s);
      if Matched(s).exhausted {
        var settled, price := SettledWindow(s), s.window.value.price;
        PriceAside(c, s, settled.st);
        PersistItself(settled.st.fills);
        ClearProceeds(c, settled.st, settled.st, price);
        SoldOutProceeds(c, s, settled, price);
      }
    }
  }

  lemma PriceAside(c: Config, s: State, r: State)
    requires c.WellFormed() && r.clearing == s.clearing && r.now == s.now
    ensures Price(c, r) == Price(c, s)
  {}

  // ---------------------------------------------------------------- the commands

  /** The open window never fills anyone above the clock. */
  lemma WindowBelowClock(c: Config, s: State)
    requires c.WellFormed() && Sound(c, s) && s.status.Live? && s.window.Some?
    requires s.window.value.index == WindowIndex(c, s.now)
    ensures s.window.value.price <= Price(c, s)
  {
    WindowPriceBounds(c, s.window.value.index, s.now);
  }

  lemma TriggerProceeds(c: Config, s: State)
    requires c.WellFormed() && Sound(c, s) && Current(c, s) && s.status.Live?
    ensures Proceeds(c, s, Step(Trigger(c, s, s.now), []))
  {
    hide Trigger, Sound, Price;
    TriggerIsSound(c, s);
    PriceAside(c, s, Trigger(c, s, s.now));
  }

  lemma BottomProceeds(c: Config, s: State)
    requires c.WellFormed() && Sound(c, s) && s.status.Live? && AtFloor(c.schedule, s.now)
    requires s.window.Some? ==> s.window.value.index == WindowIndex(c, s.now)
    ensures Proceeds(c, s, Bottom(c, s))
  {
    hide Flush, Clear, Proceeds, NoneBelow;
    if s.window.Some? {
      WindowBelowClock(c, s);
      FlushIsSound(c, s);
    } else {
      FlushNothing(s);
    }
    FlushProceeds(c, s);
    var flushed := Flush(s);
    if flushed.st.status.Live? {
      FloorIsLow(c, flushed.st);
      PersistItself(flushed.st.fills);
      ClearProceeds(c, flushed.st, flushed.st, c.schedule.floor);
      ProceedsChain(c, s, flushed, Clear(flushed.st, c.schedule.floor));
    }
  }

  lemma TickProceeds(c: Config, s: State)
    requires c.WellFormed() && Sound(c, s) && Current(c, s)
    ensures Proceeds(c, s, OnTick(c, s, s.now))
  {
    hide Flush, Bottom, Trigger, Sound, Proceeds, WindowIndex;
    ProceedsNothing(c, s);
    if s.status.Live? {
      TriggerIsSound(c, s);
      TriggerProceeds(c, s);
      var triggered := Step(Trigger(c, s, s.now), []);
      var matched := if c.batchWindow == 0 then Flush(triggered.st) else triggered;
      if c.batchWindow == 0 {
        if triggered.st.window.Some? {
          WindowBelowClock(c, triggered.st);
          FlushIsSound(c, triggered.st);
        } else {
          FlushNothing(triggered.st);
        }
        FlushProceeds(c, triggered.st);
        ProceedsChain(c, s, triggered, matched);
        assert [] + matched.ev == matched.ev;
      }
      if matched.st.status == Live && AtFloor(c.schedule, s.now) {
        BottomProceeds(c, matched.st);
        ProceedsChain(c, s, matched, Bottom(c, matched.st));
      }
    }
  }

  lemma CancelProceeds(c: Config, s: State)
    requires c.WellFormed()
    ensures Proceeds(c, s, OnCancel(s))
  {
    if !s.status.Terminal() {
      CancelShape(s);
      var begun := s.(status := Status.Cancelled, window := None);
      var pending := RefusePending(begun, Flight(s), NotLive);
      RefusePendingSays(begun, Flight(s), NotLive);
      RefuseRestingSays(pending.st.(resting := []), pending.st.resting, NotLive);
      hide RefusePending, RefuseResting;
    }
  }

  lemma TakeProceeds(c: Config, s: State, seqno: U64, p: Participant, key: Key, qty: U64, expected: I64)
    requires c.WellFormed() && Sound(c, s) && Current(c, s) && s.status.Live? && qty > 0
    ensures Proceeds(c, s, OnTake(c, s, seqno, s.now, p, key, qty, expected))
  {
    hide Flush, Reserve, CanReserve, Sound, SetOutcome, Proceeds, WindowIndex, WindowPrice, PushPending;
    var index := WindowIndex(c, s.now);
    var price := WindowPrice(c, index);
    var reserved := s.(collateral := Reserve(s.collateral, p, price, qty));
    ProceedsAside(c, s, Reject(s, key, PriceMoved(c.PriceAt(s.now))));
    ProceedsAside(c, s, Reject(reserved, key, InsufficientCollateral));
    if CanReserve(s.collateral, p, price, qty) {
      var bid := PendingBid(seqno, p, key, qty, price, price, None);
      var queued := PushPending(reserved, index, price, bid);
      var answered := queued.(outcomes := SetOutcome(queued.outcomes, key, Outcome.Queued(qty)));
      var first := Step(answered, [Event.Queued(key, p, qty, price)]);
      AccountsAside(c, s, reserved);
      WindowPriceBounds(c, index, s.now);
      ReserveFits(s.collateral, p, price, qty);
      PushIsSound(c, reserved, bid);
      ProceedsAside(c, s, first);
      AccountsAside(c, queued, answered);
      if c.batchWindow == 0 {
        WindowBelowClock(c, answered);
        FlushProceeds(c, answered);
        ProceedsChain(c, s, first, Flush(answered));
      }
    }
  }

  lemma BidProceeds(c: Config, s: State, seqno: U64, p: Participant, key: Key, qty: U64, kind: BidKind)
    requires c.WellFormed() && Sound(c, s) && Current(c, s)
    ensures Proceeds(c, s, OnBid(c, s, seqno, s.now, p, key, qty, kind))
  {
    hide OnTake, Sound, SetOutcome, Reserve, CanReserve, Ladder.Arriving, Proceeds;
    match kind
    case Take(expected) =>
      if key !in s.outcomes && qty > 0 && s.status == Live {
        TakeProceeds(c, s, seqno, p, key, qty, expected);
      } else {
        ProceedsAside(c, s, OnBid(c, s, seqno, s.now, p, key, qty, kind));
      }
    case Resting(_) => ProceedsAside(c, s, OnBid(c, s, seqno, s.now, p, key, qty, kind));
  }

  lemma DispatchProceeds(c: Config, s: State, seqno: U64, cmd: Command)
    requires c.WellFormed() && Sound(c, s) && Current(c, s)
    ensures Proceeds(c, s, Dispatch(c, s, seqno, cmd))
  {
    hide OnBid, OnTick, OnCancel, Release, Ladder.Search, SetOutcome;
    match cmd
    case Open =>
    case SetCollateral(p, ceiling) => ProceedsAside(c, s, OnSetCollateral(s, p, ceiling));
    case SubmitBid(p, key, qty, kind) => BidProceeds(c, s, seqno, p, key, qty, kind);
    case CancelResting(p, key) => ProceedsAside(c, s, OnCancelResting(s, p, key));
    case Tick => TickProceeds(c, s);
    case Cancel => CancelProceeds(c, s);
  }

  /** Time passing and an elapsed window closing: it clears, if at all, at a price already reached. */
  lemma ClosedProceeds(c: Config, s: State, r: LogRecord)
    requires c.WellFormed() && Between(c, s)
    ensures var stamped := Stamp(s, r.seqno, r.ts);
            Proceeds(c, s, CloseElapsed(c, stamped, stamped.now))
  {
    hide Flush, WindowIndex, WindowPrice;
    var stamped := Stamp(s, r.seqno, r.ts);
    StampIsSound(c, s, r.seqno, r.ts);
    PriceDescends(c.schedule, s.now, stamped.now);
    if s.window.Some? && WindowIndex(c, stamped.now) > s.window.value.index {
      WindowPriceBounds(c, s.window.value.index, s.now);
      FlushEarlier(c, s, stamped);
    }
  }

  /** A window flushed late settles as it would have at the last instant it was current. */
  lemma FlushEarlier(c: Config, s: State, stamped: State)
    requires c.WellFormed() && Sound(c, s) && Sound(c, stamped) && s.status.Live? && s.window.Some?
    requires stamped == s.(lastSeq := stamped.lastSeq, now := stamped.now) && s.now <= stamped.now
    requires s.window.value.price <= Price(c, s)
    ensures Proceeds(c, s, Flush(stamped))
  {
    hide Settle, Clear, SettledWindow, Matched, Sum, Flush;
    FlushSteps(stamped);
    SettledShape(c, stamped);
    SettledProceeds(c, stamped);
    MatchedFacts(stamped);
    var settled, price := SettledWindow(stamped), s.window.value.price;
    PriceDescends(c.schedule, s.now, stamped.now);
    if Matched(stamped).exhausted {
      ClearProceeds(c, s, settled.st, price);
      hide Descends;
      var r := Clear(settled.st, price);
      ClearShape(settled.st, price);
    }
  }

  /** Every command: the price never rises, fills persist, an ended auction is final, and what the
      events claim is so. */
  lemma ApplyProceeds(c: Config, s: State, r: LogRecord)
    requires c.WellFormed() && Between(c, s) && InSequence(s, r.seqno)
    ensures Proceeds(c, s, Apply(c, s, r))
  {
    hide Dispatch, CloseElapsed, Sound, Proceeds;
    var stamped := Stamp(s, r.seqno, r.ts);
    ClosedIsSound(c, s, r);
    ClosedProceeds(c, s, r);
    var closed := CloseElapsed(c, stamped, stamped.now);
    DispatchProceeds(c, closed.st, r.seqno, r.cmd);
    ProceedsChain(c, s, closed, Dispatch(c, closed.st, r.seqno, r.cmd));
  }
}
