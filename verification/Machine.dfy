/** The auction as the engine runs it: fields updated in place, one method per handler, each refining
    the corresponding rule. */
module Machine {
  import opened Auction
  import opened Bounded
  import opened Loops
  import opened Rules
  import opened Schedule
  import opened Soundness
  import opened Sums
  import Ladder
  import Matching

  // ---------------------------------------------------------------- one turn of each loop

  lemma RefusePendingTurn(s: State, bids: seq<PendingBid>, reason: RejectReason, i: nat)
    requires i < |bids|
    ensures var b := bids[i];
            var one := Reject(s.(collateral := Release(s.collateral, b.participant, b.reservePrice, b.qty)), b.key, reason);
            var rest := RefusePending(one.st, bids[i + 1..], reason);
            RefusePending(s, bids[i..], reason) == Step(rest.st, one.ev + rest.ev)
  {
    assert bids[i..][0] == bids[i] && bids[i..][1..] == bids[i + 1..];
  }

  lemma RefuseRestingTurn(s: State, bids: seq<RestingBid>, reason: RejectReason, i: nat)
    requires i < |bids|
    ensures var b := bids[i];
            var one := Reject(s.(collateral := Release(s.collateral, b.participant, b.limit, b.qty)), b.key, reason);
            var rest := RefuseResting(one.st, bids[i + 1..], reason);
            RefuseResting(s, bids[i..], reason) == Step(rest.st, one.ev + rest.ev)
  {
    assert bids[i..][0] == bids[i] && bids[i..][1..] == bids[i + 1..];
  }

  lemma SettleTurn(s: State, price: I64, bids: seq<PendingBid>, allocs: seq<U64>, exhausted: bool, i: nat)
    requires |allocs| == |bids| && i < |bids|
    ensures var one := SettleOne(s, price, bids[i], allocs[i], exhausted);
            var rest := Settle(one.st, price, bids[i + 1..], allocs[i + 1..], exhausted);
            Settle(s, price, bids[i..], allocs[i..], exhausted) == Step(rest.st, one.ev + rest.ev)
  {
    hide SettleOne;
    assert bids[i..][0] == bids[i] && bids[i..][1..] == bids[i + 1..];
    assert allocs[i..][0] == allocs[i] && allocs[i..][1..] == allocs[i + 1..];
  }

  lemma JoinTurn(s: State, index: U64, price: I64, bids: seq<RestingBid>, i: nat)
    requires i < |bids|
    ensures JoinWindow(s, index, price, bids[i..])
         == JoinWindow(PushPending(s, index, price, FromLadder(bids[i])), index, price, bids[i + 1..])
  {
    assert bids[i..][0] == bids[i] && bids[i..][1..] == bids[i + 1..];
  }

  /** A loop that has said `said` and has `rest` still to come. */
  ghost function Onto(said: seq<Event>, rest: Step): Step {
    Step(rest.st, said + rest.ev)
  }

  lemma OntoOnto(said: seq<Event>, more: seq<Event>, rest: Step)
    ensures Onto(said, Step(rest.st, more + rest.ev)) == Onto(said + more, rest)
  {
    Regroup(said, more, rest.ev);
  }

  lemma OntoNothing(rest: Step)
    ensures Onto([], rest) == rest
  {
    assert [] + rest.ev == rest.ev;
  }

  class AuctionState {
    const config: Config
    const resting: Ladder.PriceLadder
    var status: Status
    var supplyRemaining: U64
    var clearingPrice: Option<I64>
    var fills: seq<Fill>
    var nextFillId: nat
    var window: Option<OpenWindow>
    var outcomes: map<Key, Outcome>
    var collateral: map<Participant, Collateral>
    var lastSeq: Option<U64>
    var now: U64

    ghost predicate Valid()
      reads this, resting
    {
      config.WellFormed() && resting.Valid()
    }

    /** The state as the rules see it. */
    ghost function Model(): State
      reads this, resting
    {
      State(status, supplyRemaining, clearingPrice, fills, nextFillId, resting.Queue(), window, outcomes, collateral,
            lastSeq, now)
    }

    constructor (config: Config)
      requires config.WellFormed()
      ensures Valid() && fresh(resting) && this.config == config && Model() == Init(config)
    {
      this.config := config;
      status, supplyRemaining, clearingPrice := Pending, config.totalSupply, None;
      fills, nextFillId := [], 0;
      resting := new Ladder.PriceLadder();
      window, outcomes, collateral := None, map[], map[];
      lastSeq, now := None, 0;
    }

    // ---------------------------------------------------------------- collateral and outcomes

    method ReserveFor(p: Participant, price: I64, qty: U64) returns (ok: bool)
      requires Valid()
      modifies this`collateral
      ensures ok == CanReserve(old(collateral), p, price, qty)
      ensures collateral == Reserve(old(collateral), p, price, qty)
    {
      var cost := CheckedCost(price, qty);
      if cost.None? {
        return false;
      }
      var c := CollateralOf(collateral, p);
      collateral := collateral[p := c];
      if cost.value > Available(c) {
        return false;
      }
      collateral := collateral[p := c.(committed := ClampI64(c.committed + cost.value))];
      return true;
    }

    method Record(key: Key, outcome: Outcome)
      requires Valid()
      modifies this`outcomes
      ensures outcomes == SetOutcome(old(outcomes), key, outcome)
    {
      outcomes := SetOutcome(outcomes, key, outcome);
    }

    method Refuse(key: Key, reason: RejectReason) returns (ev: seq<Event>)
      requires Valid()
      modifies this`outcomes
      ensures Step(Model(), ev) == Reject(old(Model()), key, reason)
    {
      Record(key, Outcome.Rejected(reason));
      ev := [Event.Rejected(key, reason)];
    }

    /** Release a reservation and answer the bid that held it. */
    method GiveBack(p: Participant, price: I64, qty: U64, key: Key, reason: RejectReason) returns (ev: seq<Event>)
      requires Valid()
      modifies this`collateral, this`outcomes
      ensures Step(Model(), ev)
           == Reject(old(Model()).(collateral := Release(old(collateral), p, price, qty)), key, reason)
    {
      collateral := Release(collateral, p, price, qty);
      ev := Refuse(key, reason);
    }

    method RefuseWindow(bids: seq<PendingBid>, reason: RejectReason) returns (ev: seq<Event>)
      requires Valid()
      modifies this`collateral, this`outcomes
      ensures Step(Model(), ev) == RefusePending(old(Model()), bids, reason)
    {
      hide RefusePending, Reject, Release;
      ev := [];
      ghost var wanted := RefusePending(Model(), bids, reason);
      assert bids[0..] == bids;
      OntoNothing(wanted);
      for i := 0 to |bids|
        invariant Onto(ev, RefusePending(Model(), bids[i..], reason)) == wanted
      {
        RefusePendingTurn(Model(), bids, reason, i);
        var said := GiveBack(bids[i].participant, bids[i].reservePrice, bids[i].qty, bids[i].key, reason);
        OntoOnto(ev, said, RefusePending(Model(), bids[i + 1..], reason));
        ev := ev + said;
      }
      RefuseNobody(Model(), bids[|bids|..], reason);
    }

    method RefuseLadder(bids: seq<RestingBid>, reason: RejectReason) returns (ev: seq<Event>)
      requires Valid()
      modifies this`collateral, this`outcomes
      ensures Step(Model(), ev) == RefuseResting(old(Model()), bids, reason)
    {
      hide RefuseResting, Reject, Release;
      ev := [];
      ghost var wanted := RefuseResting(Model(), bids, reason);
      assert bids[0..] == bids;
      OntoNothing(wanted);
      for i := 0 to |bids|
        invariant Onto(ev, RefuseResting(Model(), bids[i..], reason)) == wanted
      {
        RefuseRestingTurn(Model(), bids, reason, i);
        var said := GiveBack(bids[i].participant, bids[i].limit, bids[i].qty, bids[i].key, reason);
        OntoOnto(ev, said, RefuseResting(Model(), bids[i + 1..], reason));
        ev := ev + said;
      }
      RefuseNoneResting(Model(), bids[|bids|..], reason);
    }

    // ---------------------------------------------------------------- clearing

    /** The body of the repricing loop. */
    method RepriceFill(i: nat, price: I64) returns (ev: seq<Event>)
      requires Valid() && i < |fills|
      modifies this`fills, this`collateral, this`outcomes
      ensures Step(Model(), ev) == RepriceOne(old(Model()), price, i)
    {
      var fill := fills[i];
      if fill.key in outcomes {
        match outcomes[fill.key]
        case Filled(qty, _) => outcomes := outcomes[fill.key := Outcome.Filled(qty, price)];
        case FilledThenCancelled(qty, _) => outcomes := outcomes[fill.key := FilledThenCancelled(qty, price)];
        case _ =>
      }
      if fill.price == price {
        return [];
      }
      collateral := Release(collateral, fill.participant, ClampI64(fill.price - price), fill.qty);
      fills := fills[i := fill.(price := price)];
      ev := [Repriced(fill.id, fill.price, price)];
    }

    /** Refines `Rules.Clear`: the repricing loop over the ledger, then the refusal loop over the ladder. */
    method Clear(price: I64) returns (ev: seq<Event>)
      requires Valid()
      modifies this, resting
      ensures Valid() && Step(Model(), ev) == Rules.Clear(old(Model()), price)
    {
      hide RepriceFrom, RepriceOne, RefuseResting;
      status, clearingPrice := Status.Cleared, Some(price);
      ev := [];
      ghost var wanted := RepriceFrom(Model(), price, 0);
      OntoNothing(wanted);
      var i := 0;
      while i < |fills|
        invariant i <= |fills|
        invariant Valid() && Onto(ev, RepriceFrom(Model(), price, i)) == wanted
      {
        RepriceStep(Model(), price, i);
        var said := RepriceFill(i, price);
        OntoOnto(ev, said, RepriceFrom(Model(), price, i + 1));
        ev := ev + said;
        i := i + 1;
      }
      RepriceDone(Model(), price);
      ghost var repriced := Model();
      var rest := resting.DrainAll();
      var said := RefuseLadder(rest, Unfilled);
      ev := ev + said + [Event.Cleared(price, TotalFilled(fills), supplyRemaining)];
    }

    // ---------------------------------------------------------------- windows

    method Push(index: U64, price: I64, bid: PendingBid)
      requires Valid()
      modifies this`window
      ensures Model() == PushPending(old(Model()), index, price, bid)
    {
      var w := if window.Some? then window.value else OpenWindow(index, price, []);
      window := Some(w.(bids := w.bids + [bid]));
    }

    /** The body of the settlement loop. */
    method SettleBid(price: I64, b: PendingBid, alloc: U64, exhausted: bool) returns (ev: seq<Event>)
      requires Valid()
      modifies this, resting
      ensures Valid() && Step(Model(), ev) == SettleOne(old(Model()), price, b, alloc, exhausted)
    {
      hide Release, Commit, SetOutcome;
      collateral := Release(collateral, b.participant, b.reservePrice, b.qty);
      if alloc == 0 {
        ev := Refuse(b.key, SupplyExhausted);
        return;
      }
      collateral := Commit(collateral, b.participant, price, alloc);
      var fill := Fill(nextFillId, b.seqno, b.participant, b.key, alloc, price);
      nextFillId := nextFillId + 1;
      fills := fills + [fill];
      Record(b.key, Outcome.Filled(alloc, price));
      ev := [Event.Filled(fill)];
      var remainder := ClampU64(b.qty - alloc);
      if b.restingLimit.Some? && !(remainder == 0 || exhausted) {
        collateral := Commit(collateral, b.participant, b.restingLimit.value, remainder);
        resting.Requeue(RestingBid(b.seqno, b.participant, b.key, remainder, b.restingLimit.value));
      }
    }

    method SettleBids(price: I64, bids: seq<PendingBid>, allocs: seq<U64>, exhausted: bool) returns (ev: seq<Event>)
      requires Valid() && |allocs| == |bids|
      modifies this, resting
      ensures Valid() && Step(Model(), ev) == Settle(old(Model()), price, bids, allocs, exhausted)
    {
      hide Settle, SettleOne;
      ev := [];
      ghost var wanted := Settle(Model(), price, bids, allocs, exhausted);
      assert bids[0..] == bids && allocs[0..] == allocs;
      OntoNothing(wanted);
      for i := 0 to |bids|
        invariant Valid() && Onto(ev, Settle(Model(), price, bids[i..], allocs[i..], exhausted)) == wanted
      {
        SettleTurn(Model(), price, bids, allocs, exhausted, i);
        var said := SettleBid(price, bids[i], allocs[i], exhausted);
        OntoOnto(ev, said, Settle(Model(), price, bids[i + 1..], allocs[i + 1..], exhausted));
        ev := ev + said;
      }
      SettleNobody(Model(), price, bids[|bids|..], allocs[|bids|..], exhausted);
    }

    /** Refines `Rules.Flush`: sort, match by levels, settle, and clear if nothing is left. */
    method FlushWindow() returns (ev: seq<Event>)
      requires Valid()
      modifies this, resting
      ensures Valid() && Step(Model(), ev) == Flush(old(Model()))
    {
      hide Settle, Rules.Clear, RefusePending;
      if window.None? {
        return [];
      }
      var w := window.value;
      window := None;
      if status != Live {
        ev := RefuseWindow(w.bids, NotLive);
        return;
      }
      var bids := Matching.SortBids(w.bids);
      var allocs, remaining, exhausted := Matching.MatchSorted(bids, supplyRemaining);
      Matching.SortLength(w.bids);
      supplyRemaining := remaining;
      ev := SettleBids(w.price, bids, allocs, exhausted);
      if exhausted {
        var cleared := Clear(w.price);
        ev := ev + cleared;
      }
    }

    /** Refines `Rules.CloseElapsed`. */
    method CloseElapsedWindow(ts: U64) returns (ev: seq<Event>)
      requires Valid()
      modifies this, resting
      ensures Valid() && Step(Model(), ev) == CloseElapsed(config, old(Model()), ts)
    {
      hide Flush;
      if window.None? || WindowIndex(config, ts) <= window.value.index {
        return [];
      }
      ev := FlushWindow();
    }

    // ---------------------------------------------------------------- commands

    method OnOpen() returns (ev: seq<Event>)
      requires Valid()
      modifies this`status
      ensures Step(Model(), ev) == Rules.OnOpen(config, old(Model()))
    {
      if status != Pending {
        return [];
      }
      status := Live;
      ev := [Opened(config.schedule.start, config.totalSupply)];
    }

    method OnSetCollateral(p: Participant, ceiling: I64) returns (ev: seq<Event>)
      requires Valid()
      modifies this`collateral
      ensures Step(Model(), ev) == Rules.OnSetCollateral(old(Model()), p, ceiling)
    {
      collateral := collateral[p := CollateralOf(collateral, p).(limit := ceiling)];
      ev := [CollateralSet(p, ceiling)];
    }

    method Take(seqno: U64, ts: U64, p: Participant, key: Key, qty: U64, expected: I64) returns (ev: seq<Event>)
      requires Valid()
      modifies this, resting
      ensures Valid() && Step(Model(), ev) == OnTake(config, old(Model()), seqno, ts, p, key, qty, expected)
    {
      hide Flush, Reserve, CanReserve, SetOutcome, Reject, PushPending, WindowIndex, WindowPrice;
      var clock := config.PriceAt(ts);
      if Max(clock - expected, expected - clock) > config.priceTolerance {
        ev := Refuse(key, PriceMoved(clock));
        return;
      }
      var index := WindowIndex(config, ts);
      var price := WindowPrice(config, index);
      var ok := ReserveFor(p, price, qty);
      if !ok {
        ev := Refuse(key, InsufficientCollateral);
        return;
      }
      Push(index, price, PendingBid(seqno, p, key, qty, price, price, None));
      Record(key, Outcome.Queued(qty));
      ev := [Event.Queued(key, p, qty, price)];
      if config.batchWindow == 0 {
        var flushed := FlushWindow();
        ev := ev + flushed;
      }
    }

    method Rest(seqno: U64, ts: U64, p: Participant, key: Key, qty: U64, limit: I64) returns (ev: seq<Event>)
      requires Valid()
      modifies this, resting
      ensures Valid() && Step(Model(), ev) == OnRest(config, old(Model()), seqno, ts, p, key, qty, limit)
    {
      hide Reserve, CanReserve, SetOutcome, Reject;
      var clock := config.PriceAt(ts);
      if limit > clock {
        ev := Refuse(key, LimitAboveClock(clock));
        return;
      }
      var ok := ReserveFor(p, limit, qty);
      if !ok {
        ev := Refuse(key, InsufficientCollateral);
        return;
      }
      resting.Insert(RestingBid(seqno, p, key, qty, limit));
      Record(key, Outcome.Resting(qty));
      ev := [Rested(key, p, qty, limit)];
    }

    method OnBid(seqno: U64, ts: U64, p: Participant, key: Key, qty: U64, kind: BidKind) returns (ev: seq<Event>)
      requires Valid()
      modifies this, resting
      ensures Valid() && Step(Model(), ev) == Rules.OnBid(config, old(Model()), seqno, ts, p, key, qty, kind)
    {
      hide OnTake, OnRest, Reject;
      if key in outcomes {
        return [Duplicate(key, outcomes[key])];
      }
      if qty == 0 {
        ev := Refuse(key, ZeroQuantity);
        return;
      }
      if status != Live {
        ev := Refuse(key, NotLive);
        return;
      }
      match kind
      case Take(expected) => ev := Take(seqno, ts, p, key, qty, expected);
      case Resting(limit) => ev := Rest(seqno, ts, p, key, qty, limit);
    }

    method OnCancelResting(p: Participant, key: Key) returns (ev: seq<Event>)
      requires Valid()
      modifies this, resting
      ensures Valid() && Step(Model(), ev) == Rules.OnCancelResting(old(Model()), p, key)
    {
      hide Release, SetOutcome, Ladder.Search;
      var found := resting.Remove(p, key);
      if found.Some? {
        collateral := Release(collateral, p, found.value.limit, found.value.qty);
        Record(key, Outcome.Cancelled);
        return [RestingCancelled(key, p, found.value.qty)];
      }
      if key in outcomes {
        return [Duplicate(key, outcomes[key])];
      }
      return [Event.Rejected(key, UnknownBid)];
    }

    /** Refines `Rules.Trigger`: drains the ladder down to the clock and pushes what comes out. */
    method TriggerResting(ts: U64)
      requires Valid()
      modifies this, resting
      ensures Valid() && Model() == Trigger(config, old(Model()), ts)
    {
      hide JoinWindow, PushPending, WindowIndex, WindowPrice;
      var clock, index := config.PriceAt(ts), WindowIndex(config, ts);
      var price := WindowPrice(config, index);
      var bids := resting.DrainTriggered(clock);
      ghost var wanted := JoinWindow(Model(), index, price, bids);
      assert bids[0..] == bids;
      for i := 0 to |bids|
        invariant Valid() && JoinWindow(Model(), index, price, bids[i..]) == wanted
      {
        JoinTurn(Model(), index, price, bids, i);
        Push(index, price, FromLadder(bids[i]));
      }
      JoinNobody(Model(), index, price, bids[|bids|..]);
    }

    method OnTick(ts: U64) returns (ev: seq<Event>)
      requires Valid()
      modifies this, resting
      ensures Valid() && Step(Model(), ev) == Rules.OnTick(config, old(Model()), ts)
    {
      hide Flush, Trigger, Rules.Clear;
      if status != Live {
        return [];
      }
      TriggerResting(ts);
      ev := [];
      if config.batchWindow == 0 {
        ev := FlushWindow();
      }
      if status == Live && AtFloor(config.schedule, ts) {
        var flushed := FlushWindow();
        if status == Live {
          var cleared := Clear(config.schedule.floor);
          flushed := flushed + cleared;
        }
        ev := ev + flushed;
      }
    }

    method OnCancel() returns (ev: seq<Event>)
      requires Valid()
      modifies this, resting
      ensures Valid() && Step(Model(), ev) == Rules.OnCancel(old(Model()))
    {
      hide RefusePending, RefuseResting;
      if status.Terminal() {
        return [];
      }
      status := Status.Cancelled;
      var bids := if window.Some? then window.value.bids else [];
      window := None;
      ev := RefuseWindow(bids, NotLive);
      var rest := resting.DrainAll();
      var said := RefuseLadder(rest, NotLive);
      ev := ev + said + [Event.Cancelled];
    }

    method Dispatch(seqno: U64, cmd: Command) returns (ev: seq<Event>)
      requires Valid()
      modifies this, resting
      ensures Valid() && Step(Model(), ev) == Rules.Dispatch(config, old(Model()), seqno, cmd)
    {
      hide Rules.OnBid, Rules.OnCancelResting, Rules.OnTick, Rules.OnCancel;
      match cmd
      case Open => ev := OnOpen();
      case SetCollateral(p, ceiling) => ev := OnSetCollateral(p, ceiling);
      case SubmitBid(p, key, qty, kind) => ev := OnBid(seqno, now, p, key, qty, kind);
      case CancelResting(p, key) => ev := OnCancelResting(p, key);
      case Tick => ev := OnTick(now);
      case Cancel => ev := OnCancel();
    }

    /** Apply one command: the only way state changes. */
    method Apply(seqno: U64, ts: U64, cmd: Command) returns (ev: seq<Event>)
      requires Valid() && InSequence(Model(), seqno)
      modifies this, resting
      ensures Valid() && Step(Model(), ev) == Rules.Apply(config, old(Model()), LogRecord(seqno, ts, cmd))
      ensures old(Between(config, Model())) && cmd.Admissible() ==> Between(config, Model())
    {
      hide CloseElapsed, Rules.Dispatch, Between;
      if Between(config, Model()) && cmd.Admissible() {
        ApplyIsSound(config, Model(), LogRecord(seqno, ts, cmd));
      }
      lastSeq, now := Some(seqno), Max(ts, now);
      var closed := CloseElapsedWindow(now);
      var done := Dispatch(seqno, cmd);
      ev := closed + done;
    }
  }

  lemma RefuseNobody(s: State, bids: seq<PendingBid>, reason: RejectReason)
    requires bids == []
    ensures RefusePending(s, bids, reason) == Step(s, [])
  {}

  lemma RefuseNoneResting(s: State, bids: seq<RestingBid>, reason: RejectReason)
    requires bids == []
    ensures RefuseResting(s, bids, reason) == Step(s, [])
  {}

  lemma RepriceDone(s: State, price: I64)
    ensures RepriceFrom(s, price, |s.fills|) == Step(s, [])
  {}

  lemma SettleNobody(s: State, price: I64, bids: seq<PendingBid>, allocs: seq<U64>, exhausted: bool)
    requires bids == [] && |allocs| == 0
    ensures Settle(s, price, bids, allocs, exhausted) == Step(s, [])
  {}

  lemma JoinNobody(s: State, index: U64, price: I64, bids: seq<RestingBid>)
    requires bids == []
    ensures JoinWindow(s, index, price, bids) == s
  {}
}
