/** Every fill, every bid in flight and every resting bid goes back to the record that submitted it:
    same participant, same key, at most what was asked, at no more than was agreed to. */
module Provenance {
  import opened Auction
  import opened Bounded
  import opened Loops
  import opened Rules
  import opened Schedule
  import opened Soundness
  import opened Sums
  import Ladder
  import Matching

  /** The most a bid agreed to pay. */
  function Agreed(c: Config, kind: BidKind): int {
    match kind
    case Take(expected) => expected + c.priceTolerance
    case Resting(limit) => limit
  }

  ghost predicate Asks(c: Config, r: LogRecord, seqno: U64, p: Participant, key: Key, qty: U64, price: I64) {
    && r.seqno == seqno && r.cmd.SubmitBid? && r.cmd.participant == p && r.cmd.key == key
    && 0 < qty <= r.cmd.qty && price <= Agreed(c, r.cmd.kind)
  }

  /** Some record of the log asked for this. */
  ghost predicate Asked(c: Config, log: seq<LogRecord>, seqno: U64, p: Participant, key: Key, qty: U64, price: I64) {
    exists i :: 0 <= i < |log| && Asks(c, log[i], seqno, p, key, qty, price)
  }

  ghost predicate FillAsked(c: Config, log: seq<LogRecord>, f: Fill) {
    Asked(c, log, f.seqno, f.participant, f.key, f.qty, f.price)
  }

  ghost predicate PendingAsked(c: Config, log: seq<LogRecord>, b: PendingBid) {
    Asked(c, log, b.seqno, b.participant, b.key, b.qty, b.reservePrice)
  }

  ghost predicate RestingAsked(c: Config, log: seq<LogRecord>, b: RestingBid) {
    Asked(c, log, b.seqno, b.participant, b.key, b.qty, b.limit)
  }

  ghost predicate FillsAsked(c: Config, log: seq<LogRecord>, fills: seq<Fill>) {
    forall i :: 0 <= i < |fills| ==> FillAsked(c, log, fills[i])
  }

  ghost predicate FlightAsked(c: Config, log: seq<LogRecord>, bids: seq<PendingBid>) {
    forall i :: 0 <= i < |bids| ==> PendingAsked(c, log, bids[i])
  }

  ghost predicate LadderAsked(c: Config, log: seq<LogRecord>, bids: seq<RestingBid>) {
    forall i :: 0 <= i < |bids| ==> RestingAsked(c, log, bids[i])
  }

  ghost predicate Traced(c: Config, log: seq<LogRecord>, s: State) {
    FillsAsked(c, log, s.fills) && FlightAsked(c, log, Flight(s)) && LadderAsked(c, log, s.resting)
  }

  lemma AskedBy(c: Config, log: seq<LogRecord>, i: nat, seqno: U64, p: Participant, key: Key, qty: U64, price: I64)
    requires i < |log| && Asks(c, log[i], seqno, p, key, qty, price)
    ensures Asked(c, log, seqno, p, key, qty, price)
  {}

  lemma AskedLess(c: Config, log: seq<LogRecord>, seqno: U64, p: Participant, key: Key, qty: U64, price: I64, qty': U64, price': I64)
    requires Asked(c, log, seqno, p, key, qty, price) && 0 < qty' <= qty && price' <= price
    ensures Asked(c, log, seqno, p, key, qty', price')
  {
    var i :| 0 <= i < |log| && Asks(c, log[i], seqno, p, key, qty, price);
    assert Asks(c, log[i], seqno, p, key, qty', price');
  }

  lemma AskedStill(c: Config, log: seq<LogRecord>, r: LogRecord, seqno: U64, p: Participant, key: Key, qty: U64, price: I64)
    requires Asked(c, log, seqno, p, key, qty, price)
    ensures Asked(c, log + [r], seqno, p, key, qty, price)
  {
    var i :| 0 <= i < |log| && Asks(c, log[i], seqno, p, key, qty, price);
    assert (log + [r])[i] == log[i];
  }

  lemma TracedStill(c: Config, log: seq<LogRecord>, s: State, r: LogRecord)
    requires Traced(c, log, s)
    ensures Traced(c, log + [r], s)
  {
    hide Asked;
    forall i | 0 <= i < |s.fills| ensures FillAsked(c, log + [r], s.fills[i]) {
      var f := s.fills[i];
      assert FillAsked(c, log, f);
      AskedStill(c, log, r, f.seqno, f.participant, f.key, f.qty, f.price);
    }
    forall i | 0 <= i < |Flight(s)| ensures PendingAsked(c, log + [r], Flight(s)[i]) {
      var b := Flight(s)[i];
      assert PendingAsked(c, log, b);
      AskedStill(c, log, r, b.seqno, b.participant, b.key, b.qty, b.reservePrice);
    }
    forall i | 0 <= i < |s.resting| ensures RestingAsked(c, log + [r], s.resting[i]) {
      var b := s.resting[i];
      assert RestingAsked(c, log, b);
      AskedStill(c, log, r, b.seqno, b.participant, b.key, b.qty, b.limit);
    }
  }

  lemma {:induction false} NewFillsAsked(c: Config, log: seq<LogRecord>, id: nat, price: I64, bids: seq<PendingBid>, allocs: seq<U64>)
    requires |allocs| == |bids| && FlightAsked(c, log, bids) && AllCompete(price, bids)
    requires forall i :: 0 <= i < |bids| ==> allocs[i] <= bids[i].qty
    ensures FillsAsked(c, log, NewFills(id, price, bids, allocs))
    decreases |bids|
  {
    if bids != [] {
      hide Asked;
      var b := bids[0];
      assert PendingAsked(c, log, b) && Competes(price, b);
      NewFillsAsked(c, log, if allocs[0] == 0 then id else id + 1, price, bids[1..], allocs[1..]);
      if allocs[0] > 0 {
        AskedLess(c, log, b.seqno, b.participant, b.key, b.qty, b.reservePrice, allocs[0], price);
      }
    }
  }

  lemma RepricedAsked(c: Config, log: seq<LogRecord>, fills: seq<Fill>, price: I64)
    requires FillsAsked(c, log, fills) && NoneBelow(fills, price)
    requires forall i :: 0 <= i < |fills| ==> fills[i].qty > 0
    ensures FillsAsked(c, log, RepricedFrom(fills, price, 0))
  {
    hide Asked;
    forall i | 0 <= i < |fills| ensures FillAsked(c, log, RepricedFrom(fills, price, 0)[i]) {
      var f := fills[i];
      assert FillAsked(c, log, f);
      AskedLess(c, log, f.seqno, f.participant, f.key, f.qty, f.price, f.qty, price);
    }
  }

  lemma SortedAsked(c: Config, log: seq<LogRecord>, bids: seq<PendingBid>)
    requires FlightAsked(c, log, bids)
    ensures FlightAsked(c, log, Matching.SortBids(bids))
  {
    hide Asked;
    Matching.SortBidsSorts(bids);
    var sorted := Matching.SortBids(bids);
    forall i | 0 <= i < |sorted| ensures PendingAsked(c, log, sorted[i]) {
      assert sorted[i] in multiset(sorted);
      assert sorted[i] in bids;
    }
  }

  lemma ClearTraced(c: Config, log: seq<LogRecord>, s: State, price: I64)
    requires Ledger(s.fills) && NoneBelow(s.fills, price) && s.window == None && FillsAsked(c, log, s.fills)
    ensures Traced(c, log, Clear(s, price).st)
  {
    hide Clear, RepricedFrom, FillAsked;
    ClearShape(s, price);
    RepricedAsked(c, log, s.fills, price);
  }

  lemma SettledTraced(c: Config, log: seq<LogRecord>, s: State)
    requires c.WellFormed() && Sound(c, s) && s.status.Live? && s.window.Some? && Traced(c, log, s)
    ensures Traced(c, log, SettledWindow(s).st)
  {
    var w, bids, m := s.window.value, Matching.SortBids(s.window.value.bids), Matched(s);
    MatchedFacts(s);
    SortedAsked(c, log, w.bids);
    hide FillAsked, PendingAsked, RestingAsked, Competes, Settle, Matched, Matching.SortBids, NothingOver, Sum, Ledger, NewFills;
    SettleFrame(s.(window := None, supply := m.remaining), w.price, bids, m.allocs, m.exhausted);
    NewFillsAsked(c, log, s.nextFillId, w.price, bids, m.allocs);
    FillsAppend(c, log, s.fills, NewFills(s.nextFillId, w.price, bids, m.allocs));
  }

  lemma FillsAppend(c: Config, log: seq<LogRecord>, fills: seq<Fill>, more: seq<Fill>)
    requires FillsAsked(c, log, fills) && FillsAsked(c, log, more)
    ensures FillsAsked(c, log, fills + more)
  {
    hide FillAsked;
  }

  lemma FlushTraced(c: Config, log: seq<LogRecord>, s: State)
    requires c.WellFormed() && Sound(c, s) && s.status.Live? && Traced(c, log, s)
    ensures Traced(c, log, Flush(s).st)
  {
    hide Settle, Clear, Flush, SettledWindow, Matched, FillAsked, PendingAsked, RestingAsked;
    if s.window.None? {
      FlushNothing(s);
    } else {
      FlushSteps(s);
      SettledTraced(c, log, s);
      SettledShape(c, s);
      if Matched(s).exhausted {
        ClearTraced(c, log, SettledWindow(s).st, s.window.value.price);
      }
    }
  }

  lemma TriggerTraced(c: Config, log: seq<LogRecord>, s: State)
    requires c.WellFormed() && Sound(c, s) && Current(c, s) && s.status.Live? && Traced(c, log, s)
    ensures Traced(c, log, Trigger(c, s, s.now))
  {
    hide Trigger, Ladder.AtLeast, Asked;
    TriggerShape(c, s);
    var joined := Joined(Ladder.Triggered(s.resting, c.PriceAt(s.now)));
    forall i | 0 <= i < |joined| ensures PendingAsked(c, log, joined[i]) {
      assert RestingAsked(c, log, s.resting[i]);
    }
    FlightAppend(c, log, Flight(s), joined);
  }

  lemma FlightAppend(c: Config, log: seq<LogRecord>, bids: seq<PendingBid>, more: seq<PendingBid>)
    requires FlightAsked(c, log, bids) && FlightAsked(c, log, more)
    ensures FlightAsked(c, log, bids + more)
  {
    hide PendingAsked;
  }

  lemma BottomTraced(c: Config, log: seq<LogRecord>, s: State)
    requires c.WellFormed() && Sound(c, s) && s.status.Live? && AtFloor(c.schedule, s.now) && Traced(c, log, s)
    ensures Traced(c, log, Bottom(c, s).st)
  {
    hide Flush, Clear, FillAsked, PendingAsked, RestingAsked;
    FlushTraced(c, log, s);
    if s.window.Some? {
      FlushIsSound(c, s);
    } else {
      FlushNothing(s);
    }
    var flushed := Flush(s).st;
    if flushed.status.Live? {
      ClearTraced(c, log, flushed, c.schedule.floor);
    }
  }

  lemma TickTraced(c: Config, log: seq<LogRecord>, s: State)
    requires c.WellFormed() && Sound(c, s) && Current(c, s) && Traced(c, log, s)
    ensures Traced(c, log, OnTick(c, s, s.now).st)
  {
    if s.status.Live? {
      hide Flush, Bottom, Trigger, Sound, Traced;
      TriggerIsSound(c, s);
      TriggerTraced(c, log, s);
      var triggered := Trigger(c, s, s.now);
      var matched := if c.batchWindow == 0 then Flush(triggered) else Step(triggered, []);
      if c.batchWindow == 0 {
        FlushTraced(c, log, triggered);
        if triggered.window.Some? {
          FlushIsSound(c, triggered);
        } else {
          FlushNothing(triggered);
        }
      }
      if matched.st.status == Live && AtFloor(c.schedule, s.now) {
        BottomTraced(c, log, matched.st);
      }
    }
  }

  /** Accepted takes agreed to the price their window fills at. */
  lemma TakeTraced(c: Config, log: seq<LogRecord>, s: State, i: nat, p: Participant, key: Key, qty: U64, expected: I64)
    requires c.WellFormed() && Sound(c, s) && Current(c, s) && s.status.Live? && qty > 0 && Traced(c, log, s)
    requires i < |log| && log[i].cmd == SubmitBid(p, key, qty, Take(expected))
    ensures Traced(c, log, OnTake(c, s, log[i].seqno, s.now, p, key, qty, expected).st)
  {
    hide Flush, Reserve, CanReserve, Sound, SetOutcome, WindowIndex, WindowPrice, Asked, FillAsked, RestingAsked;
    var index := WindowIndex(c, s.now);
    var price := WindowPrice(c, index);
    var reserved := s.(collateral := Reserve(s.collateral, p, price, qty));
    var clock := c.PriceAt(s.now);
    if CanReserve(s.collateral, p, price, qty) && Max(clock - expected, expected - clock) <= c.priceTolerance {
      var bid := PendingBid(log[i].seqno, p, key, qty, price, price, None);
      var queued := PushPending(reserved, index, price, bid);
      var answered := queued.(outcomes := SetOutcome(queued.outcomes, key, Outcome.Queued(qty)));
      WindowPriceBounds(c, index, s.now);
      AskedBy(c, log, i, bid.seqno, p, key, qty, price);
      FlightAppend(c, log, Flight(s), [bid]);
      assert Flight(answered) == Flight(s) + [bid];
      if c.batchWindow == 0 {
        ReserveFits(s.collateral, p, price, qty);
        AccountsAside(c, s, reserved);
        PushIsSound(c, reserved, bid);
        AccountsAside(c, queued, answered);
        FlushTraced(c, log, answered);
      }
    }
  }

  lemma RestTraced(c: Config, log: seq<LogRecord>, s: State, i: nat, p: Participant, key: Key, qty: U64, limit: I64)
    requires c.WellFormed() && qty > 0 && Traced(c, log, s)
    requires i < |log| && log[i].cmd == SubmitBid(p, key, qty, BidKind.Resting(limit))
    ensures Traced(c, log, OnRest(c, s, log[i].seqno, s.now, p, key, qty, limit).st)
  {
    hide Reserve, CanReserve, SetOutcome, Asked, Ladder.AtLeast, FillAsked, PendingAsked;
    var bid := RestingBid(log[i].seqno, p, key, qty, limit);
    AskedBy(c, log, i, bid.seqno, p, key, qty, limit);
  }

  lemma DispatchTraced(c: Config, log: seq<LogRecord>, s: State, i: nat)
    requires c.WellFormed() && Sound(c, s) && Current(c, s) && Traced(c, log, s) && i < |log|
    ensures Traced(c, log, Dispatch(c, s, log[i].seqno, log[i].cmd).st)
  {
    hide OnTake, OnRest, OnTick, OnCancel, FillAsked, PendingAsked, RestingAsked, Sound, SetOutcome, Release, Ladder.Search;
    match log[i].cmd
    case Open =>
    case SetCollateral(p, ceiling) =>
    case SubmitBid(p, key, qty, kind) =>
      if key !in s.outcomes && qty > 0 && s.status.Live? {
        match kind
        case Take(expected) => TakeTraced(c, log, s, i, p, key, qty, expected);
        case Resting(limit) => RestTraced(c, log, s, i, p, key, qty, limit);
      }
    case CancelResting(p, key) =>
    case Tick => TickTraced(c, log, s);
    case Cancel => CancelShape(s);
  }

  /** Every command keeps everything traceable to the log so far. */
  lemma ApplyTraced(c: Config, log: seq<LogRecord>, s: State, r: LogRecord)
    requires c.WellFormed() && Between(c, s) && InSequence(s, r.seqno) && Traced(c, log, s)
    ensures Traced(c, log + [r], Apply(c, s, r).st)
  {
    hide Dispatch, CloseElapsed, FillAsked, PendingAsked, RestingAsked, Sound;
    StampIsSound(c, s, r.seqno, r.ts);
    ClosedIsSound(c, s, r);
    TracedStill(c, log, s, r);
    var stamped := Stamp(s, r.seqno, r.ts);
    CloseTraced(c, log + [r], stamped);
    assert (log + [r])[|log|] == r;
    DispatchTraced(c, log + [r], Closed(c, s, r), |log|);
  }

  lemma CloseTraced(c: Config, log: seq<LogRecord>, s: State)
    requires c.WellFormed() && Sound(c, s) && Traced(c, log, s)
    ensures Traced(c, log, CloseElapsed(c, s, s.now).st)
  {
    hide Flush, Traced;
    if s.window.Some? {
      FlushTraced(c, log, s);
    }
  }
}
