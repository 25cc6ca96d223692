/** The event stream is a complete projection: whoever hears only the events knows the fills, every
    recorded outcome, the remaining supply, the status and the clearing price. */
module Stream {
  import opened Auction
  import opened Bounded
  import opened Keys
  import opened Lifecycle
  import opened Loops
  import opened Rules
  import opened Schedule
  import opened Soundness
  import opened Sums
  import Ladder
  import Matching

  /** The part of an auction its events determine. */
  datatype Public = Public(
    status: Status, supply: int, clearing: Option<I64>, fills: seq<Fill>, outcomes: map<Key, Outcome>)

  function PublicOf(s: State): Public {
    Public(s.status, s.supply, s.clearing, s.fills, s.outcomes)
  }

  /** What one event tells a listener, who takes the supply and the unsold units from the event that
      carries them, and believes a markdown only from the price last heard. */
  function Hear(pub: Public, e: Event): Public {
    match e
    case Opened(_, supply) => pub.(status := Live, supply := supply)
    case CollateralSet(_, _) => pub
    case Queued(key, _, qty, _) => pub.(outcomes := pub.outcomes[key := Outcome.Queued(qty)])
    case Rested(key, _, qty, _) => pub.(outcomes := pub.outcomes[key := Outcome.Resting(qty)])
    case RestingCancelled(key, _, _) => pub.(outcomes := pub.outcomes[key := Outcome.Cancelled])
    case Filled(f) =>
      pub.(fills := pub.fills + [f], supply := pub.supply - f.qty,
           outcomes := pub.outcomes[f.key := Outcome.Filled(f.qty, f.price)])
    case Rejected(key, reason) =>
      if reason == UnknownBid then pub else pub.(outcomes := pub.outcomes[key := Outcome.Rejected(reason)])
    case Duplicate(_, _) => pub
    case Repriced(id, from, to) =>
      if id >= |pub.fills| || pub.fills[id].price != from then pub
      else
        var f := pub.fills[id];
        pub.(fills := pub.fills[id := f.(price := to)],
             outcomes := pub.outcomes[f.key := Outcome.Filled(f.qty, to)])
    case Cleared(price, _, unsold) => pub.(status := Status.Cleared, clearing := Some(price), supply := unsold)
    case Cancelled => pub.(status := Status.Cancelled)
  }

  function HearAll(pub: Public, ev: seq<Event>): Public
    decreases |ev|
  {
    if ev == [] then pub else HearAll(Hear(pub, ev[0]), ev[1..])
  }

  lemma {:induction false} HearConcat(pub: Public, ev1: seq<Event>, ev2: seq<Event>)
    ensures HearAll(pub, ev1 + ev2) == HearAll(HearAll(pub, ev1), ev2)
    decreases |ev1|
  {
    if ev1 == [] {
      assert ev1 + ev2 == ev2;
    } else {
      assert (ev1 + ev2)[1..] == ev1[1..] + ev2;
      HearConcat(Hear(pub, ev1[0]), ev1[1..], ev2);
    }
  }

  lemma HearOne(pub: Public, e: Event)
    ensures HearAll(pub, [e]) == Hear(pub, e)
  {
    assert [e][1..] == [];
    assert HearAll(Hear(pub, e), []) == Hear(pub, e);
  }

  // ---------------------------------------------------------------- the loops, as heard

  /** Every record mirrors what is held, for every key at once. */
  ghost predicate AllMirror(outcomes: map<Key, Outcome>, fills: seq<Fill>, flight: seq<PendingBid>, resting: seq<RestingBid>) {
    forall k :: Mirrors(outcomes, fills, flight, resting, k)
  }

  /** A listener whose fills and records are those of `s`. */
  ghost predicate Follows(pub: Public, s: State) {
    pub.fills == s.fills && pub.outcomes == s.outcomes
  }

  lemma FlightWaits(outcomes: map<Key, Outcome>, fills: seq<Fill>, flight: seq<PendingBid>, resting: seq<RestingBid>)
    requires flight != [] && AllMirror(outcomes, fills, flight, resting)
    ensures Waiting(outcomes, flight[0].key)
  {
    var k := flight[0].key;
    assert Mirrors(outcomes, fills, flight, resting, k);
    HeldFlight(fills, flight, resting, k);
    OnlyHeld(outcomes, k, PendingOutcome(flight[0]), Held(fills, flight[1..], resting, k));
  }

  lemma LadderWaits(outcomes: map<Key, Outcome>, fills: seq<Fill>, resting: seq<RestingBid>)
    requires resting != [] && AllMirror(outcomes, fills, [], resting)
    ensures Waiting(outcomes, resting[0].key)
  {
    var k := resting[0].key;
    assert Mirrors(outcomes, fills, [], resting, k);
    HeldResting(fills, [], resting, k);
    OnlyHeld(outcomes, k, Outcome.Resting(resting[0].qty), Held(fills, [], resting[1..], k));
  }

  lemma FillQuoted(outcomes: map<Key, Outcome>, fills: seq<Fill>, resting: seq<RestingBid>, i: nat)
    requires i < |fills| && AllMirror(outcomes, fills, [], resting)
    ensures fills[i].key in outcomes && outcomes[fills[i].key] == Outcome.Filled(fills[i].qty, fills[i].price)
  {
    var k := fills[i].key;
    assert Mirrors(outcomes, fills, [], resting, k);
    HeldReprice(fills, i, fills[i], resting, k);
    OnlyHeld(outcomes, k, Outcome.Filled(fills[i].qty, fills[i].price), Held(fills[..i] + fills[i + 1..], [], resting, k));
  }

  /** A refusal of something waiting, as heard. */
  lemma RefusalHeard(pub: Public, s: State, key: Key, reason: RejectReason)
    requires Follows(pub, s) && Waiting(s.outcomes, key) && reason != UnknownBid
    ensures var one := Reject(s, key, reason);
            HearAll(pub, one.ev) == pub.(outcomes := one.st.outcomes)
  {
    HearOne(pub, Event.Rejected(key, reason));
  }

  lemma {:induction false} RefusePendingHeard(pub: Public, s: State, bids: seq<PendingBid>, resting: seq<RestingBid>, reason: RejectReason)
    requires Follows(pub, s) && reason != UnknownBid && AllMirror(s.outcomes, s.fills, bids, resting)
    ensures var r := RefusePending(s, bids, reason);
            && HearAll(pub, r.ev) == pub.(outcomes := r.st.outcomes)
            && AllMirror(r.st.outcomes, s.fills, [], resting)
    decreases |bids|
  {
    if bids != [] {
      var b := bids[0];
      var released := s.(collateral := Release(s.collateral, b.participant, b.reservePrice, b.qty));
      var one := Reject(released, b.key, reason);
      var rest := RefusePending(one.st, bids[1..], reason);
      assert RefusePending(s, bids, reason) == Step(rest.st, one.ev + rest.ev);
      hide RefusePending, Mirrors, HearAll, Release, Waiting;
      FlightWaits(s.outcomes, s.fills, bids, resting);
      RefusalHeard(pub, released, b.key, reason);
      RejectFrame(released, b.key, reason);
      forall k ensures Mirrors(one.st.outcomes, s.fills, bids[1..], resting, k) {
        RefuseOneMirrors(released, bids, resting, reason, k);
      }
      hide Reject;
      RefusePendingHeard(pub.(outcomes := one.st.outcomes), one.st, bids[1..], resting, reason);
      HearConcat(pub, one.ev, rest.ev);
    }
  }

  lemma {:induction false} RefuseRestingHeard(pub: Public, s: State, bids: seq<RestingBid>, reason: RejectReason)
    requires Follows(pub, s) && reason != UnknownBid && AllMirror(s.outcomes, s.fills, [], bids)
    ensures var r := RefuseResting(s, bids, reason);
            && HearAll(pub, r.ev) == pub.(outcomes := r.st.outcomes)
            && AllMirror(r.st.outcomes, s.fills, [], [])
    decreases |bids|
  {
    if bids != [] {
      var b := bids[0];
      var released := s.(collateral := Release(s.collateral, b.participant, b.limit, b.qty));
      var one := Reject(released, b.key, reason);
      var rest := RefuseResting(one.st, bids[1..], reason);
      assert RefuseResting(s, bids, reason) == Step(rest.st, one.ev + rest.ev);
      hide RefuseResting, Mirrors, HearAll, Release, Waiting;
      LadderWaits(s.outcomes, s.fills, bids);
      RefusalHeard(pub, released, b.key, reason);
      RejectFrame(released, b.key, reason);
      forall k ensures Mirrors(one.st.outcomes, s.fills, [], bids[1..], k) {
        RefuseOneRestingMirrors(released, bids, reason, k);
      }
      hide Reject;
      RefuseRestingHeard(pub.(outcomes := one.st.outcomes), one.st, bids[1..], reason);
      HearConcat(pub, one.ev, rest.ev);
    }
  }

  /** One settled bid, as heard. */
  lemma SettleOneHeard(pub: Public, s: State, price: I64, b: PendingBid, alloc: U64, exhausted: bool)
    requires Follows(pub, s) && Waiting(s.outcomes, b.key) && (exhausted || alloc == b.qty)
    ensures var one := SettleOne(s, price, b, alloc, exhausted);
            HearAll(pub, one.ev) == pub.(fills := one.st.fills, outcomes := one.st.outcomes, supply := pub.supply - alloc)
  {
    hide Release, Commit;
    SettleOneFrame(s, price, b, alloc, exhausted);
    if alloc == 0 {
      HearOne(pub, Event.Rejected(b.key, SupplyExhausted));
    } else {
      HearOne(pub, Event.Filled(FillOf(s, b, alloc, price)));
    }
  }

  lemma {:induction false} SettleHeard(pub: Public, s: State, price: I64, bids: seq<PendingBid>, allocs: seq<U64>, exhausted: bool)
    requires |allocs| == |bids| && NothingOver(bids, allocs, exhausted) && WithinRequests(bids, allocs)
    requires Follows(pub, s) && AllMirror(s.outcomes, s.fills, bids, s.resting)
    ensures var r := Settle(s, price, bids, allocs, exhausted);
            && HearAll(pub, r.ev) == pub.(fills := r.st.fills, outcomes := r.st.outcomes,
                                          supply := pub.supply - Sum(allocs, Matching.Units))
            && AllMirror(r.st.outcomes, r.st.fills, [], s.resting)
    decreases |bids|
  {
    if bids != [] {
      SettleStep(s, price, bids, allocs, exhausted);
      hide Settle, SettleOne, NothingOver, Mirrors, HearAll, WithinRequests, Waiting;
      var one := SettleOne(s, price, bids[0], allocs[0], exhausted);
      var rest := Settle(one.st, price, bids[1..], allocs[1..], exhausted);
      WithinTail(bids, allocs);
      FlightWaits(s.outcomes, s.fills, bids, s.resting);
      SettleOneHeard(pub, s, price, bids[0], allocs[0], exhausted);
      SettleOneFrame(s, price, bids[0], allocs[0], exhausted);
      forall k ensures Mirrors(one.st.outcomes, one.st.fills, bids[1..], s.resting, k) {
        SettleOneMirrors(s, price, bids, allocs[0], exhausted, k);
      }
      SettleHeard(HearAll(pub, one.ev), one.st, price, bids[1..], allocs[1..], exhausted);
      HearConcat(pub, one.ev, rest.ev);
    }
  }

  /** One repriced fill, as heard: silence when its price stands. */
  lemma RepriceOneHeard(pub: Public, s: State, price: I64, i: nat)
    requires i < |s.fills| && s.fills[i].id == i && Follows(pub, s)
    requires s.fills[i].key in s.outcomes
    requires s.outcomes[s.fills[i].key] == Outcome.Filled(s.fills[i].qty, s.fills[i].price)
    ensures var one := RepriceOne(s, price, i);
            HearAll(pub, one.ev) == pub.(fills := one.st.fills, outcomes := one.st.outcomes)
  {
    hide Release;
    var f := s.fills[i];
    RepriceOneShape(s, price, i);
    if f.price != price {
      HearOne(pub, Repriced(f.id, f.price, price));
    } else {
      assert s.outcomes[f.key := s.outcomes[f.key]] == s.outcomes;
      assert s.fills[i := f] == s.fills;
    }
  }

  lemma {:induction false} RepriceHeard(pub: Public, s: State, price: I64, i: nat)
    requires i <= |s.fills| && Follows(pub, s)
    requires forall j :: 0 <= j < |s.fills| ==> s.fills[j].id == j
    requires forall j :: i <= j < |s.fills| ==> price <= s.fills[j].price
    requires AllMirror(s.outcomes, s.fills, [], s.resting)
    ensures var r := RepriceFrom(s, price, i);
            && HearAll(pub, r.ev) == pub.(fills := r.st.fills, outcomes := r.st.outcomes)
            && AllMirror(r.st.outcomes, r.st.fills, [], s.resting)
    decreases |s.fills| - i
  {
    if i < |s.fills| {
      RepriceStep(s, price, i);
      hide RepriceFrom, RepriceOne, Mirrors, HearAll, Quote;
      var one := RepriceOne(s, price, i);
      var rest := RepriceFrom(one.st, price, i + 1);
      FillQuoted(s.outcomes, s.fills, s.resting, i);
      RepriceOneHeard(pub, s, price, i);
      RepriceOneShape(s, price, i);
      forall k ensures Mirrors(one.st.outcomes, one.st.fills, [], s.resting, k) {
        RepriceOneMirrors(s, price, i, k);
      }
      RepriceHeard(HearAll(pub, one.ev), one.st, price, i + 1);
      HearConcat(pub, one.ev, rest.ev);
    }
  }

  // ---------------------------------------------------------------- the commands, as heard

  /** Whoever was up to date before the step is up to date after hearing its events. */
  ghost predicate Told(s: State, step: Step) {
    HearAll(PublicOf(s), step.ev) == PublicOf(step.st)
  }

  ghost predicate AllKept(s: State) {
    forall k :: Kept(s, k)
  }

  lemma ToldChain(s: State, one: Step, two: Step)
    requires Told(s, one) && Told(one.st, two)
    ensures Told(s, Step(two.st, one.ev + two.ev))
  {
    HearConcat(PublicOf(s), one.ev, two.ev);
  }

  lemma ToldNothing(s: State, r: State)
    requires PublicOf(s) == PublicOf(r)
    ensures Told(s, Step(r, []))
  {}

  lemma ToldOne(s: State, r: State, e: Event)
    requires Hear(PublicOf(s), e) == PublicOf(r)
    ensures Told(s, Step(r, [e]))
  {
    HearOne(PublicOf(s), e);
  }

  lemma KeptMirrors(s: State)
    requires AllKept(s)
    ensures AllMirror(s.outcomes, s.fills, Flight(s), s.resting)
  {
    hide Mirrors;
    forall k ensures Mirrors(s.outcomes, s.fills, Flight(s), s.resting, k) {
      assert Kept(s, k);
    }
  }

  lemma ClearTold(s: State, price: I64)
    requires s.window == None && Ledger(s.fills) && NoneBelow(s.fills, price) && AllKept(s)
    ensures Told(s, Clear(s, price))
  {
    hide AllMirror, RepriceFrom, RefuseResting, HearAll, AllKept, RepricedFrom;
    var begun := s.(status := Status.Cleared, clearing := Some(price));
    var repriced := RepriceFrom(begun, price, 0);
    var emptied := repriced.st.(resting := []);
    var refused := RefuseResting(emptied, s.resting, Unfilled);
    var last := Event.Cleared(price, TotalFilled(refused.st.fills), refused.st.supply);
    var pub := PublicOf(s);
    KeptMirrors(s);
    RepriceFrame(begun, price, 0);
    RepriceHeard(pub, begun, price, 0);
    RefuseRestingFrame(emptied, s.resting, Unfilled);
    RefuseRestingHeard(pub.(fills := repriced.st.fills, outcomes := repriced.st.outcomes), emptied, s.resting, Unfilled);
    HearConcat(pub, repriced.ev, refused.ev);
    HearConcat(pub, repriced.ev + refused.ev, [last]);
    HearOne(HearAll(pub, repriced.ev + refused.ev), last);
  }

  lemma SettledTold(c: Config, s: State)
    requires c.WellFormed() && Sound(c, s) && s.status.Live? && s.window.Some? && AllKept(s)
    ensures Told(s, SettledWindow(s))
  {
    var w, bids, m := s.window.value, Matching.SortBids(s.window.value.bids), Matched(s);
    MatchedFacts(s);
    hide Settle, NothingOver, Matched, Matching.SortBids, NewFills, Sum, HearAll, Mirrors, Kept;
    var taken := s.(window := None, supply := m.remaining);
    forall k ensures Mirrors(s.outcomes, s.fills, bids, s.resting, k) {
      assert Kept(s, k);
      SortedHold(s, k);
    }
    SettleFrame(taken, w.price, bids, m.allocs, m.exhausted);
    SettleHeard(PublicOf(s), taken, w.price, bids, m.allocs, m.exhausted);
  }

  lemma AllCarried(s: State, step: Step)
    requires forall k :: Carries(s, step, k)
    ensures AllKept(step.st)
  {
    hide Mirrors, Answers;
    forall k ensures Kept(step.st, k) {
      assert Carries(s, step, k);
    }
  }

  lemma FlushTold(c: Config, s: State)
    requires c.WellFormed() && Sound(c, s) && s.status.Live? && AllKept(s)
    ensures Told(s, Flush(s)) && AllKept(Flush(s).st)
  {
    hide Settle, Clear, Flush, SettledWindow, Matched, Kept, Told, Carries;
    forall k ensures Carries(s, Flush(s), k) {
      assert Kept(s, k);
      FlushCarries(c, s, k);
    }
    AllCarried(s, Flush(s));
    if s.window.None? {
      FlushNothing(s);
      ToldNothing(s, s);
    } else {
      FlushSteps(s);
      SettledTold(c, s);
      SettledShape(c, s);
      if Matched(s).exhausted {
        var settled, price := SettledWindow(s), s.window.value.price;
        forall k ensures Carries(s, settled, k) {
          assert Kept(s, k);
          SettledCarries(c, s, k);
        }
        AllCarried(s, settled);
        ClearTold(settled.st, price);
        ToldChain(s, settled, Clear(settled.st, price));
      }
    }
  }

  lemma TriggerTold(c: Config, s: State)
    requires c.WellFormed() && Sound(c, s) && Current(c, s) && s.status.Live? && AllKept(s)
    ensures Told(s, Step(Trigger(c, s, s.now), [])) && AllKept(Trigger(c, s, s.now))
  {
    hide Kept, Carries, Trigger;
    forall k ensures Carries(s, Step(Trigger(c, s, s.now), []), k) {
      assert Kept(s, k);
      TriggerCarries(c, s, k);
    }
    AllCarried(s, Step(Trigger(c, s, s.now), []));
    TriggerIsSound(c, s);
    ToldNothing(s, Trigger(c, s, s.now));
  }

  lemma BottomTold(c: Config, s: State)
    requires c.WellFormed() && Sound(c, s) && s.status.Live? && AtFloor(c.schedule, s.now) && AllKept(s)
    ensures Told(s, Bottom(c, s))
  {
    hide Flush, Clear, Told, AllKept;
    FlushTold(c, s);
    if s.window.Some? {
      FlushIsSound(c, s);
    } else {
      FlushNothing(s);
    }
    var flushed := Flush(s);
    if flushed.st.status.Live? {
      ClearTold(flushed.st, c.schedule.floor);
      ToldChain(s, flushed, Clear(flushed.st, c.schedule.floor));
    }
  }

  lemma TickTold(c: Config, s: State)
    requires c.WellFormed() && Sound(c, s) && Current(c, s) && AllKept(s)
    ensures Told(s, OnTick(c, s, s.now))
  {
    hide Flush, Bottom, Trigger, Sound, Told, AllKept;
    ToldNothing(s, s);
    if s.status.Live? {
      TriggerIsSound(c, s);
      TriggerTold(c, s);
      var triggered := Step(Trigger(c, s, s.now), []);
      var matched := if c.batchWindow == 0 then Flush(triggered.st) else triggered;
      if c.batchWindow == 0 {
        FlushTold(c, triggered.st);
        ToldChain(s, triggered, matched);
        assert [] + matched.ev == matched.ev;
        if triggered.st.window.Some? {
          FlushIsSound(c, triggered.st);
        } else {
          FlushNothing(triggered.st);
        }
      }
      if matched.st.status == Live && AtFloor(c.schedule, s.now) {
        BottomTold(c, matched.st);
        ToldChain(s, matched, Bottom(c, matched.st));
      }
    }
  }

  lemma CancelTold(s: State)
    requires AllKept(s)
    ensures Told(s, OnCancel(s))
  {
    hide AllMirror, RefusePending, RefuseResting, HearAll, AllKept;
    if s.status.Terminal() {
      ToldNothing(s, s);
    } else {
      var begun := s.(status := Status.Cancelled, window := None);
      var pending := RefusePending(begun, Flight(s), NotLive);
      var emptied := pending.st.(resting := []);
      var refused := RefuseResting(emptied, s.resting, NotLive);
      var pub := PublicOf(s);
      KeptMirrors(s);
      RefusePendingFrame(begun, Flight(s), NotLive);
      RefusePendingHeard(pub, begun, Flight(s), s.resting, NotLive);
      RefuseRestingFrame(emptied, s.resting, NotLive);
      RefuseRestingHeard(pub.(outcomes := pending.st.outcomes), emptied, s.resting, NotLive);
      HearConcat(pub, pending.ev, refused.ev);
      HearConcat(pub, pending.ev + refused.ev, [Event.Cancelled]);
      HearOne(HearAll(pub, pending.ev + refused.ev), Event.Cancelled);
    }
  }

  lemma CloseTold(c: Config, s: State)
    requires c.WellFormed() && Sound(c, s) && AllKept(s)
    ensures Told(s, CloseElapsed(c, s, s.now)) && AllKept(CloseElapsed(c, s, s.now).st)
  {
    hide Flush, Told, AllKept;
    ToldNothing(s, s);
    if s.window.Some? {
      FlushTold(c, s);
    }
  }

  lemma TakeTold(c: Config, s: State, seqno: U64, p: Participant, key: Key, qty: U64, expected: I64)
    requires c.WellFormed() && Sound(c, s) && Current(c, s) && s.status.Live? && qty > 0
    requires AllKept(s) && key !in s.outcomes
    ensures Told(s, OnTake(c, s, seqno, s.now, p, key, qty, expected))
  {
    hide Flush, Reserve, CanReserve, Sound, Kept, Told, WindowIndex, WindowPrice;
    var index := WindowIndex(c, s.now);
    var price := WindowPrice(c, index);
    var reserved := s.(collateral := Reserve(s.collateral, p, price, qty));
    DoorTold(s, s.collateral, key, PriceMoved(c.PriceAt(s.now)));
    assert s.(collateral := s.collateral) == s;
    DoorTold(s, reserved.collateral, key, InsufficientCollateral);
    if CanReserve(s.collateral, p, price, qty) {
      var bid := PendingBid(seqno, p, key, qty, price, price, None);
      var queued := PushPending(reserved, index, price, bid);
      var answered := queued.(outcomes := SetOutcome(queued.outcomes, key, Outcome.Queued(qty)));
      ToldOne(s, answered, Event.Queued(key, p, qty, price));
      if c.batchWindow == 0 {
        WindowPriceBounds(c, index, s.now);
        ReserveFits(s.collateral, p, price, qty);
        AccountsAside(c, s, reserved);
        PushIsSound(c, reserved, bid);
        AccountsAside(c, queued, answered);
        forall k ensures Kept(answered, k) {
          assert Kept(s, k);
          QueuedKeeps(s, reserved, index, price, bid, k);
        }
        FlushTold(c, answered);
        ToldChain(s, Step(answered, [Event.Queued(key, p, qty, price)]), Flush(answered));
      }
    }
  }

  lemma QueuedKeeps(s: State, reserved: State, index: U64, price: I64, bid: PendingBid, k: Key)
    requires Kept(s, k) && bid.key !in s.outcomes && reserved == s.(collateral := reserved.collateral)
    requires bid.restingLimit.None?
    ensures var queued := PushPending(reserved, index, price, bid);
            Kept(queued.(outcomes := SetOutcome(queued.outcomes, bid.key, Outcome.Queued(bid.qty))), k)
  {
    hide Kept;
    QueuedOpens(s, reserved, index, price, bid, k);
  }

  lemma DoorTold(s: State, coll: map<Participant, Collateral>, key: Key, reason: RejectReason)
    requires key !in s.outcomes && reason != UnknownBid
    ensures Told(s, Reject(s.(collateral := coll), key, reason))
  {
    ToldOne(s, Reject(s.(collateral := coll), key, reason).st, Event.Rejected(key, reason));
  }

  lemma RestTold(c: Config, s: State, seqno: U64, p: Participant, key: Key, qty: U64, limit: I64)
    requires c.WellFormed() && key !in s.outcomes
    ensures Told(s, OnRest(c, s, seqno, s.now, p, key, qty, limit))
  {
    hide Reserve, CanReserve, Told;
    var coll := Reserve(s.collateral, p, limit, qty);
    DoorTold(s, s.collateral, key, LimitAboveClock(c.PriceAt(s.now)));
    assert s.(collateral := s.collateral) == s;
    DoorTold(s, coll, key, InsufficientCollateral);
    ToldOne(s, s.(collateral := coll, resting := Ladder.Arriving(s.resting, RestingBid(seqno, p, key, qty, limit)),
                  outcomes := SetOutcome(s.outcomes, key, Outcome.Resting(qty))),
            Rested(key, p, qty, limit));
  }

  lemma BidTold(c: Config, s: State, seqno: U64, p: Participant, key: Key, qty: U64, kind: BidKind)
    requires c.WellFormed() && Sound(c, s) && Current(c, s) && AllKept(s)
    ensures Told(s, OnBid(c, s, seqno, s.now, p, key, qty, kind))
  {
    hide OnTake, OnRest, Sound, AllKept, Told, Reject;
    if key in s.outcomes {
      ToldOne(s, s, Duplicate(key, s.outcomes[key]));
    } else {
      assert s.(collateral := s.collateral) == s;
      DoorTold(s, s.collateral, key, ZeroQuantity);
      DoorTold(s, s.collateral, key, NotLive);
      if qty > 0 && s.status == Live {
        match kind
        case Take(expected) => TakeTold(c, s, seqno, p, key, qty, expected);
        case Resting(limit) => RestTold(c, s, seqno, p, key, qty, limit);
      }
    }
  }

  lemma CancelRestingTold(s: State, p: Participant, key: Key)
    requires AllKept(s)
    ensures Told(s, OnCancelResting(s, p, key))
  {
    hide Ladder.Without, Release, Told, Kept;
    var found := Ladder.Search(s.resting, p, key);
    Ladder.SearchFinds(s.resting, p, key);
    hide Ladder.Search;
    var r := OnCancelResting(s, p, key).st;
    if found.Some? {
      var b := s.resting[found.value];
      assert Kept(s, key);
      RestingWaits(s, found.value);
      ToldOne(s, r, RestingCancelled(key, p, b.qty));
    } else if key in s.outcomes {
      ToldOne(s, s, Duplicate(key, s.outcomes[key]));
    } else {
      ToldOne(s, s, Event.Rejected(key, UnknownBid));
    }
  }

  lemma RestingWaits(s: State, i: nat)
    requires i < |s.resting| && Kept(s, s.resting[i].key)
    ensures Waiting(s.outcomes, s.resting[i].key)
  {
    hide Held;
    var b := s.resting[i];
    HeldWithdraw(s.fills, Flight(s), s.resting, i, b.key);
    OnlyHeld(s.outcomes, b.key, Outcome.Resting(b.qty), Held(s.fills, Flight(s), Ladder.Without(s.resting, i), b.key));
  }

  lemma DispatchTold(c: Config, s: State, seqno: U64, cmd: Command)
    requires c.WellFormed() && Sound(c, s) && Current(c, s) && AllKept(s)
    ensures Told(s, Dispatch(c, s, seqno, cmd))
  {
    hide OnBid, OnCancelResting, OnTick, OnCancel, Told, AllKept;
    match cmd
    case Open =>
      ToldNothing(s, s);
      if s.status == Pending {
        ToldOne(s, OnOpen(c, s).st, Opened(c.schedule.start, c.totalSupply));
      }
    case SetCollateral(p, ceiling) => ToldOne(s, OnSetCollateral(s, p, ceiling).st, CollateralSet(p, ceiling));
    case SubmitBid(p, key, qty, kind) => BidTold(c, s, seqno, p, key, qty, kind);
    case CancelResting(p, key) => CancelRestingTold(s, p, key);
    case Tick => TickTold(c, s);
    case Cancel => CancelTold(s);
  }

  /** A listener that is up to date stays so by hearing the events of each command. */
  lemma ApplyTold(c: Config, s: State, r: LogRecord)
    requires c.WellFormed() && Between(c, s) && InSequence(s, r.seqno) && AllKept(s)
    ensures Told(s, Apply(c, s, r))
  {
    hide Dispatch, CloseElapsed, Sound, HearAll, Kept;
    var stamped := Stamp(s, r.seqno, r.ts);
    StampIsSoundly(c, s, r);
    ClosedIsSound(c, s, r);
    forall k ensures Kept(stamped, k) {
      assert Kept(s, k);
      StampKeeps(s, r, k);
    }
    CloseTold(c, stamped);
    var closed := CloseElapsed(c, stamped, stamped.now);
    DispatchTold(c, closed.st, r.seqno, r.cmd);
    ToldChain(stamped, closed, Dispatch(c, closed.st, r.seqno, r.cmd));
  }

  lemma StampKeeps(s: State, r: LogRecord, k: Key)
    requires Kept(s, k)
    ensures Kept(Stamp(s, r.seqno, r.ts), k)
  {}
}
