/** What one whole command does to a key: its record keeps mirroring what is held, and turns final
    exactly when an event says so. */
module Lifecycle {
  import opened Auction
  import opened Bounded
  import opened Keys
  import opened Loops
  import opened Rules
  import opened Schedule
  import opened Soundness
  import opened Sums
  import Ladder
  import Matching

  ghost predicate Kept(s: State, k: Key) {
    Mirrors(s.outcomes, s.fills, Flight(s), s.resting, k)
  }

  /** A step that neither opens nor forgets a record. */
  ghost predicate Carries(s: State, step: Step, k: Key) {
    Kept(step.st, k) && Answers(s.outcomes, step.ev, step.st.outcomes, k)
  }

  lemma CarriesChain(s: State, one: Step, two: Step, k: Key)
    requires Carries(s, one, k) && Carries(one.st, two, k)
    ensures Carries(s, Step(two.st, one.ev + two.ev), k)
  {
    hide Answers;
    AnswersChain(s.outcomes, one.ev, one.st.outcomes, two.ev, two.st.outcomes, k);
  }

  lemma CarriesNothing(s: State, k: Key)
    requires Kept(s, k)
    ensures Carries(s, Step(s, []), k)
  {
    AnswersNothing(s.outcomes, k);
  }

  /** An event that answers nobody changes no count. */
  lemma CarriesNotice(s: State, step: Step, e: Event, k: Key)
    requires Carries(s, step, k) && Answer(k)(e) == 0
    ensures Carries(s, Step(step.st, step.ev + [e]), k)
  {
    hide Mirrors, Answer;
    SumSnoc(step.ev, e, Answer(k));
  }

  lemma CarriesQuietly(s: State, r: State, e: Event, k: Key)
    requires Kept(r, k) && r.outcomes == s.outcomes && Answer(k)(e) == 0
    ensures Carries(s, Step(r, [e]), k)
  {
    hide Mirrors;
    AnswersNothing(s.outcomes, k);
    CountsOne(s.outcomes, e, r.outcomes, k);
  }

  lemma ClearCarries(s: State, price: I64, k: Key)
    requires Kept(s, k) && s.window == None && NoneBelow(s.fills, price)
    ensures Carries(s, Clear(s, price), k)
  {
    hide Mirrors, Answers, RepriceFrom, RefuseResting;
    var begun := s.(status := Status.Cleared, clearing := Some(price));
    var repriced := RepriceFrom(begun, price, 0);
    RepriceFrame(begun, price, 0);
    RepriceMirrors(begun, price, 0, k);
    var emptied := repriced.st.(resting := []);
    var refused := RefuseResting(emptied, s.resting, Unfilled);
    RefuseRestingFrame(emptied, s.resting, Unfilled);
    RefuseRestingMirrors(emptied, s.resting, Unfilled, k);
    AnswersChain(s.outcomes, repriced.ev, repriced.st.outcomes, refused.ev, refused.st.outcomes, k);
    CarriesNotice(s, Step(refused.st, repriced.ev + refused.ev),
                  Event.Cleared(price, TotalFilled(refused.st.fills), refused.st.supply), k);
  }

  lemma SortedHold(s: State, k: Key)
    requires s.window.Some? && Kept(s, k)
    ensures Mirrors(s.outcomes, s.fills, Matching.SortBids(s.window.value.bids), s.resting, k)
  {
    var bids := s.window.value.bids;
    Matching.SortBidsSorts(bids);
    CollectPermutation(Matching.SortBids(bids), bids, PendingHolds(k));
  }

  lemma SettledCarries(c: Config, s: State, k: Key)
    requires c.WellFormed() && Sound(c, s) && s.status.Live? && s.window.Some? && Kept(s, k)
    ensures Carries(s, SettledWindow(s), k)
  {
    var w, bids, m := s.window.value, Matching.SortBids(s.window.value.bids), Matched(s);
    MatchedFacts(s);
    hide Mirrors, Answers, Settle, NothingOver, Matched, Matching.SortBids, NewFills, Sum;
    var taken := s.(window := None, supply := m.remaining);
    SortedHold(s, k);
    SettleFrame(taken, w.price, bids, m.allocs, m.exhausted);
    SettleMirrors(taken, w.price, bids, m.allocs, m.exhausted, k);
  }

  lemma FlushCarries(c: Config, s: State, k: Key)
    requires c.WellFormed() && Sound(c, s) && s.status.Live? && Kept(s, k)
    ensures Carries(s, Flush(s), k)
  {
    hide Mirrors, Settle, Clear, Flush, SettledWindow, Matched, Carries;
    if s.window.None? {
      FlushNothing(s);
      CarriesNothing(s, k);
    } else {
      FlushSteps(s);
      SettledCarries(c, s, k);
      SettledShape(c, s);
      if Matched(s).exhausted {
        var settled, price := SettledWindow(s), s.window.value.price;
        assert Kept(settled.st, k) by { CarriesKept(s, settled, k); }
        ClearCarries(settled.st, price, k);
        CarriesChain(s, settled, Clear(settled.st, price), k);
      }
    }
  }

  lemma CarriesKept(s: State, step: Step, k: Key)
    requires Carries(s, step, k)
    ensures Kept(step.st, k)
  {}

  lemma TriggerCarries(c: Config, s: State, k: Key)
    requires c.WellFormed() && Sound(c, s) && Current(c, s) && s.status.Live? && Kept(s, k)
    ensures Carries(s, Step(Trigger(c, s, s.now), []), k)
  {
    hide Mirrors, Trigger, Ladder.AtLeast;
    var clock := c.PriceAt(s.now);
    TriggerShape(c, s);
    TriggerMirrors(s.outcomes, s.fills, Flight(s), Ladder.Triggered(s.resting, clock), Ladder.Untriggered(s.resting, clock), k);
    assert Ladder.Triggered(s.resting, clock) + Ladder.Untriggered(s.resting, clock) == s.resting;
    AnswersNothing(s.outcomes, k);
  }

  lemma BottomCarries(c: Config, s: State, k: Key)
    requires c.WellFormed() && Sound(c, s) && s.status.Live? && AtFloor(c.schedule, s.now) && Kept(s, k)
    ensures Carries(s, Bottom(c, s), k)
  {
    hide Flush, Clear, Carries, Kept, Ledger;
    FlushCarries(c, s, k);
    CarriesKept(s, Flush(s), k);
    if s.window.Some? {
      FlushIsSound(c, s);
    } else {
      FlushNothing(s);
    }
    var flushed := Flush(s);
    if flushed.st.status.Live? {
      ClearCarries(flushed.st, c.schedule.floor, k);
      CarriesChain(s, flushed, Clear(flushed.st, c.schedule.floor), k);
    }
  }

  lemma TickCarries(c: Config, s: State, k: Key)
    requires c.WellFormed() && Sound(c, s) && Current(c, s) && Kept(s, k)
    ensures Carries(s, OnTick(c, s, s.now), k)
  {
    hide Flush, Bottom, Trigger, Sound, Carries, Kept;
    if s.status.Live? {
      TriggerIsSound(c, s);
      TriggerCarries(c, s, k);
      var triggered := Step(Trigger(c, s, s.now), []);
      CarriesKept(s, triggered, k);
      var matched := if c.batchWindow == 0 then Flush(triggered.st) else triggered;
      if c.batchWindow == 0 {
        FlushCarries(c, triggered.st, k);
        CarriesChain(s, triggered, matched, k);
        assert [] + matched.ev == matched.ev;
        if triggered.st.window.Some? {
          FlushIsSound(c, triggered.st);
        } else {
          FlushNothing(triggered.st);
        }
      }
      if matched.st.status == Live && AtFloor(c.schedule, s.now) {
        CarriesKept(s, matched, k);
        BottomCarries(c, matched.st, k);
        CarriesChain(s, matched, Bottom(c, matched.st), k);
      }
    } else {
      CarriesNothing(s, k);
    }
  }

  lemma CancelCarries(s: State, k: Key)
    requires Kept(s, k)
    ensures Carries(s, OnCancel(s), k)
  {
    hide Mirrors, Answers, RefusePending, RefuseResting;
    if s.status.Terminal() {
      CarriesNothing(s, k);
    } else {
      var begun := s.(status := Status.Cancelled, window := None);
      var pending := RefusePending(begun, Flight(s), NotLive);
      RefusePendingFrame(begun, Flight(s), NotLive);
      RefusePendingMirrors(begun, Flight(s), s.resting, NotLive, k);
      var emptied := pending.st.(resting := []);
      var refused := RefuseResting(emptied, s.resting, NotLive);
      RefuseRestingFrame(emptied, s.resting, NotLive);
      RefuseRestingMirrors(emptied, s.resting, NotLive, k);
      AnswersChain(s.outcomes, pending.ev, pending.st.outcomes, refused.ev, refused.st.outcomes, k);
      CarriesNotice(s, Step(refused.st, pending.ev + refused.ev), Event.Cancelled, k);
    }
  }

  lemma CloseCarries(c: Config, s: State, k: Key)
    requires c.WellFormed() && Sound(c, s) && Kept(s, k)
    ensures Carries(s, CloseElapsed(c, s, s.now), k)
  {
    hide Flush, Carries;
    if s.window.Some? {
      FlushCarries(c, s, k);
    }
    CarriesNothing(s, k);
  }

  // ---------------------------------------------------------------- opening a record

  /** A step under way for the first submission of `key`: every other record is carried, and this
      one is opened. */
  ghost predicate Opens(s: State, step: Step, key: Key, k: Key) {
    && Kept(step.st, k)
    && Counts(s.outcomes, step.ev, step.st.outcomes, k)
    && (if k == key then k in step.st.outcomes else Answers(s.outcomes, step.ev, step.st.outcomes, k))
  }

  lemma OpensChain(s: State, one: Step, two: Step, key: Key, k: Key)
    requires Opens(s, one, key, k) && Carries(one.st, two, k)
    ensures Opens(s, Step(two.st, one.ev + two.ev), key, k)
  {
    if k == key {
      CountsChain(s.outcomes, one.ev, one.st.outcomes, two.ev, two.st.outcomes, k);
    } else {
      AnswersChain(s.outcomes, one.ev, one.st.outcomes, two.ev, two.st.outcomes, k);
    }
  }

  /** Nothing is held under a key without a record. */
  lemma UnknownHoldsNothing(s: State, k: Key)
    requires Kept(s, k) && k !in s.outcomes
    ensures Held(s.fills, Flight(s), s.resting, k) == multiset{}
  {}

  /** A refusal at the door holds nothing. */
  lemma DoorRefusal(s: State, coll: map<Participant, Collateral>, key: Key, reason: RejectReason, k: Key)
    requires Kept(s, k) && key !in s.outcomes && reason != UnknownBid
    ensures Opens(s, Reject(s.(collateral := coll), key, reason), key, k)
  {
    hide Held;
    CountsOne(s.outcomes, Event.Rejected(key, reason), Reject(s, key, reason).st.outcomes, k);
  }

  lemma HeldJoin(fills: seq<Fill>, flight: seq<PendingBid>, b: PendingBid, resting: seq<RestingBid>, k: Key)
    ensures Held(fills, flight + [b], resting, k) == PendingHolds(k)(b) + Held(fills, flight, resting, k)
  {
    CollectSnoc(flight, b, PendingHolds(k));
    Rearrange(Collect(fills, FillHolds(k)) + Collect(flight, PendingHolds(k)), PendingHolds(k)(b), multiset{},
              Collect(resting, RestingHolds(k)));
  }

  lemma HeldArrive(fills: seq<Fill>, flight: seq<PendingBid>, resting: seq<RestingBid>, b: RestingBid, k: Key)
    ensures Held(fills, flight, Ladder.Arriving(resting, b), k) == RestingHolds(k)(b) + Held(fills, flight, resting, k)
  {
    hide Ladder.AtLeast;
    CollectInsert(resting, Ladder.AtLeast(resting, b.limit), b, RestingHolds(k));
    Rearrange(Collect(fills, FillHolds(k)) + Collect(flight, PendingHolds(k)), RestingHolds(k)(b), Collect(resting, RestingHolds(k)),
              multiset{});
  }

  lemma HeldWithdraw(fills: seq<Fill>, flight: seq<PendingBid>, resting: seq<RestingBid>, i: nat, k: Key)
    requires i < |resting|
    ensures Held(fills, flight, resting, k)
         == RestingHolds(k)(resting[i]) + Held(fills, flight, Ladder.Without(resting, i), k)
  {
    CollectSplit(resting, i, RestingHolds(k));
    Rearrange(Collect(fills, FillHolds(k)) + Collect(flight, PendingHolds(k)), RestingHolds(k)(resting[i]),
              Collect(Ladder.Without(resting, i), RestingHolds(k)), multiset{});
  }

  /** The first record for `key`. */
  lemma OpenedRecord(outcomes: map<Key, Outcome>, key: Key, first: Outcome, e: Event, k: Key)
    requires key !in outcomes && (first.Queued? || first.Resting?) && Answer(k)(e) == 0
    ensures var after := SetOutcome(outcomes, key, first);
            && Recorded(after, k) == (if k == key then multiset{first} else Recorded(outcomes, k))
            && Counts(outcomes, [e], after, k)
            && (if k == key then k in after else Answers(outcomes, [e], after, k))
  {
    CountsOne(outcomes, e, SetOutcome(outcomes, key, first), k);
  }

  lemma QueuedOpens(s: State, reserved: State, index: U64, price: I64, bid: PendingBid, k: Key)
    requires Kept(s, k) && bid.key !in s.outcomes && reserved == s.(collateral := reserved.collateral)
    requires bid.restingLimit.None?
    ensures var queued := PushPending(reserved, index, price, bid);
            var answered := queued.(outcomes := SetOutcome(queued.outcomes, bid.key, Outcome.Queued(bid.qty)));
            Opens(s, Step(answered, [Event.Queued(bid.key, bid.participant, bid.qty, bid.reservePrice)]), bid.key, k)
  {
    hide Held, Recorded, SetOutcome, Answers, Counts;
    assert Flight(PushPending(reserved, index, price, bid)) == Flight(s) + [bid];
    if bid.key == k {
      assert Held(s.fills, Flight(s), s.resting, k) == multiset{} by { UnknownHoldsNothing(s, k); }
    }
    HeldJoin(s.fills, Flight(s), bid, s.resting, k);
    OpenedRecord(s.outcomes, bid.key, Outcome.Queued(bid.qty),
                 Event.Queued(bid.key, bid.participant, bid.qty, bid.reservePrice), k);
  }

  lemma RestedOpens(s: State, coll: map<Participant, Collateral>, bid: RestingBid, k: Key)
    requires Kept(s, k) && bid.key !in s.outcomes
    ensures var r := s.(collateral := coll, resting := Ladder.Arriving(s.resting, bid),
                        outcomes := SetOutcome(s.outcomes, bid.key, Outcome.Resting(bid.qty)));
            Opens(s, Step(r, [Rested(bid.key, bid.participant, bid.qty, bid.limit)]), bid.key, k)
  {
    hide Held, Recorded, SetOutcome, Answers, Counts, Ladder.Arriving;
    if bid.key == k {
      assert Held(s.fills, Flight(s), s.resting, k) == multiset{} by { UnknownHoldsNothing(s, k); }
    }
    HeldArrive(s.fills, Flight(s), s.resting, bid, k);
    OpenedRecord(s.outcomes, bid.key, Outcome.Resting(bid.qty), Rested(bid.key, bid.participant, bid.qty, bid.limit), k);
  }

  lemma TakeOpens(c: Config, s: State, seqno: U64, p: Participant, key: Key, qty: U64, expected: I64, k: Key)
    requires c.WellFormed() && Sound(c, s) && Current(c, s) && s.status.Live? && qty > 0
    requires Kept(s, k) && key !in s.outcomes
    ensures Opens(s, OnTake(c, s, seqno, s.now, p, key, qty, expected), key, k)
  {
    hide Flush, Reserve, CanReserve, Sound, SetOutcome, Kept, Opens, WindowIndex, WindowPrice, PushPending, Reject;
    var index := WindowIndex(c, s.now);
    var price := WindowPrice(c, index);
    var reserved := s.(collateral := Reserve(s.collateral, p, price, qty));
    DoorRefusal(s, s.collateral, key, PriceMoved(c.PriceAt(s.now)), k);
    assert s.(collateral := s.collateral) == s;
    DoorRefusal(s, reserved.collateral, key, InsufficientCollateral, k);
    if CanReserve(s.collateral, p, price, qty) {
      var bid := PendingBid(seqno, p, key, qty, price, price, None);
      QueuedOpens(s, reserved, index, price, bid, k);
      if c.batchWindow == 0 {
        var queued := PushPending(reserved, index, price, bid);
        var answered := queued.(outcomes := SetOutcome(queued.outcomes, key, Outcome.Queued(qty)));
        WindowPriceBounds(c, index, s.now);
        ReserveFits(s.collateral, p, price, qty);
        AccountsAside(c, s, reserved);
        PushIsSound(c, reserved, bid);
        AccountsAside(c, queued, answered);
        FlushedOpens(c, s, Step(answered, [Event.Queued(key, p, qty, price)]), key, k);
      }
    }
  }

  /** A bid queued with batching off is matched at once. */
  lemma FlushedOpens(c: Config, s: State, queued: Step, key: Key, k: Key)
    requires c.WellFormed() && Sound(c, queued.st) && queued.st.status.Live?
    requires Opens(s, queued, key, k)
    ensures var flushed := Flush(queued.st);
            Opens(s, Step(flushed.st, queued.ev + flushed.ev), key, k)
  {
    hide Flush;
    FlushCarries(c, queued.st, k);
    OpensChain(s, queued, Flush(queued.st), key, k);
  }

  lemma RestOpens(c: Config, s: State, seqno: U64, p: Participant, key: Key, qty: U64, limit: I64, k: Key)
    requires c.WellFormed() && Kept(s, k) && key !in s.outcomes
    ensures Opens(s, OnRest(c, s, seqno, s.now, p, key, qty, limit), key, k)
  {
    hide Reserve, CanReserve, SetOutcome, Kept, Opens, Reject, Ladder.Arriving;
    var coll := Reserve(s.collateral, p, limit, qty);
    DoorRefusal(s, s.collateral, key, LimitAboveClock(c.PriceAt(s.now)), k);
    assert s.(collateral := s.collateral) == s;
    DoorRefusal(s, coll, key, InsufficientCollateral, k);
    RestedOpens(s, coll, RestingBid(seqno, p, key, qty, limit), k);
  }

  // ---------------------------------------------------------------- the commands

  /** What a command makes of the record under `k`: unless it is the first submission of `k`, the
      record is carried; either way it keeps mirroring what is held, and answers are counted. */
  ghost predicate Handles(s: State, cmd: Command, step: Step, k: Key) {
    && Kept(step.st, k)
    && Counts(s.outcomes, step.ev, step.st.outcomes, k)
    && (if cmd.SubmitBid? && cmd.key == k && k !in s.outcomes then k in step.st.outcomes
        else Answers(s.outcomes, step.ev, step.st.outcomes, k))
  }

  lemma BidHandles(c: Config, s: State, seqno: U64, p: Participant, key: Key, qty: U64, kind: BidKind, k: Key)
    requires c.WellFormed() && Sound(c, s) && Current(c, s) && Kept(s, k)
    ensures Handles(s, SubmitBid(p, key, qty, kind), OnBid(c, s, seqno, s.now, p, key, qty, kind), k)
  {
    hide OnTake, OnRest, Sound, Kept, Counts, Answers, Reject;
    if key in s.outcomes {
      CarriesQuietly(s, s, Duplicate(key, s.outcomes[key]), k);
      CarriesCount(s, Step(s, [Duplicate(key, s.outcomes[key])]), k);
    } else {
      assert s.(collateral := s.collateral) == s;
      DoorRefusal(s, s.collateral, key, ZeroQuantity, k);
      DoorRefusal(s, s.collateral, key, NotLive, k);
      if qty > 0 && s.status == Live {
        match kind
        case Take(expected) => TakeOpens(c, s, seqno, p, key, qty, expected, k);
        case Resting(limit) => RestOpens(c, s, seqno, p, key, qty, limit, k);
      }
    }
  }

  /** The record of a withdrawn bid. */
  lemma WithdrawnRecord(outcomes: map<Key, Outcome>, b: RestingBid, p: Participant, k: Key)
    requires b.key == k ==> k in outcomes && outcomes[k] == Outcome.Resting(b.qty)
    ensures var after := SetOutcome(outcomes, b.key, Outcome.Cancelled);
            && Recorded(after, k) == (if b.key == k then multiset{} else Recorded(outcomes, k))
            && Answers(outcomes, [RestingCancelled(b.key, p, b.qty)], after, k)
  {
    CountsOne(outcomes, RestingCancelled(b.key, p, b.qty), SetOutcome(outcomes, b.key, Outcome.Cancelled), k);
  }

  lemma CancelRestingCarries(s: State, p: Participant, key: Key, k: Key)
    requires Kept(s, k)
    ensures Carries(s, OnCancelResting(s, p, key), k)
  {
    hide Held, Recorded, SetOutcome, Answers, Ladder.Search, Ladder.Without, Release;
    var found := Ladder.Search(s.resting, p, key);
    Ladder.SearchFinds(s.resting, p, key);
    if found.Some? {
      var b := s.resting[found.value];
      HeldWithdraw(s.fills, Flight(s), s.resting, found.value, k);
      if b.key == k {
        OnlyHeld(s.outcomes, k, Outcome.Resting(b.qty), Held(s.fills, Flight(s), Ladder.Without(s.resting, found.value), k));
      }
      WithdrawnRecord(s.outcomes, b, p, k);
    } else if key in s.outcomes {
      CarriesQuietly(s, s, Duplicate(key, s.outcomes[key]), k);
    } else {
      CarriesQuietly(s, s, Event.Rejected(key, UnknownBid), k);
    }
  }

  lemma DispatchHandles(c: Config, s: State, seqno: U64, cmd: Command, k: Key)
    requires c.WellFormed() && Sound(c, s) && Current(c, s) && Kept(s, k)
    ensures Handles(s, cmd, Dispatch(c, s, seqno, cmd), k)
  {
    hide OnBid, OnCancelResting, OnTick, OnCancel, Mirrors, Answers, Counts;
    match cmd
    case Open =>
      CarriesNothing(s, k);
      CarriesQuietly(s, s.(status := Live), Opened(c.schedule.start, c.totalSupply), k);
      CarriesCount(s, OnOpen(c, s), k);
    case SetCollateral(p, ceiling) =>
      CarriesQuietly(s, OnSetCollateral(s, p, ceiling).st, CollateralSet(p, ceiling), k);
      CarriesCount(s, OnSetCollateral(s, p, ceiling), k);
    case SubmitBid(p, key, qty, kind) => BidHandles(c, s, seqno, p, key, qty, kind, k);
    case CancelResting(p, key) =>
      CancelRestingCarries(s, p, key, k);
      CarriesCount(s, OnCancelResting(s, p, key), k);
    case Tick =>
      TickCarries(c, s, k);
      CarriesCount(s, OnTick(c, s, s.now), k);
    case Cancel =>
      CancelCarries(s, k);
      CarriesCount(s, OnCancel(s), k);
  }

  lemma CarriesCount(s: State, step: Step, k: Key)
    requires Carries(s, step, k)
    ensures Counts(s.outcomes, step.ev, step.st.outcomes, k)
  {}

  /** Every command keeps every record mirroring exactly what is held under its key, moves records
      forward only, and answers a submission exactly when its record turns final. */
  lemma ApplyHandles(c: Config, s: State, r: LogRecord, k: Key)
    requires c.WellFormed() && Between(c, s) && InSequence(s, r.seqno) && Kept(s, k)
    ensures Handles(s, r.cmd, Apply(c, s, r), k)
  {
    hide Dispatch, CloseElapsed, Mirrors, Answers, Counts, Sound;
    StampIsSoundly(c, s, r);
    var stamped := Stamp(s, r.seqno, r.ts);
    ClosedIsSound(c, s, r);
    CloseCarries(c, stamped, k);
    var closed := CloseElapsed(c, stamped, stamped.now);
    var done := Dispatch(c, closed.st, r.seqno, r.cmd);
    DispatchHandles(c, closed.st, r.seqno, r.cmd, k);
    CarriesCount(stamped, closed, k);
    CountsChain(s.outcomes, closed.ev, closed.st.outcomes, done.ev, done.st.outcomes, k);
    CarriedDomain(stamped, closed, k);
    if !(r.cmd.SubmitBid? && r.cmd.key == k && k !in s.outcomes) {
      AnswersChain(s.outcomes, closed.ev, closed.st.outcomes, done.ev, done.st.outcomes, k);
    }
  }

  lemma StampIsSoundly(c: Config, s: State, r: LogRecord)
    requires c.WellFormed() && Between(c, s)
    ensures Sound(c, Stamp(s, r.seqno, r.ts))
  {
    StampIsSound(c, s, r.seqno, r.ts);
  }

  lemma CarriedDomain(s: State, step: Step, k: Key)
    requires Carries(s, step, k)
    ensures k in s.outcomes <==> k in step.st.outcomes
  {}
}
