/** What each command does and says, to the last field, read off the auction as it stands once the
    window that has elapsed is closed. */
module Commands {
  import opened Auction
  import opened Bounded
  import opened Fairness
  import opened History
  import opened Keys
  import opened Lifecycle
  import opened Loops
  import opened Money
  import opened Payout
  import opened Promises
  import opened Rules
  import opened Schedule
  import opened Soundness
  import opened Stream
  import opened Sums
  import Descent
  import Ladder
  import Matching

  ghost predicate AllBalanced(s: State) {
    forall p :: Balanced(s, p)
  }

  /** What a command can rely on. */
  ghost predicate Ready(c: Config, s: State, seqno: U64)
    requires c.WellFormed()
  {
    Sound(c, s) && Current(c, s) && Below(s.resting, seqno) && AllKept(s) && AllBalanced(s)
  }

  /** The auction a command meets, and everything said before its turn. */
  function Standing(c: Config, log: seq<LogRecord>, r: LogRecord): Step
    requires c.WellFormed()
  {
    var before := Run(c, log);
    var stamped := Stamp(before.st, r.seqno, r.ts);
    var closed := CloseElapsed(c, stamped, stamped.now);
    Step(closed.st, before.ev + closed.ev)
  }

  /** A run goes on from there by the command alone. */
  lemma Dispatched(c: Config, log: seq<LogRecord>, r: LogRecord)
    requires c.WellFormed() && WellLogged(log + [r])
    ensures var d := Standing(c, log, r);
            var one := Dispatch(c, d.st, r.seqno, r.cmd);
            && Run(c, log + [r]) == Step(one.st, d.ev + one.ev)
            && d.st == Closed(c, Run(c, log).st, r)
            && Ready(c, d.st, r.seqno) && r.cmd.Admissible()
            && d.st.now == Max(r.ts, Run(c, log).st.now) && d.st.lastSeq == Some(r.seqno)
  {
    hide Run, Dispatch, Sound, Current, Coherent, Between, CloseElapsed, Balanced, Kept, Secured;
    var s := Run(c, log).st;
    RunsFollow(c, log, r);
    Prefix(log, r);
    RunStep(c, log, r);
    ClosedIsSound(c, s, r);
    RunsAreCoherent(c, log);
    ClosedIsCoherent(c, log, s, r);
    CoherentKept(c, log, Closed(c, s, r));
    forall p ensures Balanced(Closed(c, s, r), p) {
      RunsAreSecured(c, log, p);
      SecuredBalances(s, Peak(log, p), p);
      ClosedBalances(c, s, r, p);
    }
    var one := Dispatch(c, Standing(c, log, r).st, r.seqno, r.cmd);
    Regroup(Run(c, log).ev, CloseElapsed(c, Stamp(s, r.seqno, r.ts), Max(r.ts, s.now)).ev, one.ev);
  }

  lemma CoherentKept(c: Config, log: seq<LogRecord>, s: State)
    requires c.WellFormed() && Coherent(c, log, s)
    ensures AllKept(s)
  {}

  /** `p` has `delta` more committed; no other account and no ceiling has moved. */
  ghost predicate Moved(s: State, t: State, p: Participant, delta: int) {
    forall q :: Holds(t.collateral, q, Ceiling(s, q), Committed(s, q) + if q == p then delta else 0)
  }

  // ---------------------------------------------------------------- withdrawing

  /** The `i`-th resting bid is one of `p` under `key`. */
  predicate RestsAt(s: State, p: Participant, key: Key, i: nat) {
    i < |s.resting| && s.resting[i].participant == p && s.resting[i].key == key
  }

  predicate Rests(s: State, p: Participant, key: Key) {
    exists i: nat :: i < |s.resting| && RestsAt(s, p, key, i)
  }

  /** No two resting bids share a key. */
  lemma AloneOnLadder(s: State, i: nat)
    requires i < |s.resting| && Kept(s, s.resting[i].key)
    ensures forall j :: 0 <= j < |s.resting| && j != i ==> s.resting[j].key != s.resting[i].key
    ensures forall x :: x in Ladder.Without(s.resting, i) ==> x.key != s.resting[i].key
  {
    hide Kept;
    var k, others := s.resting[i].key, Ladder.Without(s.resting, i);
    PlacesCount(s, k);
    SumNonNegative(s.fills, FillUnder(k));
    SumNonNegative(Flight(s), PendingUnder(k));
    SumRemove(s.resting, i, RestingUnder(k));
    forall j | 0 <= j < |others| ensures others[j].key != k {
      SumBoundsTerm(others, j, RestingUnder(k));
    }
    forall j | 0 <= j < |s.resting| && j != i ensures s.resting[j].key != k {
      assert s.resting[j] == others[if j < i then j else j - 1];
    }
  }

  /** Exactly the `i`-th resting bid is gone: the others keep their order, and what it reserved is free. */
  ghost predicate Withdrawn(s: State, t: State, i: nat)
    requires i < |s.resting|
  {
    var b := s.resting[i];
    && t == s.(resting := s.resting[..i] + s.resting[i + 1..], collateral := t.collateral,
               outcomes := s.outcomes[b.key := Outcome.Cancelled])
    && Moved(s, t, b.participant, 0 - b.limit * b.qty)
    && forall x :: x in t.resting ==> x.key != b.key
  }

  lemma WithdrawsExactly(c: Config, s: State, seqno: U64, p: Participant, key: Key, i: nat)
    requires c.WellFormed() && Ready(c, s, seqno) && RestsAt(s, p, key, i)
    ensures OnCancelResting(s, p, key).ev == [RestingCancelled(key, p, s.resting[i].qty)]
    ensures Withdrawn(s, OnCancelResting(s, p, key).st, i)
  {
    hide Ladder.Search, Release, Sound, Current, Kept, Balanced, SetOutcome, Holds, Ceiling, Committed;
    var found, b, t := Ladder.Search(s.resting, p, key), s.resting[i], OnCancelResting(s, p, key).st;
    Ladder.SearchFinds(s.resting, p, key);
    assert Ladder.Matches(b, p, key);
    assert Kept(s, key);
    AloneOnLadder(s, i);
    assert found.value == i;
    RestingRecord(s, i);
    forall q ensures Holds(t.collateral, q, Ceiling(s, q), Committed(s, q) + if q == p then 0 - b.limit * b.qty else 0) {
      assert Balanced(s, q);
      FreedExactly(c, s, i, q);
    }
  }

  lemma RestingRecord(s: State, i: nat)
    requires i < |s.resting| && Kept(s, s.resting[i].key)
    ensures SetOutcome(s.outcomes, s.resting[i].key, Outcome.Cancelled)
         == s.outcomes[s.resting[i].key := Outcome.Cancelled]
  {
    RestingWaits(s, i);
  }

  lemma FreedExactly(c: Config, s: State, i: nat, q: Participant)
    requires c.WellFormed() && Sound(c, s) && Balanced(s, q) && i < |s.resting|
    ensures var b := s.resting[i];
            Holds(Release(s.collateral, b.participant, b.limit, b.qty), q, Ceiling(s, q),
                  Committed(s, q) + if q == b.participant then 0 - b.limit * b.qty else 0)
  {
    hide Sum, AllCovered, FillCost, PendingCost, Ladder.Without;
    var b := s.resting[i];
    OwedIsNonNegative(c, s, q);
    WithdrawnCost(s.resting, i, q);
    ReleaseIsExact(s.collateral, b.participant, b.limit, b.qty, q);
  }

  /** Withdrawing, over runs: honoured exactly when a bid of the participant rests under the key, whether
      or not a window is open; otherwise nothing changes, and the answer is the record if there is one. */
  lemma WithdrawalExactly(c: Config, log: seq<LogRecord>, r: LogRecord)
    requires c.WellFormed() && WellLogged(log + [r]) && r.cmd.CancelResting?
    ensures var p, key, d, t := r.cmd.participant, r.cmd.key, Standing(c, log, r), Run(c, log + [r]);
            && (forall i: nat :: RestsAt(d.st, p, key, i) ==>
                  t.ev == d.ev + [RestingCancelled(key, p, d.st.resting[i].qty)] && Withdrawn(d.st, t.st, i))
            && (!Rests(d.st, p, key) ==>
                  && t.st == d.st
                  && t.ev == d.ev + [if key in d.st.outcomes then Duplicate(key, d.st.outcomes[key])
                                     else Event.Rejected(key, UnknownBid)])
  {
    hide Run, Standing, Ready, Withdrawn, OnCancelResting;
    Dispatched(c, log, r);
    var p, key, d := r.cmd.participant, r.cmd.key, Standing(c, log, r);
    forall i: nat | RestsAt(d.st, p, key, i)
      ensures OnCancelResting(d.st, p, key).ev == [RestingCancelled(key, p, d.st.resting[i].qty)]
      ensures Withdrawn(d.st, OnCancelResting(d.st, p, key).st, i)
    {
      WithdrawsExactly(c, d.st, r.seqno, p, key, i);
    }
    if !Rests(d.st, p, key) {
      NothingWithdrawn(d.st, p, key);
    }
  }

  lemma NothingWithdrawn(s: State, p: Participant, key: Key)
    requires !Rests(s, p, key)
    ensures OnCancelResting(s, p, key)
         == Step(s, [if key in s.outcomes then Duplicate(key, s.outcomes[key]) else Event.Rejected(key, UnknownBid)])
  {
    Ladder.SearchFinds(s.resting, p, key);
    var found := Ladder.Search(s.resting, p, key);
    if found.Some? {
      assert RestsAt(s, p, key, found.value);
    }
  }

  // ---------------------------------------------------------------- bidding

  /** Why a fresh bid is refused, if it is; the clock goes with the two reasons that are about it. */
  ghost function Objection(c: Config, s: State, p: Participant, qty: U64, kind: BidKind): Option<RejectReason>
    requires c.WellFormed()
  {
    var clock := c.PriceAt(s.now);
    if qty == 0 then Some(ZeroQuantity)
    else if !s.status.Live? then Some(NotLive)
    else if kind.Take? && !(clock - c.priceTolerance <= kind.expectedPrice <= clock + c.priceTolerance) then
      Some(PriceMoved(clock))
    else if kind.Resting? && clock < kind.limit then Some(LimitAboveClock(clock))
    else if qty > 0x7FFF_FFFF_FFFF_FFFF
            || Owed(s.fills, Flight(s), s.resting, p) + AskingPrice(c, s, kind) * qty > Ceiling(s, p) then
      Some(InsufficientCollateral)
    else None
  }

  /** A refusal leaves a record and nothing else. */
  ghost predicate Refused(s: State, t: State, p: Participant, key: Key, reason: RejectReason) {
    && t == s.(collateral := t.collateral, outcomes := s.outcomes[key := Outcome.Rejected(reason)])
    && Moved(s, t, p, 0)
  }

  /** A take joins the window of the instant, at that window's price. */
  ghost predicate Queues(c: Config, s: State, t: State, seqno: U64, p: Participant, key: Key, qty: U64)
    requires c.WellFormed()
  {
    var price := c.PriceAt(LastInstant(c, s.now));
    && t == s.(window := Some(OpenWindow(NumberOf(c, s.now), price, Flight(s) + [PendingBid(seqno, p, key, qty, price, price, None)])),
               collateral := t.collateral, outcomes := s.outcomes[key := Outcome.Queued(qty)])
    && Moved(s, t, p, price * qty)
  }

  /** A resting bid takes its place on the ladder, which stays in order. */
  ghost predicate Climbs(s: State, t: State, seqno: U64, p: Participant, key: Key, qty: U64, limit: I64) {
    && t == s.(resting := t.resting, collateral := t.collateral, outcomes := s.outcomes[key := Outcome.Resting(qty)])
    && multiset(t.resting) == multiset(s.resting) + multiset{RestingBid(seqno, p, key, qty, limit)}
    && Ladder.Ordered(t.resting)
    && Moved(s, t, p, limit * qty)
  }

  lemma ReservedExactly(c: Config, s: State, seqno: U64, p: Participant, price: I64, qty: U64)
    requires c.WellFormed() && Ready(c, s, seqno) && price >= 0
    ensures var ok := CanReserve(s.collateral, p, price, qty);
            && (ok <==> qty <= I64_MAX && Owed(s.fills, Flight(s), s.resting, p) + price * qty <= Ceiling(s, p))
            && Moved(s, s.(collateral := Reserve(s.collateral, p, price, qty)), p, if ok then price * qty else 0)
  {
    hide Owed, Sound, Holds, Reserve, CanReserve, Balanced, Committed, Ceiling, AllKept, Current;
    assert Balanced(s, p);
    ReservesExactly(c, s, p, price, qty);
    SolventAndPriced(c, s, p);
    forall q ensures Holds(Reserve(s.collateral, p, price, qty), q, Ceiling(s, q),
                           Committed(s, q) + if q == p && CanReserve(s.collateral, p, price, qty) then price * qty else 0)
    {
      ReservedFor(s, p, price, qty, q);
    }
  }

  lemma ReservedFor(s: State, p: Participant, price: I64, qty: U64, q: Participant)
    requires price >= 0 && CollateralOf(s.collateral, p).committed >= 0
    ensures Holds(Reserve(s.collateral, p, price, qty), q, Ceiling(s, q),
                  Committed(s, q) + if q == p && CanReserve(s.collateral, p, price, qty) then price * qty else 0)
  {
    ReserveIsExact(s.collateral, p, price, qty, q);
  }

  lemma NobodyMoved(s: State, t: State, p: Participant)
    requires t.collateral == s.collateral
    ensures Moved(s, t, p, 0)
  {}

  lemma MovedOnly(s: State, t: State, u: State, p: Participant, delta: int)
    requires Moved(s, t, p, delta) && u.collateral == t.collateral
    ensures Moved(s, u, p, delta)
  {}

  lemma FreshRecord(outcomes: map<Key, Outcome>, key: Key, first: Outcome)
    requires key !in outcomes
    ensures SetOutcome(outcomes, key, first) == outcomes[key := first]
  {}

  lemma TakesExactly(c: Config, s: State, seqno: U64, p: Participant, key: Key, qty: U64, expected: I64)
    requires c.WellFormed() && Ready(c, s, seqno) && key !in s.outcomes && qty > 0 && s.status.Live?
    ensures var one, why := OnTake(c, s, seqno, s.now, p, key, qty, expected), Objection(c, s, p, qty, Take(expected));
            && (why.Some? ==> one.ev == [Event.Rejected(key, why.value)] && Refused(s, one.st, p, key, why.value))
            && (why.None? ==>
                  exists q :: Queues(c, s, q, seqno, p, key, qty)
                              && var said := [Event.Queued(key, p, qty, c.PriceAt(LastInstant(c, s.now)))];
                                 one == if c.batchWindow == 0 then Step(Flush(q).st, said + Flush(q).ev) else Step(q, said))
  {
    hide Owed, Sound, Moved, Reserve, CanReserve, AllBalanced, Ceiling, AllKept, SetOutcome, Flush, WindowPrice, LastInstant, Below;
    var index, price := WindowIndex(c, s.now), WindowPrice(c, WindowIndex(c, s.now));
    WindowPriceExactly(c, s.now);
    WindowPriceBounds(c, index, s.now);
    ReservedExactly(c, s, seqno, p, price, qty);
    NobodyMoved(s, s, p);
    var reserved := s.(collateral := Reserve(s.collateral, p, price, qty));
    FreshRecord(s.outcomes, key, Outcome.Queued(qty));
    FreshRecord(s.outcomes, key, Outcome.Rejected(InsufficientCollateral));
    FreshRecord(s.outcomes, key, Outcome.Rejected(PriceMoved(c.PriceAt(s.now))));
    OpenWindowIs(c, s);
    var queued := PushPending(reserved, index, price, PendingBid(seqno, p, key, qty, price, price, None));
    var answered := queued.(outcomes := SetOutcome(queued.outcomes, key, Outcome.Queued(qty)));
    MovedOnly(s, reserved, answered, p, if CanReserve(s.collateral, p, price, qty) then price * qty else 0);
    MovedOnly(s, reserved, Reject(reserved, key, InsufficientCollateral).st, p, if CanReserve(s.collateral, p, price, qty) then price * qty else 0);
    MovedOnly(s, s, Reject(s, key, PriceMoved(c.PriceAt(s.now))).st, p, 0);
    if Objection(c, s, p, qty, Take(expected)).None? {
      assert Queues(c, s, answered, seqno, p, key, qty);
    }
  }

  lemma OpenWindowIs(c: Config, s: State)
    requires c.WellFormed() && Sound(c, s) && Current(c, s) && s.status.Live?
    ensures s.window.Some? ==>
              s.window.value == OpenWindow(WindowIndex(c, s.now), WindowPrice(c, WindowIndex(c, s.now)), Flight(s))
  {}

  lemma RestsExactly(c: Config, s: State, seqno: U64, p: Participant, key: Key, qty: U64, limit: I64)
    requires c.WellFormed() && Ready(c, s, seqno) && key !in s.outcomes && qty > 0 && s.status.Live? && limit >= 0
    ensures var one, why := OnRest(c, s, seqno, s.now, p, key, qty, limit), Objection(c, s, p, qty, BidKind.Resting(limit));
            && (why.Some? ==> one.ev == [Event.Rejected(key, why.value)] && Refused(s, one.st, p, key, why.value))
            && (why.None? ==> one.ev == [Rested(key, p, qty, limit)] && Climbs(s, one.st, seqno, p, key, qty, limit))
  {
    hide Owed, Moved, Reserve, CanReserve, AllBalanced, Ceiling, AllKept, SetOutcome, LastInstant, Staged, Ledger, Sum,
         Ladder.Ordered, Ladder.Arriving, AllCovered, Below;
    ReservedExactly(c, s, seqno, p, limit, qty);
    NobodyMoved(s, s, p);
    var reserved, bid := s.(collateral := Reserve(s.collateral, p, limit, qty)), RestingBid(seqno, p, key, qty, limit);
    FreshRecord(s.outcomes, key, Outcome.Resting(qty));
    FreshRecord(s.outcomes, key, Outcome.Rejected(InsufficientCollateral));
    FreshRecord(s.outcomes, key, Outcome.Rejected(LimitAboveClock(c.PriceAt(s.now))));
    var cost := if CanReserve(s.collateral, p, limit, qty) then limit * qty else 0;
    MovedOnly(s, reserved, reserved.(resting := Ladder.Arriving(s.resting, bid),
                                     outcomes := SetOutcome(s.outcomes, key, Outcome.Resting(qty))), p, cost);
    MovedOnly(s, reserved, Reject(reserved, key, InsufficientCollateral).st, p, cost);
    MovedOnly(s, s, Reject(s, key, LimitAboveClock(c.PriceAt(s.now))).st, p, 0);
    if CanReserve(s.collateral, p, limit, qty) {
      ReserveFits(s.collateral, p, limit, qty);
      PlacedInOrder(s.resting, bid);
    }
  }

  lemma PlacedInOrder(flat: seq<RestingBid>, bid: RestingBid)
    requires Ladder.Ordered(flat) && Below(flat, bid.seqno)
    ensures Ladder.Ordered(Ladder.Arriving(flat, bid))
    ensures multiset(Ladder.Arriving(flat, bid)) == multiset(flat) + multiset{bid}
  {
    Ladder.InsertKeepsOrder(flat, bid);
    var i := Ladder.AtLeast(flat, bid.limit);
    hide Ladder.AtLeast;
    assert flat == flat[..i] + flat[i..];
  }

  lemma RefusedAtTheDoor(s: State, p: Participant, key: Key, reason: RejectReason)
    requires key !in s.outcomes
    ensures Refused(s, Reject(s, key, reason).st, p, key, reason)
  {}

  /** Every answer to a fresh bid, over runs: refused for the first objection there is, with the clock
      where the reason carries it and nothing moved; else queued at the clock of its window's last
      instant, or rested at its limit, with exactly its cost reserved. */
  lemma BidAnswered(c: Config, log: seq<LogRecord>, r: LogRecord)
    requires c.WellFormed() && WellLogged(log + [r]) && r.cmd.SubmitBid? && !Submitted(log, r.cmd.key)
    ensures var d, t := Standing(c, log, r), Run(c, log + [r]);
            var p, key, qty, kind := r.cmd.participant, r.cmd.key, r.cmd.qty, r.cmd.kind;
            var why := Objection(c, d.st, p, qty, kind);
            && (why.Some? ==> t.ev == d.ev + [Event.Rejected(key, why.value)] && Refused(d.st, t.st, p, key, why.value))
            && (why.None? && kind.Resting? ==>
                  && t.ev == d.ev + [Rested(key, p, qty, kind.limit)]
                  && Climbs(d.st, t.st, r.seqno, p, key, qty, kind.limit))
            && (why.None? && kind.Take? ==>
                  var queued := d.ev + [Event.Queued(key, p, qty, c.PriceAt(LastInstant(c, d.st.now)))];
                  if c.batchWindow == 0 then queued <= t.ev
                  else t.ev == queued && Queues(c, d.st, t.st, r.seqno, p, key, qty))
  {
    hide Run, Standing, Ready, Objection, Submitted, Climbs, Queues, Refused, Flush, OnTake, OnRest, Moved;
    Dispatched(c, log, r);
    var d, key, qty := Standing(c, log, r), r.cmd.key, r.cmd.qty;
    FreshStays(c, log, r);
    ObjectsEarly(c, d.st, r.cmd.participant, qty, r.cmd.kind);
    if qty == 0 {
      RefusedAtTheDoor(d.st, r.cmd.participant, key, ZeroQuantity);
    } else if !d.st.status.Live? {
      RefusedAtTheDoor(d.st, r.cmd.participant, key, NotLive);
    } else {
      match r.cmd.kind
      case Take(expected) =>
        TakesExactly(c, d.st, r.seqno, r.cmd.participant, key, qty, expected);
        Regroup(d.ev, [Event.Queued(key, r.cmd.participant, qty, c.PriceAt(LastInstant(c, d.st.now)))], Flush(d.st).ev);
      case Resting(limit) => RestsExactly(c, d.st, r.seqno, r.cmd.participant, key, qty, limit);
    }
  }

  lemma ObjectsEarly(c: Config, s: State, p: Participant, qty: U64, kind: BidKind)
    requires c.WellFormed()
    ensures qty == 0 ==> Objection(c, s, p, qty, kind) == Some(ZeroQuantity)
    ensures qty > 0 && !s.status.Live? ==> Objection(c, s, p, qty, kind) == Some(NotLive)
  {}

  /** Closing a window gives no record to a key that had none. */
  lemma FreshStays(c: Config, log: seq<LogRecord>, r: LogRecord)
    requires c.WellFormed() && WellLogged(log + [r]) && r.cmd.SubmitBid? && !Submitted(log, r.cmd.key)
    ensures r.cmd.key !in Standing(c, log, r).st.outcomes
  {
    hide Run, Between, Carries, Kept, CloseElapsed, Submitted;
    var s, k := Run(c, log).st, r.cmd.key;
    RunsFollow(c, log, r);
    Prefix(log, r);
    KeysAreKept(c, log, k);
    StampIsSoundly(c, s, r);
    StampKeeps(s, r, k);
    CloseCarries(c, Stamp(s, r.seqno, r.ts), k);
    CarriedDomain(Stamp(s, r.seqno, r.ts), CloseElapsed(c, Stamp(s, r.seqno, r.ts), Max(r.ts, s.now)), k);
  }

  // ---------------------------------------------------------------- bidding with batching off

  lemma QueuedIsReady(c: Config, s: State, q: State, seqno: U64, p: Participant, key: Key, qty: U64)
    requires c.WellFormed() && Ready(c, s, seqno) && s.status.Live? && key !in s.outcomes
    requires 0 < qty <= I64_MAX && c.batchWindow == 0 && Queues(c, s, q, seqno, p, key, qty)
    ensures Sound(c, q) && Kept(q, key) && |Flight(q)| == 1
  {
    hide Moved, Held, LastInstant, WindowPrice;
    var price := c.PriceAt(LastInstant(c, s.now));
    var b := PendingBid(seqno, p, key, qty, price, price, None);
    WindowPriceExactly(c, s.now);
    WindowPriceBounds(c, WindowIndex(c, s.now), s.now);
    assert Flight(s) == [] && Flight(q) == [b] && Competes(price, b);
    assert Kept(s, key);
    UnknownHoldsNothing(s, key);
    HeldJoin(s.fills, [], b, s.resting, key);
    assert [] + [b] == [b];
  }

  /** Alone in its window, a bid gets what it asks for or all there is. */
  lemma AloneGetsAll(c: Config, s: State)
    requires c.WellFormed() && Sound(c, s) && s.status.Live? && s.window.Some? && |Flight(s)| == 1
    requires Kept(s, Flight(s)[0].key)
    ensures var b, after := Flight(s)[0], Flush(s).st.outcomes;
            && Min(b.qty, s.supply) > 0
            && b.key in after && after[b.key] == Outcome.Filled(Min(b.qty, s.supply), s.window.value.price)
  {
    hide Flush, Kept, Matching.MatchLevels;
    var bids := Flight(s);
    var k := RankOf(bids, 0);
    var sorted := Matching.SortBids(bids);
    Matching.SortLength(bids);
    assert sorted == [bids[0]];
    hide Matching.SortBids;
    SortKeepsCompete(s.window.value.price, bids);
    Matching.MatchTotals(sorted, s.supply);
    FlushPays(c, s, 0);
    var allocs := Matched(s).allocs;
    assert allocs == [allocs[0]] && Sum(allocs, Matching.Units) == allocs[0];
    assert Sum(sorted, Matching.Qty) == bids[0].qty;
  }

  /** With batching off a take that is admitted is filled in the same command, at the clock of its own
      instant, with what it asks for or all there is. */
  lemma TakenAtOnce(c: Config, log: seq<LogRecord>, r: LogRecord)
    requires c.WellFormed() && WellLogged(log + [r]) && r.cmd.SubmitBid? && !Submitted(log, r.cmd.key)
    requires c.batchWindow == 0 && r.cmd.kind.Take?
    requires Objection(c, Standing(c, log, r).st, r.cmd.participant, r.cmd.qty, r.cmd.kind).None?
    ensures var d, t, key := Standing(c, log, r).st, Run(c, log + [r]).st, r.cmd.key;
            key in t.outcomes && t.outcomes[key] == Outcome.Filled(Min(r.cmd.qty, d.supply), c.PriceAt(d.now))
  {
    hide Run, Standing, Ready, Submitted, Flush, OnTake, Owed, Ceiling, Queues, Refused, Sound, Kept;
    Dispatched(c, log, r);
    FreshStays(c, log, r);
    var d := Standing(c, log, r).st;
    TakesExactly(c, d, r.seqno, r.cmd.participant, r.cmd.key, r.cmd.qty, r.cmd.kind.expectedPrice);
    var q :| Queues(c, d, q, r.seqno, r.cmd.participant, r.cmd.key, r.cmd.qty)
             && OnTake(c, d, r.seqno, d.now, r.cmd.participant, r.cmd.key, r.cmd.qty, r.cmd.kind.expectedPrice).st == Flush(q).st;
    QueuedIsReady(c, d, q, r.seqno, r.cmd.participant, r.cmd.key, r.cmd.qty);
    QueuedIs(c, d, q, r.seqno, r.cmd.participant, r.cmd.key, r.cmd.qty);
    AloneGetsAll(c, q);
  }

  lemma QueuedIs(c: Config, s: State, q: State, seqno: U64, p: Participant, key: Key, qty: U64)
    requires c.WellFormed() && Queues(c, s, q, seqno, p, key, qty)
    ensures q.status == s.status && q.supply == s.supply && q.window.Some?
    ensures q.window.value.price == c.PriceAt(LastInstant(c, s.now))
    ensures Flight(q) != [] && Flight(q)[|Flight(q)| - 1].key == key && Flight(q)[|Flight(q)| - 1].qty == qty
  {}

  // ---------------------------------------------------------------- opening and setting ceilings

  lemma OpenedExactly(c: Config, log: seq<LogRecord>, r: LogRecord)
    requires c.WellFormed() && WellLogged(log + [r]) && r.cmd.Open?
    ensures var d, t := Standing(c, log, r), Run(c, log + [r]);
            if d.st.status.Pending? then
              t.st == d.st.(status := Live) && t.ev == d.ev + [Opened(c.schedule.start, c.totalSupply)]
            else t == d
  {
    hide Run, Standing, Ready;
    Dispatched(c, log, r);
  }

  /** A ceiling is set whatever the auction's status and whatever is already at stake. */
  lemma CeilingSetExactly(c: Config, log: seq<LogRecord>, r: LogRecord)
    requires c.WellFormed() && WellLogged(log + [r]) && r.cmd.SetCollateral?
    ensures var d, t, p := Standing(c, log, r), Run(c, log + [r]), r.cmd.participant;
            && t.ev == d.ev + [CollateralSet(p, r.cmd.ceiling)]
            && t.st == d.st.(collateral := t.st.collateral)
            && forall q :: Holds(t.st.collateral, q, if q == p then r.cmd.ceiling else Ceiling(d.st, q), Committed(d.st, q))
  {
    hide Run, Standing, Ready;
    Dispatched(c, log, r);
  }

  // ---------------------------------------------------------------- turning everyone away

  ghost function PendingKeys(bids: seq<PendingBid>): seq<Key> {
    seq(|bids|, i requires 0 <= i < |bids| => bids[i].key)
  }

  ghost function RestingKeys(bids: seq<RestingBid>): seq<Key> {
    seq(|bids|, i requires 0 <= i < |bids| => bids[i].key)
  }

  ghost function Notices(keys: seq<Key>, reason: RejectReason): seq<Event> {
    seq(|keys|, i requires 0 <= i < |keys| => Event.Rejected(keys[i], reason))
  }

  /** Exactly the records of `keys` have become refusals. */
  ghost predicate TurnedAway(before: map<Key, Outcome>, after: map<Key, Outcome>, keys: seq<Key>, reason: RejectReason) {
    forall k :: if k in keys then k in after && after[k] == Outcome.Rejected(reason) else Same(before, after, k)
  }

  ghost predicate NoneFilled(outcomes: map<Key, Outcome>, keys: seq<Key>) {
    forall k :: k in keys ==> k in outcomes && !Fulfils(outcomes[k])
  }

  /** One refusal and then the rest. */
  lemma TurnedAwayNext(before: map<Key, Outcome>, after: map<Key, Outcome>, keys: seq<Key>, reason: RejectReason)
    requires keys != [] && NoneFilled(before, keys)
    ensures var one := SetOutcome(before, keys[0], Outcome.Rejected(reason));
            && NoneFilled(one, keys[1..])
            && (TurnedAway(one, after, keys[1..], reason) ==> TurnedAway(before, after, keys, reason))
    ensures Notices(keys, reason) == [Event.Rejected(keys[0], reason)] + Notices(keys[1..], reason)
  {
    assert keys == [keys[0]] + keys[1..] && keys[0] in keys;
    var one := SetOutcome(before, keys[0], Outcome.Rejected(reason));
    assert one == before[keys[0] := Outcome.Rejected(reason)];
  }

  lemma {:induction false} RefusePendingExactly(s: State, bids: seq<PendingBid>, reason: RejectReason)
    requires NoneFilled(s.outcomes, PendingKeys(bids))
    ensures var one := RefusePending(s, bids, reason);
            && one.ev == Notices(PendingKeys(bids), reason)
            && TurnedAway(s.outcomes, one.st.outcomes, PendingKeys(bids), reason)
    decreases |bids|
  {
    if bids != [] {
      hide TurnedAway, NoneFilled, SetOutcome, Release, Notices;
      var b := bids[0];
      var one := Reject(s.(collateral := Release(s.collateral, b.participant, b.reservePrice, b.qty)), b.key, reason);
      assert PendingKeys(bids)[1..] == PendingKeys(bids[1..]);
      TurnedAwayNext(s.outcomes, RefusePending(s, bids, reason).st.outcomes, PendingKeys(bids), reason);
      RefusePendingExactly(one.st, bids[1..], reason);
    }
  }

  lemma {:induction false} RefuseRestingExactly(s: State, bids: seq<RestingBid>, reason: RejectReason)
    requires NoneFilled(s.outcomes, RestingKeys(bids))
    ensures var one := RefuseResting(s, bids, reason);
            && one.ev == Notices(RestingKeys(bids), reason)
            && TurnedAway(s.outcomes, one.st.outcomes, RestingKeys(bids), reason)
    decreases |bids|
  {
    if bids != [] {
      hide TurnedAway, NoneFilled, SetOutcome, Release, Notices;
      var b := bids[0];
      var one := Reject(s.(collateral := Release(s.collateral, b.participant, b.limit, b.qty)), b.key, reason);
      assert RestingKeys(bids)[1..] == RestingKeys(bids[1..]);
      TurnedAwayNext(s.outcomes, RefuseResting(s, bids, reason).st.outcomes, RestingKeys(bids), reason);
      RefuseRestingExactly(one.st, bids[1..], reason);
    }
  }

  lemma TurnedAwayBoth(
    a: map<Key, Outcome>, b: map<Key, Outcome>, c: map<Key, Outcome>, keys: seq<Key>, more: seq<Key>, reason: RejectReason)
    requires TurnedAway(a, b, keys, reason) && TurnedAway(b, c, more, reason)
    ensures TurnedAway(a, c, keys + more, reason)
  {
    forall k ensures if k in keys + more then k in c && c[k] == Outcome.Rejected(reason) else Same(a, c, k) {
      assert k in keys + more <==> k in keys || k in more;
      assert if k in more then k in c && c[k] == Outcome.Rejected(reason) else Same(b, c, k);
      assert if k in keys then k in b && b[k] == Outcome.Rejected(reason) else Same(a, b, k);
    }
  }

  lemma StillNoneFilled(a: map<Key, Outcome>, b: map<Key, Outcome>, keys: seq<Key>, more: seq<Key>, reason: RejectReason)
    requires TurnedAway(a, b, keys, reason) && NoneFilled(a, more)
    ensures NoneFilled(b, more)
  {
    forall k | k in more ensures k in b && !Fulfils(b[k]) {
      assert if k in keys then k in b && b[k] == Outcome.Rejected(reason) else Same(a, b, k);
    }
  }

  lemma HeldKeysWait(s: State)
    requires AllKept(s)
    ensures NoneFilled(s.outcomes, PendingKeys(Flight(s))) && NoneFilled(s.outcomes, RestingKeys(s.resting))
  {
    hide Kept;
    forall i | 0 <= i < |Flight(s)| ensures Waiting(s.outcomes, Flight(s)[i].key) {
      assert Kept(s, Flight(s)[i].key);
      InWindowWaits(s, i);
    }
    forall i | 0 <= i < |s.resting| ensures Waiting(s.outcomes, s.resting[i].key) {
      assert Kept(s, s.resting[i].key);
      RestingWaits(s, i);
    }
  }

  lemma CancelTurnsAway(s: State)
    requires AllKept(s) && !s.status.Terminal()
    ensures var one, keys := OnCancel(s), PendingKeys(Flight(s)) + RestingKeys(s.resting);
            && one.ev == Notices(PendingKeys(Flight(s)), NotLive) + Notices(RestingKeys(s.resting), NotLive) + [Event.Cancelled]
            && TurnedAway(s.outcomes, one.st.outcomes, keys, NotLive)
  {
    hide TurnedAway, NoneFilled, AllKept, Notices, PendingKeys, RestingKeys, RefusePending, RefuseResting;
    var begun := s.(status := Status.Cancelled, window := None);
    var pending := RefusePending(begun, Flight(s), NotLive);
    var emptied := pending.st.(resting := []);
    HeldKeysWait(s);
    RefusePendingExactly(begun, Flight(s), NotLive);
    RefusePendingFrame(begun, Flight(s), NotLive);
    StillNoneFilled(s.outcomes, pending.st.outcomes, PendingKeys(Flight(s)), RestingKeys(s.resting), NotLive);
    RefuseRestingExactly(emptied, s.resting, NotLive);
    TurnedAwayBoth(s.outcomes, pending.st.outcomes, RefuseResting(emptied, s.resting, NotLive).st.outcomes,
                   PendingKeys(Flight(s)), RestingKeys(s.resting), NotLive);
  }

  /** Cancelling, over runs: once, and then everyone in flight and after them everyone resting is told so
      in turn, each has a refusal on record and nobody else's record changes, and only fills stay committed. */
  lemma CancelledExactly(c: Config, log: seq<LogRecord>, r: LogRecord)
    requires c.WellFormed() && WellLogged(log + [r]) && r.cmd.Cancel?
    ensures var d, t := Standing(c, log, r), Run(c, log + [r]);
            var pending, resting := PendingKeys(Flight(d.st)), RestingKeys(d.st.resting);
            if d.st.status.Terminal() then t == d
            else
              && t.ev == d.ev + (Notices(pending, NotLive) + Notices(resting, NotLive) + [Event.Cancelled])
              && t.st == d.st.(status := Status.Cancelled, window := None, resting := [],
                               collateral := t.st.collateral, outcomes := t.st.outcomes)
              && TurnedAway(d.st.outcomes, t.st.outcomes, pending + resting, NotLive)
              && forall p :: Holds(t.st.collateral, p, Ceiling(d.st, p), Sum(d.st.fills, FillCost(p)))
  {
    hide Run, Standing, Sound, Current, Below, TurnedAway, Notices, PendingKeys, RestingKeys, OnCancel, AllKept, Balanced, Eases, Holds;
    Dispatched(c, log, r);
    var d := Standing(c, log, r).st;
    CancelShape(d);
    if d.status.Terminal() {
      CancelAgain(d);
    } else {
      CancelTurnsAway(d);
      forall p ensures Holds(OnCancel(d).st.collateral, p, Ceiling(d, p), Sum(d.fills, FillCost(p))) {
        assert Balanced(d, p);
        CancelBalances(c, d, p);
        OnlyFillsHeld(d, OnCancel(d).st, p);
      }
    }
  }

  lemma CancelAgain(s: State)
    requires s.status.Terminal()
    ensures OnCancel(s) == Step(s, [])
  {}

  lemma OnlyFillsHeld(s: State, t: State, p: Participant)
    requires Eases(s, t, p) && t.window == None && t.resting == [] && t.fills == s.fills
    ensures Holds(t.collateral, p, Ceiling(s, p), Sum(s.fills, FillCost(p)))
  {}

  // ---------------------------------------------------------------- clearing

  /** One markdown, naming the old price and the new, for each fill at another price. */
  ghost function MarkdownsOf(fills: seq<Fill>, price: I64): seq<Event> {
    if fills == [] then []
    else (if fills[0].price == price then [] else [Repriced(fills[0].id, fills[0].price, price)])
         + MarkdownsOf(fills[1..], price)
  }

  lemma {:induction false} RepricesExactly(s: State, price: I64, i: nat, keys: seq<Key>)
    requires i <= |s.fills| && NoneFilled(s.outcomes, keys)
    ensures RepriceFrom(s, price, i).ev == MarkdownsOf(s.fills[i..], price)
    ensures forall k :: k in keys ==> Same(s.outcomes, RepriceFrom(s, price, i).st.outcomes, k)
    decreases |s.fills| - i
  {
    if i < |s.fills| {
      RepriceStep(s, price, i);
      RepriceOneShape(s, price, i);
      hide RepriceFrom, RepriceOne, Release, Quote;
      var one := RepriceOne(s, price, i);
      assert s.fills[i..][1..] == s.fills[i + 1..] && one.st.fills[i + 1..] == s.fills[i + 1..];
      QuoteSpares(s.outcomes, s.fills[i].key, price, keys);
      RepricesExactly(one.st, price, i + 1, keys);
      RepriceOneSays(s, price, i);
    }
  }

  lemma QuoteSpares(outcomes: map<Key, Outcome>, key: Key, price: I64, keys: seq<Key>)
    requires NoneFilled(outcomes, keys)
    ensures NoneFilled(Quote(outcomes, key, price), keys)
    ensures forall k :: k in keys ==> Same(outcomes, Quote(outcomes, key, price), k)
  {}

  lemma RepriceOneSays(s: State, price: I64, i: nat)
    requires i < |s.fills|
    ensures RepriceOne(s, price, i).ev == if s.fills[i].price == price then [] else [Repriced(s.fills[i].id, s.fills[i].price, price)]
    ensures RepriceOne(s, price, i).st.outcomes == Quote(s.outcomes, s.fills[i].key, price)
  {}

  /** Clearing: every fill comes down to the one price and says from where, everyone resting is told the
      auction ended without them and has it on record, and the totals close it. */
  lemma ClearsExactly(c: Config, s: State, price: I64)
    requires Ledger(s.fills) && Sum(s.fills, FillQty) + s.supply == c.totalSupply && s.window == None && AllKept(s)
    ensures var one, keys := Clear(s, price), RestingKeys(s.resting);
            && one.ev == MarkdownsOf(s.fills, price) + Notices(keys, Unfilled)
                         + [Event.Cleared(price, TotalFilled(s.fills), s.supply)]
            && TotalFilled(s.fills) == Sum(s.fills, FillQty)
            && |one.st.fills| == |s.fills|
            && (forall i :: 0 <= i < |s.fills| ==> one.st.fills[i] == s.fills[i].(price := price))
            && (forall k :: k in keys ==> k in one.st.outcomes && one.st.outcomes[k] == Outcome.Rejected(Unfilled))
  {
    hide TurnedAway, NoneFilled, AllKept, Notices, RestingKeys, RefuseResting, RepriceFrom, MarkdownsOf, Sum, TotalFilled, Ledger;
    var begun, keys := s.(status := Status.Cleared, clearing := Some(price)), RestingKeys(s.resting);
    var repriced := RepriceFrom(begun, price, 0);
    var emptied := repriced.st.(resting := []);
    HeldKeysWait(s);
    assert s.fills[0..] == s.fills;
    RepricesExactly(begun, price, 0, keys);
    RepriceFrame(begun, price, 0);
    StaysNoneFilled(s.outcomes, repriced.st.outcomes, keys);
    RefuseRestingExactly(emptied, s.resting, Unfilled);
    RefuseRestingFrame(emptied, s.resting, Unfilled);
    AllTurnedAway(repriced.st.outcomes, RefuseResting(emptied, s.resting, Unfilled).st.outcomes, keys, Unfilled);
    ClearShape(s, price);
    RepricedTotal(s.fills, price);
    Descent.TotalIsExact(s.fills);
    Descent.TotalIsExact(RepricedFrom(s.fills, price, 0));
  }

  lemma AllTurnedAway(before: map<Key, Outcome>, after: map<Key, Outcome>, keys: seq<Key>, reason: RejectReason)
    requires TurnedAway(before, after, keys, reason)
    ensures forall k :: k in keys ==> k in after && after[k] == Outcome.Rejected(reason)
  {}

  lemma StaysNoneFilled(a: map<Key, Outcome>, b: map<Key, Outcome>, keys: seq<Key>)
    requires NoneFilled(a, keys) && forall k :: k in keys ==> Same(a, b, k)
    ensures NoneFilled(b, keys)
  {}

  // ---------------------------------------------------------------- the clock's turn

  /** The clock has come down to the limits of the first `n` resting bids and no others. */
  ghost predicate Reaches(c: Config, s: State, n: nat)
    requires c.WellFormed()
  {
    && n <= |s.resting|
    && (forall i :: 0 <= i < n ==> s.resting[i].limit >= c.PriceAt(s.now))
    && (forall i :: n <= i < |s.resting| ==> s.resting[i].limit < c.PriceAt(s.now))
  }

  /** The first `n` resting bids, those the clock has reached, have joined the window of
      the instant behind the bids already there, each with its reservation; the others rest on. */
  ghost predicate Joins(c: Config, s: State, t: State, n: nat)
    requires c.WellFormed()
  {
    && Reaches(c, s, n)
    && t == s.(resting := s.resting[n..], window := t.window)
    && (t.window.Some? <==> s.window.Some? || n > 0)
    && (t.window.Some? ==>
          t.window.value.index == NumberOf(c, s.now) && t.window.value.price == c.PriceAt(LastInstant(c, s.now)))
    && |Flight(t)| == |Flight(s)| + n && Flight(t)[..|Flight(s)|] == Flight(s)
    && forall i :: 0 <= i < n ==>
         var b := s.resting[i];
         Flight(t)[|Flight(s)| + i] == PendingBid(b.seqno, b.participant, b.key, b.qty, b.limit, b.limit, Some(b.limit))
  }

  lemma TriggersExactly(c: Config, s: State) returns (n: nat)
    requires c.WellFormed() && Sound(c, s) && Current(c, s) && s.status.Live?
    ensures Joins(c, s, Trigger(c, s, s.now), n)
  {
    hide Trigger, WindowPrice, LastInstant, PriceAt, Ledger, AllCovered, Ladder.AtLeast, Sum, AllCompete;
    n := Ladder.AtLeast(s.resting, c.PriceAt(s.now));
    Ladder.AtLeastCuts(s.resting, c.PriceAt(s.now));
    TriggerShape(c, s);
    WindowPriceExactly(c, s.now);
    OpenWindowIs(c, s);
    var t := Trigger(c, s, s.now);
    assert |Joined(s.resting[..n])| == n;
    assert t.window.None? ==> Flight(t) == [];
  }

  /** Ticking, over runs, while neither settling on the spot nor at the floor: the bids the clock has
      reached join the window, nothing else happens and nothing is said. */
  lemma TickJoinsExactly(c: Config, log: seq<LogRecord>, r: LogRecord)
    requires c.WellFormed() && WellLogged(log + [r]) && r.cmd.Tick?
    ensures var d, t := Standing(c, log, r), Run(c, log + [r]);
            && (!d.st.status.Live? ==> t == d)
            && (d.st.status.Live? && c.batchWindow > 0 && c.PriceAt(d.st.now) != c.schedule.floor ==>
                  t.ev == d.ev && exists n: nat :: Joins(c, d.st, t.st, n))
  {
    hide Run, Standing, Sound, Current, Below, AllKept, AllBalanced, Joins, Trigger, Flush, Bottom;
    Dispatched(c, log, r);
    var d := Standing(c, log, r).st;
    if d.status.Live? {
      var n := TriggersExactly(c, d);
    }
  }

  /** Ticking at the floor ends the auction at the floor. */
  lemma TickEndsAtTheFloor(c: Config, log: seq<LogRecord>, r: LogRecord)
    requires c.WellFormed() && WellLogged(log + [r]) && r.cmd.Tick?
    ensures var d, t := Standing(c, log, r).st, Run(c, log + [r]).st;
            d.status.Live? && c.PriceAt(d.now) == c.schedule.floor ==>
              t.status.Cleared? && t.clearing == Some(c.schedule.floor) && t.window == None && t.resting == []
  {
    hide Run, Standing, Sound, Current, Below, AllKept, AllBalanced, OnTick;
    Dispatched(c, log, r);
    var d := Standing(c, log, r).st;
    if d.status.Live? && c.PriceAt(d.now) == c.schedule.floor {
      FloorTickClears(c, d);
      TickAtClock(c, d);
      TickIsSound(c, d);
      ClearedShape(c, OnTick(c, d, d.now).st);
    }
  }

  lemma FloorTickClears(c: Config, s: State)
    requires c.WellFormed() && Sound(c, s) && Current(c, s) && s.status.Live? && AtFloor(c.schedule, s.now)
    ensures OnTick(c, s, s.now).st.status.Cleared?
  {
    hide Flush, Clear, Trigger, Sound, Current, AtFloor;
    TriggerIsSound(c, s);
    var triggered := Trigger(c, s, s.now);
    FlushEnds(c, triggered);
    var flushed := Flush(triggered).st;
    FlushEnds(c, flushed);
    ClearShape(flushed, c.schedule.floor);
    ClearShape(Flush(flushed).st, c.schedule.floor);
  }

  lemma FlushEnds(c: Config, s: State)
    requires c.WellFormed() && Sound(c, s)
    ensures s.status.Live? ==>
              var r := Flush(s).st;
              Sound(c, r) && r.window == None && (r.status.Live? || r.status.Cleared?)
  {
    hide Flush, Sound;
    if s.status.Live? {
      if s.window.Some? {
        FlushIsSound(c, s);
      } else {
        FlushNothing(s);
      }
    }
  }

  lemma ClearedShape(c: Config, s: State)
    requires c.WellFormed() && Sound(c, s) && s.status.Cleared?
    ensures s.window == None && s.resting == []
  {}

  ghost predicate SettledOnTheSpot(s: State, t: State, n: nat)
    requires n <= |s.resting|
  {
    var asked := Sum(s.resting[..n], Ladder.RestingQty);
    && (t.status.Cleared? <==> n > 0 && asked >= s.supply)
    && (!t.status.Cleared? ==> t.status.Live? && t.resting == s.resting[n..] && t.supply == s.supply - asked)
  }

  /** Ticking with batching off and the clock above the floor: the bids the clock has reached are a window
      of their own, settled on the spot, and the auction ends exactly when they ask for all there is. */
  lemma TickSettlesExactly(c: Config, log: seq<LogRecord>, r: LogRecord)
    requires c.WellFormed() && WellLogged(log + [r]) && r.cmd.Tick? && c.batchWindow == 0
    ensures var d, t := Standing(c, log, r).st, Run(c, log + [r]).st;
            d.status.Live? && c.PriceAt(d.now) != c.schedule.floor ==>
              exists n: nat :: Reaches(c, d, n) && SettledOnTheSpot(d, t, n)
  {
    hide Run, Standing, Sound, Current, Below, AllKept, AllBalanced, Reaches, SettledOnTheSpot, OnTick;
    Dispatched(c, log, r);
    var d := Standing(c, log, r).st;
    if d.status.Live? && c.PriceAt(d.now) != c.schedule.floor {
      var n := SettlesOnTheSpot(c, d);
    }
  }

  lemma SettlesOnTheSpot(c: Config, s: State) returns (n: nat)
    requires c.WellFormed() && Sound(c, s) && Current(c, s) && s.status.Live?
    requires c.batchWindow == 0 && !AtFloor(c.schedule, s.now)
    ensures Reaches(c, s, n) && SettledOnTheSpot(s, OnTick(c, s, s.now).st, n)
  {
    hide Sound, Current, Joins, Reaches, Trigger, Flush, SellsOut, Sum, AtFloor;
    n := TriggersExactly(c, s);
    var q := Trigger(c, s, s.now);
    assert s.window == None by { NoWindowUnbatched(c, s); }
    TriggerIsSound(c, s);
    JoinedAsk(c, s, q, n);
    if n > 0 {
      FlushClearsExactly(c, q);
      FlushIsSound(c, q);
      FlushSells(c, q);
    } else {
      FlushNothing(q);
    }
  }

  lemma NoWindowUnbatched(c: Config, s: State)
    requires Current(c, s) && c.batchWindow == 0
    ensures s.window == None
  {}

  lemma JoinedAsk(c: Config, s: State, t: State, n: nat)
    requires c.WellFormed() && Joins(c, s, t, n) && s.window == None
    ensures Reaches(c, s, n) && t.resting == s.resting[n..] && t.supply == s.supply && t.status == s.status
    ensures t.window.Some? <==> n > 0
    ensures Sum(Flight(t), Matching.Qty) == Sum(s.resting[..n], Ladder.RestingQty)
    ensures n > 0 ==> (SellsOut(t) <==> Sum(s.resting[..n], Ladder.RestingQty) >= s.supply)
    ensures n == 0 ==> Sum(s.resting[..n], Ladder.RestingQty) == 0
  {
    assert Flight(t)[0..] == Flight(t) && s.resting[..n][0..] == s.resting[..n];
    SameUnits(Flight(t), s.resting[..n]);
  }

  lemma {:induction false} SameUnits(bids: seq<PendingBid>, resting: seq<RestingBid>)
    requires |bids| == |resting| && forall i :: 0 <= i < |bids| ==> bids[i].qty == resting[i].qty
    ensures Sum(bids, Matching.Qty) == Sum(resting, Ladder.RestingQty)
  {
    if bids != [] {
      SameUnits(bids[1..], resting[1..]);
    }
  }

  /** A window that does not sell out takes what it asks for off the supply. */
  lemma FlushSells(c: Config, s: State)
    requires c.WellFormed() && Sound(c, s) && s.status.Live? && s.window.Some?
    ensures !SellsOut(s) ==> Flush(s).st.supply == s.supply - Sum(Flight(s), Matching.Qty)
  {
    hide Sum, Settle, Clear, Matching.MatchLevels, Matching.SortBids, Ledger;
    var bids := s.window.value.bids;
    ExhaustedExactly(c, s);
    FlushSteps(s);
    SettledShape(c, s);
    SortKeepsCompete(s.window.value.price, bids);
    Matching.SortBidsSorts(bids);
    SumPermutation(Matching.SortBids(bids), bids, Matching.Qty);
    Matching.MatchTotals(Matching.SortBids(bids), s.supply);
  }

  // ---------------------------------------------------------------- the window of a run

  /** The window a run has open is the one its last instant lies in, priced at the clock of that window's
      own last instant; with batching off there is none between commands. */
  lemma OpenWindowsPricedAtTheirEnd(c: Config, log: seq<LogRecord>, u: U64)
    requires c.WellFormed() && WellLogged(log)
    ensures var s, w := Run(c, log).st, c.batchWindow;
            s.window.Some? ==>
              && w > 0 && s.window.value.index == NumberOf(c, s.now)
              && s.window.value.price == c.PriceAt(LastInstant(c, s.now))
              && (u < U64_MAX && u / w == s.now / w && (u + 1) / w == u / w + 1 ==>
                    s.window.value.price == c.PriceAt(u))
  {
    hide Run, Sum, Ledger, PriceAt, WindowPrice, LastInstant, AllCovered, Below, Ladder.Ordered, AllCompete;
    RunsAreSound(c, log);
    var s := Run(c, log).st;
    if s.window.Some? {
      WindowPriceExactly(c, s.now);
      if u < U64_MAX && u / c.batchWindow == s.now / c.batchWindow && (u + 1) / c.batchWindow == u / c.batchWindow + 1 {
        WindowPriceAtLast(c, s.now, u);
      }
    }
  }
}
