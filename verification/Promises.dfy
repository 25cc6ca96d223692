/** Where the documentation promises more than the state machine keeps: for each promise exactly when
    it is kept, read off the state before the command. */
module Promises {
  import opened Auction
  import opened Bounded
  import opened Descent
  import opened Fairness
  import opened History
  import opened Keys
  import opened Lifecycle
  import opened Loops
  import opened Money
  import opened Payout
  import opened Rules
  import opened Schedule
  import opened Soundness
  import opened Stream
  import opened Sums
  import Ladder
  import Matching

  // ---------------------------------------------------------------- the ceiling as it stands

  ghost predicate Within(s: State, p: Participant) {
    Committed(s, p) <= Ceiling(s, p)
  }

  /** The command puts `p`'s ceiling under what `p` has at stake once the elapsed window is settled. */
  ghost predicate Undercuts(c: Config, s: State, r: LogRecord, p: Participant) {
    r.cmd.SetCollateral? && r.cmd.participant == p && r.cmd.ceiling < Committed(Closed(c, s, r), p)
  }

  /** A participant within the ceiling stays within it, unless the ceiling is the thing that moves. */
  lemma CeilingHoldsExactly(c: Config, s: State, r: LogRecord, p: Participant)
    requires c.WellFormed() && Between(c, s) && InSequence(s, r.seqno) && r.cmd.Admissible()
    requires Within(s, p) && forall q :: Balanced(s, q)
    ensures Within(Apply(c, s, r).st, p) <==> !Undercuts(c, s, r, p)
  {
    hide Dispatch, CloseElapsed, Raised, Balanced, Ceiling, Committed, Between, Sound, Current;
    ClosedIsSound(c, s, r);
    forall q ensures Balanced(Closed(c, s, r), q) {
      ClosedBalances(c, s, r, q);
    }
    ClosedBalances(c, s, r, p);
    DispatchBalances(c, Closed(c, s, r), r.seqno, r.cmd, p, Ceiling(s, p));
    RaisedOnlyBySetting(Ceiling(s, p), r.cmd, p);
  }

  lemma RaisedOnlyBySetting(peak: int, cmd: Command, p: Participant)
    ensures !(cmd.SetCollateral? && cmd.participant == p) ==> Raised(peak, cmd, p) == peak
  {}

  ghost predicate WithinAfter(c: Config, log: seq<LogRecord>, n: nat, p: Participant)
    requires c.WellFormed() && n <= |log|
  {
    Within(Run(c, log[..n]).st, p)
  }

  ghost predicate UndercutBy(c: Config, log: seq<LogRecord>, n: nat, p: Participant)
    requires c.WellFormed() && n < |log|
  {
    Undercuts(c, Run(c, log[..n]).st, log[n], p)
  }

  lemma NextWithin(c: Config, log: seq<LogRecord>, n: nat, p: Participant)
    requires c.WellFormed() && WellLogged(log) && n < |log| && WithinAfter(c, log, n, p)
    ensures WithinAfter(c, log, n + 1, p) <==> !UndercutBy(c, log, n, p)
  {
    hide Apply, Run, Undercuts, Within, Balanced, Between;
    var before, r := log[..n], log[n];
    assert log[..n + 1] == before + [r];
    assert WellLogged(before + [r]);
    RunsFollow(c, before, r);
    Prefix(before, r);
    forall q ensures Balanced(Run(c, before).st, q) {
      RunsAreSecured(c, before, q);
      SecuredBalances(Run(c, before).st, Peak(before, q), q);
    }
    CeilingHoldsExactly(c, Run(c, before).st, r, p);
    RunStep(c, before, r);
  }

  lemma {:induction false} WithinThroughout(c: Config, log: seq<LogRecord>, n: nat, p: Participant)
    requires c.WellFormed() && WellLogged(log) && n <= |log|
    requires forall m :: 0 <= m < n ==> !UndercutBy(c, log, m, p)
    ensures WithinAfter(c, log, n, p)
    decreases n
  {
    if n > 0 {
      hide WithinAfter, UndercutBy;
      WithinThroughout(c, log, n - 1, p);
      assert !UndercutBy(c, log, n - 1, p);
      NextWithin(c, log, n - 1, p);
    }
  }

  /** Over a whole run nobody is ever above the ceiling as it then stands exactly when no command ever
      puts a ceiling under what is already at stake. */
  lemma CeilingHoldsOverRunsExactly(c: Config, log: seq<LogRecord>, p: Participant)
    requires c.WellFormed() && WellLogged(log)
    ensures (forall n :: 0 <= n <= |log| ==> WithinAfter(c, log, n, p))
            <==> (forall n :: 0 <= n < |log| ==> !UndercutBy(c, log, n, p))
  {
    hide WithinAfter, UndercutBy;
    if forall n :: 0 <= n < |log| ==> !UndercutBy(c, log, n, p) {
      forall n | 0 <= n <= |log| ensures WithinAfter(c, log, n, p) {
        WithinThroughout(c, log, n, p);
      }
    }
    if forall n :: 0 <= n <= |log| ==> WithinAfter(c, log, n, p) {
      forall n | 0 <= n < |log| ensures !UndercutBy(c, log, n, p) {
        assert WithinAfter(c, log, n, p) && WithinAfter(c, log, n + 1, p);
        NextWithin(c, log, n, p);
      }
    }
  }

  /** Being within the ceiling bounds what the fills cost. */
  lemma WithinCoversFills(c: Config, s: State, p: Participant)
    requires c.WellFormed() && Sound(c, s) && Balanced(s, p) && Within(s, p)
    ensures Sum(s.fills, FillCost(p)) <= Ceiling(s, p)
  {
    hide Sound, Ceiling;
    OwedIsNonNegative(c, s, p);
  }

  // ---------------------------------------------------------------- the clearing price

  /** The open window asks for at least all that is left. */
  predicate SellsOut(s: State) {
    s.window.Some? && Sum(s.window.value.bids, Matching.Qty) >= s.supply
  }

  /** A window sells out exactly when its demand reaches the supply. */
  lemma ExhaustedExactly(c: Config, s: State)
    requires c.WellFormed() && Sound(c, s) && s.status.Live? && s.window.Some?
    ensures Matched(s).exhausted <==> SellsOut(s)
  {
    var bids := s.window.value.bids;
    SortKeepsCompete(s.window.value.price, bids);
    Matching.SortBidsSorts(bids);
    SumPermutation(Matching.SortBids(bids), bids, Matching.Qty);
    Matching.MatchTotals(Matching.SortBids(bids), s.supply);
    hide Sum, Matching.SortBids, Matching.MatchLevels;
  }

  /** Closing a window ends the auction exactly when it sells out, and then at its own price. */
  lemma FlushClearsExactly(c: Config, s: State)
    requires c.WellFormed() && Sound(c, s) && s.status.Live? && s.window.Some?
    ensures Flush(s).st.status.Cleared? <==> SellsOut(s)
    ensures Flush(s).st.clearing == if SellsOut(s) then Some(s.window.value.price) else None
    ensures !SellsOut(s) ==> Flush(s).st.status.Live? && Flush(s).st.outcomes == SettledWindow(s).st.outcomes
  {
    hide Clear, SettledWindow, Matched, SellsOut, Ledger, Sum;
    ExhaustedExactly(c, s);
    FlushSteps(s);
    SettledShape(c, s);
    ClearShape(SettledWindow(s).st, s.window.value.price);
  }

  /** The clock that answers at the window's price when batching is off or the floor is reached. */
  lemma WindowAtClock(c: Config, now: U64)
    requires c.WellFormed() && (c.batchWindow == 0 || AtFloor(c.schedule, now))
    ensures WindowPrice(c, WindowIndex(c, now)) == c.PriceAt(now)
  {
    WindowPriceBounds(c, WindowIndex(c, now), now);
  }

  /** The state cleared, if at all, at the clock of its own instant. */
  ghost predicate AtClock(c: Config, r: State)
    requires c.WellFormed()
  {
    r.status.Cleared? ==> r.clearing == Some(c.PriceAt(r.now))
  }

  lemma FlushAtClock(c: Config, s: State)
    requires c.WellFormed() && Sound(c, s) && s.status.Live?
    requires s.window.Some? ==> s.window.value.index == WindowIndex(c, s.now)
    requires c.batchWindow == 0 || AtFloor(c.schedule, s.now)
    ensures AtClock(c, Flush(s).st)
  {
    hide Flush, SellsOut, AtFloor, WindowPrice, WindowIndex;
    if s.window.Some? {
      FlushIsSound(c, s);
      FlushClearsExactly(c, s);
      WindowAtClock(c, s.now);
    } else {
      FlushNothing(s);
    }
  }

  lemma BottomAtClock(c: Config, s: State)
    requires c.WellFormed() && Sound(c, s) && s.status.Live? && AtFloor(c.schedule, s.now)
    requires s.window.Some? ==> s.window.value.index == WindowIndex(c, s.now)
    ensures AtClock(c, Bottom(c, s).st)
  {
    hide Flush, Clear, Sound;
    FlushAtClock(c, s);
    if s.window.Some? {
      FlushIsSound(c, s);
    } else {
      FlushNothing(s);
    }
    if Flush(s).st.status.Live? {
      ClearShape(Flush(s).st, c.schedule.floor);
    }
  }

  lemma TickAtClock(c: Config, s: State)
    requires c.WellFormed() && Sound(c, s) && Current(c, s) && s.status.Live?
    ensures AtClock(c, OnTick(c, s, s.now).st)
  {
    hide Flush, Bottom, Trigger, Sound, AtFloor, WindowIndex;
    TriggerIsSound(c, s);
    var triggered := Trigger(c, s, s.now);
    var matched := if c.batchWindow == 0 then Flush(triggered) else Step(triggered, []);
    if c.batchWindow == 0 {
      FlushAtClock(c, triggered);
      if triggered.window.Some? {
        FlushIsSound(c, triggered);
      } else {
        FlushNothing(triggered);
      }
    }
    if matched.st.status == Live && AtFloor(c.schedule, s.now) {
      BottomAtClock(c, matched.st);
    }
  }

  lemma TakeAtClock(c: Config, s: State, seqno: U64, p: Participant, key: Key, qty: U64, expected: I64)
    requires c.WellFormed() && Sound(c, s) && Current(c, s) && s.status.Live? && qty > 0
    ensures AtClock(c, OnTake(c, s, seqno, s.now, p, key, qty, expected).st)
  {
    hide Flush, Reserve, CanReserve, Sound, SetOutcome, WindowIndex, WindowPrice, PushPending;
    var index := WindowIndex(c, s.now);
    var price := WindowPrice(c, index);
    var reserved := s.(collateral := Reserve(s.collateral, p, price, qty));
    if CanReserve(s.collateral, p, price, qty) {
      var bid := PendingBid(seqno, p, key, qty, price, price, None);
      var queued := PushPending(reserved, index, price, bid);
      AccountsAside(c, s, reserved);
      WindowPriceBounds(c, index, s.now);
      ReserveFits(s.collateral, p, price, qty);
      PushIsSound(c, reserved, bid);
      AccountsAside(c, queued, queued.(outcomes := SetOutcome(queued.outcomes, key, Outcome.Queued(qty))));
      if c.batchWindow == 0 {
        FlushAtClock(c, queued.(outcomes := SetOutcome(queued.outcomes, key, Outcome.Queued(qty))));
      }
    }
  }

  /** A command that itself ends a live auction ends it at the clock of its own instant. */
  lemma DispatchAtClock(c: Config, s: State, seqno: U64, cmd: Command)
    requires c.WellFormed() && Sound(c, s) && Current(c, s) && !s.status.Cleared?
    ensures AtClock(c, Dispatch(c, s, seqno, cmd).st)
  {
    hide OnTake, OnTick, OnCancel, Release, Ladder.Search, SetOutcome, Reserve, CanReserve, Ladder.Arriving, Sound;
    match cmd
    case Open =>
    case SetCollateral(p, ceiling) =>
    case SubmitBid(p, key, qty, kind) =>
      if key !in s.outcomes && qty > 0 && s.status == Live && kind.Take? {
        TakeAtClock(c, s, seqno, p, key, qty, kind.expectedPrice);
      }
    case CancelResting(p, key) =>
    case Tick =>
      if s.status.Live? {
        TickAtClock(c, s);
      } else {
        TickOfIdle(c, s);
      }
    case Cancel => CancelShape(s);
  }

  lemma TickOfIdle(c: Config, s: State)
    requires c.WellFormed() && !s.status.Live?
    ensures OnTick(c, s, s.now).st == s
  {}

  /** The price the clock stood at when the supply ran out, or at the end of the clock: the promise,
      and when the command that ends the auction keeps it. An auction ended by the command's own
      matching clears at the clock of that instant; one ended by a window that had already elapsed
      clears at the price of that window, the clock's own only if it has not moved on. */
  lemma ClearingPriceExactly(c: Config, log: seq<LogRecord>, r: LogRecord)
    requires c.WellFormed() && WellLogged(log + [r])
    ensures var s, t := Run(c, log).st, Run(c, log + [r]).st;
            !s.status.Terminal() && t.status.Cleared? ==>
              var late := Elapsed(c, s, r) && SellsOut(s);
              && t.now == Max(r.ts, s.now)
              && t.clearing == Some(if late then WindowPrice(c, s.window.value.index) else c.PriceAt(t.now))
              && (t.clearing == Some(c.PriceAt(t.now))
                  <==> !late || WindowPrice(c, s.window.value.index) == c.PriceAt(Max(r.ts, s.now)))
    ensures var s, t := Run(c, log).st, Run(c, log + [r]).st;
            Elapsed(c, s, r) && SellsOut(s) ==> t.status.Cleared?
  {
    hide Run, Flush, Dispatch, SellsOut, Sound, Between, Proceeds;
    RunsFollow(c, log, r);
    RunStep(c, log, r);
    var s := Run(c, log).st;
    var stamped := Stamp(s, r.seqno, r.ts);
    var closed := Closed(c, s, r);
    ApplyIsSound(c, s, r);
    ClosedIsSound(c, s, r);
    WindowOf(c, s, r);
    DispatchProceeds(c, closed, r.seqno, r.cmd);
    ProceedsDescends(c, closed, Dispatch(c, closed, r.seqno, r.cmd));
    if Elapsed(c, s, r) {
      FlushClearsExactly(c, stamped);
      FlushIsSound(c, stamped);
      SellsTheSame(s, stamped);
    }
    if !closed.status.Cleared? {
      DispatchAtClock(c, closed, r.seqno, r.cmd);
    }
  }

  lemma SellsTheSame(s: State, t: State)
    requires t.window == s.window && t.supply == s.supply
    ensures SellsOut(t) <==> SellsOut(s)
  {}

  lemma ProceedsDescends(c: Config, s: State, step: Step)
    requires c.WellFormed() && Proceeds(c, s, step)
    ensures s.status.Terminal() ==>
              step.st.status == s.status && step.st.clearing == s.clearing && step.st.supply == s.supply
  {}

  lemma WindowOf(c: Config, s: State, r: LogRecord)
    requires c.WellFormed() && Between(c, s)
    ensures Sound(c, Stamp(s, r.seqno, r.ts))
    ensures s.window.Some? ==> s.status.Live? && s.window.value.price == WindowPrice(c, s.window.value.index)
  {
    StampIsSoundly(c, s, r);
  }

  // ---------------------------------------------------------------- the original answer

  /** Whether a bid under `k` is in the open window. */
  predicate InWindow(s: State, k: Key) {
    s.window.Some? && exists i :: 0 <= i < |s.window.value.bids| && s.window.value.bids[i].key == k
  }

  /** A record that clearing at `price` does not touch. */
  predicate Untouched(o: Outcome, price: I64) {
    !o.Resting? && (o.Filled? ==> o.price == price)
  }

  /** With nothing in flight a record is never that of a bid queued. */
  lemma NothingQueued(s: State, k: Key)
    requires Kept(s, k) && s.window == None && k in s.outcomes
    ensures !s.outcomes[k].Queued? && !s.outcomes[k].FilledThenCancelled?
  {
    if s.outcomes[k].Queued? || s.outcomes[k].FilledThenCancelled? {
      assert s.outcomes[k] in Held(s.fills, [], s.resting, k);
      LadderHoldsRests(s.resting, k, s.outcomes[k]);
      var i := FindFill(s.fills, k, s.outcomes[k]);
    }
  }

  lemma {:induction false} LadderHoldsRests(bids: seq<RestingBid>, k: Key, o: Outcome)
    requires !o.Resting?
    ensures o !in Collect(bids, RestingHolds(k))
  {
    if bids != [] {
      LadderHoldsRests(bids[1..], k, o);
    }
  }

  /** After a clearing every recorded fill is at the clearing price. */
  lemma ClearedQuote(s: State, k: Key, price: I64)
    requires Kept(s, k) && s.window == None && s.resting == [] && AllAt(s.fills, price)
    requires k in s.outcomes
    ensures s.outcomes[k].Filled? ==> s.outcomes[k].price == price
    ensures !Waiting(s.outcomes, k)
  {
    NothingWaits(s, k);
    if s.outcomes[k].Filled? {
      assert s.outcomes[k] in Held(s.fills, [], [], k);
      var i := FindFill(s.fills, k, s.outcomes[k]);
    }
  }

  /** Clearing changes a record exactly when it rests, or quotes a fill at another price. */
  lemma ClearTouchesExactly(s: State, price: I64, k: Key)
    requires Kept(s, k) && s.window == None && NoneBelow(s.fills, price) && k in s.outcomes
    ensures var after := Clear(s, price).st.outcomes;
            k in after && (after[k] == s.outcomes[k] <==> Untouched(s.outcomes[k], price))
  {
    hide Kept, Clear, RepricedFrom, Mirrors;
    var t := Clear(s, price).st;
    NothingQueued(s, k);
    ClearCarries(s, price, k);
    ClearShape(s, price);
    AllRepriced(s.fills, price);
    ClearedQuote(t, k, price);
    if s.outcomes[k].Filled? && s.outcomes[k].price == price {
      ClearKeepsFilled(s, price, k, s.outcomes[k].qty);
    }
  }

  lemma AllRepriced(fills: seq<Fill>, price: I64)
    ensures AllAt(RepricedFrom(fills, price, 0), price)
  {}

  /** Every bid of a window has a rank. */
  lemma RankOf(bids: seq<PendingBid>, i: nat) returns (k: nat)
    requires i < |bids|
    ensures k < |bids| && Matching.Ranked(bids, k) == bids[i]
  {
    Matching.SortBidsSorts(bids);
    assert bids[i] in multiset(bids);
    k := FindElement(bids[i], Matching.SortBids(bids));
  }

  lemma {:induction false} NotInSorted(bids: seq<PendingBid>, k: Key)
    requires forall i :: 0 <= i < |bids| ==> bids[i].key != k
    ensures forall i :: 0 <= i < |Matching.SortBids(bids)| ==> Matching.SortBids(bids)[i].key != k
  {
    Matching.SortBidsSorts(bids);
    forall i | 0 <= i < |Matching.SortBids(bids)| ensures Matching.SortBids(bids)[i].key != k {
      assert Matching.SortBids(bids)[i] in multiset(Matching.SortBids(bids));
      assert Matching.SortBids(bids)[i] in bids;
    }
  }

  /** Settling a window leaves the record of anyone not in it. */
  lemma SettledElsewhere(c: Config, s: State, k: Key)
    requires c.WellFormed() && Sound(c, s) && s.status.Live? && s.window.Some?
    requires !InWindow(s, k)
    ensures Same(s.outcomes, SettledWindow(s).st.outcomes, k)
  {
    hide Settle, Matched, Matching.SortBids, NothingOver, Sound, Same, WithinRequests;
    var w, bids, m := s.window.value, Matching.SortBids(s.window.value.bids), Matched(s);
    MatchedWithin(c, s);
    NotInSorted(w.bids, k);
    SettleElsewhere(s.(window := None, supply := m.remaining), w.price, bids, m.allocs, m.exhausted, k);
  }

  /** Closing a window changes a record exactly when its bid is in the window, or the window sells out
      and the clearing touches it. */
  lemma FlushTouchesExactly(c: Config, s: State, k: Key)
    requires c.WellFormed() && Sound(c, s) && s.status.Live? && s.window.Some? && Kept(s, k) && k in s.outcomes
    ensures var after := Flush(s).st.outcomes;
            k in after
            && (after[k] == s.outcomes[k] <==>
                !InWindow(s, k) && (!SellsOut(s) || Untouched(s.outcomes[k], s.window.value.price)))
  {
    hide Flush, Clear, Matched, SettledWindow, Kept, SellsOut, Untouched, Sound;
    var w, settled := s.window.value, SettledWindow(s);
    FlushClearsExactly(c, s);
    if InWindow(s, k) {
      var i :| 0 <= i < |w.bids| && w.bids[i].key == k;
      var rank := RankOf(w.bids, i);
      FlushPays(c, s, rank);
      InWindowWaits(s, i);
    } else {
      SettledElsewhere(c, s, k);
      if SellsOut(s) {
        ExhaustedExactly(c, s);
        FlushSteps(s);
        SettledCarries(c, s, k);
        CarriesKept(s, settled, k);
        SettledShape(c, s);
        ClearTouchesExactly(settled.st, w.price, k);
      }
    }
  }

  lemma InWindowWaits(s: State, i: nat)
    requires i < |Flight(s)| && Kept(s, Flight(s)[i].key)
    ensures Waiting(s.outcomes, Flight(s)[i].key)
  {
    var k := Flight(s)[i].key;
    CollectSplit(Flight(s), i, PendingHolds(k));
    assert PendingOutcome(Flight(s)[i]) in Held(s.fills, Flight(s), s.resting, k);
  }

  /** The promise that a retry gets the original answer, and exactly when it is kept: no window has
      elapsed in between, or the bid was not in it and, if it sold out, was neither resting nor filled
      at another price than the window's. */
  lemma RetryAnswersTheSameExactly(c: Config, log: seq<LogRecord>, r: LogRecord)
    requires c.WellFormed() && WellLogged(log + [r])
    requires r.cmd.SubmitBid? && r.cmd.key in Run(c, log).st.outcomes
    ensures var s, one := Run(c, log).st, Apply(c, Run(c, log).st, r);
            var was := s.outcomes[r.cmd.key];
            && one.ev != []
            && (one.ev[|one.ev| - 1] == Duplicate(r.cmd.key, was)
                <==> !Elapsed(c, s, r)
                     || (!InWindow(s, r.cmd.key) && (!SellsOut(s) || Untouched(was, s.window.value.price))))
  {
    hide Run, Flush, Apply, SellsOut, Untouched, Sound, Between, Kept;
    RunsFollow(c, log, r);
    Prefix(log, r);
    var s, k := Run(c, log).st, r.cmd.key;
    var stamped := Stamp(s, r.seqno, r.ts);
    RetryExecutesNothing(c, log, r);
    KeysAreKept(c, log, k);
    StampKeeps(s, r, k);
    WindowOf(c, s, r);
    SellsTheSame(s, stamped);
    if Elapsed(c, s, r) {
      FlushTouchesExactly(c, stamped, k);
    }
  }
}
