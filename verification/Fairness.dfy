/** What the rules promise a bidder, in the records of whole runs: every window pays exactly the
    entitlements of its bids, whatever order it stored them in. */
module Fairness {
  import opened Auction
  import opened Bounded
  import opened History
  import opened Lifecycle
  import opened Payout
  import opened Provenance
  import opened Rules
  import opened Schedule
  import opened Soundness
  import opened Stream
  import opened Sums
  import Matching

  /** The first of two bids in flight under one key leaves no room for the second. */
  lemma AloneInFlight(s: State, i: nat, j: nat)
    requires i < j < |Flight(s)| && Kept(s, Flight(s)[i].key)
    ensures Flight(s)[i].key != Flight(s)[j].key
  {
    var bids, k := Flight(s), Flight(s)[i].key;
    PlacesCount(s, k);
    SumNonNegative(s.fills, FillUnder(k));
    SumNonNegative(s.resting, RestingUnder(k));
    SumSplit(bids, i, PendingUnder(k));
    SumNonNegative(bids[..i], PendingUnder(k));
    SumBoundsTerm(bids[i + 1..], j - i - 1, PendingUnder(k));
  }

  /** Two bids in flight never share a sequence number, so their order is fully determined. */
  lemma FlightIsDistinct(c: Config, log: seq<LogRecord>, s: State)
    requires c.WellFormed() && Sound(c, s) && Gapless(log) && Traced(c, log, s) && AllKept(s)
    ensures Matching.DistinctSeqs(Flight(s)) && Matching.Positive(Flight(s))
  {
    hide Kept, PendingAsked;
    var bids := Flight(s);
    forall i, j | 0 <= i < j < |bids| ensures bids[i].seqno != bids[j].seqno {
      if bids[i].seqno == bids[j].seqno {
        assert PendingAsked(c, log, bids[i]) && PendingAsked(c, log, bids[j]);
        SameRecord(c, log, bids[i], bids[j]);
        assert Kept(s, bids[i].key);
        AloneInFlight(s, i, j);
      }
    }
    forall n: U64 ensures Sum(bids, Matching.AtSeq(n)) <= 1 {
      ApartIsDistinct(bids, n);
    }
  }

  /** Everything an auction between two steps of a command is known to satisfy. */
  ghost predicate Coherent(c: Config, log: seq<LogRecord>, s: State)
    requires c.WellFormed()
  {
    Sound(c, s) && Gapless(log) && Traced(c, log, s) && AllKept(s)
  }

  lemma RunsAreCoherent(c: Config, log: seq<LogRecord>)
    requires c.WellFormed() && WellLogged(log)
    ensures Coherent(c, log, Run(c, log).st)
  {
    hide Run, Kept, Sound, Traced;
    RunsAreSound(c, log);
    EverythingWasAskedFor(c, log);
    forall k ensures Kept(Run(c, log).st, k) {
      KeysAreKept(c, log, k);
    }
  }

  /** In every run no two bids of the open window share a sequence number, and none is for nothing. */
  lemma WindowsAreDistinct(c: Config, log: seq<LogRecord>)
    requires c.WellFormed() && WellLogged(log)
    ensures var bids := Flight(Run(c, log).st);
            Matching.DistinctSeqs(bids) && Matching.Positive(bids)
  {
    hide Run, Sound, Traced, AllKept;
    RunsAreCoherent(c, log);
    FlightIsDistinct(c, log, Run(c, log).st);
  }

  /** The record of the `k`-th bid of window `w` is its order-free entitlement out of `supply`, filled
      at the window's price, or word that supply ran out. */
  ghost predicate PaidInFull(w: OpenWindow, supply: U64, after: map<Key, Outcome>, k: nat)
    requires k < |w.bids|
  {
    var b := Matching.Ranked(w.bids, k);
    && Matching.Share(w.bids, supply, k) == Matching.Entitlement(w.bids, supply, b)
    && b.key in after && after[b.key] == Verdict(Matching.Share(w.bids, supply, k), w.price)
  }

  /** Closing a live window pays every bid exactly its entitlement. */
  lemma FlushIsFair(c: Config, log: seq<LogRecord>, s: State, k: nat)
    requires c.WellFormed() && Coherent(c, log, s) && s.status.Live? && s.window.Some?
    requires k < |s.window.value.bids|
    ensures PaidInFull(s.window.value, s.supply, Flush(s).st.outcomes, k)
  {
    hide Sound, Traced, Kept, Flush, Verdict;
    var w := s.window.value;
    FlightIsDistinct(c, log, s);
    Matching.ShareIsDue(w.bids, s.supply, k);
    assert Kept(s, Matching.Ranked(w.bids, k).key);
    FlushPays(c, s, k);
    SharesMatched(c, s, k);
  }

  /** The units a record says were allocated. */
  function Received(o: Outcome): U64 {
    if o.Filled? then o.qty else 0
  }

  /** Two auctions that differ only in the order the bids of a window arrived in, closing it: nobody's
      record differs by more than one unit. */
  lemma ArrivalOrderPaysWithinAUnit(
    c: Config, xlog: seq<LogRecord>, x: State, ylog: seq<LogRecord>, y: State, i: nat, k: nat, l: nat)
    requires c.WellFormed() && Coherent(c, xlog, x) && Coherent(c, ylog, y)
    requires x.status.Live? && y.status.Live? && x.window.Some? && y.window.Some? && x.supply == y.supply
    requires Matching.Renumbered(x.window.value.bids, y.window.value.bids) && i < |x.window.value.bids|
    requires k < |x.window.value.bids| && Matching.Ranked(x.window.value.bids, k) == x.window.value.bids[i]
    requires l < |y.window.value.bids| && Matching.Ranked(y.window.value.bids, l) == y.window.value.bids[i]
    ensures var key := x.window.value.bids[i].key;
            var before, after := Flush(x).st.outcomes, Flush(y).st.outcomes;
            key in before && key in after && -1 <= Received(after[key]) - Received(before[key]) <= 1
  {
    FlightIsDistinct(c, xlog, x);
    FlightIsDistinct(c, ylog, y);
    FlushIsFair(c, xlog, x, k);
    FlushIsFair(c, ylog, y, l);
    hide Coherent, Flush, Matching.Share, Matching.Ranked, Matching.Entitlement;
    Matching.ArrivalOrderIsWorthOneUnit(x.window.value.bids, y.window.value.bids, x.supply, i, k, l);
  }

  lemma SharesMatched(c: Config, s: State, k: nat)
    requires c.WellFormed() && Sound(c, s) && s.status.Live? && s.window.Some?
    requires k < |s.window.value.bids| == |Matched(s).allocs|
    ensures Matched(s).allocs[k] == Matching.Share(s.window.value.bids, s.supply, k)
  {}

  lemma StampIsCoherent(c: Config, log: seq<LogRecord>, s: State, r: LogRecord)
    requires c.WellFormed() && Coherent(c, log, s)
    ensures Coherent(c, log, Stamp(s, r.seqno, r.ts))
  {
    hide Sound, Kept, FillAsked, PendingAsked, RestingAsked;
    StampIsSound(c, s, r.seqno, r.ts);
    forall k ensures Kept(Stamp(s, r.seqno, r.ts), k) {
      assert Kept(s, k);
      StampKeeps(s, r, k);
    }
  }

  /** In any run, when a command finds the open window elapsed, what it does first is pay every bid of
      that window exactly its order-free entitlement. */
  lemma EveryWindowIsFair(c: Config, log: seq<LogRecord>, r: LogRecord, k: nat)
    requires c.WellFormed() && WellLogged(log + [r])
    ensures var s := Run(c, log).st;
            Elapsed(c, s, r) && k < |s.window.value.bids| ==>
              PaidInFull(s.window.value, s.supply, Closed(c, s, r).outcomes, k)
  {
    hide Run, Coherent, Flush, PaidInFull;
    RunsFollow(c, log, r);
    Prefix(log, r);
    RunsAreCoherent(c, log);
    var s := Run(c, log).st;
    var stamped := Stamp(s, r.seqno, r.ts);
    StampIsCoherent(c, log, s, r);
    if Elapsed(c, s, r) && k < |s.window.value.bids| {
      LiveIfWindowed(c, s);
      FlushIsFair(c, log, stamped, k);
    }
  }

  lemma LiveIfWindowed(c: Config, s: State)
    requires c.WellFormed() && Between(c, s) && s.window.Some?
    ensures s.status.Live?
  {}

  lemma Prefix(log: seq<LogRecord>, r: LogRecord)
    requires WellLogged(log + [r])
    ensures WellLogged(log)
  {
    assert (log + [r])[..|log + [r]| - 1] == log;
    Earlier(log + [r]);
  }

  /** The command arrives after the end of the open window. */
  predicate Elapsed(c: Config, s: State, r: LogRecord) {
    s.window.Some? && WindowIndex(c, Max(r.ts, s.now)) > s.window.value.index
  }

  lemma ClosedIsCoherent(c: Config, log: seq<LogRecord>, s: State, r: LogRecord)
    requires c.WellFormed() && Coherent(c, log, s) && Between(c, s) && InSequence(s, r.seqno)
    ensures Coherent(c, log, Closed(c, s, r)) && Current(c, Closed(c, s, r))
  {
    hide Sound, Kept, Traced, CloseElapsed, Current, Carries;
    var stamped := Stamp(s, r.seqno, r.ts);
    StampIsCoherent(c, log, s, r);
    ClosedIsSound(c, s, r);
    CloseTraced(c, log, stamped);
    forall k ensures Kept(Closed(c, s, r), k) {
      assert Kept(stamped, k);
      CloseCarries(c, stamped, k);
      CarriesKept(stamped, CloseElapsed(c, stamped, stamped.now), k);
    }
  }

  lemma TriggerIsCoherent(c: Config, log: seq<LogRecord>, s: State)
    requires c.WellFormed() && Coherent(c, log, s) && Current(c, s) && s.status.Live?
    ensures var t := Trigger(c, s, s.now);
            && Coherent(c, log, t) && t.status.Live? && t.now == s.now
            && (t.window.Some? ==> t.window.value.index == WindowIndex(c, s.now))
  {
    hide Sound, Kept, Traced, Trigger, Carries, Current;
    TriggerIsSound(c, s);
    TriggerTraced(c, log, s);
    forall k ensures Kept(Trigger(c, s, s.now), k) {
      assert Kept(s, k);
      TriggerCarries(c, s, k);
      CarriesKept(s, Step(Trigger(c, s, s.now), []), k);
    }
  }

  /** At the floor the window's price is the floor, so the clearing that follows changes no payment. */
  lemma BottomIsFair(c: Config, log: seq<LogRecord>, s: State, k: nat)
    requires c.WellFormed() && Coherent(c, log, s) && s.status.Live? && s.window.Some?
    requires s.window.value.index == WindowIndex(c, s.now) && AtFloor(c.schedule, s.now)
    requires k < |s.window.value.bids|
    ensures PaidInFull(s.window.value, s.supply, Bottom(c, s).st.outcomes, k)
    ensures Bottom(c, Flush(s).st).st == Bottom(c, s).st
  {
    hide Traced, Kept, Flush, Clear, Verdict, Ledger;
    var w, flushed := s.window.value, Flush(s).st;
    var key := Matching.Ranked(w.bids, k).key;
    FlushIsFair(c, log, s, k);
    FlushIsSound(c, s);
    FlushNothing(flushed);
    WindowPriceBounds(c, w.index, s.now);
    assert w.price == c.schedule.floor;
    if flushed.status.Live? {
      assert Kept(s, key);
      FlushCarries(c, s, key);
      CarriesKept(s, Flush(s), key);
      FloorIsLow(c, flushed);
      ClearKeepsVerdict(flushed, w.price, key, Matching.Share(w.bids, s.supply, k));
    }
  }

  /** A tick that settles a window on the spot pays every bid in it, just triggered or not. */
  lemma TickIsFair(c: Config, log: seq<LogRecord>, s: State, k: nat)
    requires c.WellFormed() && Coherent(c, log, s) && Current(c, s) && s.status.Live?
    requires c.batchWindow == 0 || AtFloor(c.schedule, s.now)
    ensures var t := Trigger(c, s, s.now);
            t.window.Some? && k < |t.window.value.bids| ==>
              PaidInFull(t.window.value, t.supply, OnTick(c, s, s.now).st.outcomes, k)
  {
    hide Coherent, Flush, Bottom, Trigger, PaidInFull, AtFloor, Current;
    var t := Trigger(c, s, s.now);
    TriggerIsCoherent(c, log, s);
    if t.window.Some? && k < |t.window.value.bids| {
      FlushIsFair(c, log, t, k);
      FlushLeaves(c, log, t);
      if AtFloor(c.schedule, s.now) {
        BottomIsFair(c, log, t, k);
      }
    }
  }

  lemma FlushLeaves(c: Config, log: seq<LogRecord>, s: State)
    requires c.WellFormed() && Coherent(c, log, s) && s.status.Live? && s.window.Some?
    ensures Flush(s).st.window == None && (Flush(s).st.status.Live? || Flush(s).st.status.Cleared?)
  {
    hide Flush, Sound, Traced, AllKept;
    FlushIsSound(c, s);
  }

  /** In any run, a tick that settles a window on the spot, because batching is off or the clock is at
      the floor, pays every bid in it exactly its entitlement too. */
  lemma EveryTickIsFair(c: Config, log: seq<LogRecord>, r: LogRecord, k: nat)
    requires c.WellFormed() && WellLogged(log + [r])
    ensures var closed := Closed(c, Run(c, log).st, r);
            var t := Trigger(c, closed, closed.now);
            r.cmd.Tick? && closed.status.Live? && (c.batchWindow == 0 || AtFloor(c.schedule, closed.now))
            && t.window.Some? && k < |t.window.value.bids| ==>
              PaidInFull(t.window.value, t.supply, Apply(c, Run(c, log).st, r).st.outcomes, k)
  {
    hide Run, Coherent, PaidInFull, Closed, Apply, Trigger, OnTick, AtFloor, Between, Current;
    RunsFollow(c, log, r);
    Prefix(log, r);
    RunsAreCoherent(c, log);
    var s := Run(c, log).st;
    ClosedIsCoherent(c, log, s, r);
    ApplyTick(c, s, r);
    var closed := Closed(c, s, r);
    if r.cmd.Tick? && closed.status.Live? && (c.batchWindow == 0 || AtFloor(c.schedule, closed.now)) {
      TickIsFair(c, log, closed, k);
    }
  }

  lemma ApplyTick(c: Config, s: State, r: LogRecord)
    requires c.WellFormed()
    ensures r.cmd.Tick? ==> Apply(c, s, r).st == OnTick(c, Closed(c, s, r), Closed(c, s, r).now).st
  {
    hide Flush, OnTick;
  }

  /** The order the window vector happens to be stored in changes nothing. */
  lemma StorageOrderNeverMatters(c: Config, log: seq<LogRecord>, stored: seq<PendingBid>)
    requires c.WellFormed() && WellLogged(log)
    ensures var s := Run(c, log).st;
            s.window.Some? && multiset(stored) == multiset(s.window.value.bids) ==>
              Flush(s.(window := Some(s.window.value.(bids := stored)))) == Flush(s)
  {
    WindowsAreDistinct(c, log);
    RunsAreSound(c, log);
    var s := Run(c, log).st;
    hide Run;
    if s.window.Some? && multiset(stored) == multiset(s.window.value.bids) {
      Matching.StorageOrderIsIrrelevant(s.window.value.bids, stored);
      FlushSteps(s);
      FlushSteps(s.(window := Some(s.window.value.(bids := stored))));
      hide Settle, Clear;
    }
  }
}
