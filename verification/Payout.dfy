/** What a bidder is told and paid when a window closes: exactly the entitlement, in the record a retry
    is answered from. */
module Payout {
  import opened Auction
  import opened Bounded
  import opened Keys
  import opened Lifecycle
  import opened Loops
  import opened Rules
  import opened Soundness
  import opened Sums
  import Matching

  /** The record an allocation leaves. */
  function Verdict(alloc: U64, price: I64): Outcome {
    if alloc == 0 then Outcome.Rejected(SupplyExhausted) else Outcome.Filled(alloc, price)
  }

  /** The two maps say the same about `k`. */
  ghost predicate Same(before: map<Key, Outcome>, after: map<Key, Outcome>, k: Key) {
    (k in before <==> k in after) && (k in before ==> after[k] == before[k])
  }

  lemma SameStill(before: map<Key, Outcome>, after: map<Key, Outcome>, k: Key, o: Outcome)
    requires Same(before, after, k) && k in before && before[k] == o
    ensures k in after && after[k] == o
  {}

  lemma SettleOneElsewhere(s: State, price: I64, b: PendingBid, alloc: U64, exhausted: bool, k: Key)
    requires b.key != k
    ensures Same(s.outcomes, SettleOne(s, price, b, alloc, exhausted).st.outcomes, k)
  {
    hide Release, Commit;
  }

  /** Settling other people's bids leaves a record alone. */
  lemma {:induction false} SettleElsewhere(s: State, price: I64, bids: seq<PendingBid>, allocs: seq<U64>, exhausted: bool, k: Key)
    requires |allocs| == |bids| && NothingOver(bids, allocs, exhausted)
    requires forall i :: 0 <= i < |bids| ==> bids[i].key != k
    ensures Same(s.outcomes, Settle(s, price, bids, allocs, exhausted).st.outcomes, k)
    decreases |bids|
  {
    if bids != [] {
      SettleStep(s, price, bids, allocs, exhausted);
      hide Settle, SettleOne, NothingOver;
      SettleOneElsewhere(s, price, bids[0], allocs[0], exhausted, k);
      SettleElsewhere(SettleOne(s, price, bids[0], allocs[0], exhausted).st, price, bids[1..], allocs[1..], exhausted, k);
    }
  }

  lemma {:induction false} NobodyHolds(bids: seq<PendingBid>, k: Key)
    requires Collect(bids, PendingHolds(k)) == multiset{}
    ensures forall i :: 0 <= i < |bids| ==> bids[i].key != k
  {
    if bids != [] {
      var head, rest := PendingHolds(k)(bids[0]), Collect(bids[1..], PendingHolds(k));
      assert |head + rest| == |head| + |rest|;
      assert |rest| == 0 ==> rest == multiset{};
      NobodyHolds(bids[1..], k);
    }
  }

  /** The first bid to be settled waits, and is the only one under its key. */
  lemma FirstIsAlone(s: State, bids: seq<PendingBid>)
    requires bids != [] && Mirrors(s.outcomes, s.fills, bids, s.resting, bids[0].key)
    ensures Waiting(s.outcomes, bids[0].key)
    ensures forall i :: 0 <= i < |bids[1..]| ==> bids[1..][i].key != bids[0].key
  {
    var k := bids[0].key;
    var others := Held(s.fills, bids[1..], s.resting, k);
    HeldFlight(s.fills, bids, s.resting, k);
    OnlyHeld(s.outcomes, k, PendingOutcome(bids[0]), others);
    var fs, ps, rs := Collect(s.fills, FillHolds(k)), Collect(bids[1..], PendingHolds(k)), Collect(s.resting, RestingHolds(k));
    assert |fs + ps + rs| == |fs| + |ps| + |rs|;
    assert |ps| == 0 ==> ps == multiset{};
    NobodyHolds(bids[1..], k);
  }

  lemma SettleOnePays(s: State, price: I64, b: PendingBid, alloc: U64, exhausted: bool)
    requires Waiting(s.outcomes, b.key)
    ensures var after := SettleOne(s, price, b, alloc, exhausted).st.outcomes;
            b.key in after && after[b.key] == Verdict(alloc, price)
  {
    hide Release, Commit;
  }

  /** The settlement loop records for each bid exactly what it was allocated. */
  lemma {:induction false} SettlePays(s: State, price: I64, bids: seq<PendingBid>, allocs: seq<U64>, exhausted: bool, i: nat)
    requires |allocs| == |bids| && i < |bids| && NothingOver(bids, allocs, exhausted) && WithinRequests(bids, allocs)
    requires Mirrors(s.outcomes, s.fills, bids, s.resting, bids[i].key)
    ensures var after := Settle(s, price, bids, allocs, exhausted).st.outcomes;
            bids[i].key in after && after[bids[i].key] == Verdict(allocs[i], price)
    decreases |bids|
  {
    hide *;
    var one := SettleOne(s, price, bids[0], allocs[0], exhausted).st;
    SettleStep(s, price, bids, allocs, exhausted);
    WithinTail(bids, allocs);
    SettleOneFrame(s, price, bids[0], allocs[0], exhausted);
    if i == 0 {
      FirstIsAlone(s, bids);
      SettleOnePays(s, price, bids[0], allocs[0], exhausted);
      SettleElsewhere(one, price, bids[1..], allocs[1..], exhausted, bids[0].key);
      SameStill(one.outcomes, Settle(one, price, bids[1..], allocs[1..], exhausted).st.outcomes, bids[0].key, Verdict(allocs[0], price));
    } else {
      SettleOneMirrors(s, price, bids, allocs[0], exhausted, bids[i].key);
      SettlePays(one, price, bids[1..], allocs[1..], exhausted, i - 1);
    }
  }

  // ---------------------------------------------------------------- through a clearing

  lemma {:induction false} RepriceKeepsQuote(s: State, price: I64, i: nat, k: Key, qty: U64)
    requires i <= |s.fills|
    requires k in s.outcomes && s.outcomes[k] == Outcome.Filled(qty, price)
    ensures var after := RepriceFrom(s, price, i).st.outcomes;
            k in after && after[k] == Outcome.Filled(qty, price)
    decreases |s.fills| - i
  {
    if i < |s.fills| {
      RepriceStep(s, price, i);
      RepriceOneShape(s, price, i);
      hide RepriceFrom, RepriceOne;
      RepriceKeepsQuote(RepriceOne(s, price, i).st, price, i + 1, k, qty);
    }
  }

  lemma {:induction false} RefuseKeepsFilled(s: State, bids: seq<RestingBid>, reason: RejectReason, k: Key, qty: U64, price: I64)
    requires k in s.outcomes && s.outcomes[k] == Outcome.Filled(qty, price)
    ensures var after := RefuseResting(s, bids, reason).st.outcomes;
            k in after && after[k] == Outcome.Filled(qty, price)
    decreases |bids|
  {
    if bids != [] {
      var b := bids[0];
      var one := Reject(s.(collateral := Release(s.collateral, b.participant, b.limit, b.qty)), b.key, reason);
      RefuseKeepsFilled(one.st, bids[1..], reason, k, qty, price);
    }
  }

  /** A fill recorded at the clearing price stays as it is. */
  lemma ClearKeepsFilled(s: State, price: I64, k: Key, qty: U64)
    requires k in s.outcomes && s.outcomes[k] == Outcome.Filled(qty, price)
    ensures var after := Clear(s, price).st.outcomes;
            k in after && after[k] == Outcome.Filled(qty, price)
  {
    var begun := s.(status := Status.Cleared, clearing := Some(price));
    var repriced := RepriceFrom(begun, price, 0).st;
    RepriceKeepsQuote(begun, price, 0, k, qty);
    RefuseKeepsFilled(repriced.(resting := []), repriced.resting, Unfilled, k, qty, price);
    hide RepriceFrom, RefuseResting;
  }

  /** A verdict at the clearing price stands. */
  lemma ClearKeepsVerdict(s: State, price: I64, k: Key, alloc: U64)
    requires Kept(s, k) && s.window == None && NoneBelow(s.fills, price)
    requires k in s.outcomes && s.outcomes[k] == Verdict(alloc, price)
    ensures var after := Clear(s, price).st.outcomes;
            k in after && after[k] == Verdict(alloc, price)
  {
    hide Clear, Kept;
    if alloc == 0 {
      ClearCarries(s, price, k);
    } else {
      ClearKeepsFilled(s, price, k, alloc);
    }
  }

  lemma MatchedWithin(c: Config, s: State)
    requires c.WellFormed() && Sound(c, s) && s.status.Live? && s.window.Some?
    ensures var bids, m := Matching.SortBids(s.window.value.bids), Matched(s);
            && |m.allocs| == |bids| == |s.window.value.bids|
            && NothingOver(bids, m.allocs, m.exhausted) && WithinRequests(bids, m.allocs)
  {
    hide Matched, NothingOver, Matching.SortBids;
    MatchedFacts(s);
    Matching.SortLength(s.window.value.bids);
  }

  lemma SettledPays(c: Config, s: State, i: nat)
    requires c.WellFormed() && Sound(c, s) && s.status.Live? && s.window.Some?
    requires i < |s.window.value.bids| && Kept(s, Matching.Ranked(s.window.value.bids, i).key)
    ensures |Matched(s).allocs| == |s.window.value.bids|
    ensures var k := Matching.Ranked(s.window.value.bids, i).key;
            var after := SettledWindow(s).st.outcomes;
            k in after && after[k] == Verdict(Matched(s).allocs[i], s.window.value.price)
  {
    hide Settle, Verdict, Mirrors, NothingOver, Matched, Matching.SortBids, Kept, Sound, WithinRequests;
    var w, bids, m := s.window.value, Matching.SortBids(s.window.value.bids), Matched(s);
    MatchedWithin(c, s);
    SortedHold(s, bids[i].key);
    SettlePays(s.(window := None, supply := m.remaining), w.price, bids, m.allocs, m.exhausted, i);
  }

  /** Closing a live window leaves, in the record of each bid, exactly its allocation at the window's
      price, or word that supply ran out. */
  lemma FlushPays(c: Config, s: State, i: nat)
    requires c.WellFormed() && Sound(c, s) && s.status.Live? && s.window.Some?
    requires i < |s.window.value.bids| && Kept(s, Matching.Ranked(s.window.value.bids, i).key)
    ensures |Matched(s).allocs| == |s.window.value.bids|
    ensures var k := Matching.Ranked(s.window.value.bids, i).key;
            var after := Flush(s).st.outcomes;
            k in after && after[k] == Verdict(Matched(s).allocs[i], s.window.value.price)
  {
    hide SettledWindow, Clear, Flush, Verdict, Matched, Kept, Sound, Matching.Ranked;
    var k, settled := Matching.Ranked(s.window.value.bids, i).key, SettledWindow(s);
    FlushSteps(s);
    SettledPays(c, s, i);
    if Matched(s).exhausted {
      SettledCarries(c, s, k);
      CarriesKept(s, settled, k);
      SettledShape(c, s);
      ClearKeepsVerdict(settled.st, s.window.value.price, k, Matched(s).allocs[i]);
    }
  }
}
