/** The life of an idempotency key: where it is held, what is recorded for it, and how often its
    submission is finally answered. */
module Keys {
  import opened Auction
  import opened Bounded
  import opened Loops
  import opened Rules
  import opened Sums

  // ---------------------------------------------------------------- places

  /** The outcome a fill under `k` must be answered with. */
  ghost function FillHolds(k: Key): Fill -> multiset<Outcome> {
    (f: Fill) => if f.key == k then multiset{Outcome.Filled(f.qty, f.price)} else multiset{}
  }

  ghost function PendingOutcome(b: PendingBid): Outcome {
    if b.restingLimit.None? then Outcome.Queued(b.qty) else Outcome.Resting(b.qty)
  }

  ghost function PendingHolds(k: Key): PendingBid -> multiset<Outcome> {
    (b: PendingBid) => if b.key == k then multiset{PendingOutcome(b)} else multiset{}
  }

  ghost function RestingHolds(k: Key): RestingBid -> multiset<Outcome> {
    (b: RestingBid) => if b.key == k then multiset{Outcome.Resting(b.qty)} else multiset{}
  }

  /** Everything held under `k`, each as the outcome it must be answered with. */
  ghost function Held(fills: seq<Fill>, flight: seq<PendingBid>, resting: seq<RestingBid>, k: Key): multiset<Outcome> {
    Collect(fills, FillHolds(k)) + Collect(flight, PendingHolds(k)) + Collect(resting, RestingHolds(k))
  }

  /** The recorded outcome, unless it says nothing is held. */
  ghost function Recorded(outcomes: map<Key, Outcome>, k: Key): multiset<Outcome> {
    if k in outcomes && !outcomes[k].Rejected? && !outcomes[k].Cancelled? then multiset{outcomes[k]} else multiset{}
  }

  /** The record for `k` mirrors exactly what is held under it: one fill, one bid in flight, one
      resting bid, or nothing. */
  ghost predicate Mirrors(
    outcomes: map<Key, Outcome>, fills: seq<Fill>, flight: seq<PendingBid>, resting: seq<RestingBid>, k: Key)
  {
    Held(fills, flight, resting, k) == Recorded(outcomes, k)
  }

  // ---------------------------------------------------------------- recording

  predicate Fulfils(o: Outcome) {
    o.Filled? || o.FilledThenCancelled?
  }

  /** What can be recorded over a fill of `qty` units without erasing any of them. */
  predicate Preserves(prior: Outcome, next: Outcome)
    requires Fulfils(prior)
  {
    prior.FilledThenCancelled? || next.Filled? || next.Cancelled? || next.Rejected?
    || (next.FilledThenCancelled? && next.qty >= prior.qty)
  }

  /** Exactly when a recorded fill stays recorded with at least its quantity: unless the new outcome
      is a waiting one, or a smaller fill already withdrawn. No other key is affected, and the latest
      price of a growing fill is the one kept. */
  lemma FillSurvivesExactly(outcomes: map<Key, Outcome>, key: Key, next: Outcome, k: Key)
    requires k in outcomes && Fulfils(outcomes[k])
    ensures var after := SetOutcome(outcomes, key, next);
            && k in after
            && (key != k ==> after[k] == outcomes[k])
            && (key == k ==>
                  ((Fulfils(after[k]) && after[k].qty >= outcomes[k].qty) <==> Preserves(outcomes[k], next)))
            && (key == k && outcomes[k].Filled? && next.Filled? ==> after[k].price == next.price)
  {}

  // ---------------------------------------------------------------- answers

  /** Final answers to the submission under `k`: filled, refused, or withdrawn. */
  ghost function Answer(k: Key): Event -> int {
    (e: Event) =>
      if (e.Filled? && e.fill.key == k)
         || (e.Rejected? && e.key == k && e.reason != UnknownBid)
         || (e.RestingCancelled? && e.key == k)
      then 1 else 0
  }

  ghost function Settled(outcomes: map<Key, Outcome>, k: Key): int {
    if k in outcomes && !outcomes[k].Queued? && !outcomes[k].Resting? then 1 else 0
  }

  /** A stretch of events carries a final answer to `k` exactly when its record turns final. */
  ghost predicate Counts(before: map<Key, Outcome>, ev: seq<Event>, after: map<Key, Outcome>, k: Key) {
    Settled(after, k) == Settled(before, k) + Sum(ev, Answer(k))
  }

  /** A record only ever moves forward: waiting, then filled for at most what was asked, refused or
      withdrawn; a fill keeps its quantity and only gets cheaper; every other answer stands. */
  ghost predicate Forward(earlier: Outcome, later: Outcome) {
    || later == earlier
    || (later.Filled? && (earlier.Queued? || earlier.Resting?) && later.qty <= earlier.qty)
    || (later.Filled? && earlier.Filled? && later.qty == earlier.qty && later.price <= earlier.price)
    || (later.Rejected? && (earlier.Queued? || earlier.Resting?))
    || (later.Cancelled? && earlier.Resting?)
  }

  /** No key gains or loses a record, and each record moves forward with its answers. */
  ghost predicate Answers(before: map<Key, Outcome>, ev: seq<Event>, after: map<Key, Outcome>, k: Key) {
    && Counts(before, ev, after, k)
    && (k in before <==> k in after)
    && (k in before ==> Forward(before[k], after[k]))
  }

  lemma CountsChain(a: map<Key, Outcome>, ev1: seq<Event>, b: map<Key, Outcome>, ev2: seq<Event>, c: map<Key, Outcome>, k: Key)
    requires Counts(a, ev1, b, k) && Counts(b, ev2, c, k)
    ensures Counts(a, ev1 + ev2, c, k)
  {
    SumConcat(ev1, ev2, Answer(k));
  }

  lemma AnswersChain(a: map<Key, Outcome>, ev1: seq<Event>, b: map<Key, Outcome>, ev2: seq<Event>, c: map<Key, Outcome>, k: Key)
    requires Answers(a, ev1, b, k) && Answers(b, ev2, c, k)
    ensures Answers(a, ev1 + ev2, c, k)
  {
    CountsChain(a, ev1, b, ev2, c, k);
  }

  lemma AnswersNothing(outcomes: map<Key, Outcome>, k: Key)
    ensures Answers(outcomes, [], outcomes, k)
  {}

  lemma CountsOne(before: map<Key, Outcome>, e: Event, after: map<Key, Outcome>, k: Key)
    requires Settled(after, k) == Settled(before, k) + Answer(k)(e)
    ensures Counts(before, [e], after, k)
  {
    assert [e][1..] == [];
  }

  /** If one held thing is peeled off, it is the only one and it is what the record says. */
  lemma OnlyHeld(outcomes: map<Key, Outcome>, k: Key, x: Outcome, rest: multiset<Outcome>)
    requires multiset{x} + rest == Recorded(outcomes, k)
    ensures rest == multiset{} && k in outcomes && outcomes[k] == x
  {
    assert |multiset{x} + rest| == 1 + |rest|;
    assert x in Recorded(outcomes, k);
  }

  /** Peeling what the first bid in flight holds off everything held under `k`. */
  lemma HeldFlight(fills: seq<Fill>, flight: seq<PendingBid>, resting: seq<RestingBid>, k: Key)
    requires flight != []
    ensures Held(fills, flight, resting, k) == PendingHolds(k)(flight[0]) + Held(fills, flight[1..], resting, k)
  {
    Rearrange(Collect(fills, FillHolds(k)), PendingHolds(k)(flight[0]), Collect(flight[1..], PendingHolds(k)),
              Collect(resting, RestingHolds(k)));
  }

  lemma HeldResting(fills: seq<Fill>, flight: seq<PendingBid>, resting: seq<RestingBid>, k: Key)
    requires resting != []
    ensures Held(fills, flight, resting, k) == RestingHolds(k)(resting[0]) + Held(fills, flight, resting[1..], k)
  {
    Rearrange(Collect(fills, FillHolds(k)) + Collect(flight, PendingHolds(k)), RestingHolds(k)(resting[0]),
              Collect(resting[1..], RestingHolds(k)), multiset{});
  }

  lemma HeldFill(fills: seq<Fill>, f: Fill, flight: seq<PendingBid>, resting: seq<RestingBid>, k: Key)
    ensures Held(fills + [f], flight, resting, k) == FillHolds(k)(f) + Held(fills, flight, resting, k)
  {
    CollectSnoc(fills, f, FillHolds(k));
    Rearrange(Collect(fills, FillHolds(k)), FillHolds(k)(f), Collect(flight, PendingHolds(k)), Collect(resting, RestingHolds(k)));
  }

  lemma Rearrange(a: multiset<Outcome>, x: multiset<Outcome>, b: multiset<Outcome>, c: multiset<Outcome>)
    ensures a + (x + b) + c == x + (a + b + c)
    ensures a + x + b + c == x + (a + b + c)
    ensures a + (x + b) == x + (a + b)
  {}

  ghost predicate Waiting(outcomes: map<Key, Outcome>, k: Key) {
    k in outcomes && (outcomes[k].Queued? || outcomes[k].Resting?)
  }

  /** Turning away something still waiting: it holds nothing any more and has its answer. */
  lemma RefusedRecord(s: State, key: Key, reason: RejectReason, k: Key)
    requires reason != UnknownBid
    requires key == k ==> Waiting(s.outcomes, k)
    ensures var one := Reject(s, key, reason);
            && Recorded(one.st.outcomes, k) == (if key == k then multiset{} else Recorded(s.outcomes, k))
            && Answers(s.outcomes, one.ev, one.st.outcomes, k)
  {
    CountsOne(s.outcomes, Event.Rejected(key, reason), Reject(s, key, reason).st.outcomes, k);
  }

  /** Answering a bid in flight leaves every record mirroring what is still held. */
  lemma RefuseOneMirrors(s: State, bids: seq<PendingBid>, resting: seq<RestingBid>, reason: RejectReason, k: Key)
    requires bids != [] && reason != UnknownBid
    requires Mirrors(s.outcomes, s.fills, bids, resting, k)
    ensures var one := Reject(s, bids[0].key, reason);
            && Mirrors(one.st.outcomes, s.fills, bids[1..], resting, k)
            && Answers(s.outcomes, one.ev, one.st.outcomes, k)
  {
    hide Held, Reject, Answers;
    HeldFlight(s.fills, bids, resting, k);
    if bids[0].key == k {
      OnlyHeld(s.outcomes, k, PendingOutcome(bids[0]), Held(s.fills, bids[1..], resting, k));
    }
    RefusedRecord(s, bids[0].key, reason, k);
  }

  lemma {:induction false} RefusePendingMirrors(s: State, bids: seq<PendingBid>, resting: seq<RestingBid>, reason: RejectReason, k: Key)
    requires reason != UnknownBid
    requires Mirrors(s.outcomes, s.fills, bids, resting, k)
    ensures var r := RefusePending(s, bids, reason);
            && Mirrors(r.st.outcomes, s.fills, [], resting, k)
            && Answers(s.outcomes, r.ev, r.st.outcomes, k)
    decreases |bids|
  {
    if bids != [] {
      hide Mirrors, Answers, Reject;
      var b := bids[0];
      var released := s.(collateral := Release(s.collateral, b.participant, b.reservePrice, b.qty));
      var one := Reject(released, b.key, reason);
      RefuseOneMirrors(released, bids, resting, reason, k);
      assert one.st == released.(outcomes := one.st.outcomes) by { RejectFrame(released, b.key, reason); }
      RefusePendingMirrors(one.st, bids[1..], resting, reason, k);
      var rest := RefusePending(one.st, bids[1..], reason);
      AnswersChain(s.outcomes, one.ev, one.st.outcomes, rest.ev, rest.st.outcomes, k);
    }
  }

  lemma RejectFrame(s: State, key: Key, reason: RejectReason)
    ensures var r := Reject(s, key, reason).st;
            r == s.(outcomes := r.outcomes)
  {}

  lemma RefuseOneRestingMirrors(s: State, bids: seq<RestingBid>, reason: RejectReason, k: Key)
    requires bids != [] && reason != UnknownBid
    requires Mirrors(s.outcomes, s.fills, [], bids, k)
    ensures var one := Reject(s, bids[0].key, reason);
            && Mirrors(one.st.outcomes, s.fills, [], bids[1..], k)
            && Answers(s.outcomes, one.ev, one.st.outcomes, k)
  {
    hide Held, Reject, Answers;
    HeldResting(s.fills, [], bids, k);
    if bids[0].key == k {
      OnlyHeld(s.outcomes, k, Outcome.Resting(bids[0].qty), Held(s.fills, [], bids[1..], k));
    }
    RefusedRecord(s, bids[0].key, reason, k);
  }

  lemma {:induction false} RefuseRestingMirrors(s: State, bids: seq<RestingBid>, reason: RejectReason, k: Key)
    requires reason != UnknownBid
    requires Mirrors(s.outcomes, s.fills, [], bids, k)
    ensures var r := RefuseResting(s, bids, reason);
            && Mirrors(r.st.outcomes, s.fills, [], [], k)
            && Answers(s.outcomes, r.ev, r.st.outcomes, k)
    decreases |bids|
  {
    if bids != [] {
      hide Mirrors, Answers, Reject;
      var b := bids[0];
      var released := s.(collateral := Release(s.collateral, b.participant, b.limit, b.qty));
      var one := Reject(released, b.key, reason);
      RefuseOneRestingMirrors(released, bids, reason, k);
      assert one.st == released.(outcomes := one.st.outcomes) by { RejectFrame(released, b.key, reason); }
      RefuseRestingMirrors(one.st, bids[1..], reason, k);
      var rest := RefuseResting(one.st, bids[1..], reason);
      AnswersChain(s.outcomes, one.ev, one.st.outcomes, rest.ev, rest.st.outcomes, k);
    }
  }

  // ---------------------------------------------------------------- settling

  /** A bid that waited and is now filled. */
  lemma FilledRecord(outcomes: map<Key, Outcome>, fill: Fill, k: Key)
    requires fill.key == k ==> Waiting(outcomes, k) && fill.qty <= outcomes[k].qty
    ensures var after := SetOutcome(outcomes, fill.key, Outcome.Filled(fill.qty, fill.price));
            && Recorded(after, k) == (if fill.key == k then FillHolds(k)(fill) else Recorded(outcomes, k))
            && Answers(outcomes, [Event.Filled(fill)], after, k)
  {
    CountsOne(outcomes, Event.Filled(fill), SetOutcome(outcomes, fill.key, Outcome.Filled(fill.qty, fill.price)), k);
  }

  /** Units allocated to the first bid in flight. */
  lemma FillOneMirrors(s: State, fill: Fill, bids: seq<PendingBid>, k: Key)
    requires bids != [] && fill.key == bids[0].key && fill.qty <= bids[0].qty
    requires Mirrors(s.outcomes, s.fills, bids, s.resting, k)
    ensures var after := SetOutcome(s.outcomes, fill.key, Outcome.Filled(fill.qty, fill.price));
            && Mirrors(after, s.fills + [fill], bids[1..], s.resting, k)
            && Answers(s.outcomes, [Event.Filled(fill)], after, k)
  {
    hide Held, Answers, Recorded, SetOutcome;
    HeldFlight(s.fills, bids, s.resting, k);
    HeldFill(s.fills, fill, bids[1..], s.resting, k);
    if fill.key == k {
      OnlyHeld(s.outcomes, k, PendingOutcome(bids[0]), Held(s.fills, bids[1..], s.resting, k));
    }
    FilledRecord(s.outcomes, fill, k);
  }

  lemma SettleOneMirrors(s: State, price: I64, bids: seq<PendingBid>, alloc: U64, exhausted: bool, k: Key)
    requires bids != [] && alloc <= bids[0].qty && (exhausted || alloc == bids[0].qty)
    requires Mirrors(s.outcomes, s.fills, bids, s.resting, k)
    ensures var one := SettleOne(s, price, bids[0], alloc, exhausted);
            && Mirrors(one.st.outcomes, one.st.fills, bids[1..], s.resting, k)
            && Answers(s.outcomes, one.ev, one.st.outcomes, k)
  {
    hide Release, Commit, Answers, Mirrors, SetOutcome;
    if alloc == 0 {
      RefuseOneMirrors(s, bids, s.resting, SupplyExhausted, k);
    } else {
      FillOneMirrors(s, FillOf(s, bids[0], alloc, price), bids, k);
    }
  }

  ghost predicate WithinRequests(bids: seq<PendingBid>, allocs: seq<U64>)
    requires |allocs| == |bids|
  {
    forall i :: 0 <= i < |bids| ==> allocs[i] <= bids[i].qty
  }

  lemma WithinTail(bids: seq<PendingBid>, allocs: seq<U64>)
    requires |allocs| == |bids| && bids != [] && WithinRequests(bids, allocs)
    ensures allocs[0] <= bids[0].qty && WithinRequests(bids[1..], allocs[1..])
  {}

  lemma {:induction false} SettleMirrors(s: State, price: I64, bids: seq<PendingBid>, allocs: seq<U64>, exhausted: bool, k: Key)
    requires |allocs| == |bids| && NothingOver(bids, allocs, exhausted) && WithinRequests(bids, allocs)
    requires Mirrors(s.outcomes, s.fills, bids, s.resting, k)
    ensures var r := Settle(s, price, bids, allocs, exhausted);
            && Mirrors(r.st.outcomes, r.st.fills, [], s.resting, k)
            && Answers(s.outcomes, r.ev, r.st.outcomes, k)
    decreases |bids|
  {
    hide SettleOne, NothingOver, Mirrors, Answers, WithinRequests;
    if bids == [] {
      AnswersNothing(s.outcomes, k);
    } else {
      SettleStep(s, price, bids, allocs, exhausted);
      hide *;
      var one := SettleOne(s, price, bids[0], allocs[0], exhausted);
      WithinTail(bids, allocs);
      SettleOneMirrors(s, price, bids, allocs[0], exhausted, k);
      SettleOneFrame(s, price, bids[0], allocs[0], exhausted);
      SettleMirrors(one.st, price, bids[1..], allocs[1..], exhausted, k);
      var rest := Settle(one.st, price, bids[1..], allocs[1..], exhausted);
      AnswersChain(s.outcomes, one.ev, one.st.outcomes, rest.ev, rest.st.outcomes, k);
    }
  }

  // ---------------------------------------------------------------- clearing

  lemma HeldReprice(fills: seq<Fill>, i: nat, f: Fill, resting: seq<RestingBid>, k: Key)
    requires i < |fills|
    ensures var others := Held(fills[..i] + fills[i + 1..], [], resting, k);
            && Held(fills, [], resting, k) == FillHolds(k)(fills[i]) + others
            && Held(fills[i := f], [], resting, k) == FillHolds(k)(f) + others
  {
    CollectSplit(fills, i, FillHolds(k));
    CollectUpdate(fills, i, f, FillHolds(k));
    var others := Collect(fills[..i] + fills[i + 1..], FillHolds(k));
    Rearrange(multiset{}, FillHolds(k)(fills[i]), others, Collect(resting, RestingHolds(k)));
    Rearrange(multiset{}, FillHolds(k)(f), others, Collect(resting, RestingHolds(k)));
  }

  /** A record that quotes a fill follows its price, and was already final. */
  lemma QuotedRecord(outcomes: map<Key, Outcome>, f: Fill, price: I64, k: Key)
    requires price <= f.price
    requires f.key == k ==> k in outcomes && outcomes[k] == Outcome.Filled(f.qty, f.price)
    ensures var after := Quote(outcomes, f.key, price);
            && Recorded(after, k) == (if f.key == k then FillHolds(k)(f.(price := price)) else Recorded(outcomes, k))
            && Answers(outcomes, [], after, k)
            && Answers(outcomes, [Repriced(f.id, f.price, price)], after, k)
  {
    CountsOne(outcomes, Repriced(f.id, f.price, price), Quote(outcomes, f.key, price), k);
  }

  /** The record a retry is answered from is repriced together with the fill it mirrors. */
  lemma RepriceOneMirrors(s: State, price: I64, i: nat, k: Key)
    requires i < |s.fills| && price <= s.fills[i].price
    requires Mirrors(s.outcomes, s.fills, [], s.resting, k)
    ensures var one := RepriceOne(s, price, i);
            && Mirrors(one.st.outcomes, one.st.fills, [], s.resting, k)
            && Answers(s.outcomes, one.ev, one.st.outcomes, k)
  {
    hide Release, Held, Answers, Recorded, Quote;
    var f := s.fills[i];
    HeldReprice(s.fills, i, f.(price := price), s.resting, k);
    assert f.price == price ==> s.fills[i := f.(price := price)] == s.fills;
    if f.key == k {
      OnlyHeld(s.outcomes, k, Outcome.Filled(f.qty, f.price), Held(s.fills[..i] + s.fills[i + 1..], [], s.resting, k));
    }
    QuotedRecord(s.outcomes, f, price, k);
  }

  lemma {:induction false} RepriceMirrors(s: State, price: I64, i: nat, k: Key)
    requires i <= |s.fills|
    requires forall j :: i <= j < |s.fills| ==> price <= s.fills[j].price
    requires Mirrors(s.outcomes, s.fills, [], s.resting, k)
    ensures var r := RepriceFrom(s, price, i);
            && Mirrors(r.st.outcomes, r.st.fills, [], s.resting, k)
            && Answers(s.outcomes, r.ev, r.st.outcomes, k)
    decreases |s.fills| - i
  {
    hide Mirrors, Answers, RepriceOne;
    if i == |s.fills| {
      AnswersNothing(s.outcomes, k);
    } else {
      RepriceStep(s, price, i);
      hide *;
      var one := RepriceOne(s, price, i);
      RepriceOneMirrors(s, price, i, k);
      RepriceOneShape(s, price, i);
      RepriceMirrors(one.st, price, i + 1, k);
      var rest := RepriceFrom(one.st, price, i + 1);
      AnswersChain(s.outcomes, one.ev, one.st.outcomes, rest.ev, rest.st.outcomes, k);
    }
  }

  // ---------------------------------------------------------------- joining a window

  /** A triggered bid changes place, not record. */
  lemma {:induction false} JoinedHold(bids: seq<RestingBid>, k: Key)
    ensures Collect(Joined(bids), PendingHolds(k)) == Collect(bids, RestingHolds(k))
  {
    if bids != [] {
      JoinedHold(bids[1..], k);
      assert Joined(bids)[1..] == Joined(bids[1..]);
    }
  }

  lemma TriggerMirrors(
    outcomes: map<Key, Outcome>, fills: seq<Fill>, flight: seq<PendingBid>, high: seq<RestingBid>, low: seq<RestingBid>, k: Key)
    ensures Mirrors(outcomes, fills, flight, high + low, k) <==> Mirrors(outcomes, fills, flight + Joined(high), low, k)
  {
    CollectConcat(high, low, RestingHolds(k));
    CollectConcat(flight, Joined(high), PendingHolds(k));
    JoinedHold(high, k);
    var fs, ps := Collect(fills, FillHolds(k)), Collect(flight, PendingHolds(k));
    var hs, ls := Collect(high, RestingHolds(k)), Collect(low, RestingHolds(k));
    assert fs + ps + (hs + ls) == fs + (ps + hs) + ls;
  }
}
