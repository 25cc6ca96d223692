/** What each loop of the state machine touches, what it owes, and whom it answers. */
module Loops {
  import opened Auction
  import opened Bounded
  import opened Rules
  import opened Sums

  // ---------------------------------------------------------------- closed forms

  /** The fill records a settled window appends. */
  ghost function NewFills(id: nat, price: I64, bids: seq<PendingBid>, allocs: seq<U64>): seq<Fill>
    requires |allocs| == |bids|
    decreases |bids|
  {
    if bids == [] then []
    else if allocs[0] == 0 then NewFills(id, price, bids[1..], allocs[1..])
    else
      [Fill(id, bids[0].seqno, bids[0].participant, bids[0].key, allocs[0], price)]
      + NewFills(id + 1, price, bids[1..], allocs[1..])
  }

  /** Every fill from position `i` on, at the clearing price. */
  ghost function RepricedFrom(fills: seq<Fill>, price: I64, i: nat): (r: seq<Fill>)
    requires i <= |fills|
    ensures |r| == |fills|
  {
    seq(|fills|, j requires 0 <= j < |fills| => if j < i then fills[j] else fills[j].(price := price))
  }

  ghost function Joined(bids: seq<RestingBid>): seq<PendingBid> {
    seq(|bids|, i requires 0 <= i < |bids| => FromLadder(bids[i]))
  }

  /** No remainder is left to requeue. */
  ghost predicate NothingOver(bids: seq<PendingBid>, allocs: seq<U64>, exhausted: bool)
    requires |allocs| == |bids|
  {
    exhausted || forall i :: 0 <= i < |bids| ==> allocs[i] == bids[i].qty
  }

  lemma {:induction false} RefusePendingFrame(s: State, bids: seq<PendingBid>, reason: RejectReason)
    ensures var r := RefusePending(s, bids, reason).st;
            r == s.(collateral := r.collateral, outcomes := r.outcomes)
    decreases |bids|
  {
    if bids != [] {
      var b := bids[0];
      var one := Reject(s.(collateral := Release(s.collateral, b.participant, b.reservePrice, b.qty)), b.key, reason);
      RefusePendingFrame(one.st, bids[1..], reason);
    }
  }

  lemma {:induction false} RefuseRestingFrame(s: State, bids: seq<RestingBid>, reason: RejectReason)
    ensures var r := RefuseResting(s, bids, reason).st;
            r == s.(collateral := r.collateral, outcomes := r.outcomes)
    decreases |bids|
  {
    if bids != [] {
      var b := bids[0];
      var one := Reject(s.(collateral := Release(s.collateral, b.participant, b.limit, b.qty)), b.key, reason);
      RefuseRestingFrame(one.st, bids[1..], reason);
    }
  }

  /** One turn of the repricing loop. */
  lemma RepriceStep(s: State, price: I64, i: nat)
    requires i < |s.fills|
    ensures var one := RepriceOne(s, price, i);
            && |one.st.fills| == |s.fills|
            && var rest := RepriceFrom(one.st, price, i + 1);
               RepriceFrom(s, price, i) == Step(rest.st, one.ev + rest.ev)
  {}

  lemma {:induction false} RepriceFrame(s: State, price: I64, i: nat)
    requires i <= |s.fills|
    ensures var r := RepriceFrom(s, price, i).st;
            r == s.(collateral := r.collateral, outcomes := r.outcomes, fills := RepricedFrom(s.fills, price, i))
    decreases |s.fills| - i
  {
    if i == |s.fills| {
      assert RepricedFrom(s.fills, price, i) == s.fills;
    } else {
      var one := RepriceOne(s, price, i);
      RepriceFrame(one.st, price, i + 1);
      assert RepricedFrom(one.st.fills, price, i + 1) == RepricedFrom(s.fills, price, i);
    }
  }

  lemma {:induction false} JoinWindowFrame(s: State, index: U64, price: I64, bids: seq<RestingBid>)
    ensures JoinWindow(s, index, price, bids)
         == if bids == [] then s
            else
              var w := if s.window.Some? then s.window.value else OpenWindow(index, price, []);
              s.(window := Some(w.(bids := w.bids + Joined(bids))))
    decreases |bids|
  {
    if bids != [] {
      var pushed := PushPending(s, index, price, FromLadder(bids[0]));
      JoinWindowFrame(pushed, index, price, bids[1..]);
      assert Joined(bids) == [FromLadder(bids[0])] + Joined(bids[1..]);
      var w := if s.window.Some? then s.window.value else OpenWindow(index, price, []);
      Regroup(w.bids, [FromLadder(bids[0])], Joined(bids[1..]));
      if bids[1..] == [] {
        assert Joined(bids) == [FromLadder(bids[0])];
      }
    }
  }

  /** The requeue branch of a settled bid is never taken. */
  lemma SettleOneFrame(s: State, price: I64, b: PendingBid, alloc: U64, exhausted: bool)
    requires exhausted || alloc == b.qty
    ensures var r := SettleOne(s, price, b, alloc, exhausted).st;
            var fills := if alloc == 0 then [] else [FillOf(s, b, alloc, price)];
            r == s.(collateral := r.collateral, outcomes := r.outcomes,
                    fills := s.fills + fills, nextFillId := s.nextFillId + |fills|)
  {}

  /** One turn of the settlement loop. */
  lemma SettleStep(s: State, price: I64, bids: seq<PendingBid>, allocs: seq<U64>, exhausted: bool)
    requires |allocs| == |bids| && bids != [] && NothingOver(bids, allocs, exhausted)
    ensures NothingOver(bids[1..], allocs[1..], exhausted)
    ensures exhausted || allocs[0] == bids[0].qty
    ensures var one := SettleOne(s, price, bids[0], allocs[0], exhausted);
            var rest := Settle(one.st, price, bids[1..], allocs[1..], exhausted);
            Settle(s, price, bids, allocs, exhausted) == Step(rest.st, one.ev + rest.ev)
  {}

  lemma NewFillsStep(s: State, price: I64, bids: seq<PendingBid>, allocs: seq<U64>)
    requires |allocs| == |bids| && bids != []
    ensures var first := if allocs[0] == 0 then [] else [FillOf(s, bids[0], allocs[0], price)];
            NewFills(s.nextFillId, price, bids, allocs)
            == first + NewFills(s.nextFillId + |first|, price, bids[1..], allocs[1..])
  {}

  lemma {:induction false} SettleFrame(s: State, price: I64, bids: seq<PendingBid>, allocs: seq<U64>, exhausted: bool)
    requires |allocs| == |bids| && NothingOver(bids, allocs, exhausted)
    ensures var r := Settle(s, price, bids, allocs, exhausted).st;
            var fills := NewFills(s.nextFillId, price, bids, allocs);
            r == s.(collateral := r.collateral, outcomes := r.outcomes,
                    fills := s.fills + fills, nextFillId := s.nextFillId + |fills|)
    decreases |bids|
  {
    if bids != [] {
      SettleStep(s, price, bids, allocs, exhausted);
      NewFillsStep(s, price, bids, allocs);
      hide Settle, SettleOne, NothingOver, NewFills;
      var one := SettleOne(s, price, bids[0], allocs[0], exhausted);
      SettleOneFrame(s, price, bids[0], allocs[0], exhausted);
      SettleFrame(one.st, price, bids[1..], allocs[1..], exhausted);
      var first := if allocs[0] == 0 then [] else [FillOf(s, bids[0], allocs[0], price)];
      Regroup(s.fills, first, NewFills(one.st.nextFillId, price, bids[1..], allocs[1..]));
    }
  }

  // ---------------------------------------------------------------- money

  function FillCost(p: Participant): Fill -> int {
    (f: Fill) => if f.participant == p then f.price * f.qty else 0
  }

  function PendingCost(p: Participant): PendingBid -> int {
    (b: PendingBid) => if b.participant == p then b.reservePrice * b.qty else 0
  }

  function RestingCost(p: Participant): RestingBid -> int {
    (b: RestingBid) => if b.participant == p then b.limit * b.qty else 0
  }

  function Committed(s: State, p: Participant): I64 {
    CollateralOf(s.collateral, p).committed
  }

  /** What `p` has at stake: fills at their price, bids in flight at the price they reserved, and
      resting bids at their limit. */
  ghost function Owed(fills: seq<Fill>, flight: seq<PendingBid>, resting: seq<RestingBid>, p: Participant): int {
    Sum(fills, FillCost(p)) + Sum(flight, PendingCost(p)) + Sum(resting, RestingCost(p))
  }

  ghost predicate Payable(f: Fill) {
    f.price >= 0 && 0 < f.qty <= I64_MAX
  }

  ghost predicate Reserved(price: I64, b: PendingBid) {
    0 <= price <= b.reservePrice && 0 < b.qty <= I64_MAX
  }

  ghost predicate Covered(b: RestingBid) {
    b.limit >= 0 && 0 < b.qty <= I64_MAX
  }

  lemma CostFits(price: I64, qty: U64, bound: I64)
    requires price >= 0 && qty <= I64_MAX && price * qty <= bound
    ensures 0 <= price * qty && CheckedCost(price, qty) == Some(price * qty)
  {}

  /** `p`'s account: the ceiling posted and the exact amount committed. */
  ghost predicate Holds(coll: map<Participant, Collateral>, p: Participant, limit: I64, committed: int) {
    CollateralOf(coll, p).limit == limit && CollateralOf(coll, p).committed == committed
  }

  lemma CostMonotone(price: int, higher: int, alloc: int, qty: int)
    requires 0 <= price <= higher && 0 <= alloc <= qty
    ensures 0 <= price * alloc <= higher * qty
  {
    MulMonotone(price, alloc, qty);
    MulMonotone(qty, price, higher);
  }

  /** Giving back a reservation the balance covers is exact, and nobody else notices. */
  lemma ReleaseIsExact(coll: map<Participant, Collateral>, q: Participant, price: I64, qty: U64, p: Participant)
    requires price >= 0 && qty <= I64_MAX
    requires q == p ==> price * qty <= CollateralOf(coll, p).committed
    ensures var c := CollateralOf(coll, p);
            Holds(Release(coll, q, price, qty), p, c.limit, c.committed - if q == p then price * qty else 0)
  {
    if q == p {
      CostFits(price, qty, CollateralOf(coll, p).committed);
    }
  }

  lemma CommitIsExact(coll: map<Participant, Collateral>, q: Participant, price: I64, qty: U64, p: Participant)
    requires price >= 0 && qty <= I64_MAX
    requires q == p ==> 0 <= CollateralOf(coll, p).committed && CollateralOf(coll, p).committed + price * qty <= I64_MAX
    ensures var c := CollateralOf(coll, p);
            Holds(Commit(coll, q, price, qty), p, c.limit, c.committed + if q == p then price * qty else 0)
  {
    if q == p {
      CostFits(price, qty, I64_MAX);
    }
  }

  /** Refusing bids in flight gives back exactly what they reserved. */
  lemma {:induction false} RefusePendingBalances(s: State, bids: seq<PendingBid>, reason: RejectReason, p: Participant, others: nat)
    requires forall i :: 0 <= i < |bids| ==> Reserved(0, bids[i])
    requires Committed(s, p) == others + Sum(bids, PendingCost(p))
    ensures Holds(RefusePending(s, bids, reason).st.collateral, p, CollateralOf(s.collateral, p).limit, others)
    decreases |bids|
  {
    if bids != [] {
      var b := bids[0];
      CostMonotone(0, b.reservePrice, 0, b.qty);
      SumNonNegativeCosts(bids[1..], p);
      ReleaseIsExact(s.collateral, b.participant, b.reservePrice, b.qty, p);
      var one := Reject(s.(collateral := Release(s.collateral, b.participant, b.reservePrice, b.qty)), b.key, reason);
      RefusePendingBalances(one.st, bids[1..], reason, p, others);
    }
  }

  lemma {:induction false} SumNonNegativeCosts(bids: seq<PendingBid>, p: Participant)
    requires forall i :: 0 <= i < |bids| ==> Reserved(0, bids[i])
    ensures Sum(bids, PendingCost(p)) >= 0
  {
    if bids != [] {
      CostMonotone(0, bids[0].reservePrice, 0, bids[0].qty);
      SumNonNegativeCosts(bids[1..], p);
    }
  }

  lemma {:induction false} SumNonNegativeLimits(bids: seq<RestingBid>, p: Participant)
    requires forall i :: 0 <= i < |bids| ==> Covered(bids[i])
    ensures Sum(bids, RestingCost(p)) >= 0
  {
    if bids != [] {
      CostMonotone(0, bids[0].limit, 0, bids[0].qty);
      SumNonNegativeLimits(bids[1..], p);
    }
  }

  lemma {:induction false} SumNonNegativeFills(fills: seq<Fill>, p: Participant)
    requires forall i :: 0 <= i < |fills| ==> Payable(fills[i])
    ensures Sum(fills, FillCost(p)) >= 0
  {
    if fills != [] {
      CostMonotone(0, fills[0].price, 0, fills[0].qty);
      SumNonNegativeFills(fills[1..], p);
    }
  }

  lemma {:induction false} RefuseRestingBalances(s: State, bids: seq<RestingBid>, reason: RejectReason, p: Participant, others: nat)
    requires forall i :: 0 <= i < |bids| ==> Covered(bids[i])
    requires Committed(s, p) == others + Sum(bids, RestingCost(p))
    ensures Holds(RefuseResting(s, bids, reason).st.collateral, p, CollateralOf(s.collateral, p).limit, others)
    decreases |bids|
  {
    if bids != [] {
      var b := bids[0];
      CostMonotone(0, b.limit, 0, b.qty);
      SumNonNegativeLimits(bids[1..], p);
      ReleaseIsExact(s.collateral, b.participant, b.limit, b.qty, p);
      var one := Reject(s.(collateral := Release(s.collateral, b.participant, b.limit, b.qty)), b.key, reason);
      RefuseRestingBalances(one.st, bids[1..], reason, p, others);
    }
  }

  ghost function Paid(price: I64, b: PendingBid, alloc: U64, p: Participant): int {
    if b.participant == p then price * alloc else 0
  }

  /** Settling one bid trades its reservation for the cost of its fill. */
  lemma SettleOneBalances(s: State, price: I64, b: PendingBid, alloc: U64, exhausted: bool, p: Participant)
    requires Reserved(price, b) && alloc <= b.qty && (exhausted || alloc == b.qty)
    requires 0 <= Committed(s, p) && PendingCost(p)(b) <= Committed(s, p)
    ensures Holds(SettleOne(s, price, b, alloc, exhausted).st.collateral, p, CollateralOf(s.collateral, p).limit,
                  Committed(s, p) + Paid(price, b, alloc, p) - PendingCost(p)(b))
    ensures 0 <= Paid(price, b, alloc, p) <= PendingCost(p)(b)
  {
    hide Release, Commit;
    var released := Release(s.collateral, b.participant, b.reservePrice, b.qty);
    CostMonotone(price, b.reservePrice, alloc, b.qty);
    ReleaseIsExact(s.collateral, b.participant, b.reservePrice, b.qty, p);
    CommitIsExact(released, b.participant, price, alloc, p);
  }

  lemma NewFillsCost(id: nat, price: I64, bids: seq<PendingBid>, allocs: seq<U64>, p: Participant)
    requires |allocs| == |bids| && bids != []
    ensures Sum(NewFills(id, price, bids, allocs), FillCost(p))
         == Paid(price, bids[0], allocs[0], p)
            + Sum(NewFills(if allocs[0] == 0 then id else id + 1, price, bids[1..], allocs[1..]), FillCost(p))
  {
    var rest := NewFills(id + 1, price, bids[1..], allocs[1..]);
    assert allocs[0] != 0 ==> NewFills(id, price, bids, allocs)[1..] == rest;
  }

  /** The first reservation of several, and the rest. */
  lemma ReservedFirst(price: I64, bids: seq<PendingBid>, allocs: seq<U64>, p: Participant)
    requires |allocs| == |bids| && bids != []
    requires forall i :: 0 <= i < |bids| ==> Reserved(price, bids[i]) && allocs[i] <= bids[i].qty
    ensures Reserved(price, bids[0]) && allocs[0] <= bids[0].qty
    ensures forall i :: 0 <= i < |bids[1..]| ==> Reserved(price, bids[1..][i]) && allocs[1..][i] <= bids[1..][i].qty
    ensures Sum(bids, PendingCost(p)) == PendingCost(p)(bids[0]) + Sum(bids[1..], PendingCost(p))
    ensures PendingCost(p)(bids[0]) >= 0 && Sum(bids[1..], PendingCost(p)) >= 0
  {
    CostMonotone(0, bids[0].reservePrice, 0, bids[0].qty);
    SumNonNegativeCosts(bids[1..], p);
  }

  lemma HoldsCommitted(s: State, p: Participant, limit: I64, committed: int)
    requires Holds(s.collateral, p, limit, committed)
    ensures Committed(s, p) == committed && CollateralOf(s.collateral, p).limit == limit
  {}

  lemma SettleNothing(s: State, price: I64, allocs: seq<U64>, exhausted: bool, p: Participant)
    requires allocs == []
    ensures Settle(s, price, [], allocs, exhausted).st == s
    ensures Sum(NewFills(s.nextFillId, price, [], allocs), FillCost(p)) == 0 == Sum([], PendingCost(p))
    ensures Holds(s.collateral, p, CollateralOf(s.collateral, p).limit, Committed(s, p))
  {}

  /** Settling a window conserves money, and never commits more than was reserved. */
  lemma {:induction false} SettleBalances(
    s: State, price: I64, bids: seq<PendingBid>, allocs: seq<U64>, exhausted: bool, p: Participant, others: nat)
    requires |allocs| == |bids| && NothingOver(bids, allocs, exhausted)
    requires forall i :: 0 <= i < |bids| ==> Reserved(price, bids[i]) && allocs[i] <= bids[i].qty
    requires Committed(s, p) == others + Sum(bids, PendingCost(p))
    ensures var paid := Sum(NewFills(s.nextFillId, price, bids, allocs), FillCost(p));
            && Holds(Settle(s, price, bids, allocs, exhausted).st.collateral, p,
                     CollateralOf(s.collateral, p).limit, others + paid)
            && 0 <= paid <= Sum(bids, PendingCost(p))
    decreases |bids|
  {
    hide *;
    if bids == [] {
      SettleNothing(s, price, allocs, exhausted, p);
    } else {
      var b, alloc := bids[0], allocs[0];
      SettleStep(s, price, bids, allocs, exhausted);
      ReservedFirst(price, bids, allocs, p);
      SettleOneBalances(s, price, b, alloc, exhausted, p);
      SettleOneFrame(s, price, b, alloc, exhausted);
      NewFillsCost(s.nextFillId, price, bids, allocs, p);
      var one := SettleOne(s, price, b, alloc, exhausted).st;
      HoldsCommitted(one, p, CollateralOf(s.collateral, p).limit, others + Paid(price, b, alloc, p) + Sum(bids[1..], PendingCost(p)));
      SettleBalances(one, price, bids[1..], allocs[1..], exhausted, p, others + Paid(price, b, alloc, p));
    }
  }

  /** Repricing one fill downward frees exactly the difference. */
  lemma RepriceOneBalances(s: State, price: I64, i: nat, p: Participant, others: nat)
    requires i < |s.fills| && Payable(s.fills[i]) && 0 <= price <= s.fills[i].price
    requires Committed(s, p) == others + FillCost(p)(s.fills[i])
    ensures Holds(RepriceOne(s, price, i).st.collateral, p, CollateralOf(s.collateral, p).limit,
                  others + FillCost(p)(s.fills[i].(price := price)))
    ensures 0 <= FillCost(p)(s.fills[i].(price := price)) <= FillCost(p)(s.fills[i])
  {
    hide Release;
    var f := s.fills[i];
    CostMonotone(price, f.price, f.qty, f.qty);
    CostMonotone(f.price - price, f.price, f.qty, f.qty);
    assert (f.price - price) * f.qty == f.price * f.qty - price * f.qty;
    if f.price != price {
      ReleaseIsExact(s.collateral, f.participant, f.price - price, f.qty, p);
    }
  }

  lemma OtherFillsCost(fills: seq<Fill>, i: nat, p: Participant)
    requires i < |fills| && forall j :: 0 <= j < |fills| ==> Payable(fills[j])
    ensures 0 <= FillCost(p)(fills[i]) <= Sum(fills, FillCost(p))
  {
    SumSplit(fills, i, FillCost(p));
    SumNonNegativeFills(fills[..i], p);
    SumNonNegativeFills(fills[i + 1..], p);
    CostMonotone(0, fills[i].price, 0, fills[i].qty);
  }

  /** Repricing downward conserves money and only ever frees it. */
  lemma {:induction false} RepriceBalances(s: State, price: I64, i: nat, p: Participant, others: nat)
    requires i <= |s.fills|
    requires forall j :: 0 <= j < |s.fills| ==> Payable(s.fills[j])
    requires 0 <= price && forall j :: i <= j < |s.fills| ==> price <= s.fills[j].price
    requires Committed(s, p) == others + Sum(s.fills, FillCost(p))
    ensures var r := RepriceFrom(s, price, i).st;
            && Holds(r.collateral, p, CollateralOf(s.collateral, p).limit, others + Sum(r.fills, FillCost(p)))
            && Sum(r.fills, FillCost(p)) <= Sum(s.fills, FillCost(p))
    decreases |s.fills| - i
  {
    if i < |s.fills| {
      RepriceStep(s, price, i);
      hide RepriceFrom, RepriceOne, CollateralOf, FillCost;
      OtherFillsCost(s.fills, i, p);
      RepriceOneBalances(s, price, i, p, Committed(s, p) - FillCost(p)(s.fills[i]));
      RepriceOneShape(s, price, i);
      SumUpdate(s.fills, i, s.fills[i].(price := price), FillCost(p));
      RepriceBalances(RepriceOne(s, price, i).st, price, i + 1, p, others);
    }
  }

  lemma RepriceOneShape(s: State, price: I64, i: nat)
    requires i < |s.fills|
    ensures var r := RepriceOne(s, price, i).st;
            r == s.(collateral := r.collateral, outcomes := Quote(s.outcomes, s.fills[i].key, price),
                    fills := s.fills[i := s.fills[i].(price := price)])
  {}
}
