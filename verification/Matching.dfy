/** Matching one batch window: the priority order, pro-rata shares at the contested level, and what
    every bidder is entitled to whatever order the window stored the bids in. */
module Matching {
  import opened Auction
  import opened Bounded
  import opened Sums

  // ---------------------------------------------------------------- priority order

  predicate Before(a: PendingBid, b: PendingBid) {
    a.priority > b.priority || (a.priority == b.priority && a.seqno < b.seqno)
  }

  ghost predicate Sorted(bids: seq<PendingBid>) {
    forall i, j :: 0 <= i < j < |bids| ==> !Before(bids[j], bids[i])
  }

  function InsertSorted(b: PendingBid, bids: seq<PendingBid>): seq<PendingBid> {
    if bids == [] || !Before(bids[0], b) then [b] + bids else [bids[0]] + InsertSorted(b, bids[1..])
  }

  /** The stable sort by (priority descending, sequence ascending). */
  function SortBids(bids: seq<PendingBid>): seq<PendingBid> {
    if bids == [] then [] else InsertSorted(bids[0], SortBids(bids[1..]))
  }

  lemma {:induction false} InsertSortedSorts(b: PendingBid, bids: seq<PendingBid>)
    requires Sorted(bids)
    ensures Sorted(InsertSorted(b, bids))
    ensures multiset(InsertSorted(b, bids)) == multiset(bids) + multiset{b}
  {
    if bids == [] || !Before(bids[0], b) {
    } else {
      var tail := InsertSorted(b, bids[1..]);
      InsertSortedSorts(b, bids[1..]);
      assert bids == [bids[0]] + bids[1..];
      forall c | c in tail ensures !Before(c, bids[0]) {
        assert c in multiset(tail);
        assert c == b || c in bids[1..];
      }
    }
  }

  lemma {:induction false} SortBidsSorts(bids: seq<PendingBid>)
    ensures Sorted(SortBids(bids))
    ensures multiset(SortBids(bids)) == multiset(bids)
    ensures |SortBids(bids)| == |bids|
  {
    if bids != [] {
      var rest := SortBids(bids[1..]);
      SortBidsSorts(bids[1..]);
      assert SortBids(bids) == InsertSorted(bids[0], rest);
      hide SortBids, InsertSorted, Sorted;
      InsertSortedSorts(bids[0], rest);
      assert bids == [bids[0]] + bids[1..];
    }
    SameLength(SortBids(bids), bids);
  }

  lemma SameLength(xs: seq<PendingBid>, ys: seq<PendingBid>)
    requires multiset(xs) == multiset(ys)
    ensures |xs| == |ys|
  {
    assert |multiset(xs)| == |multiset(ys)|;
  }

  lemma {:induction false} SortLength(bids: seq<PendingBid>)
    ensures |SortBids(bids)| == |bids|
  {
    SortBidsSorts(bids);
  }

  function AtSeq(n: U64): PendingBid -> int {
    (b: PendingBid) => if b.seqno == n then 1 else 0
  }

  /** No two bids of a window carry one sequence number. */
  ghost predicate DistinctSeqs(bids: seq<PendingBid>) {
    forall n: U64 :: Sum(bids, AtSeq(n)) <= 1
  }

  lemma DistinctSeqsApart(bids: seq<PendingBid>, i: nat, j: nat)
    requires DistinctSeqs(bids)
    requires i < j < |bids|
    ensures bids[i].seqno != bids[j].seqno
  {
    var f := AtSeq(bids[i].seqno);
    SumSplit(bids, i, f);
    SumNonNegative(bids[..i], f);
    SumBoundsTerm(bids[i + 1..], j - i - 1, f);
    assert Sum(bids, f) <= 1;
  }

  lemma DistinctSeqsTail(xs: seq<PendingBid>)
    requires DistinctSeqs(xs) && xs != []
    ensures DistinctSeqs(xs[1..])
  {
    forall n: U64 ensures Sum(xs[1..], AtSeq(n)) <= 1 {
      assert Sum(xs, AtSeq(n)) <= 1;
    }
  }

  lemma SortedHeadsAgree(xs: seq<PendingBid>, ys: seq<PendingBid>)
    requires Sorted(xs) && Sorted(ys) && DistinctSeqs(xs)
    requires xs != [] && ys != [] && multiset(xs) == multiset(ys)
    ensures xs[0] == ys[0]
  {
    assert xs[0] in multiset(ys) && ys[0] in multiset(xs);
    var i :| 0 <= i < |ys| && ys[i] == xs[0];
    var j :| 0 <= j < |xs| && xs[j] == ys[0];
    if j > 0 {
      assert !Before(xs[j], xs[0]);
      assert i > 0 ==> !Before(ys[i], ys[0]);
      DistinctSeqsApart(xs, 0, j);
    }
  }

  /** Distinct sequence numbers leave the sort no freedom: one set of bids has one order. */
  lemma {:induction false} SortedOrderIsUnique(xs: seq<PendingBid>, ys: seq<PendingBid>)
    requires Sorted(xs) && Sorted(ys) && multiset(xs) == multiset(ys)
    requires DistinctSeqs(xs)
    ensures xs == ys
  {
    assert |multiset(xs)| == |multiset(ys)|;
    if xs != [] {
      SortedHeadsAgree(xs, ys);
      TailMultiset(xs);
      TailMultiset(ys);
      DistinctSeqsTail(xs);
      SortedOrderIsUnique(xs[1..], ys[1..]);
      assert xs == [xs[0]] + xs[1..] && ys == [ys[0]] + ys[1..];
    }
  }

  /** Permuting the storage order of the window vector changes nothing. */
  lemma StorageOrderIsIrrelevant(xs: seq<PendingBid>, ys: seq<PendingBid>)
    requires multiset(xs) == multiset(ys)
    requires DistinctSeqs(xs)
    ensures SortBids(xs) == SortBids(ys)
  {
    SortBidsSorts(xs);
    SortBidsSorts(ys);
    SortKeepsDistinct(xs);
    SortedOrderIsUnique(SortBids(xs), SortBids(ys));
  }

  // ---------------------------------------------------------------- one price level

  function Qty(b: PendingBid): int {
    b.qty
  }

  function Units(a: U64): int {
    a
  }

  /** The floored pro-rata part of `q` when `r` units are shared over a larger `demand`. */
  function Floored(r: U64, q: U64, demand: nat): (part: U64)
    requires r < demand
    ensures part <= q && (q > 0 ==> part < q)
  {
    assert q > 0 ==> r * q < demand * q;
    FlooredBelow(r * q, demand, q);
    r * q / demand
  }

  lemma FlooredBelow(product: nat, demand: nat, q: nat)
    requires demand > 0 && product <= demand * q
    ensures 0 <= product / demand <= q
    ensures product < demand * q ==> product / demand < q
  {
    FloorReaches(product, demand, q);
    FloorReaches(product, demand, q + 1);
  }

  function Floors(level: seq<PendingBid>, r: U64, demand: nat): (fs: seq<U64>)
    requires r < demand
    ensures |fs| == |level|
  {
    if level == [] then [] else [Floored(r, level[0].qty, demand)] + Floors(level[1..], r, demand)
  }

  /** One more bid of quantity `q` keeps the flooring bounds. */
  lemma FloorsStep(demand: nat, r: nat, q: nat, qs: int, fs: int, n: nat)
    requires demand > 0
    requires demand * fs <= r * qs <= demand * fs + n * (demand - 1)
    ensures demand * (r * q / demand + fs) <= r * (q + qs)
    ensures r * (q + qs) <= demand * (r * q / demand + fs) + (n + 1) * (demand - 1)
  {
    var f := r * q / demand;
    assert demand * f <= r * q <= demand * f + (demand - 1);
    assert demand * (f + fs) == demand * f + demand * fs;
    assert r * (q + qs) == r * q + r * qs;
    assert (n + 1) * (demand - 1) == n * (demand - 1) + (demand - 1);
  }

  /** Flooring loses less than one unit a bid. */
  lemma {:induction false} FloorsBounds(level: seq<PendingBid>, r: U64, demand: nat)
    requires r < demand
    ensures demand * Sum(Floors(level, r, demand), Units) <= r * Sum(level, Qty)
    ensures r * Sum(level, Qty) <= demand * Sum(Floors(level, r, demand), Units) + |level| * (demand - 1)
  {
    if level != [] {
      FloorsBounds(level[1..], r, demand);
      var rest := Floors(level[1..], r, demand);
      assert Floors(level, r, demand)[1..] == rest;
      FloorsStep(demand, r, level[0].qty, Sum(level[1..], Qty), Sum(rest, Units), |level[1..]|);
    }
  }

  lemma LeftoverArithmetic(d: nat, r: nat, given: int, n: nat)
    requires 0 < d && 0 < n
    requires d * given <= r * d <= d * given + n * (d - 1)
    ensures 0 <= r - given < n
  {
    assert d * (r - given) == r * d - d * given;
    assert n * (d - 1) == n * d - n;
    MulMonotone(d, n, r - given);
    MulMonotone(d, r - given, -1);
  }

  /** The units flooring leaves over are fewer than the bids of the level. */
  lemma LeftoverFits(level: seq<PendingBid>, r: U64)
    requires r < Sum(level, Qty)
    ensures 0 <= r - Sum(Floors(level, r, Sum(level, Qty)), Units) < |level|
  {
    var d := Sum(level, Qty);
    FloorsBounds(level, r, d);
    LeftoverArithmetic(d, r, Sum(Floors(level, r, d), Units), |level|);
  }

  /** One pass in priority order, a unit each to bids still short of their request. */
  function Bonus(level: seq<PendingBid>, shares: seq<U64>, left: nat): (out: seq<U64>)
    requires |shares| == |level|
    ensures |out| == |level|
  {
    if level == [] || left == 0 then shares
    else if shares[0] < level[0].qty then [shares[0] + 1] + Bonus(level[1..], shares[1..], left - 1)
    else [shares[0]] + Bonus(level[1..], shares[1..], left)
  }

  function Quantities(level: seq<PendingBid>): (qs: seq<U64>)
    ensures |qs| == |level|
  {
    seq(|level|, i requires 0 <= i < |level| => level[i].qty)
  }

  /** The allocation of one level: the requests themselves where supply covers them, else the floored
      shares with one bonus pass over them. */
  function Allocate(level: seq<PendingBid>, remaining: U64): (alloc: seq<U64>)
    ensures |alloc| == |level|
  {
    var demand := Sum(level, Qty);
    if demand <= remaining then Quantities(level)
    else
      LeftoverFits(level, remaining);
      var shares := Floors(level, remaining, demand);
      Bonus(level, shares, remaining - Sum(shares, Units))
  }

  ghost predicate Positive(bids: seq<PendingBid>) {
    forall b :: b in bids ==> b.qty > 0
  }

  /** Every share is still short of the request it answers. */
  ghost predicate Short(level: seq<PendingBid>, shares: seq<U64>)
    requires |shares| == |level|
  {
    forall k :: 0 <= k < |level| ==> shares[k] < level[k].qty
  }

  lemma {:induction false} FloorsAt(level: seq<PendingBid>, r: U64, demand: nat, i: nat)
    requires r < demand && i < |level|
    ensures Floors(level, r, demand)[i] == Floored(r, level[i].qty, demand)
  {
    if i > 0 {
      FloorsAt(level[1..], r, demand, i - 1);
    }
  }

  lemma FloorsShort(level: seq<PendingBid>, r: U64, demand: nat)
    requires Positive(level) && r < demand
    ensures Short(level, Floors(level, r, demand))
  {
    forall k | 0 <= k < |level| ensures Floors(level, r, demand)[k] < level[k].qty {
      FloorsAt(level, r, demand, k);
    }
  }

  /** When every share is short the pass tops up exactly the first `left` bids ... */
  lemma {:induction false} BonusTopsUpTheFirst(level: seq<PendingBid>, shares: seq<U64>, left: nat, i: nat)
    requires |shares| == |level| && left <= |level| && i < |level| && Short(level, shares)
    ensures Bonus(level, shares, left)[i] == shares[i] + if i < left then 1 else 0
  {
    if 0 < left && 0 < i {
      BonusTopsUpTheFirst(level[1..], shares[1..], left - 1, i - 1);
    }
  }

  /** ... so one pass leaves nothing over. */
  lemma {:induction false} BonusLeavesNothing(level: seq<PendingBid>, shares: seq<U64>, left: nat)
    requires |shares| == |level| && left <= |level| && Short(level, shares)
    ensures Sum(Bonus(level, shares, left), Units) == Sum(shares, Units) + left
  {
    if 0 < left {
      BonusLeavesNothing(level[1..], shares[1..], left - 1);
      assert Bonus(level, shares, left)[1..] == Bonus(level[1..], shares[1..], left - 1);
    }
  }

  lemma {:induction false} QuantitiesTotal(level: seq<PendingBid>)
    ensures Sum(Quantities(level), Units) == Sum(level, Qty)
  {
    if level != [] {
      QuantitiesTotal(level[1..]);
      assert Quantities(level)[1..] == Quantities(level[1..]);
    }
  }

  /** A level sells min(demand, supply). */
  lemma AllocateTotal(level: seq<PendingBid>, remaining: U64)
    requires Positive(level)
    ensures Sum(Allocate(level, remaining), Units) == Min(Sum(level, Qty), remaining)
  {
    QuantitiesTotal(level);
    if remaining < Sum(level, Qty) {
      LeftoverFits(level, remaining);
      var shares := Floors(level, remaining, Sum(level, Qty));
      FloorsShort(level, remaining, Sum(level, Qty));
      BonusLeavesNothing(level, shares, remaining - Sum(shares, Units));
    }
  }

  // ---------------------------------------------------------------- the whole window

  /** How many leading bids stand at `price`. */
  function LevelLength(bids: seq<PendingBid>, price: I64): (n: nat)
    ensures n <= |bids|
    ensures bids != [] && bids[0].priority == price ==> n > 0
  {
    if bids != [] && bids[0].priority == price then 1 + LevelLength(bids[1..], price) else 0
  }

  lemma {:induction false} LevelLengthExact(bids: seq<PendingBid>, price: I64)
    ensures var n := LevelLength(bids, price);
            && (forall k :: 0 <= k < n ==> bids[k].priority == price)
            && (n < |bids| ==> bids[n].priority != price)
  {
    if bids != [] && bids[0].priority == price {
      LevelLengthExact(bids[1..], price);
    }
  }

  function Zeros(n: nat): (zs: seq<U64>)
    ensures |zs| == n
    ensures forall i :: 0 <= i < n ==> zs[i] == 0
  {
    seq(n, i => 0)
  }

  /** Supply after one level has been served. */
  function AfterLevel(level: seq<PendingBid>, remaining: U64): U64 {
    ClampU64(remaining - Sum(Allocate(level, remaining), Units))
  }

  datatype Match = Match(allocs: seq<U64>, remaining: U64, exhausted: bool)

  /** Matching sorted bids level by level. */
  function MatchLevels(bids: seq<PendingBid>, remaining: U64, exhausted: bool): (m: Match)
    ensures |m.allocs| == |bids|
  {
    if bids == [] then Match([], remaining, exhausted)
    else
      var n := LevelLength(bids, bids[0].priority);
      if remaining == 0 then
        var rest := MatchLevels(bids[n..], remaining, exhausted);
        rest.(allocs := Zeros(n) + rest.allocs)
      else
        var left := AfterLevel(bids[..n], remaining);
        var rest := MatchLevels(bids[n..], left, left == 0);
        rest.(allocs := Allocate(bids[..n], remaining) + rest.allocs)
  }

  /** With nothing left to sell every further level gets nothing. */
  lemma {:induction false} MatchNothing(bids: seq<PendingBid>, exhausted: bool)
    ensures MatchLevels(bids, 0, exhausted) == Match(Zeros(|bids|), 0, exhausted)
    decreases |bids|
  {
    if bids != [] {
      MatchNothing(bids[LevelLength(bids, bids[0].priority)..], exhausted);
    }
  }

  /** One level's contribution to the totals. */
  lemma LevelTotals(bids: seq<PendingBid>, n: nat, remaining: U64, rest: seq<U64>)
    requires n <= |bids| && Positive(bids)
    ensures var level := Allocate(bids[..n], remaining);
            && Sum(bids, Qty) == Sum(bids[..n], Qty) + Sum(bids[n..], Qty)
            && Sum(bids[n..], Qty) >= 0
            && AfterLevel(bids[..n], remaining) == remaining - Sum(level, Units)
            && Sum(level, Units) == Min(Sum(bids[..n], Qty), remaining)
            && Sum(level + rest, Units) == Sum(level, Units) + Sum(rest, Units)
  {
    assert bids == bids[..n] + bids[n..];
    SumConcat(bids[..n], bids[n..], Qty);
    SumNonNegative(bids[n..], Qty);
    AllocateTotal(bids[..n], remaining);
    SumConcat(Allocate(bids[..n], remaining), rest, Units);
    SumNonNegative(Allocate(bids[..n], remaining), Units);
  }

  /** The window sells min(demand, supply), and is exhausted exactly when nothing remains. */
  lemma {:induction false} MatchTotals(bids: seq<PendingBid>, remaining: U64)
    requires Positive(bids)
    ensures var m := MatchLevels(bids, remaining, remaining == 0);
            && Sum(m.allocs, Units) == Min(Sum(bids, Qty), remaining)
            && m.remaining == remaining - Sum(m.allocs, Units)
            && (m.exhausted <==> m.remaining == 0)
    decreases |bids|
  {
    SumNonNegative(bids, Qty);
    if remaining == 0 {
      MatchNothing(bids, true);
      SumZero(Zeros(|bids|), Units);
    } else if bids != [] {
      var n := LevelLength(bids, bids[0].priority);
      var left := AfterLevel(bids[..n], remaining);
      LevelTotals(bids, n, remaining, MatchLevels(bids[n..], left, left == 0).allocs);
      MatchTotals(bids[n..], left);
    }
  }

  lemma {:induction false} BonusWithin(level: seq<PendingBid>, shares: seq<U64>, left: nat, i: nat)
    requires |shares| == |level| && i < |level| && shares[i] <= level[i].qty
    ensures Bonus(level, shares, left)[i] <= level[i].qty
  {
    if left > 0 && i > 0 {
      BonusWithin(level[1..], shares[1..], if shares[0] < level[0].qty then left - 1 else left, i - 1);
    }
  }

  lemma AllocateWithin(level: seq<PendingBid>, remaining: U64, i: nat)
    requires i < |level|
    ensures Allocate(level, remaining)[i] <= level[i].qty
  {
    var demand := Sum(level, Qty);
    if demand > remaining {
      FloorsAt(level, remaining, demand, i);
      LeftoverFits(level, remaining);
      var shares := Floors(level, remaining, demand);
      BonusWithin(level, shares, remaining - Sum(shares, Units), i);
    }
  }

  /** No bid is allocated more than it asked for. */
  lemma {:induction false} MatchWithin(bids: seq<PendingBid>, remaining: U64, exhausted: bool, i: nat)
    requires i < |bids|
    ensures MatchLevels(bids, remaining, exhausted).allocs[i] <= bids[i].qty
    decreases |bids|
  {
    hide Allocate;
    var n := LevelLength(bids, bids[0].priority);
    if i >= n {
      var left := if remaining == 0 then 0 else AfterLevel(bids[..n], remaining);
      MatchWithin(bids[n..], left, if remaining == 0 then exhausted else left == 0, i - n);
    } else if remaining != 0 {
      AllocateWithin(bids[..n], remaining, i);
    }
  }

  /** Unless supply runs out everyone is filled in full, so no remainder is ever requeued. */
  lemma {:induction false} MatchFull(bids: seq<PendingBid>, remaining: U64)
    requires Positive(bids) && remaining > 0
    ensures var m := MatchLevels(bids, remaining, false);
            !m.exhausted ==> m.allocs == Quantities(bids)
    decreases |bids|
  {
    hide Allocate;
    if bids != [] {
      var n := LevelLength(bids, bids[0].priority);
      var left := AfterLevel(bids[..n], remaining);
      if left == 0 {
        MatchNothing(bids[n..], true);
      } else {
        AllocateTotal(bids[..n], remaining);
        AllocateFits(bids[..n], remaining);
        MatchFull(bids[n..], left);
      }
    }
  }

  lemma AllocateFits(level: seq<PendingBid>, remaining: U64)
    ensures Sum(level, Qty) <= remaining ==> Allocate(level, remaining) == Quantities(level)
  {}

  // ---------------------------------------------------------------- entitlement

  function QtyAbove(price: I64): PendingBid -> int {
    (b: PendingBid) => if b.priority > price then b.qty else 0
  }

  function QtyAt(price: I64): PendingBid -> int {
    (b: PendingBid) => if b.priority == price then b.qty else 0
  }

  function FlooredAt(price: I64, r: U64, demand: nat): PendingBid -> int {
    (b: PendingBid) => if r < demand && b.priority == price then Floored(r, b.qty, demand) else 0
  }

  function EarlierAt(price: I64, seqno: U64): PendingBid -> int {
    (b: PendingBid) => if b.priority == price && b.seqno < seqno then 1 else 0
  }

  /** Supply left for the level at `price` once everyone above it is served. */
  function LeftFor(bids: seq<PendingBid>, supply: U64, price: I64): U64 {
    ClampU64(supply - Sum(bids, QtyAbove(price)))
  }

  /** What `b` is entitled to, read off the window as an unordered collection: its whole request if
      its level fits, otherwise the floored pro-rata share, plus one unit if fewer earlier bids of
      the level than units left over. */
  function Entitlement(bids: seq<PendingBid>, supply: U64, b: PendingBid): int {
    var r := LeftFor(bids, supply, b.priority);
    var demand := Sum(bids, QtyAt(b.priority));
    if demand <= r then b.qty
    else
      var left := r - Sum(bids, FlooredAt(b.priority, r, demand));
      Floored(r, b.qty, demand) + if Sum(bids, EarlierAt(b.priority, b.seqno)) < left then 1 else 0
  }

  /** A total that only one stretch of the window contributes to. */
  lemma SumOfStretch(bids: seq<PendingBid>, i: nat, j: nat, f: PendingBid -> int)
    requires i <= j <= |bids|
    requires forall k :: 0 <= k < |bids| && !(i <= k < j) ==> f(bids[k]) == 0
    ensures Sum(bids, f) == Sum(bids[i..j], f)
  {
    assert bids[i..] == bids[i..j] + bids[j..] && bids == bids[..i] + bids[i..];
    SumConcat(bids[..i], bids[i..], f);
    SumConcat(bids[i..j], bids[j..], f);
    SumZero(bids[..i], f);
    SumZero(bids[j..], f);
  }

  /** `[i, j)` is exactly the level at `price`, between strictly dearer and strictly cheaper bids. */
  ghost predicate IsLevel(bids: seq<PendingBid>, i: nat, j: nat, price: I64) {
    && i < j <= |bids|
    && (forall k :: 0 <= k < i ==> bids[k].priority > price)
    && (forall k :: i <= k < j ==> bids[k].priority == price)
    && (forall k :: j <= k < |bids| ==> bids[k].priority < price)
  }

  lemma LevelDemand(bids: seq<PendingBid>, i: nat, j: nat, price: I64)
    requires IsLevel(bids, i, j, price)
    ensures Sum(bids, QtyAbove(price)) == Sum(bids[..i], Qty)
    ensures Sum(bids, QtyAt(price)) == Sum(bids[i..j], Qty)
  {
    SumOfStretch(bids, 0, i, QtyAbove(price));
    assert bids[0..i] == bids[..i];
    SumAgree(bids[..i], QtyAbove(price), Qty);
    SumOfStretch(bids, i, j, QtyAt(price));
    SumAgree(bids[i..j], QtyAt(price), Qty);
  }

  lemma {:induction false} FloorsTotal(level: seq<PendingBid>, price: I64, r: U64, demand: nat)
    requires r < demand
    requires forall b :: b in level ==> b.priority == price
    ensures Sum(level, FlooredAt(price, r, demand)) == Sum(Floors(level, r, demand), Units)
  {
    if level != [] {
      FloorsTotal(level[1..], price, r, demand);
      assert Floors(level, r, demand)[1..] == Floors(level[1..], r, demand);
    }
  }

  lemma {:induction false} SumOnes(bids: seq<PendingBid>, f: PendingBid -> int)
    requires forall b :: b in bids ==> f(b) == 1
    ensures Sum(bids, f) == |bids|
  {
    if bids != [] {
      SumOnes(bids[1..], f);
    }
  }

  /** The earlier bids of a level are exactly the ones before it in the sorted window. */
  lemma EarlierIsPosition(bids: seq<PendingBid>, i: nat, j: nat, k: nat)
    requires Sorted(bids) && DistinctSeqs(bids)
    requires i <= k < j <= |bids| && IsLevel(bids, i, j, bids[k].priority)
    ensures Sum(bids, EarlierAt(bids[k].priority, bids[k].seqno)) == k - i
  {
    var f := EarlierAt(bids[k].priority, bids[k].seqno);
    forall m | 0 <= m < |bids| ensures f(bids[m]) == if i <= m < k then 1 else 0 {
      if i <= m < k {
        assert !Before(bids[k], bids[m]);
        DistinctSeqsApart(bids, m, k);
      } else if k <= m < j {
        assert k < m ==> !Before(bids[m], bids[k]);
      }
    }
    SumOfStretch(bids, i, k, f);
    SumOnes(bids[i..k], f);
  }

  /** One level of the loop hands each bid its entitlement. */
  lemma LevelIsEntitled(bids: seq<PendingBid>, i: nat, j: nat, k: nat, supply: U64)
    requires Sorted(bids) && DistinctSeqs(bids) && Positive(bids)
    requires i <= k < j <= |bids| && IsLevel(bids, i, j, bids[k].priority)
    ensures Allocate(bids[i..j], LeftFor(bids, supply, bids[k].priority))[k - i]
         == Entitlement(bids, supply, bids[k])
  {
    var price := bids[k].priority;
    var level, r, demand := bids[i..j], LeftFor(bids, supply, price), Sum(bids[i..j], Qty);
    LevelDemand(bids, i, j, price);
    if r < demand {
      ContestedShare(level, r, k - i);
      EarlierIsPosition(bids, i, j, k);
      SumOfStretch(bids, i, j, FlooredAt(price, r, demand));
      FloorsTotal(level, price, r, demand);
    }
  }

  lemma ContestedShare(level: seq<PendingBid>, r: U64, i: nat)
    requires Positive(level) && i < |level| && r < Sum(level, Qty)
    ensures var demand := Sum(level, Qty);
            Allocate(level, r)[i] == Floored(r, level[i].qty, demand)
                                     + if i < r - Sum(Floors(level, r, demand), Units) then 1 else 0
  {
    hide Floors, Bonus, Floored, Sum, Short, Positive;
    var shares := Floors(level, r, Sum(level, Qty));
    LeftoverFits(level, r);
    FloorsShort(level, r, Sum(level, Qty));
    FloorsAt(level, r, Sum(level, Qty), i);
    BonusTopsUpTheFirst(level, shares, r - Sum(shares, Units), i);
  }

  /** With no supply left for its level a bid is entitled to nothing. */
  lemma NothingLeftNothingDue(bids: seq<PendingBid>, k: nat, supply: U64)
    requires Positive(bids) && k < |bids|
    requires LeftFor(bids, supply, bids[k].priority) == 0
    ensures Entitlement(bids, supply, bids[k]) == 0
  {
    var price := bids[k].priority;
    var demand := Sum(bids, QtyAt(price));
    SumBoundsTerm(bids, k, QtyAt(price));
    assert Floored(0, bids[k].qty, demand) == 0;
    forall b | b in bids ensures FlooredAt(price, 0, demand)(b) == 0 {
      assert 0 * b.qty == 0;
    }
    SumZero(bids, FlooredAt(price, 0, demand));
    SumNonNegative(bids, EarlierAt(price, bids[k].seqno));
  }

  /** Everything before `i` is strictly dearer than everything from `i` on. */
  ghost predicate Cut(bids: seq<PendingBid>, i: nat) {
    forall l, m :: 0 <= l < i <= m < |bids| ==> bids[l].priority > bids[m].priority
  }

  /** A level begins with the supply its predecessors left. */
  lemma LevelStart(bids: seq<PendingBid>, i: nat, j: nat, k: nat, supply: U64, remaining: U64)
    requires i <= k < j <= |bids| && IsLevel(bids, i, j, bids[i].priority)
    requires remaining == ClampU64(supply - Sum(bids[..i], Qty))
    ensures bids[k].priority == bids[i].priority && LeftFor(bids, supply, bids[k].priority) == remaining
  {
    hide Sum, Qty;
    LevelDemand(bids, i, j, bids[i].priority);
  }

  /** The level loop, entered at a level boundary with the supply its predecessors left. */
  lemma {:induction false} LoopIsEntitled(bids: seq<PendingBid>, i: nat, k: nat, supply: U64, remaining: U64)
    requires Sorted(bids) && DistinctSeqs(bids) && Positive(bids) && i <= k < |bids| && Cut(bids, i)
    requires remaining == ClampU64(supply - Sum(bids[..i], Qty))
    ensures MatchLevels(bids[i..], remaining, remaining == 0).allocs[k - i] == Entitlement(bids, supply, bids[k])
    decreases |bids| - i
  {
    hide Allocate, MatchLevels, Entitlement, Sum, LevelLength, Sorted, DistinctSeqs, Positive, Cut, IsLevel, LeftFor, AfterLevel,
         ClampU64, Qty;
    var n := LevelLength(bids[i..], bids[i].priority);
    var j := i + n;
    LevelBoundary(bids, i, n);
    LoopStep(bids, i, j, remaining, remaining == 0);
    if k < j {
      LevelStart(bids, i, j, k, supply, remaining);
      if remaining == 0 {
        NothingLeftNothingDue(bids, k, supply);
      } else {
        LevelIsEntitled(bids, i, j, k, supply);
      }
    } else {
      LevelSupply(bids, i, j, supply, remaining);
      LoopIsEntitled(bids, j, k, supply, if remaining == 0 then 0 else AfterLevel(bids[i..j], remaining));
    }
  }

  ghost function Prepend(served: seq<U64>, m: Match): Match {
    m.(allocs := served + m.allocs)
  }

  lemma PrependTwice(first: seq<U64>, second: seq<U64>, m: Match)
    ensures Prepend(first, Prepend(second, m)) == Prepend(first + second, m)
  {
    Regroup(first, second, m.allocs);
  }

  /** One turn of the level loop, by positions in the whole window. */
  lemma LoopStep(bids: seq<PendingBid>, i: nat, j: nat, remaining: U64, exhausted: bool)
    requires i < |bids| && j == i + LevelLength(bids[i..], bids[i].priority)
    ensures i < j <= |bids|
    ensures MatchLevels(bids[i..], remaining, exhausted)
            == if remaining == 0 then
                 Prepend(Zeros(j - i), MatchLevels(bids[j..], 0, exhausted))
               else
                 var left := AfterLevel(bids[i..j], remaining);
                 Prepend(Allocate(bids[i..j], remaining), MatchLevels(bids[j..], left, left == 0))
  {
    assert bids[i..][..j - i] == bids[i..j] && bids[i..][j - i..] == bids[j..];
  }

  lemma LevelSupply(bids: seq<PendingBid>, i: nat, j: nat, supply: U64, remaining: U64)
    requires i <= j <= |bids| && Positive(bids)
    requires remaining == ClampU64(supply - Sum(bids[..i], Qty))
    ensures ClampU64(supply - Sum(bids[..j], Qty))
         == if remaining == 0 then 0 else AfterLevel(bids[i..j], remaining)
  {
    assert bids[..j] == bids[..i] + bids[i..j];
    SumConcat(bids[..i], bids[i..j], Qty);
    SumNonNegative(bids[..i], Qty);
    SumNonNegative(bids[i..j], Qty);
    AllocateTotal(bids[i..j], remaining);
  }

  lemma LevelBoundary(bids: seq<PendingBid>, i: nat, n: nat)
    requires Sorted(bids) && i < |bids| && Cut(bids, i)
    requires n == LevelLength(bids[i..], bids[i].priority)
    ensures IsLevel(bids, i, i + n, bids[i].priority) && Cut(bids, i + n)
  {
    var price, j := bids[i].priority, i + n;
    LevelLengthExact(bids[i..], price);
    assert forall k :: i <= k < j ==> bids[k] == bids[i..][k - i];
    forall m | j <= m < |bids| ensures bids[m].priority < price {
      assert bids[j] == bids[i..][n];
      assert !Before(bids[j], bids[i]) && (j < m ==> !Before(bids[m], bids[j]));
    }
  }

  /** The nested loops of the window hand every bid exactly its entitlement. */
  lemma MatchingIsEntitlement(window: seq<PendingBid>, supply: U64, k: nat)
    requires DistinctSeqs(window) && Positive(window) && k < |window|
    ensures |SortBids(window)| == |window|
    ensures MatchLevels(SortBids(window), supply, supply == 0).allocs[k]
         == Entitlement(window, supply, SortBids(window)[k])
  {
    var bids := SortBids(window);
    SortBidsSorts(window);
    SortKeepsDistinct(window);
    SortKeepsPositive(window);
    assert bids[..0] == [] && bids[0..] == bids;
    LoopIsEntitled(bids, 0, k, supply, supply);
    EntitlementUnordered(bids, window, supply, bids[k]);
  }

  lemma SortKeepsDistinct(window: seq<PendingBid>)
    requires DistinctSeqs(window)
    ensures DistinctSeqs(SortBids(window))
  {
    SortBidsSorts(window);
    forall n: U64 ensures Sum(SortBids(window), AtSeq(n)) <= 1 {
      SumPermutation(SortBids(window), window, AtSeq(n));
      assert Sum(window, AtSeq(n)) <= 1;
    }
  }

  lemma SortKeepsPositive(window: seq<PendingBid>)
    requires Positive(window)
    ensures Positive(SortBids(window))
  {
    SortBidsSorts(window);
    forall b | b in SortBids(window) ensures b.qty > 0 {
      assert b in multiset(SortBids(window));
    }
  }

  /** Entitlements depend on the set of bids only. */
  lemma EntitlementUnordered(xs: seq<PendingBid>, ys: seq<PendingBid>, supply: U64, b: PendingBid)
    requires multiset(xs) == multiset(ys)
    ensures Entitlement(xs, supply, b) == Entitlement(ys, supply, b)
  {
    var p := b.priority;
    var r, demand := LeftFor(xs, supply, p), Sum(xs, QtyAt(p));
    SumPermutation(xs, ys, QtyAbove(p));
    SumPermutation(xs, ys, QtyAt(p));
    if r < demand {
      SumPermutation(xs, ys, FlooredAt(p, r, demand));
      SumPermutation(xs, ys, EarlierAt(p, b.seqno));
    }
  }

  // ---------------------------------------------------------------- what the rules promise a bidder

  /** What the loops hand the `k`-th bid of the sorted window. */
  ghost function Share(window: seq<PendingBid>, supply: U64, k: nat): U64
    requires k < |window|
  {
    SortLength(window);
    MatchLevels(SortBids(window), supply, supply == 0).allocs[k]
  }

  /** The `k`-th bid in priority order. */
  ghost function Ranked(window: seq<PendingBid>, k: nat): PendingBid
    requires k < |window|
  {
    SortLength(window);
    SortBids(window)[k]
  }

  lemma ShareIsDue(window: seq<PendingBid>, supply: U64, k: nat)
    requires DistinctSeqs(window) && Positive(window) && k < |window|
    ensures Share(window, supply, k) == Entitlement(window, supply, Ranked(window, k))
    ensures Ranked(window, k) in window
  {
    MatchingIsEntitlement(window, supply, k);
    SortBidsSorts(window);
    assert SortBids(window)[k] in multiset(SortBids(window));
  }

  /** No bid is allocated more than it asked for; at a contested level it gets its floored pro-rata
      share or one unit more. */
  lemma AllocationBounds(window: seq<PendingBid>, supply: U64, k: nat)
    requires DistinctSeqs(window) && Positive(window) && k < |window|
    ensures var b := Ranked(window, k);
            var r, demand := LeftFor(window, supply, b.priority), Sum(window, QtyAt(b.priority));
            && Share(window, supply, k) <= b.qty
            && (demand > r ==> Share(window, supply, k) - r * b.qty / demand in {0, 1})
  {
    hide Share, Ranked;
    ShareIsDue(window, supply, k);
  }

  lemma {:induction false} SumAdds(bids: seq<PendingBid>, f: PendingBid -> int, g: PendingBid -> int, h: PendingBid -> int)
    requires forall b :: b in bids ==> f(b) + g(b) <= h(b)
    ensures Sum(bids, f) + Sum(bids, g) <= Sum(bids, h)
  {
    if bids != [] {
      SumAdds(bids[1..], f, g, h);
    }
  }

  lemma HigherPriorityIsDueFirst(window: seq<PendingBid>, supply: U64, b: PendingBid, c: PendingBid)
    requires Positive(window) && b in window && c in window
    requires c.priority > b.priority && Entitlement(window, supply, b) > 0
    ensures Entitlement(window, supply, c) == c.qty
  {
    if LeftFor(window, supply, b.priority) == 0 {
      var k :| 0 <= k < |window| && window[k] == b;
      NothingLeftNothingDue(window, k, supply);
    }
    SumAdds(window, QtyAbove(c.priority), QtyAt(c.priority), QtyAbove(b.priority));
    SumNonNegative(window, QtyAbove(c.priority));
  }

  /** Any bid allocated units implies every strictly higher-priority bid is filled in full. */
  lemma HigherPriorityFirst(window: seq<PendingBid>, supply: U64, k: nat, l: nat)
    requires DistinctSeqs(window) && Positive(window) && k < |window| && l < |window|
    requires Ranked(window, l).priority > Ranked(window, k).priority && Share(window, supply, k) > 0
    ensures Share(window, supply, l) == Ranked(window, l).qty
  {
    hide Share, Ranked, Entitlement;
    ShareIsDue(window, supply, k);
    ShareIsDue(window, supply, l);
    HigherPriorityIsDueFirst(window, supply, Ranked(window, k), Ranked(window, l));
  }

  /** The odd units of a contested level go to the earliest sequence numbers: of two bids the one
      ranked later never gets more above its floored share. */
  lemma OddUnitsGoToTheEarliest(window: seq<PendingBid>, supply: U64, k: nat, l: nat)
    requires DistinctSeqs(window) && Positive(window) && k <= l < |window|
    requires Ranked(window, k).priority == Ranked(window, l).priority
    requires var p := Ranked(window, k).priority; Sum(window, QtyAt(p)) > LeftFor(window, supply, p)
    ensures var b, c := Ranked(window, k), Ranked(window, l);
            var r, demand := LeftFor(window, supply, b.priority), Sum(window, QtyAt(b.priority));
            Share(window, supply, l) - r * c.qty / demand <= Share(window, supply, k) - r * b.qty / demand
  {
    var b, c := Ranked(window, k), Ranked(window, l);
    RankedInOrder(window, k, l);
    hide Share, Ranked;
    ShareIsDue(window, supply, k);
    ShareIsDue(window, supply, l);
    SumMonotone(window, EarlierAt(b.priority, b.seqno), EarlierAt(c.priority, c.seqno));
  }

  /** Ranks at one price are arrival order. */
  lemma RankedInOrder(window: seq<PendingBid>, k: nat, l: nat)
    requires k <= l < |window| && Ranked(window, k).priority == Ranked(window, l).priority
    ensures Ranked(window, k).seqno <= Ranked(window, l).seqno
  {
    SortBidsSorts(window);
    assert k < l ==> !Before(SortBids(window)[l], SortBids(window)[k]);
  }

  lemma {:induction false} SumPointwise(xs: seq<PendingBid>, ys: seq<PendingBid>, f: PendingBid -> int)
    requires |xs| == |ys|
    requires forall i :: 0 <= i < |xs| ==> f(xs[i]) == f(ys[i])
    ensures Sum(xs, f) == Sum(ys, f)
  {
    if xs != [] {
      SumPointwise(xs[1..], ys[1..], f);
    }
  }

  /** The same bids, under whatever sequence numbers they happened to be given. */
  ghost predicate Renumbered(xs: seq<PendingBid>, ys: seq<PendingBid>) {
    |xs| == |ys| && forall i :: 0 <= i < |xs| ==> ys[i] == xs[i].(seqno := ys[i].seqno)
  }

  lemma RenumberedDues(xs: seq<PendingBid>, ys: seq<PendingBid>, supply: U64, i: nat)
    requires Renumbered(xs, ys) && i < |xs|
    ensures -1 <= Entitlement(ys, supply, ys[i]) - Entitlement(xs, supply, xs[i]) <= 1
  {
    var p := xs[i].priority;
    SumPointwise(xs, ys, QtyAbove(p));
    SumPointwise(xs, ys, QtyAt(p));
    SumPointwise(xs, ys, FlooredAt(p, LeftFor(xs, supply, p), Max(0, Sum(xs, QtyAt(p)))));
  }

  /** Arrival order inside a window is worth at most one unit to anyone: renumber the bids, run the
      loops again, and no bid's allocation moves by more. */
  lemma ArrivalOrderIsWorthOneUnit(xs: seq<PendingBid>, ys: seq<PendingBid>, supply: U64, i: nat, k: nat, l: nat)
    requires Renumbered(xs, ys) && Positive(xs) && DistinctSeqs(xs) && DistinctSeqs(ys)
    requires i < |xs| && k < |xs| && l < |ys|
    requires Ranked(xs, k) == xs[i] && Ranked(ys, l) == ys[i]
    ensures -1 <= Share(ys, supply, l) - Share(xs, supply, k) <= 1
  {
    hide Share, Ranked, Entitlement;
    RenumberedPositive(xs, ys);
    ShareIsDue(xs, supply, k);
    ShareIsDue(ys, supply, l);
    RenumberedDues(xs, ys, supply, i);
  }

  lemma RenumberedPositive(xs: seq<PendingBid>, ys: seq<PendingBid>)
    requires Renumbered(xs, ys) && Positive(xs)
    ensures Positive(ys)
  {}

  /** ... and nothing to the window as a whole. */
  lemma ArrivalOrderSellsTheSame(xs: seq<PendingBid>, ys: seq<PendingBid>, supply: U64)
    requires Renumbered(xs, ys) && Positive(xs)
    ensures Sum(MatchLevels(SortBids(ys), supply, supply == 0).allocs, Units)
         == Sum(MatchLevels(SortBids(xs), supply, supply == 0).allocs, Units)
         == Min(Sum(xs, Qty), supply)
  {
    RenumberedPositive(xs, ys);
    SortKeepsPositive(xs);
    SortKeepsPositive(ys);
    SortBidsSorts(xs);
    SortBidsSorts(ys);
    MatchTotals(SortBids(xs), supply);
    MatchTotals(SortBids(ys), supply);
    SumPermutation(SortBids(xs), xs, Qty);
    SumPermutation(SortBids(ys), ys, Qty);
    SumPointwise(xs, ys, Qty);
  }

  // ---------------------------------------------------------------- the loops themselves

  lemma BonusStep(level: seq<PendingBid>, shares: seq<U64>, i: nat, left: nat)
    requires i < |level| == |shares| && left > 0
    ensures var short := shares[i] < level[i].qty;
            Bonus(level[i..], shares[i..], left)
            == [if short then shares[i] + 1 else shares[i]]
               + Bonus(level[i + 1..], shares[i + 1..], if short then left - 1 else left)
  {
    assert level[i..][1..] == level[i + 1..] && shares[i..][1..] == shares[i + 1..];
  }

  lemma BonusDone(level: seq<PendingBid>, shares: seq<U64>, left: nat)
    requires |shares| == |level|
    ensures level == [] || left == 0 ==> Bonus(level, shares, left) == shares
  {}

  /** One pass over the shares, a unit each while any are left. */
  method TopUp(level: seq<PendingBid>, shares: seq<U64>, units: nat) returns (alloc: seq<U64>)
    requires |shares| == |level|
    ensures alloc == Bonus(level, shares, units)
  {
    hide Bonus;
    alloc := shares;
    var left, i := units, 0;
    ghost var wanted := Bonus(level, shares, units);
    ghost var rest := wanted;
    while i < |level| && left > 0
      invariant 0 <= i <= |level| == |alloc| && 0 <= left
      invariant alloc[i..] == shares[i..]
      invariant rest == Bonus(level[i..], shares[i..], left)
      invariant wanted == alloc[..i] + rest
    {
      BonusStep(level, shares, i, left);
      ghost var done := alloc[..i];
      assert alloc[i] == alloc[i..][0] == shares[i];
      if alloc[i] < level[i].qty {
        alloc := alloc[i := alloc[i] + 1];
        left := left - 1;
      }
      rest := Bonus(level[i + 1..], shares[i + 1..], left);
      Regroup(done, [alloc[i]], rest);
      i := i + 1;
      assert alloc[..i] == done + [alloc[i - 1]];
    }
    BonusDone(level[i..], shares[i..], left);
    assert alloc == alloc[..i] + alloc[i..];
  }

  /** `allocate`. */
  method AllocateLevel(level: seq<PendingBid>, remaining: U64) returns (alloc: seq<U64>)
    ensures alloc == Allocate(level, remaining)
  {
    var demand := Sum(level, Qty);
    if demand <= remaining {
      return Quantities(level);
    }
    alloc := Floors(level, remaining, demand);
    LeftoverFits(level, remaining);
    alloc := TopUp(level, alloc, remaining - Sum(alloc, Units));
  }

  method FindLevelEnd(bids: seq<PendingBid>, i: nat) returns (j: nat)
    requires i < |bids|
    ensures j == i + LevelLength(bids[i..], bids[i].priority) <= |bids|
  {
    var price := bids[i].priority;
    j := i;
    while j < |bids| && bids[j].priority == price
      invariant i <= j <= |bids|
      invariant (j - i) + LevelLength(bids[j..], price) == LevelLength(bids[i..], price)
    {
      assert bids[j..][1..] == bids[j + 1..];
      j := j + 1;
    }
  }

  /** The body of the outer loop: serve the level `[i, j)`. */
  method ServeLevel(bids: seq<PendingBid>, i: nat, j: nat, remaining: U64, exhausted: bool)
    returns (served: seq<U64>, left: U64, out: bool)
    requires i < |bids| && j == i + LevelLength(bids[i..], bids[i].priority)
    ensures |served| == j - i && j <= |bids|
    ensures MatchLevels(bids[i..], remaining, exhausted) == Prepend(served, MatchLevels(bids[j..], left, out))
  {
    hide Allocate, MatchLevels;
    LoopStep(bids, i, j, remaining, exhausted);
    if remaining == 0 {
      return Zeros(j - i), remaining, exhausted;
    }
    served := AllocateLevel(bids[i..j], remaining);
    left := ClampU64(remaining - Sum(served, Units));
    out := left == 0;
  }

  /** The nested loops over price levels. */
  method MatchSorted(bids: seq<PendingBid>, supply: U64)
    returns (allocs: seq<U64>, remaining: U64, exhausted: bool)
    ensures Match(allocs, remaining, exhausted) == MatchLevels(bids, supply, false)
  {
    allocs, remaining, exhausted := [], supply, false;
    ghost var wanted := MatchLevels(bids, supply, false);
    ghost var rest := wanted;
    var i := 0;
    while i < |bids|
      invariant 0 <= i <= |bids|
      invariant rest == MatchLevels(bids[i..], remaining, exhausted)
      invariant wanted == Prepend(allocs, rest)
    {
      var served;
      var j := FindLevelEnd(bids, i);
      served, remaining, exhausted := ServeLevel(bids, i, j, remaining, exhausted);
      rest := MatchLevels(bids[j..], remaining, exhausted);
      PrependTwice(allocs, served, rest);
      allocs := allocs + served;
      i := j;
    }
    assert allocs == allocs + [];
  }
}
