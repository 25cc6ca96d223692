/** The resting-bid ladder: one flat queue ordered by (limit descending, arrival), and the map of
    per-limit queues that implements it. */
module Ladder {
  import opened Auction
  import opened Bounded
  import opened Sums

  // ---------------------------------------------------------------- the flat queue

  /** How many leading bids have a limit of at least `price`. */
  function AtLeast(flat: seq<RestingBid>, price: int): (n: nat)
    ensures n <= |flat|
  {
    if flat == [] || flat[0].limit < price then 0 else 1 + AtLeast(flat[1..], price)
  }

  /** `bid` placed behind every bid with a limit of at least `price`. */
  function InsertAt(flat: seq<RestingBid>, price: int, bid: RestingBid): seq<RestingBid> {
    var i := AtLeast(flat, price);
    flat[..i] + [bid] + flat[i..]
  }

  /** Last among the bids at its limit. */
  function Arriving(flat: seq<RestingBid>, bid: RestingBid): seq<RestingBid> {
    InsertAt(flat, bid.limit, bid)
  }

  /** First among the bids at its limit; a bid for nothing is dropped. */
  function Returning(flat: seq<RestingBid>, bid: RestingBid): seq<RestingBid> {
    if bid.qty == 0 then flat else InsertAt(flat, bid.limit + 1, bid)
  }

  function Triggered(flat: seq<RestingBid>, price: I64): seq<RestingBid> {
    flat[..AtLeast(flat, price)]
  }

  function Untriggered(flat: seq<RestingBid>, price: I64): seq<RestingBid> {
    flat[AtLeast(flat, price)..]
  }

  predicate Matches(bid: RestingBid, participant: Participant, key: Key) {
    bid.key == key && bid.participant == participant
  }

  /** The bid a withdrawal finds: the cheapest level holding one is searched first, and within it
      the earliest arrival wins. */
  function Search(flat: seq<RestingBid>, participant: Participant, key: Key): (found: Option<nat>)
    ensures found.Some? ==> found.value < |flat|
  {
    if flat == [] then None
    else
      var later := Search(flat[1..], participant, key);
      if later.Some? && !(Matches(flat[0], participant, key) && flat[0].limit == flat[1..][later.value].limit)
      then Some(1 + later.value)
      else if Matches(flat[0], participant, key) then Some(0)
      else None
  }

  function Without(flat: seq<RestingBid>, i: nat): seq<RestingBid>
    requires i < |flat|
  {
    flat[..i] + flat[i + 1..]
  }

  function RestingQty(b: RestingBid): int {
    b.qty
  }

  ghost predicate Ordered(flat: seq<RestingBid>) {
    forall i, j :: 0 <= i < j < |flat| ==>
      flat[i].limit > flat[j].limit || (flat[i].limit == flat[j].limit && flat[i].seqno < flat[j].seqno)
  }

  lemma {:induction false} AtLeastCuts(flat: seq<RestingBid>, price: int)
    requires forall i, j :: 0 <= i < j < |flat| ==> flat[i].limit >= flat[j].limit
    ensures forall k :: 0 <= k < |flat| ==> (flat[k].limit >= price <==> k < AtLeast(flat, price))
  {
    if flat != [] && flat[0].limit >= price {
      AtLeastCuts(flat[1..], price);
      assert forall k :: 1 <= k < |flat| ==> flat[k] == flat[1..][k - 1];
    }
  }

  /** A new arrival, sequenced after everything on the ladder, keeps the order. */
  lemma InsertKeepsOrder(flat: seq<RestingBid>, bid: RestingBid)
    requires Ordered(flat)
    requires forall b :: b in flat ==> b.seqno < bid.seqno
    ensures Ordered(Arriving(flat, bid))
  {
    hide AtLeast;
    AtLeastCuts(flat, bid.limit);
    var i, placed := AtLeast(flat, bid.limit), Arriving(flat, bid);
    assert forall k :: 0 <= k < i ==> placed[k] == flat[k];
    assert forall k :: i < k < |placed| ==> placed[k] == flat[k - 1];
  }

  /** Draining splits the queue into exactly the limits the clock has reached and the rest. */
  lemma DrainSplits(flat: seq<RestingBid>, price: I64)
    requires Ordered(flat)
    ensures Triggered(flat, price) + Untriggered(flat, price) == flat
    ensures forall b :: b in Triggered(flat, price) ==> b.limit >= price
    ensures forall b :: b in Untriggered(flat, price) ==> b.limit < price
    ensures Ordered(Triggered(flat, price)) && Ordered(Untriggered(flat, price))
  {
    AtLeastCuts(flat, price);
  }

  // ---------------------------------------------------------------- the map of queues

  lemma DrainUnits(flat: seq<RestingBid>, price: I64)
    ensures Sum(flat, RestingQty)
         == Sum(Triggered(flat, price), RestingQty) + Sum(Untriggered(flat, price), RestingQty)
    ensures Sum(Untriggered(flat, price), RestingQty) >= 0
  {
    assert flat == Triggered(flat, price) + Untriggered(flat, price);
    SumConcat(Triggered(flat, price), Untriggered(flat, price), RestingQty);
    SumNonNegative(Untriggered(flat, price), RestingQty);
  }

  type Levels = map<I64, seq<RestingBid>>

  /** No level is empty, and every bid hangs at its own limit. */
  ghost predicate WellFormed(levels: Levels) {
    forall p :: p in levels ==> levels[p] != [] && forall b :: b in levels[p] ==> b.limit == p
  }

  lemma {:induction false} MaxExists(s: set<I64>) returns (m: I64)
    requires s != {}
    ensures m in s && forall x :: x in s ==> x <= m
    decreases |s|
  {
    var first :| first in s;
    m := first;
    if s != {first} {
      var rest := MaxExists(s - {first});
      m := if first < rest then rest else first;
      assert forall x :: x in s ==> x == first || x in s - {first};
    }
  }

  /** The last key of the ordered map. */
  function MaxKey(levels: Levels): (m: I64)
    requires levels != map[]
    ensures m in levels && forall x :: x in levels ==> x <= m
  {
    assert exists m :: m in levels.Keys && forall x :: x in levels.Keys ==> x <= m by {
      var some :| some in levels;
      var m := MaxExists(levels.Keys);
    }
    var m :| m in levels.Keys && forall x :: x in levels.Keys ==> x <= m;
    m
  }

  /** The levels read off highest limit first. */
  ghost function Flat(levels: Levels): seq<RestingBid>
    decreases |levels|
  {
    if levels == map[] then []
    else
      var k := MaxKey(levels);
      Smaller(levels, k);
      levels[k] + Flat(levels - {k})
  }

  lemma Smaller(levels: Levels, k: I64)
    requires k in levels
    ensures |levels - {k}| < |levels|
  {
    assert (levels - {k}).Keys == levels.Keys - {k};
    assert |(levels - {k}).Keys| == |levels - {k}| && |levels.Keys| == |levels|;
  }

  /** Reading a map whose greatest key is `k`. */
  lemma FlatHead(levels: Levels, k: I64)
    requires k in levels && forall p :: p in levels ==> p <= k
    ensures Flat(levels) == levels[k] + Flat(levels - {k})
  {
    assert MaxKey(levels) == k;
  }

  lemma FlatBelow(levels: Levels, price: int)
    requires WellFormed(levels)
    requires forall p :: p in levels ==> p < price
    ensures AtLeast(Flat(levels), price) == 0
  {
    if levels != map[] {
      var k := MaxKey(levels);
      assert levels[k][0] in levels[k];
    }
  }

  lemma {:induction false} AtLeastConcat(xs: seq<RestingBid>, ys: seq<RestingBid>, price: int)
    requires forall b :: b in xs ==> b.limit >= price
    ensures AtLeast(xs + ys, price) == |xs| + AtLeast(ys, price)
  {
    if xs == [] {
      assert xs + ys == ys;
    } else {
      assert (xs + ys)[1..] == xs[1..] + ys;
      AtLeastConcat(xs[1..], ys, price);
    }
  }

  lemma InsertAtConcat(xs: seq<RestingBid>, ys: seq<RestingBid>, price: int, bid: RestingBid)
    requires forall b :: b in xs ==> b.limit >= price
    ensures InsertAt(xs + ys, price, bid) == xs + InsertAt(ys, price, bid)
  {
    hide AtLeast;
    AtLeastConcat(xs, ys, price);
    var j := AtLeast(ys, price);
    assert (xs + ys)[..|xs| + j] == xs + ys[..j] && (xs + ys)[|xs| + j..] == ys[j..];
  }

  lemma InsertAtFront(levels: Levels, price: int, bid: RestingBid)
    requires WellFormed(levels)
    requires forall p :: p in levels ==> p < price
    ensures InsertAt(Flat(levels), price, bid) == [bid] + Flat(levels)
  {
    FlatBelow(levels, price);
  }

  /** Taking the dearest level off the map. */
  lemma PeelLevel(levels: Levels, k: I64)
    requires WellFormed(levels)
    requires k in levels && forall p :: p in levels ==> p <= k
    ensures Flat(levels) == levels[k] + Flat(levels - {k})
    ensures Sum(Flat(levels), RestingQty) == Sum(levels[k], RestingQty) + Sum(Flat(levels - {k}), RestingQty)
    ensures Sum(Flat(levels - {k}), RestingQty) >= 0
    ensures WellFormed(levels - {k}) && |levels - {k}| < |levels|
  {
    FlatHead(levels, k);
    SumConcat(levels[k], Flat(levels - {k}), RestingQty);
    SumNonNegative(Flat(levels - {k}), RestingQty);
    Smaller(levels, k);
  }

  function PushBack(levels: Levels, bid: RestingBid): Levels {
    levels[bid.limit := (if bid.limit in levels then levels[bid.limit] else []) + [bid]]
  }

  /** `entry(limit).push_back` on the map is insertion behind the level in the flat queue. */
  lemma {:induction false} PushBackIsInsert(levels: Levels, bid: RestingBid)
    requires WellFormed(levels)
    ensures WellFormed(PushBack(levels, bid))
    ensures Flat(PushBack(levels, bid)) == Arriving(Flat(levels), bid)
    decreases |levels|
  {
    hide Flat, InsertAt, AtLeast;
    var pushed, limit := PushBack(levels, bid), bid.limit;
    if levels == map[] || MaxKey(levels) < limit {
      FlatHead(pushed, limit);
      assert pushed - {limit} == levels;
      InsertAtFront(levels, limit, bid);
    } else {
      var k := MaxKey(levels);
      var rest := levels - {k};
      FlatHead(levels, k);
      FlatHead(pushed, k);
      InsertAtConcat(levels[k], Flat(rest), limit, bid);
      if k == limit {
        assert pushed - {k} == rest;
        InsertAtFront(rest, limit, bid);
        Regroup(levels[k], [bid], Flat(rest));
      } else {
        assert pushed - {k} == PushBack(rest, bid);
        Smaller(levels, k);
        PushBackIsInsert(rest, bid);
      }
    }
  }

  function PushFront(levels: Levels, bid: RestingBid): Levels {
    levels[bid.limit := [bid] + (if bid.limit in levels then levels[bid.limit] else [])]
  }

  lemma PushFrontOnTop(levels: Levels, bid: RestingBid)
    requires WellFormed(levels)
    requires forall p :: p in levels ==> p <= bid.limit
    ensures Flat(PushFront(levels, bid)) == [bid] + Flat(levels)
  {
    hide Flat;
    var pushed, limit := PushFront(levels, bid), bid.limit;
    FlatHead(pushed, limit);
    if limit in levels {
      FlatHead(levels, limit);
      assert pushed - {limit} == levels - {limit};
      Regroup([bid], levels[limit], Flat(levels - {limit}));
    } else {
      assert pushed - {limit} == levels;
    }
  }

  /** `entry(limit).push_front` is insertion ahead of the level. */
  lemma {:induction false} PushFrontIsRequeue(levels: Levels, bid: RestingBid)
    requires WellFormed(levels)
    ensures WellFormed(PushFront(levels, bid))
    ensures Flat(PushFront(levels, bid)) == InsertAt(Flat(levels), bid.limit as int + 1, bid)
    decreases |levels|
  {
    hide Flat, InsertAt, AtLeast;
    if levels == map[] || MaxKey(levels) <= bid.limit {
      InsertAtFront(levels, bid.limit as int + 1, bid);
      PushFrontOnTop(levels, bid);
    } else {
      var k := MaxKey(levels);
      var rest := levels - {k};
      FlatHead(levels, k);
      FlatHead(PushFront(levels, bid), k);
      InsertAtConcat(levels[k], Flat(rest), bid.limit as int + 1, bid);
      assert PushFront(levels, bid) - {k} == PushFront(rest, bid);
      Smaller(levels, k);
      PushFrontIsRequeue(rest, bid);
    }
  }

  function SplitOff(levels: Levels, price: I64): Levels {
    map p | p in levels && p >= price :: levels[p]
  }

  function Below(levels: Levels, price: I64): Levels {
    map p | p in levels && p < price :: levels[p]
  }

  lemma DrainConcat(xs: seq<RestingBid>, ys: seq<RestingBid>, price: I64)
    requires forall b :: b in xs ==> b.limit >= price
    ensures Triggered(xs + ys, price) == xs + Triggered(ys, price)
    ensures Untriggered(xs + ys, price) == Untriggered(ys, price)
  {
    AtLeastConcat(xs, ys, price);
  }

  /** `split_off` cuts the flat queue where the drained prefix ends. */
  lemma {:induction false} SplitOffIsDrain(levels: Levels, price: I64)
    requires WellFormed(levels)
    ensures Flat(SplitOff(levels, price)) == Triggered(Flat(levels), price)
    ensures Flat(Below(levels, price)) == Untriggered(Flat(levels), price)
    decreases |levels|
  {
    hide AtLeast;
    var high, low := SplitOff(levels, price), Below(levels, price);
    if levels == map[] || MaxKey(levels) < price {
      assert high == map[] && low == levels;
      FlatBelow(levels, price);
    } else {
      hide Flat, Triggered, Untriggered;
      var k := MaxKey(levels);
      var rest := levels - {k};
      FlatHead(levels, k);
      FlatHead(high, k);
      DrainConcat(levels[k], Flat(rest), price);
      assert high - {k} == SplitOff(rest, price);
      assert low == Below(rest, price);
      Smaller(levels, k);
      SplitOffIsDrain(rest, price);
    }
  }

  // ---------------------------------------------------------------- withdrawal

  lemma {:induction false} SearchFinds(flat: seq<RestingBid>, participant: Participant, key: Key)
    ensures Search(flat, participant, key).Some? ==>
              Matches(flat[Search(flat, participant, key).value], participant, key)
    ensures Search(flat, participant, key).None? ==> forall b :: b in flat ==> !Matches(b, participant, key)
  {
    if flat != [] {
      SearchFinds(flat[1..], participant, key);
    }
  }

  lemma {:induction false} SearchNothing(flat: seq<RestingBid>, participant: Participant, key: Key)
    requires forall b :: b in flat ==> !Matches(b, participant, key)
    ensures Search(flat, participant, key) == None
  {
    if flat != [] {
      SearchNothing(flat[1..], participant, key);
    }
  }

  /** A find in a cheaper level is kept. */
  lemma {:induction false} SearchBehind(xs: seq<RestingBid>, ys: seq<RestingBid>, participant: Participant, key: Key)
    requires Search(ys, participant, key).Some?
    requires forall b :: b in xs ==> b.limit != ys[Search(ys, participant, key).value].limit
    ensures Search(xs + ys, participant, key) == Some(|xs| + Search(ys, participant, key).value)
  {
    if xs == [] {
      assert xs + ys == ys;
    } else {
      assert (xs + ys)[1..] == xs[1..] + ys;
      SearchBehind(xs[1..], ys, participant, key);
    }
  }

  /** Within the level the first match wins. */
  lemma {:induction false} SearchWithin(
    xs: seq<RestingBid>, ys: seq<RestingBid>, participant: Participant, key: Key, pos: nat)
    requires pos < |xs| && Matches(xs[pos], participant, key)
    requires forall i :: 0 <= i < pos ==> !Matches(xs[i], participant, key)
    requires forall i :: 0 <= i < |xs| ==> xs[i].limit == xs[0].limit
    requires forall b :: b in ys ==> !Matches(b, participant, key)
    ensures Search(xs + ys, participant, key) == Some(pos)
  {
    assert (xs + ys)[1..] == xs[1..] + ys;
    if pos > 0 {
      SearchWithin(xs[1..], ys, participant, key, pos - 1);
    } else {
      SearchFinds(xs[1..] + ys, participant, key);
    }
  }

  lemma {:induction false} FlatHolds(levels: Levels, b: RestingBid)
    requires WellFormed(levels)
    ensures b in Flat(levels) <==> b.limit in levels && b in levels[b.limit]
    decreases |levels|
  {
    if levels != map[] {
      var k := MaxKey(levels);
      Smaller(levels, k);
      FlatHolds(levels - {k}, b);
    }
  }

  function RemoveFrom(levels: Levels, k: I64, pos: nat): Levels
    requires k in levels && pos < |levels[k]|
  {
    var level := Without(levels[k], pos);
    if level == [] then levels - {k} else levels[k := level]
  }

  /** `pos` in level `k` is what a search of the cheapest levels first comes to. */
  ghost predicate FoundAt(levels: Levels, participant: Participant, key: Key, k: I64, pos: nat) {
    && k in levels && pos < |levels[k]| && Matches(levels[k][pos], participant, key)
    && (forall i :: 0 <= i < pos ==> !Matches(levels[k][i], participant, key))
    && (forall p :: p in levels && p < k ==> forall b :: b in levels[p] ==> !Matches(b, participant, key))
  }

  lemma FoundWithin(levels: Levels, participant: Participant, key: Key, k: I64, pos: nat)
    requires FoundAt(levels, participant, key, k, pos)
    ensures levels != map[] && k in levels && pos < |levels[k]|
  {}

  /** A dearer level out of the way changes nothing about the find. */
  lemma FoundBelow(levels: Levels, participant: Participant, key: Key, k: I64, pos: nat, top: I64)
    requires WellFormed(levels) && FoundAt(levels, participant, key, k, pos)
    requires top in levels && top != k
    ensures WellFormed(levels - {top}) && FoundAt(levels - {top}, participant, key, k, pos)
    ensures forall b :: b in levels[top] ==> b.limit != k
    ensures levels[k][pos].limit == k && (levels - {top})[k] == levels[k]
    ensures RemoveFrom(levels, k, pos) - {top} == RemoveFrom(levels - {top}, k, pos)
    ensures top in RemoveFrom(levels, k, pos) && RemoveFrom(levels, k, pos)[top] == levels[top]
  {
    assert levels[k][pos] in levels[k];
  }

  lemma RemoveKeepsWellFormed(levels: Levels, k: I64, pos: nat)
    requires WellFormed(levels) && k in levels && pos < |levels[k]|
    ensures WellFormed(RemoveFrom(levels, k, pos))
  {}

  /** Removing from a level, cheapest level first, is removing what the search of the flat queue
      finds. */
  lemma {:induction false} RemoveIsSearch(levels: Levels, participant: Participant, key: Key, k: I64, pos: nat)
    requires WellFormed(levels) && FoundAt(levels, participant, key, k, pos)
    ensures WellFormed(RemoveFrom(levels, k, pos))
    ensures var i := Search(Flat(levels), participant, key);
            && i.Some? && Flat(levels)[i.value] == levels[k][pos]
            && Flat(RemoveFrom(levels, k, pos)) == Without(Flat(levels), i.value)
    decreases |levels|
  {
    hide *;
    FoundWithin(levels, participant, key, k, pos);
    RemoveKeepsWellFormed(levels, k, pos);
    var top := MaxKey(levels);
    if top == k {
      RemoveFromTop(levels, participant, key, k, pos);
    } else {
      var rest := levels - {top};
      FlatHead(levels, top);
      Smaller(levels, top);
      FoundBelow(levels, participant, key, k, pos, top);
      RemoveIsSearch(rest, participant, key, k, pos);
      var j := Search(Flat(rest), participant, key).value;
      SearchBehind(levels[top], Flat(rest), participant, key);
      RemovedHead(levels, k, pos, top);
      WithoutBehind(levels[top], Flat(rest), j);
    }
  }

  lemma RemovedHead(levels: Levels, k: I64, pos: nat, top: I64)
    requires k in levels && pos < |levels[k]| && top != k
    requires top in levels && forall p :: p in levels ==> p <= top
    ensures Flat(RemoveFrom(levels, k, pos)) == levels[top] + Flat(RemoveFrom(levels, k, pos) - {top})
  {
    hide Flat;
    FlatHead(RemoveFrom(levels, k, pos), top);
  }

  lemma WithoutBehind(xs: seq<RestingBid>, ys: seq<RestingBid>, j: nat)
    requires j < |ys|
    ensures Without(xs + ys, |xs| + j) == xs + Without(ys, j)
    ensures (xs + ys)[|xs| + j] == ys[j]
  {
    assert (xs + ys)[..|xs| + j] == xs + ys[..j] && (xs + ys)[|xs| + j + 1..] == ys[j + 1..];
  }

  lemma RemoveFromTop(levels: Levels, participant: Participant, key: Key, k: I64, pos: nat)
    requires WellFormed(levels) && FoundAt(levels, participant, key, k, pos)
    requires forall p :: p in levels ==> p <= k
    ensures Search(Flat(levels), participant, key) == Some(pos)
    ensures Flat(levels)[pos] == levels[k][pos]
    ensures Flat(RemoveFrom(levels, k, pos)) == Without(Flat(levels), pos)
  {
    hide Flat, Search;
    var rest := levels - {k};
    FlatHead(levels, k);
    forall b | b in Flat(rest) ensures !Matches(b, participant, key) {
      FlatHolds(rest, b);
    }
    assert forall i :: 0 <= i < |levels[k]| ==> levels[k][i] in levels[k];
    SearchWithin(levels[k], Flat(rest), participant, key, pos);
    assert Without(levels[k] + Flat(rest), pos) == Without(levels[k], pos) + Flat(rest);
    if Without(levels[k], pos) != [] {
      FlatHead(RemoveFrom(levels, k, pos), k);
      assert RemoveFrom(levels, k, pos) - {k} == rest;
    }
  }

  // ---------------------------------------------------------------- the ladder

  class PriceLadder {
    var levels: Levels
    var totalQty: U64

    ghost predicate Valid()
      reads this
    {
      WellFormed(levels)
    }

    /** The ladder as one queue, in the order it fills. */
    ghost function Queue(): seq<RestingBid>
      reads this
    {
      Flat(levels)
    }

    /** The running total is the units on the ladder. */
    ghost predicate Counted()
      reads this
    {
      totalQty == Sum(Queue(), RestingQty)
    }

    constructor ()
      ensures Valid() && Queue() == [] && Counted()
    {
      levels, totalQty := map[], 0;
    }

    /** The highest resting limit, which is the next one a descending clock reaches. */
    method NextTrigger() returns (limit: Option<I64>)
      requires Valid()
      ensures limit == if Queue() == [] then None else Some(Queue()[0].limit)
    {
      if levels == map[] {
        return None;
      }
      var k := MaxKey(levels);
      assert levels[k][0] in levels[k];
      return Some(k);
    }

    method Insert(bid: RestingBid)
      requires Valid()
      modifies this
      ensures Valid() && Queue() == Arriving(old(Queue()), bid)
      ensures old(Counted()) ==> (Counted() <==> Sum(Queue(), RestingQty) <= U64_MAX)
    {
      PushBackIsInsert(levels, bid);
      SumInsert(Queue(), AtLeast(Queue(), bid.limit), bid, RestingQty);
      totalQty := ClampU64(totalQty + bid.qty);
      levels := PushBack(levels, bid);
    }

    method Requeue(bid: RestingBid)
      requires Valid()
      modifies this
      ensures Valid() && Queue() == Returning(old(Queue()), bid)
      ensures old(Counted()) ==> (Counted() <==> Sum(Queue(), RestingQty) <= U64_MAX)
    {
      if bid.qty == 0 {
        return;
      }
      PushFrontIsRequeue(levels, bid);
      SumInsert(Queue(), AtLeast(Queue(), (bid.limit as int) + 1), bid, RestingQty);
      totalQty := ClampU64(totalQty + bid.qty);
      levels := PushFront(levels, bid);
    }

    /** Splits the map at `price`; `Triggered` and `Untriggered` of the queue say what goes and what stays. */
    method DrainTriggered(price: I64) returns (out: seq<RestingBid>)
      requires Valid()
      modifies this
      ensures Valid()
      ensures out == Triggered(old(Queue()), price) && Queue() == Untriggered(old(Queue()), price)
      ensures old(Counted()) ==> Counted()
    {
      SplitOffIsDrain(levels, price);
      DrainUnits(Queue(), price);
      var triggered := SplitOff(levels, price);
      levels := Below(levels, price);
      out := CollectLevels(triggered, Sum(Queue(), RestingQty));
    }

    /** The outer loop of a drain: levels from the dearest down. */
    method CollectLevels(triggered: Levels, ghost kept: nat) returns (out: seq<RestingBid>)
      requires WellFormed(triggered)
      modifies this`totalQty
      ensures out == Flat(triggered)
      ensures old(totalQty) == Sum(Flat(triggered), RestingQty) + kept ==> totalQty == kept
    {
      var rest := triggered;
      out := [];
      while rest != map[]
        invariant WellFormed(rest)
        invariant out + Flat(rest) == Flat(triggered)
        invariant old(totalQty) == Sum(Flat(triggered), RestingQty) + kept ==>
                    totalQty == Sum(Flat(rest), RestingQty) + kept
        decreases |rest|
      {
        var k := MaxKey(rest);
        PeelLevel(rest, k);
        Regroup(out, rest[k], Flat(rest - {k}));
        DrainLevel(rest[k], Sum(Flat(rest - {k}), RestingQty) + kept);
        out := out + rest[k];
        rest := rest - {k};
      }
    }

    /** The inner loop of a drain: take one level's units off the running total. */
    method DrainLevel(level: seq<RestingBid>, ghost others: nat)
      modifies this`totalQty
      ensures old(totalQty) == Sum(level, RestingQty) + others ==> totalQty == others
    {
      for i := 0 to |level|
        invariant old(totalQty) == Sum(level, RestingQty) + others ==>
                    totalQty == Sum(level[i..], RestingQty) + others
      {
        assert level[i..][1..] == level[i + 1..];
        SumNonNegative(level[i + 1..], RestingQty);
        totalQty := ClampU64(totalQty - level[i].qty);
      }
    }

    /** Empties the map from its greatest key down, which is queue order. */
    method DrainAll() returns (out: seq<RestingBid>)
      requires Valid()
      modifies this
      ensures Valid() && out == old(Queue()) && Queue() == [] && Counted()
    {
      totalQty := 0;
      var taken := levels;
      levels := map[];
      out := [];
      while taken != map[]
        invariant levels == map[] && totalQty == 0
        invariant out + Flat(taken) == old(Queue())
        decreases |taken|
      {
        var k := MaxKey(taken);
        Regroup(out, taken[k], Flat(taken - {k}));
        out := out + taken[k];
        Smaller(taken, k);
        taken := taken - {k};
      }
    }

    /** Takes out the one bid `Search` points to, and its level with it if nothing is left there. */
    method Remove(participant: Participant, key: Key) returns (found: Option<RestingBid>)
      requires Valid()
      modifies this
      ensures Valid()
      ensures var i := Search(old(Queue()), participant, key);
              if i.None? then found == None && Queue() == old(Queue())
              else found == Some(old(Queue())[i.value]) && Queue() == Without(old(Queue()), i.value)
      ensures old(Counted()) ==> Counted()
    {
      var k, pos := Locate(levels, participant, key);
      if k.None? {
        forall b | b in Queue() ensures !Matches(b, participant, key) {
          FlatHolds(levels, b);
        }
        SearchNothing(Queue(), participant, key);
        return None;
      }
      RemoveIsSearch(levels, participant, key, k.value, pos);
      ghost var i := Search(Queue(), participant, key).value;
      SumRemove(Queue(), i, RestingQty);
      SumNonNegative(Without(Queue(), i), RestingQty);
      found := Some(levels[k.value][pos]);
      totalQty := ClampU64(totalQty - found.value.qty);
      levels := RemoveFrom(levels, k.value, pos);
    }
  }

  /** The loop over levels in ascending order. */
  method Locate(levels: Levels, participant: Participant, key: Key) returns (k: Option<I64>, pos: nat)
    ensures k.None? ==> forall p :: p in levels ==> forall b :: b in levels[p] ==> !Matches(b, participant, key)
    ensures k.Some? ==>
              && k.value in levels && pos < |levels[k.value]| && Matches(levels[k.value][pos], participant, key)
              && (forall i :: 0 <= i < pos ==> !Matches(levels[k.value][i], participant, key))
              && forall p :: p in levels && p < k.value ==>
                   forall b :: b in levels[p] ==> !Matches(b, participant, key)
  {
    var unseen := levels.Keys;
    pos := 0;
    while unseen != {}
      invariant unseen <= levels.Keys
      invariant forall p :: p in levels && p !in unseen ==>
                  forall b :: b in levels[p] ==> !Matches(b, participant, key)
      decreases |unseen|
    {
      var least := MinOf(unseen);
      pos := FirstMatch(levels[least], participant, key);
      if pos < |levels[least]| {
        return Some(least), pos;
      }
      unseen := unseen - {least};
    }
    k := None;
  }

  method FirstMatch(level: seq<RestingBid>, participant: Participant, key: Key) returns (pos: nat)
    ensures pos <= |level|
    ensures forall i :: 0 <= i < pos ==> !Matches(level[i], participant, key)
    ensures pos < |level| ==> Matches(level[pos], participant, key)
  {
    pos := 0;
    while pos < |level| && !Matches(level[pos], participant, key)
      invariant pos <= |level|
      invariant forall i :: 0 <= i < pos ==> !Matches(level[i], participant, key)
    {
      pos := pos + 1;
    }
  }

  lemma {:induction false} MinExists(s: set<I64>) returns (m: I64)
    requires s != {}
    ensures m in s && forall x :: x in s ==> m <= x
    decreases |s|
  {
    var first :| first in s;
    m := first;
    if s != {first} {
      var rest := MinExists(s - {first});
      m := if first < rest then first else rest;
      assert forall x :: x in s ==> x == first || x in s - {first};
    }
  }

  function MinOf(s: set<I64>): (m: I64)
    requires s != {}
    ensures m in s && forall x :: x in s ==> m <= x
  {
    assert exists m :: m in s && forall x :: x in s ==> m <= x by {
      var m := MinExists(s);
    }
    var m :| m in s && forall x :: x in s ==> m <= x;
    m
  }
}
