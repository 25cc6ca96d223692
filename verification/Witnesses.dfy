/** One short auction on which the documentation's promises fail: a unit sold, a clock that steps inside
    the window, a ceiling lowered too late, and a retry after the boundary. */
module Witnesses {
  import opened Auction
  import opened Bounded
  import opened Fairness
  import opened History
  import opened Lifecycle
  import opened Loops
  import opened Money
  import opened Promises
  import opened Rules
  import opened Schedule
  import opened Soundness
  import opened Sums
  import Ladder
  import Matching
  import NegativeLimit

  /** One unit, falling by one every fifty instants, in windows of a hundred. */
  const Brief: Config := Config(1, PriceSchedule(10, 0, Stepped(50, 1)), 100, 0)

  lemma BriefPrices()
    ensures Brief.WellFormed()
    ensures Brief.PriceAt(0) == 10 && Brief.PriceAt(100) == 8
    ensures WindowIndex(Brief, 0) == 0 && WindowIndex(Brief, 100) == 1 && WindowPrice(Brief, 0) == 9
  {}

  const Ask: PendingBid := PendingBid(2, 7, 1, 1, 9, 9, None)

  /** A participant posts a hundred and takes the unit at the opening price. */
  function Opening(): seq<LogRecord> {
    [LogRecord(0, 0, Open),
     LogRecord(1, 0, SetCollateral(7, 100)),
     LogRecord(2, 0, SubmitBid(7, 1, 1, Take(10)))]
  }

  function Posted(): State {
    Init(Brief).(status := Live, lastSeq := Some(1), collateral := map[7 := Collateral(100, 0)])
  }

  function Taken(): State {
    Posted().(lastSeq := Some(2), collateral := map[7 := Collateral(100, 9)],
              window := Some(OpenWindow(0, 9, [Ask])), outcomes := map[1 := Outcome.Queued(1)])
  }

  lemma Posting()
    ensures Brief.WellFormed()
    ensures Apply(Brief, Apply(Brief, Init(Brief), Opening()[0]).st, Opening()[1]).st == Posted()
  {
    BriefPrices();
    hide Schedule.PriceAt, WindowPrice, WindowIndex;
    assert map[][7 := Collateral(100, 0)] == map[7 := Collateral(100, 0)];
  }

  lemma Taking()
    ensures Brief.WellFormed() && Apply(Brief, Posted(), Opening()[2]).st == Taken()
  {
    BriefPrices();
    hide Schedule.PriceAt, WindowPrice, WindowIndex;
    assert [] + [Ask] == [Ask];
    assert map[7 := Collateral(100, 0)][7 := Collateral(100, 9)] == map[7 := Collateral(100, 9)];
    assert map[][1 := Outcome.Queued(1)] == map[1 := Outcome.Queued(1)];
  }

  lemma OpeningRun()
    ensures Brief.WellFormed() && WellLogged(Opening()) && Run(Brief, Opening()).st == Taken()
  {
    hide Apply, Posted, Taken, Run;
    Posting();
    Taking();
    var log := Opening();
    RunStep(Brief, [], log[0]);
    RunStep(Brief, [log[0]], log[1]);
    RunStep(Brief, [log[0], log[1]], log[2]);
    assert [] + [log[0]] == [log[0]] && [log[0]] + [log[1]] == [log[0], log[1]];
    assert [log[0], log[1]] + [log[2]] == log;
    assert Run(Brief, []) == Step(Init(Brief), []) by { RunNothing(Brief); }
  }

  /** The window the next command finds elapsed, with demand equal to supply. */
  lemma TakenSellsOut(r: LogRecord)
    requires r.ts == 100
    ensures Elapsed(Brief, Taken(), r) && SellsOut(Taken()) && InWindow(Taken(), 1)
  {
    BriefPrices();
    assert Sum([Ask], Matching.Qty) == 1 by { assert [Ask][1..] == []; }
    assert [Ask][0].key == 1;
  }

  // ---------------------------------------------------------------- the clearing price

  /** The price has stepped on by the time the window closes, and the auction clears at a price the
      clock no longer shows; nor is it the price the bid came in at. */
  lemma ClearedAtAPriceGoneBy()
    ensures Brief.WellFormed() && WellLogged(Opening() + [LogRecord(3, 100, Tick)])
    ensures var t := Run(Brief, Opening() + [LogRecord(3, 100, Tick)]).st;
            t.status.Cleared? && t.now == 100 && t.clearing == Some(9) && Brief.PriceAt(t.now) == 8 && Brief.PriceAt(0) == 10
  {
    hide Run, SellsOut, Apply, Schedule.PriceAt, WindowPrice;
    OpeningRun();
    BriefPrices();
    var r := LogRecord(3, 100, Tick);
    TakenSellsOut(r);
    ClearingPriceExactly(Brief, Opening(), r);
  }

  // ---------------------------------------------------------------- the original answer

  /** A bid queued, and retried after the boundary: the answer is no longer the one it got. */
  lemma RetriedAfterTheBoundary()
    ensures Brief.WellFormed()
    ensures var r := LogRecord(3, 100, SubmitBid(7, 1, 1, Take(10)));
            && WellLogged(Opening() + [r])
            && Run(Brief, Opening()).st.outcomes == map[1 := Outcome.Queued(1)]
            && var ev := Apply(Brief, Run(Brief, Opening()).st, r).ev;
               ev != [] && ev[|ev| - 1] != Duplicate(1, Outcome.Queued(1))
  {
    hide Run, SellsOut, Apply, InWindow;
    OpeningRun();
    var r := LogRecord(3, 100, SubmitBid(7, 1, 1, Take(10)));
    TakenSellsOut(r);
    RetryAnswersTheSameExactly(Brief, Opening(), r);
  }

  // ---------------------------------------------------------------- the ceiling

  /** The ceiling is lowered under a bid in flight, and the bid then fills above it. */
  function Lowered(): seq<LogRecord> {
    Opening() + [LogRecord(3, 0, SetCollateral(7, 0))]
  }

  function Cornered(): State {
    Taken().(lastSeq := Some(3), collateral := map[7 := Collateral(0, 9)])
  }

  lemma Lowering()
    ensures Brief.WellFormed() && WellLogged(Lowered()) && Run(Brief, Lowered()).st == Cornered()
  {
    hide Run;
    OpeningRun();
    BriefPrices();
    RunStep(Brief, Opening(), LogRecord(3, 0, SetCollateral(7, 0)));
    hide Schedule.PriceAt, WindowPrice, WindowIndex;
    assert map[7 := Collateral(100, 9)][7 := Collateral(0, 9)] == map[7 := Collateral(0, 9)];
  }

  const Sale: Fill := Fill(0, 2, 7, 1, 1, 9)

  /** One bid for the one unit left is allocated it. */
  lemma MatchedToTheOne(s: State)
    requires Brief.WellFormed() && Sound(Brief, s) && s.status.Live? && s.supply == 1
    requires s.window == Some(OpenWindow(0, 9, [Ask]))
    ensures Matching.SortBids([Ask]) == [Ask]
    ensures Matched(s).allocs == [1] && Matched(s).exhausted
    ensures NothingOver([Ask], [1], true)
  {
    assert Matching.SortBids([Ask]) == [Ask] && Sum([Ask], Matching.Qty) == 1 by { assert [Ask][1..] == []; }
    hide Matched, Matching.SortBids;
    MatchedFacts(s);
    ExhaustedExactly(Brief, s);
    OnlyTerm(Matched(s).allocs);
  }

  lemma SaleRecorded()
    ensures NewFills(0, 9, [Ask], [1]) == [Sale] && [] + [Sale] == [Sale]
    ensures RepricedFrom([Sale], 9, 0) == [Sale]
    ensures Sum([Sale], FillCost(7)) == 9
  {
    assert [Ask][1..] == [] && [Sale][1..] == [];
    assert NewFills(1, 9, [], []) == [];
    assert [Sale] + [] == [Sale];
  }

  lemma SoldToTheOne(s: State)
    requires Brief.WellFormed() && Sound(Brief, s) && s.status.Live? && s.supply == 1
    requires s.fills == [] && s.nextFillId == 0 && s.window == Some(OpenWindow(0, 9, [Ask]))
    ensures Flush(s).st.fills == [Sale]
  {
    hide Sound, Matched, Settle, Clear, Flush, Matching.SortBids, NewFills, RepricedFrom, NothingOver;
    MatchedToTheOne(s);
    SaleRecorded();
    SettleFrame(s.(window := None, supply := Matched(s).remaining), 9, [Ask], [1], true);
    FlushSteps(s);
    ClearShape(SettledWindow(s).st, 9);
  }

  lemma OnlyTerm(xs: seq<U64>)
    requires |xs| == 1
    ensures Sum(xs, Matching.Units) == xs[0]
  {
    assert xs[1..] == [];
  }

  lemma CorneredSells(r: LogRecord)
    requires r == LogRecord(4, 100, Tick) && Brief.WellFormed() && Between(Brief, Cornered())
    ensures Closed(Brief, Cornered(), r).fills == [Sale]
  {
    BriefPrices();
    StampIsSoundly(Brief, Cornered(), r);
    hide Flush, Sound;
    SoldToTheOne(Stamp(Cornered(), 4, 100));
  }

  /** What the participant ends up paying exceeds the ceiling it is held to. */
  lemma FilledAboveTheCeiling()
    ensures Brief.WellFormed() && WellLogged(Lowered())
    ensures var s := Run(Brief, Lowered()).st;
            && Within(Run(Brief, Opening()).st, 7) && !Within(s, 7)
            && var t := Closed(Brief, s, LogRecord(4, 100, Tick));
               Ceiling(t, 7) == 0 && Sum(t.fills, FillCost(7)) == 9
  {
    hide Run, Balanced, Sound, Closed, Between, Secured, Sum;
    var s, r := Cornered(), LogRecord(4, 100, Tick);
    OpeningRun();
    Lowering();
    RunsAreSound(Brief, Lowered());
    RunsAreSecured(Brief, Lowered(), 7);
    SecuredBalances(s, Peak(Lowered(), 7), 7);
    ClosedBalances(Brief, s, r, 7);
    CorneredSells(r);
    SaleRecorded();
  }

  // ---------------------------------------------------------------- the ladder's running total

  function FreeRest(seqno: U64, key: Key): RestingBid {
    RestingBid(seqno, 7, key, I64_MAX, 0)
  }

  /** The three in a row. */
  function ThreeFree(): seq<RestingBid> {
    [FreeRest(1, 1), FreeRest(2, 2), FreeRest(3, 3)]
  }

  lemma Lining()
    ensures Ladder.Arriving([], FreeRest(1, 1)) == [FreeRest(1, 1)]
    ensures Ladder.Arriving([FreeRest(1, 1)], FreeRest(2, 2)) == [FreeRest(1, 1), FreeRest(2, 2)]
    ensures Ladder.Arriving([FreeRest(1, 1), FreeRest(2, 2)], FreeRest(3, 3)) == ThreeFree()
    ensures Sum(ThreeFree(), Ladder.RestingQty) > U64_MAX
  {
    var a, b, c := FreeRest(1, 1), FreeRest(2, 2), FreeRest(3, 3);
    assert [a][1..] == [] && [a, b][1..] == [b] && [b][1..] == [] && [a, b, c][1..] == [b, c] && [b, c][1..] == [c];
    assert [c][1..] == [];
    assert Ladder.AtLeast([b], 0) == 1 && Ladder.AtLeast([a], 0) == 1 && Ladder.AtLeast([a, b], 0) == 2;
    assert Sum([c], Ladder.RestingQty) == I64_MAX;
    assert Sum([b, c], Ladder.RestingQty) == 2 * I64_MAX;
  }

  /** Three bids at limit zero, and their units no longer fit a u64: the ladder's running total is not
      their sum. */
  method TotalLost() returns (ladder: Ladder.PriceLadder)
    ensures ladder.Valid() && ladder.Queue() == ThreeFree() && !ladder.Counted()
  {
    hide Ladder.Flat, Ladder.Arriving, Sum;
    Lining();
    ladder := new Ladder.PriceLadder();
    ladder.Insert(FreeRest(1, 1));
    ladder.Insert(FreeRest(2, 2));
    ladder.Insert(FreeRest(3, 3));
    assert !ladder.Counted();
  }

  /** A live auction in which participant 7 has nothing posted and nothing at stake. */
  ghost predicate Idle(s: State) {
    s.status.Live? && s.now == 0 && s.window == None && CollateralOf(s.collateral, 7) == Collateral(0, 0)
  }

  /** Resting at limit zero needs no collateral, whatever the quantity. */
  lemma RestsFree(s: State, n: U64, k: Key)
    requires Idle(s) && k !in s.outcomes
    ensures Brief.WellFormed()
    ensures var t := Apply(Brief, s, LogRecord(n, 0, SubmitBid(7, k, I64_MAX, BidKind.Resting(0)))).st;
            && Idle(t) && t.resting == Ladder.Arriving(s.resting, FreeRest(n, k))
            && t.outcomes.Keys == s.outcomes.Keys + {k}
  {
    BriefPrices();
    hide Schedule.PriceAt, Ladder.Arriving;
  }

  function FreeRun(): seq<LogRecord> {
    [LogRecord(0, 0, Open),
     LogRecord(1, 0, SubmitBid(7, 1, I64_MAX, BidKind.Resting(0))),
     LogRecord(2, 0, SubmitBid(7, 2, I64_MAX, BidKind.Resting(0))),
     LogRecord(3, 0, SubmitBid(7, 3, I64_MAX, BidKind.Resting(0)))]
  }

  lemma OpensIdle()
    ensures Brief.WellFormed()
    ensures var s := Apply(Brief, Init(Brief), LogRecord(0, 0, Open)).st;
            Idle(s) && s.resting == [] && s.outcomes == map[]
  {
    BriefPrices();
  }

  /** A run that rests them: no collateral was ever posted. */
  lemma TotalCanBeLost()
    ensures Brief.WellFormed() && WellLogged(FreeRun())
    ensures Run(Brief, FreeRun()).st.resting == ThreeFree()
    ensures Sum(Run(Brief, FreeRun()).st.resting, Ladder.RestingQty) > U64_MAX
  {
    hide Apply, Run, Idle, Ladder.Arriving, Sum, ThreeFree;
    var log := FreeRun();
    Lining();
    OpensIdle();
    var s0 := Apply(Brief, Init(Brief), log[0]).st;
    RestsFree(s0, 1, 1);
    var s1 := Apply(Brief, s0, log[1]).st;
    RestsFree(s1, 2, 2);
    var s2 := Apply(Brief, s1, log[2]).st;
    RestsFree(s2, 3, 3);
    NegativeLimit.RunOfFour(Brief, log[0], log[1], log[2], log[3]);
    assert log == [log[0], log[1], log[2], log[3]];
  }

  // ---------------------------------------------------------------- a descent too wide

  /** A clock that has one unit further to fall than an i64 can count. */
  const Deep: PriceSchedule := PriceSchedule(I64_MAX, -1, Stepped(1, 1))

  /** It is promised to reach its floor, and never does. */
  lemma FloorNeverReached(e: U64)
    ensures Deep.WellFormed() && Deep.Ticks()
    ensures TimeToReach(Deep, Deep.floor) == Some(I64_MAX)
    ensures Schedule.PriceAt(Deep, e) > Deep.floor
  {
    TooFar(Deep, -1, e);
    assert CeilDiv(I64_MAX, 1) == I64_MAX;
  }
}
