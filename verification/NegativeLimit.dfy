/** What admissibility is for: the state machine itself accepts a resting limit below zero, and one is
    enough to break the promise that nobody exceeds the ceiling they posted. */
module NegativeLimit {
  import opened Auction
  import opened Bounded
  import opened History
  import opened Loops
  import opened Rules
  import opened Schedule
  import Ladder

  const Terms: Config := Config(1, PriceSchedule(10, 0, Stepped(100, 1)), 100, 0)

  /** Rest at minus one, take with the collateral that frees, withdraw. */
  function Sequence(): seq<LogRecord> {
    [LogRecord(0, 0, Open),
     LogRecord(1, 0, SubmitBid(7, 1, 10, BidKind.Resting(-1))),
     LogRecord(2, 0, SubmitBid(7, 2, 1, Take(10))),
     LogRecord(3, 0, CancelResting(7, 1))]
  }

  lemma OpeningPrices()
    ensures Terms.WellFormed()
    ensures Terms.PriceAt(0) == 10 && WindowIndex(Terms, 0) == 0 && WindowPrice(Terms, 0) == 10
  {}

  function Opened(): State {
    Init(Terms).(status := Live, lastSeq := Some(0))
  }

  function Rested(): State {
    Opened().(lastSeq := Some(1), resting := [RestingBid(1, 7, 1, 10, -1)],
              collateral := map[7 := Collateral(0, -10)], outcomes := map[1 := Outcome.Resting(10)])
  }

  function Taken(): State {
    Rested().(lastSeq := Some(2), collateral := map[7 := Collateral(0, 0)],
              window := Some(OpenWindow(0, 10, [PendingBid(2, 7, 2, 1, 10, 10, None)])),
              outcomes := map[1 := Outcome.Resting(10), 2 := Outcome.Queued(1)])
  }

  /** Ten units resting at minus one reserve minus ten. */
  lemma RestingFrees()
    ensures Terms.WellFormed() && Apply(Terms, Init(Terms), Sequence()[0]).st == Opened()
    ensures Apply(Terms, Opened(), Sequence()[1]).st == Rested()
  {
    OpeningPrices();
    hide Schedule.PriceAt, WindowPrice, WindowIndex;
    assert Ladder.Arriving([], RestingBid(1, 7, 1, 10, -1)) == [RestingBid(1, 7, 1, 10, -1)];
  }

  lemma TakingSpends()
    ensures Terms.WellFormed() && Apply(Terms, Rested(), Sequence()[2]).st == Taken()
  {
    OpeningPrices();
    hide Schedule.PriceAt, WindowPrice, WindowIndex;
    assert [] + [PendingBid(2, 7, 2, 1, 10, 10, None)] == [PendingBid(2, 7, 2, 1, 10, 10, None)];
    assert map[7 := Collateral(0, -10)][7 := Collateral(0, 0)] == map[7 := Collateral(0, 0)];
    assert map[1 := Outcome.Resting(10)][2 := Outcome.Queued(1)] == map[1 := Outcome.Resting(10), 2 := Outcome.Queued(1)];
  }

  lemma WithdrawingExceeds()
    ensures Terms.WellFormed() && Committed(Apply(Terms, Taken(), Sequence()[3]).st, 7) == 10
  {
    OpeningPrices();
    hide Schedule.PriceAt, WindowPrice;
    assert Ladder.Search([RestingBid(1, 7, 1, 10, -1)], 7, 1) == Some(0);
  }

  lemma RunOfFour(c: Config, r0: LogRecord, r1: LogRecord, r2: LogRecord, r3: LogRecord)
    requires c.WellFormed()
    ensures Run(c, [r0, r1, r2, r3]).st
         == Apply(c, Apply(c, Apply(c, Apply(c, Init(c), r0).st, r1).st, r2).st, r3).st
  {
    hide Apply;
    RunStep(c, [], r0);
    RunStep(c, [r0], r1);
    RunStep(c, [r0, r1], r2);
    RunStep(c, [r0, r1, r2], r3);
    assert [] + [r0] == [r0] && [r0] + [r1] == [r0, r1] && [r0, r1] + [r2] == [r0, r1, r2];
    assert [r0, r1, r2] + [r3] == [r0, r1, r2, r3];
  }

  lemma NobodyPosted(r0: LogRecord, r1: LogRecord, r2: LogRecord, r3: LogRecord, p: Participant)
    requires !r0.cmd.SetCollateral? && !r1.cmd.SetCollateral? && !r2.cmd.SetCollateral? && !r3.cmd.SetCollateral?
    ensures Peak([r0, r1, r2, r3], p) == 0
  {
    assert [r0, r1, r2, r3][..3] == [r0, r1, r2] && [r0, r1, r2][..2] == [r0, r1] && [r0, r1][..1] == [r0];
    assert [r0][..0] == [];
    assert Peak([], p) == 0;
    assert Peak([r0], p) == 0;
    assert Peak([r0, r1], p) == 0;
    assert Peak([r0, r1, r2], p) == 0;
  }

  /** A participant who never posted a ceiling ends up with ten units of price committed. */
  lemma NegativeLimitsBreakTheCeiling()
    ensures Terms.WellFormed() && Gapless(Sequence()) && !AllAdmissible(Sequence())
    ensures Peak(Sequence(), 7) == 0
    ensures Committed(Run(Terms, Sequence()).st, 7) == 10
  {
    hide Apply, Opened, Rested, Taken, Run, Committed, Peak;
    var log := Sequence();
    RestingFrees();
    TakingSpends();
    WithdrawingExceeds();
    assert !log[1].cmd.Admissible();
    RunOfFour(Terms, log[0], log[1], log[2], log[3]);
    NobodyPosted(log[0], log[1], log[2], log[3], 7);
    assert log == [log[0], log[1], log[2], log[3]];
  }
}
