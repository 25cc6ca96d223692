/** The engine's side of the wake-up bargain: reading the deadline off the live auction, and ticking
    it when nothing else arrives. */
module Engine {
  import opened Auction
  import opened Bounded
  import opened Rules
  import opened Schedule
  import opened Soundness
  import opened Wakeup
  import Machine

  /** `deadline`, read off the ladder of queues, the open window and the schedule. */
  method NextDeadline(auction: Machine.AuctionState) returns (due: Option<U64>)
    requires auction.Valid()
    ensures due == Deadline(auction.config, auction.Model())
  {
    hide TimeToReach;
    if auction.status != Live {
      return None;
    }
    var config, now := auction.config, auction.now;
    var window := if auction.window.Some? then WindowClose(config, now) else None;
    var limit := auction.resting.NextTrigger();
    var trigger := if limit.Some? then TimeToReach(config.schedule, limit.value) else None;
    var floor := TimeToReach(config.schedule, config.schedule.floor);
    due := Earliest(Earliest(NotBefore(window, now), NotBefore(trigger, now)), NotBefore(floor, now));
  }

  /** The engine left alone: at each reading of its clock it ticks the auction if the deadline has
      passed. However long that goes on, it writes no more ticks than the auction had work for, and
      it leaves nothing due. */
  method LeftAlone(auction: Machine.AuctionState, clock: seq<U64>, first: U64) returns (ticks: seq<LogRecord>)
    requires auction.Valid() && Between(auction.config, auction.Model())
    requires InSequence(auction.Model(), first) && first + |clock| <= U64_MAX
    requires forall i :: 0 <= i < |clock| ==> clock[i] < U64_MAX
    modifies auction, auction.resting
    ensures auction.Valid() && Between(auction.config, auction.Model())
    ensures |ticks| + Measure(auction.Model()) <= Measure(old(auction.Model()))
    ensures forall i :: 0 <= i < |ticks| ==> ticks[i].cmd.Tick? && ticks[i].seqno == first + i
    ensures clock != [] ==> !Passed(Deadline(auction.config, auction.Model()), clock[|clock| - 1])
  {
    hide Apply, Between, Measure, Deadline;
    ticks := [];
    var seqno := first;
    for i := 0 to |clock|
      invariant auction.Valid() && Between(auction.config, auction.Model()) && InSequence(auction.Model(), seqno)
      invariant seqno == first + |ticks| && |ticks| <= i
      invariant |ticks| + Measure(auction.Model()) <= Measure(old(auction.Model()))
      invariant forall j :: 0 <= j < |ticks| ==> ticks[j].cmd.Tick? && ticks[j].seqno == first + j
      invariant i > 0 ==> !Passed(Deadline(auction.config, auction.Model()), clock[i - 1])
    {
      var due := NextDeadline(auction);
      if due.Some? && clock[i] >= due.value {
        TickRemovesItsCause(auction.config, auction.Model(), seqno, clock[i]);
        ApplyIsSound(auction.config, auction.Model(), TickAt(seqno, clock[i]));
        var ev := auction.Apply(seqno, clock[i], Tick);
        ticks := ticks + [TickAt(seqno, clock[i])];
        seqno := seqno + 1;
      }
    }
  }
}
