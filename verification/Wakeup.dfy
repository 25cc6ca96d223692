/** When the engine must wake itself: the deadline is exactly the next instant at which a tick
    matters, and every tick removes its own cause. */
module Wakeup {
  import opened Auction
  import opened Bounded
  import opened Rules
  import opened Schedule
  import opened Soundness
  import Ladder

  /** `window_close`: when the window containing `now` ends. */
  function WindowClose(c: Config, now: U64): Option<U64> {
    if c.batchWindow == 0 then None
    else Some(ClampU64(ClampU64(now / c.batchWindow + 1) * c.batchWindow))
  }

  function Earliest(a: Option<U64>, b: Option<U64>): Option<U64> {
    if a.None? then b else if b.None? then a else Some(Min(a.value, b.value))
  }

  function NotBefore(due: Option<U64>, now: U64): Option<U64> {
    if due.None? then None else Some(Max(due.value, now))
  }

  /** The earliest of three instants, none before `now`: window's end, next trigger, arrival at the floor. */
  function Deadline(c: Config, s: State): Option<U64>
    requires c.WellFormed()
  {
    if !s.status.Live? then None
    else
      var window := if s.window.Some? then WindowClose(c, s.now) else None;
      var trigger := if s.resting != [] then TimeToReach(c.schedule, s.resting[0].limit) else None;
      var floor := TimeToReach(c.schedule, c.schedule.floor);
      Earliest(Earliest(NotBefore(window, s.now), NotBefore(trigger, s.now)), NotBefore(floor, s.now))
  }

  ghost predicate Passed(due: Option<U64>, t: U64) {
    due.Some? && due.value <= t
  }

  // ---------------------------------------------------------------- the three causes

  ghost predicate WindowDue(c: Config, s: State, t: U64) {
    s.window.Some? && WindowIndex(c, t) > s.window.value.index
  }

  ghost predicate TriggerDue(c: Config, s: State, t: U64)
    requires c.WellFormed()
  {
    s.resting != [] && c.PriceAt(t) <= s.resting[0].limit
  }

  /** Something a tick at `t` would have to act on. */
  ghost predicate Due(c: Config, s: State, t: U64)
    requires c.WellFormed()
  {
    WindowDue(c, s, t) || TriggerDue(c, s, t) || AtFloor(c.schedule, t)
  }

  /** A window's closing time is exact short of the last instant of u64. */
  lemma WindowCloseIsExact(c: Config, now: U64, t: U64)
    requires t < U64_MAX
    ensures Passed(WindowClose(c, now), t) <==> c.batchWindow > 0 && WindowIndex(c, t) > WindowIndex(c, now)
  {
    if c.batchWindow > 0 {
      var next := now / c.batchWindow + 1;
      FloorReaches(t, c.batchWindow, next);
      if next > U64_MAX {
        MulMonotone(c.batchWindow, next, now);
        assert next <= now + 1;
      }
    }
  }

  /** The deadline has passed exactly when there is something to act on. */
  lemma DeadlineIsDue(c: Config, s: State, t: U64)
    requires c.WellFormed() && Between(c, s) && s.status.Live?
    requires s.now <= t < U64_MAX
    ensures Passed(Deadline(c, s), t) <==> Due(c, s, t)
  {
    hide TimeToReach, PriceAt, WindowClose, WindowIndex;
    WindowCloseIsExact(c, s.now, t);
    ClockAdjunction(c.schedule, c.schedule.floor, t);
    if s.resting != [] {
      ClockAdjunction(c.schedule, s.resting[0].limit, t);
    }
  }

  // ---------------------------------------------------------------- quiet ticks

  function TickAt(seqno: U64, ts: U64): LogRecord {
    LogRecord(seqno, ts, Tick)
  }

  lemma NothingTriggered(c: Config, s: State, t: U64)
    requires c.WellFormed() && !TriggerDue(c, s, t)
    ensures Ladder.Triggered(s.resting, c.PriceAt(t)) == [] && Ladder.Untriggered(s.resting, c.PriceAt(t)) == s.resting
  {}

  lemma TriggerNothing(c: Config, s: State)
    requires c.WellFormed() && !TriggerDue(c, s, s.now)
    ensures Trigger(c, s, s.now) == s
  {
    hide PriceAt, WindowPrice, WindowIndex;
    NothingTriggered(c, s, s.now);
  }

  lemma TickNothing(c: Config, s: State)
    requires c.WellFormed() && (s.status.Live? ==> !TriggerDue(c, s, s.now) && !AtFloor(c.schedule, s.now))
    requires c.batchWindow == 0 ==> s.window.None?
    ensures OnTick(c, s, s.now) == Step(s, [])
  {
    hide Trigger, TriggerDue, AtFloor, Flush, Bottom;
    if s.status.Live? {
      TriggerNothing(c, s);
      if s.window.None? {
        FlushNothing(s);
      }
    }
  }

  lemma CloseNothing(c: Config, s: State)
    requires !WindowDue(c, s, s.now)
    ensures CloseElapsed(c, s, s.now) == Step(s, [])
  {
    hide Flush;
  }

  /** With nothing due a tick only moves the clock. */
  lemma QuietTick(c: Config, s: State, seqno: U64, ts: U64)
    requires c.WellFormed() && Between(c, s)
    requires s.status.Live? ==> !Due(c, s, Max(ts, s.now))
    ensures Apply(c, s, TickAt(seqno, ts)) == Step(Stamp(s, seqno, ts), [])
  {
    hide OnTick, CloseElapsed, PriceAt, WindowIndex, WindowPrice, AtFloor, Ladder.Ordered, Ledger, Windowed;
    var stamped := Stamp(s, seqno, ts);
    CloseNothing(c, stamped);
    TickNothing(c, stamped);
  }

  // ---------------------------------------------------------------- progress

  function Measure(s: State): nat {
    2 * |s.resting| + (if s.window.Some? then |s.window.value.bids| else 0) + (if s.status.Live? then 1 else 0)
  }

  lemma FlushShrinks(c: Config, s: State)
    requires c.WellFormed() && Sound(c, s) && s.status.Live?
    ensures Measure(Flush(s).st) <= Measure(s)
    ensures s.window.Some? ==> Measure(Flush(s).st) < Measure(s)
  {
    hide Flush;
    if s.window.Some? {
      FlushIsSound(c, s);
    } else {
      FlushNothing(s);
    }
  }

  lemma TriggerShrinks(c: Config, s: State)
    requires c.WellFormed() && Sound(c, s) && Current(c, s) && s.status.Live?
    ensures Measure(Trigger(c, s, s.now)) <= Measure(s)
    ensures TriggerDue(c, s, s.now) ==> Measure(Trigger(c, s, s.now)) < Measure(s)
  {
    hide Trigger;
    TriggerShape(c, s);
  }

  /** A tick acts on every cause it finds, and each makes the auction smaller. */
  lemma TickShrinks(c: Config, s: State)
    requires c.WellFormed() && Sound(c, s) && Current(c, s)
    ensures var r := OnTick(c, s, s.now).st;
            && Measure(r) <= Measure(s)
            && (s.status.Live? && (TriggerDue(c, s, s.now) || AtFloor(c.schedule, s.now)) ==> Measure(r) < Measure(s))
            && (r.status.Live? ==> !Due(c, r, r.now))
  {
    hide Flush, Bottom, Trigger, Sound, Measure, TriggerDue, AtFloor;
    if s.status.Live? {
      TriggerIsSound(c, s);
      TriggerShrinks(c, s);
      TriggerSettles(c, s);
      var triggered := Trigger(c, s, s.now);
      var matched := if c.batchWindow == 0 then Flush(triggered) else Step(triggered, []);
      if c.batchWindow == 0 {
        FlushShrinks(c, triggered);
        if triggered.window.Some? {
          FlushIsSound(c, triggered);
        } else {
          FlushNothing(triggered);
        }
      }
      NotTriggeredTwice(c, triggered, matched.st);
      if matched.st.status == Live && AtFloor(c.schedule, s.now) {
        BottomIsSound(c, matched.st);
        CeasesToBeLive(c, matched.st);
      } else if matched.st.status != Live {
        EndedIsSmaller(c, s, matched.st);
      }
    }
  }

  lemma TriggerSettles(c: Config, s: State)
    requires c.WellFormed() && Sound(c, s) && Current(c, s) && s.status.Live?
    ensures !TriggerDue(c, Trigger(c, s, s.now), s.now)
  {
    hide Trigger;
    TriggerShape(c, s);
    Ladder.DrainSplits(s.resting, c.PriceAt(s.now));
  }

  lemma NotTriggeredTwice(c: Config, s: State, r: State)
    requires c.WellFormed() && !TriggerDue(c, s, s.now) && r.now == s.now && (r.resting == s.resting || r.resting == [])
    ensures !TriggerDue(c, r, r.now)
  {}

  lemma CeasesToBeLive(c: Config, s: State)
    requires c.WellFormed() && Sound(c, s) && s.status.Live? && AtFloor(c.schedule, s.now)
    ensures Measure(Bottom(c, s).st) < Measure(s)
  {
    hide Bottom;
    BottomIsSound(c, s);
  }

  lemma EndedIsSmaller(c: Config, s: State, r: State)
    requires c.WellFormed() && Sound(c, r) && !r.status.Live? && !r.status.Pending? && s.status.Live?
    ensures Measure(r) < Measure(s)
  {}

  lemma CloseShrinks(c: Config, s: State)
    requires c.WellFormed() && Sound(c, s) && (s.window.Some? ==> c.batchWindow > 0)
    ensures var r := CloseElapsed(c, s, s.now).st;
            && Measure(r) <= Measure(s)
            && (WindowDue(c, s, s.now) ==> Measure(r) < Measure(s))
            && (!WindowDue(c, s, s.now) ==> r == s)
            && (s.status.Live? ==> r.resting == s.resting || !r.status.Live?)
            && (s.status.Live? && !r.status.Live? ==> Measure(r) < Measure(s))
  {
    hide Flush;
    if s.window.Some? {
      FlushShrinks(c, s);
      FlushIsSound(c, s);
    }
  }

  /** A tick with something due shrinks the auction, and leaves nothing due at its own time. */
  lemma DueMakesProgress(c: Config, s: State, seqno: U64, ts: U64)
    requires c.WellFormed() && Between(c, s) && InSequence(s, seqno) && s.status.Live?
    ensures var r := Apply(c, s, TickAt(seqno, ts)).st;
            && r.now == Max(ts, s.now)
            && (Due(c, s, Max(ts, s.now)) ==> Measure(r) < Measure(s))
            && (r.status.Live? ==> !Due(c, r, r.now))
  {
    hide CloseElapsed, OnTick, Measure, Sound, AtFloor;
    var r := TickAt(seqno, ts);
    var stamped := Stamp(s, seqno, ts);
    assert stamped.window == s.window && stamped.resting == s.resting;
    StampIsSound(c, s, seqno, ts);
    ClosedIsSound(c, s, r);
    CloseShrinks(c, stamped);
    StampKeepsMeasure(s, seqno, ts);
    TickShrinks(c, Closed(c, s, r));
    ApplyIsSound(c, s, r);
  }

  lemma StampKeepsMeasure(s: State, seqno: U64, ts: U64)
    ensures Measure(Stamp(s, seqno, ts)) == Measure(s)
  {}

  // ---------------------------------------------------------------- the deadline

  /** A tick emits nothing and changes only the time and the sequence number. */
  ghost predicate Quiet(c: Config, s: State, seqno: U64, ts: U64)
    requires c.WellFormed()
  {
    Apply(c, s, TickAt(seqno, ts)) == Step(Stamp(s, seqno, ts), [])
  }

  /** A tick matters exactly when the auction is live and something is due. */
  lemma TickMattersExactly(c: Config, s: State, seqno: U64, ts: U64)
    requires c.WellFormed() && Between(c, s) && InSequence(s, seqno)
    ensures Quiet(c, s, seqno, ts) <==> !(s.status.Live? && Due(c, s, Max(ts, s.now)))
  {
    hide Apply, Due, Between;
    if s.status.Live? && Due(c, s, Max(ts, s.now)) {
      DueMakesProgress(c, s, seqno, ts);
      StampKeepsMeasure(s, seqno, ts);
    } else {
      QuietTick(c, s, seqno, ts);
    }
  }

  /** The deadline is exact: short of the last instant of u64, a tick is quiet exactly when it comes
      before the deadline, or when there is none. */
  lemma DeadlineIsExact(c: Config, s: State, seqno: U64, ts: U64)
    requires c.WellFormed() && Between(c, s) && InSequence(s, seqno)
    requires Max(ts, s.now) < U64_MAX
    ensures Quiet(c, s, seqno, ts) <==> !Passed(Deadline(c, s), Max(ts, s.now))
  {
    hide Quiet, Due, Between;
    TickMattersExactly(c, s, seqno, ts);
    if s.status.Live? {
      DeadlineIsDue(c, s, Max(ts, s.now));
    }
  }

  /** Whatever is due has a deadline. */
  lemma DueIsScheduled(c: Config, s: State, t: U64)
    requires c.WellFormed() && Between(c, s) && s.status.Live?
    requires Due(c, s, t)
    ensures Deadline(c, s).Some?
  {
    hide TimeToReach, PriceAt, WindowIndex, Sound;
    if TriggerDue(c, s, t) {
      ReachedIsReported(c.schedule, s.resting[0].limit, t);
    } else if AtFloor(c.schedule, t) {
      ReachedIsReported(c.schedule, c.schedule.floor, t);
    }
  }

  /** At which instants the deadline is right about a tick: all but the last, and at the last if there
      is no deadline or something really is due. */
  lemma WhenTheDeadlineIsExact(c: Config, s: State, seqno: U64, ts: U64)
    requires c.WellFormed() && Between(c, s) && InSequence(s, seqno)
    ensures var t: U64 := Max(ts, s.now);
            (Quiet(c, s, seqno, ts) <==> !Passed(Deadline(c, s), t))
            <==> t < U64_MAX || Deadline(c, s).None? || Due(c, s, t)
  {
    hide Quiet, Due, Between, Earliest, NotBefore;
    var t: U64 := Max(ts, s.now);
    TickMattersExactly(c, s, seqno, ts);
    if t < U64_MAX {
      DeadlineIsExact(c, s, seqno, ts);
    } else if s.status.Live? && Due(c, s, t) {
      DueIsScheduled(c, s, t);
    }
  }

  /** A tick the engine owed removes its own cause: the auction shrinks, and it has either ended or
      is next due strictly later than this tick. */
  lemma TickRemovesItsCause(c: Config, s: State, seqno: U64, ts: U64)
    requires c.WellFormed() && Between(c, s) && InSequence(s, seqno) && ts < U64_MAX
    ensures Passed(Deadline(c, s), ts) ==>
              var r := Apply(c, s, TickAt(seqno, ts)).st;
              && Measure(r) < Measure(s)
              && (r.status.Live? ==> !Passed(Deadline(c, r), ts))
              && (!r.status.Live? ==> Deadline(c, r) == None)
  {
    hide Apply, Due, Between, TimeToReach, WindowClose;
    if Passed(Deadline(c, s), ts) {
      assert s.now <= ts by { DeadlineIsLater(c, s); }
      DeadlineIsDue(c, s, ts);
      DueMakesProgress(c, s, seqno, ts);
      ApplyIsSound(c, s, TickAt(seqno, ts));
      var r := Apply(c, s, TickAt(seqno, ts)).st;
      if r.status.Live? {
        DeadlineIsDue(c, r, ts);
      }
    }
  }

  /** Deadlines are never reported before the state's own time. */
  lemma DeadlineIsLater(c: Config, s: State)
    requires c.WellFormed()
    ensures Deadline(c, s).Some? ==> s.now <= Deadline(c, s).value
  {}

  /** Ticks the engine issues to itself, with nothing arriving from outside. */
  ghost predicate SelfTicks(c: Config, s: State, ticks: seq<LogRecord>)
    requires c.WellFormed()
    decreases |ticks|
  {
    ticks == [] ||
    (&& ticks[0].cmd.Tick? && InSequence(s, ticks[0].seqno)
     && ticks[0].ts < U64_MAX && Passed(Deadline(c, s), ticks[0].ts)
     && SelfTicks(c, Apply(c, s, ticks[0]).st, ticks[1..]))
  }

  /** Left alone the engine issues only finitely many ticks, with a bound known in advance. */
  lemma {:induction false} SelfTicksAreFinite(c: Config, s: State, ticks: seq<LogRecord>)
    requires c.WellFormed() && Between(c, s)
    ensures SelfTicks(c, s, ticks) ==> |ticks| <= Measure(s)
    decreases |ticks|
  {
    hide Apply, Between, Measure, Deadline;
    if ticks != [] && SelfTicks(c, s, ticks) {
      var r := ticks[0];
      assert r == TickAt(r.seqno, r.ts);
      TickRemovesItsCause(c, s, r.seqno, r.ts);
      ApplyIsSound(c, s, r);
      SelfTicksAreFinite(c, Apply(c, s, r).st, ticks[1..]);
    }
  }

  // ---------------------------------------------------------------- the last instant

  /** One unit of price in all the time there is: the floor would take ten times that. */
  const Slow: Config := Config(1, PriceSchedule(10, 0, Stepped(U64_MAX, 1)), 0, 0)

  function LastInstant(): State {
    Init(Slow).(status := Live, lastSeq := Some(0), now := U64_MAX)
  }

  /** Why the results above stop one instant short of the last: there a saturated deadline has passed
      though nothing is due, and the tick it calls for does not remove it. */
  lemma SaturatedDeadlineStays()
    ensures Slow.WellFormed() && Between(Slow, LastInstant())
    ensures Passed(Deadline(Slow, LastInstant()), U64_MAX)
    ensures var r := Apply(Slow, LastInstant(), TickAt(1, U64_MAX));
            r.ev == [] && r.st == LastInstant().(lastSeq := Some(1)) && Passed(Deadline(Slow, r.st), U64_MAX)
  {
    var s := LastInstant();
    assert CeilDiv(10, 1) == 10;
    assert Slow.PriceAt(U64_MAX) == 9;
    hide PriceAt, Apply;
    assert Between(Slow, s);
    QuietTick(Slow, s, 1, U64_MAX);
  }
}
