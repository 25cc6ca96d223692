/** The auction as a function from one state and command to the next state and its events. */
module Rules {
  import opened Auction
  import opened Bounded
  import opened Schedule
  import Ladder
  import Matching

  datatype State = State(
    status: Status,
    supply: U64,
    clearing: Option<I64>,
    fills: seq<Fill>,
    nextFillId: nat,
    resting: seq<RestingBid>,
    window: Option<OpenWindow>,
    outcomes: map<Key, Outcome>,
    collateral: map<Participant, Collateral>,
    lastSeq: Option<U64>,
    now: U64)

  /** A state and the events that led to it. */
  datatype Step = Step(st: State, ev: seq<Event>)

  function Init(config: Config): State {
    State(Pending, config.totalSupply, None, [], 0, [], None, map[], map[], None, 0)
  }

  // ---------------------------------------------------------------- collateral

  function CollateralOf(coll: map<Participant, Collateral>, p: Participant): Collateral {
    if p in coll then coll[p] else Collateral(0, 0)
  }

  function Available(c: Collateral): I64 {
    ClampI64(c.limit - c.committed)
  }

  function Commit(coll: map<Participant, Collateral>, p: Participant, price: I64, qty: U64)
    : map<Participant, Collateral>
  {
    var c, cost := CollateralOf(coll, p), CheckedCost(price, qty);
    var amount := if cost.Some? then cost.value else I64_MAX;
    coll[p := c.(committed := ClampI64(c.committed + amount))]
  }

  function Release(coll: map<Participant, Collateral>, p: Participant, price: I64, qty: U64)
    : map<Participant, Collateral>
  {
    var c, cost := CollateralOf(coll, p), CheckedCost(price, qty);
    var amount := if cost.Some? then cost.value else 0;
    coll[p := c.(committed := ClampI64(c.committed - amount))]
  }

  predicate CanReserve(coll: map<Participant, Collateral>, p: Participant, price: I64, qty: U64) {
    var cost := CheckedCost(price, qty);
    cost.Some? && cost.value <= Available(CollateralOf(coll, p))
  }

  /** `reserve` opens an account for the participant even when it then refuses. */
  function Reserve(coll: map<Participant, Collateral>, p: Participant, price: I64, qty: U64)
    : map<Participant, Collateral>
  {
    if CheckedCost(price, qty).None? then coll
    else if CanReserve(coll, p, price, qty) then Commit(coll, p, price, qty)
    else coll[p := CollateralOf(coll, p)]
  }

  // ---------------------------------------------------------------- outcomes

  /** The merge of a new outcome into the record; `Keys.FillSurvivesExactly` says what it preserves. */
  function SetOutcome(outcomes: map<Key, Outcome>, key: Key, outcome: Outcome): map<Key, Outcome> {
    var prior := if key in outcomes then Some(outcomes[key]) else None;
    outcomes[key :=
      if prior.Some? && prior.value.Filled? && outcome.Filled? then
        Outcome.Filled(ClampU64(prior.value.qty + outcome.qty), outcome.price)
      else if prior.Some? && prior.value.Filled? && outcome.Cancelled? then
        FilledThenCancelled(prior.value.qty, prior.value.price)
      else if prior.Some? && prior.value.Filled? && outcome.Rejected? then prior.value
      else if prior.Some? && prior.value.FilledThenCancelled? then prior.value
      else outcome]
  }

  function Reject(s: State, key: Key, reason: RejectReason): Step {
    Step(s.(outcomes := SetOutcome(s.outcomes, key, Outcome.Rejected(reason))), [Event.Rejected(key, reason)])
  }

  // ---------------------------------------------------------------- windows

  function WindowIndex(c: Config, ts: U64): U64 {
    if c.batchWindow == 0 then ts else ts / c.batchWindow
  }

  /** The last instant of window `index`. */
  function WindowLast(c: Config, index: U64): U64 {
    if c.batchWindow == 0 then index
    else ClampU64(ClampU64(index * c.batchWindow) + (c.batchWindow - 1))
  }

  /** What a fill in window `index` costs per unit; `Soundness.WindowPriceBounds` compares it with the clock. */
  function WindowPrice(c: Config, index: U64): I64
    requires c.WellFormed()
  {
    c.PriceAt(WindowLast(c, index))
  }

  function PushPending(s: State, index: U64, price: I64, bid: PendingBid): State {
    var w := if s.window.Some? then s.window.value else OpenWindow(index, price, []);
    s.(window := Some(w.(bids := w.bids + [bid])))
  }

  // ---------------------------------------------------------------- answering bids in flight

  /** Give back every reservation in `bids` and answer each with `reason`. */
  function RefusePending(s: State, bids: seq<PendingBid>, reason: RejectReason): Step
    decreases |bids|
  {
    if bids == [] then Step(s, [])
    else
      var b := bids[0];
      var one := Reject(s.(collateral := Release(s.collateral, b.participant, b.reservePrice, b.qty)), b.key, reason);
      var rest := RefusePending(one.st, bids[1..], reason);
      Step(rest.st, one.ev + rest.ev)
  }

  function RefuseResting(s: State, bids: seq<RestingBid>, reason: RejectReason): Step
    decreases |bids|
  {
    if bids == [] then Step(s, [])
    else
      var b := bids[0];
      var one := Reject(s.(collateral := Release(s.collateral, b.participant, b.limit, b.qty)), b.key, reason);
      var rest := RefuseResting(one.st, bids[1..], reason);
      Step(rest.st, one.ev + rest.ev)
  }

  // ---------------------------------------------------------------- clearing

  function TotalFilled(fills: seq<Fill>): U64 {
    if fills == [] then 0
    else ClampU64(TotalFilled(fills[..|fills| - 1]) + fills[|fills| - 1].qty)
  }

  /** The outcome a retry is answered from follows the fill it mirrors. */
  function Quote(outcomes: map<Key, Outcome>, key: Key, price: I64): map<Key, Outcome> {
    if key in outcomes && (outcomes[key].Filled? || outcomes[key].FilledThenCancelled?) then
      outcomes[key := outcomes[key].(price := price)]
    else outcomes
  }

  function RepriceOne(s: State, price: I64, i: nat): Step
    requires i < |s.fills|
  {
    var f := s.fills[i];
    var s1 := s.(outcomes := Quote(s.outcomes, f.key, price));
    if f.price == price then Step(s1, [])
    else
      Step(s1.(collateral := Release(s1.collateral, f.participant, ClampI64(f.price - price), f.qty),
               fills := s1.fills[i := f.(price := price)]),
           [Repriced(f.id, f.price, price)])
  }

  function RepriceFrom(s: State, price: I64, i: nat): (r: Step)
    requires i <= |s.fills|
    decreases |s.fills| - i
  {
    if i == |s.fills| then Step(s, [])
    else
      var one := RepriceOne(s, price, i);
      assert |one.st.fills| == |s.fills|;
      var rest := RepriceFrom(one.st, price, i + 1);
      Step(rest.st, one.ev + rest.ev)
  }

  /** End the auction at `price`. */
  function Clear(s: State, price: I64): Step {
    var repriced := RepriceFrom(s.(status := Status.Cleared, clearing := Some(price)), price, 0);
    var refused := RefuseResting(repriced.st.(resting := []), repriced.st.resting, Unfilled);
    Step(refused.st,
         repriced.ev + refused.ev
         + [Event.Cleared(price, TotalFilled(refused.st.fills), refused.st.supply)])
  }

  // ---------------------------------------------------------------- matching a window

  function FillOf(s: State, b: PendingBid, alloc: U64, price: I64): Fill {
    Fill(s.nextFillId, b.seqno, b.participant, b.key, alloc, price)
  }

  /** One matched bid: settle its reservation, then fill it or turn it away. */
  function SettleOne(s: State, price: I64, b: PendingBid, alloc: U64, exhausted: bool): Step {
    var s1 := s.(collateral := Release(s.collateral, b.participant, b.reservePrice, b.qty));
    if alloc == 0 then Reject(s1, b.key, SupplyExhausted)
    else
      var fill := FillOf(s, b, alloc, price);
      var s2 := s1.(collateral := Commit(s1.collateral, b.participant, price, alloc),
                    nextFillId := s.nextFillId + 1,
                    fills := s.fills + [fill],
                    outcomes := SetOutcome(s.outcomes, b.key, Outcome.Filled(alloc, price)));
      var remainder := ClampU64(b.qty - alloc);
      if b.restingLimit.Some? && remainder != 0 && !exhausted then
        var limit := b.restingLimit.value;
        Step(s2.(collateral := Commit(s2.collateral, b.participant, limit, remainder),
                 resting := Ladder.Returning(s2.resting, RestingBid(b.seqno, b.participant, b.key, remainder, limit))),
             [Event.Filled(fill)])
      else Step(s2, [Event.Filled(fill)])
  }

  function Settle(s: State, price: I64, bids: seq<PendingBid>, allocs: seq<U64>, exhausted: bool): Step
    requires |allocs| == |bids|
    decreases |bids|
  {
    if bids == [] then Step(s, [])
    else
      var one := SettleOne(s, price, bids[0], allocs[0], exhausted);
      var rest := Settle(one.st, price, bids[1..], allocs[1..], exhausted);
      Step(rest.st, one.ev + rest.ev)
  }

  /** Closing the open window, whether it has elapsed or is settled on the spot. */
  function Flush(s: State): Step {
    if s.window.None? then Step(s, [])
    else
      var w, taken := s.window.value, s.(window := None);
      if s.status != Live then RefusePending(taken, w.bids, NotLive)
      else
        var bids := Matching.SortBids(w.bids);
        var m := Matching.MatchLevels(bids, s.supply, false);
        Matching.SortLength(w.bids);
        var settled := Settle(taken.(supply := m.remaining), w.price, bids, m.allocs, m.exhausted);
        if m.exhausted then
          var cleared := Clear(settled.st, w.price);
          Step(cleared.st, settled.ev + cleared.ev)
        else settled
  }

  /** The step every command begins with: a window that `ts` lies beyond is closed. */
  function CloseElapsed(c: Config, s: State, ts: U64): Step {
    if s.window.Some? && WindowIndex(c, ts) > s.window.value.index then Flush(s) else Step(s, [])
  }

  // ---------------------------------------------------------------- commands

  function OnOpen(c: Config, s: State): Step {
    if s.status != Pending then Step(s, [])
    else Step(s.(status := Live), [Opened(c.schedule.start, c.totalSupply)])
  }

  function OnSetCollateral(s: State, p: Participant, ceiling: I64): Step {
    Step(s.(collateral := s.collateral[p := CollateralOf(s.collateral, p).(limit := ceiling)]),
         [CollateralSet(p, ceiling)])
  }

  function OnTake(c: Config, s: State, seqno: U64, ts: U64, p: Participant, key: Key, qty: U64, expected: I64): Step
    requires c.WellFormed()
  {
    var clock := c.PriceAt(ts);
    if Max(clock - expected, expected - clock) > c.priceTolerance then
      Reject(s, key, PriceMoved(clock))
    else
      var index := WindowIndex(c, ts);
      var price := WindowPrice(c, index);
      var reserved := s.(collateral := Reserve(s.collateral, p, price, qty));
      if !CanReserve(s.collateral, p, price, qty) then Reject(reserved, key, InsufficientCollateral)
      else
        var queued := PushPending(reserved, index, price, PendingBid(seqno, p, key, qty, price, price, None));
        var answered := queued.(outcomes := SetOutcome(queued.outcomes, key, Outcome.Queued(qty)));
        var ev := [Event.Queued(key, p, qty, price)];
        if c.batchWindow == 0 then
          var flushed := Flush(answered);
          Step(flushed.st, ev + flushed.ev)
        else Step(answered, ev)
  }

  function OnRest(c: Config, s: State, seqno: U64, ts: U64, p: Participant, key: Key, qty: U64, limit: I64): Step
    requires c.WellFormed()
  {
    var clock := c.PriceAt(ts);
    if limit > clock then Reject(s, key, LimitAboveClock(clock))
    else
      var reserved := s.(collateral := Reserve(s.collateral, p, limit, qty));
      if !CanReserve(s.collateral, p, limit, qty) then Reject(reserved, key, InsufficientCollateral)
      else
        Step(reserved.(resting := Ladder.Arriving(s.resting, RestingBid(seqno, p, key, qty, limit)),
                       outcomes := SetOutcome(s.outcomes, key, Outcome.Resting(qty))),
             [Rested(key, p, qty, limit)])
  }

  function OnBid(c: Config, s: State, seqno: U64, ts: U64, p: Participant, key: Key, qty: U64, kind: BidKind): Step
    requires c.WellFormed()
  {
    if key in s.outcomes then Step(s, [Duplicate(key, s.outcomes[key])])
    else if qty == 0 then Reject(s, key, ZeroQuantity)
    else if s.status != Live then Reject(s, key, NotLive)
    else
      match kind
      case Take(expected) => OnTake(c, s, seqno, ts, p, key, qty, expected)
      case Resting(limit) => OnRest(c, s, seqno, ts, p, key, qty, limit)
  }

  function OnCancelResting(s: State, p: Participant, key: Key): Step {
    var found := Ladder.Search(s.resting, p, key);
    if found.Some? then
      var b := s.resting[found.value];
      Step(s.(resting := Ladder.Without(s.resting, found.value),
              collateral := Release(s.collateral, p, b.limit, b.qty),
              outcomes := SetOutcome(s.outcomes, key, Outcome.Cancelled)),
           [RestingCancelled(key, p, b.qty)])
    else if key in s.outcomes then Step(s, [Duplicate(key, s.outcomes[key])])
    else Step(s, [Event.Rejected(key, UnknownBid)])
  }

  function FromLadder(b: RestingBid): PendingBid {
    PendingBid(b.seqno, b.participant, b.key, b.qty, b.limit, b.limit, Some(b.limit))
  }

  /** Resting bids the clock has reached join the open window. */
  function JoinWindow(s: State, index: U64, price: I64, bids: seq<RestingBid>): State
    decreases |bids|
  {
    if bids == [] then s
    else JoinWindow(PushPending(s, index, price, FromLadder(bids[0])), index, price, bids[1..])
  }

  function Trigger(c: Config, s: State, ts: U64): State
    requires c.WellFormed()
  {
    var clock, index := c.PriceAt(ts), WindowIndex(c, ts);
    JoinWindow(s.(resting := Ladder.Untriggered(s.resting, clock)),
               index, WindowPrice(c, index), Ladder.Triggered(s.resting, clock))
  }

  /** The end of a tick at the floor: close the window, and clear if that did not. */
  function Bottom(c: Config, s: State): Step
    requires c.WellFormed()
  {
    var flushed := Flush(s);
    if flushed.st.status == Live then
      var cleared := Clear(flushed.st, c.schedule.floor);
      Step(cleared.st, flushed.ev + cleared.ev)
    else flushed
  }

  function OnTick(c: Config, s: State, ts: U64): Step
    requires c.WellFormed()
  {
    if s.status != Live then Step(s, [])
    else
      var triggered := Trigger(c, s, ts);
      var matched := if c.batchWindow == 0 then Flush(triggered) else Step(triggered, []);
      if matched.st.status == Live && AtFloor(c.schedule, ts) then
        var bottomed := Bottom(c, matched.st);
        Step(bottomed.st, matched.ev + bottomed.ev)
      else matched
  }

  function OnCancel(s: State): Step {
    if s.status.Terminal() then Step(s, [])
    else
      var bids := if s.window.Some? then s.window.value.bids else [];
      var pending := RefusePending(s.(status := Status.Cancelled, window := None), bids, NotLive);
      var resting := RefuseResting(pending.st.(resting := []), pending.st.resting, NotLive);
      Step(resting.st, pending.ev + resting.ev + [Event.Cancelled])
  }

  function Dispatch(c: Config, s: State, seqno: U64, cmd: Command): Step
    requires c.WellFormed()
  {
    match cmd
    case Open => OnOpen(c, s)
    case SetCollateral(p, ceiling) => OnSetCollateral(s, p, ceiling)
    case SubmitBid(p, key, qty, kind) => OnBid(c, s, seqno, s.now, p, key, qty, kind)
    case CancelResting(p, key) => OnCancelResting(s, p, key)
    case Tick => OnTick(c, s, s.now)
    case Cancel => OnCancel(s)
  }

  /** Recording the sequence number and clamping time, before anything else happens. */
  function Stamp(s: State, seqno: U64, ts: U64): State {
    s.(lastSeq := Some(seqno), now := Max(ts, s.now))
  }

  /** Apply one command: the only way state changes. */
  function Apply(c: Config, s: State, r: LogRecord): Step
    requires c.WellFormed()
  {
    var stamped := Stamp(s, r.seqno, r.ts);
    var closed := CloseElapsed(c, stamped, stamped.now);
    var done := Dispatch(c, closed.st, r.seqno, r.cmd);
    Step(done.st, closed.ev + done.ev)
  }
}
