/** What holds after every run: the theorems about an auction as a whole. */
module History {
  import opened Auction
  import opened Bounded
  import opened Descent
  import opened Keys
  import opened Lifecycle
  import opened Loops
  import opened Money
  import opened Provenance
  import opened Rules
  import opened Schedule
  import opened Soundness
  import opened Stream
  import opened Sums
  import Matching

  /** Replaying a log from nothing, with every event on the way. */
  function Run(c: Config, log: seq<LogRecord>): Step
    requires c.WellFormed()
    decreases |log|
  {
    if log == [] then Step(Init(c), [])
    else
      var before := Run(c, log[..|log| - 1]);
      var one := Apply(c, before.st, log[|log| - 1]);
      Step(one.st, before.ev + one.ev)
  }

  ghost predicate AllAdmissible(log: seq<LogRecord>) {
    forall i :: 0 <= i < |log| ==> log[i].cmd.Admissible()
  }

  ghost predicate WellLogged(log: seq<LogRecord>) {
    Gapless(log) && AllAdmissible(log)
  }

  lemma RunNothing(c: Config)
    requires c.WellFormed()
    ensures Run(c, []) == Step(Init(c), [])
  {}

  lemma RunStep(c: Config, log: seq<LogRecord>, r: LogRecord)
    requires c.WellFormed()
    ensures var one := Apply(c, Run(c, log).st, r);
            Run(c, log + [r]) == Step(one.st, Run(c, log).ev + one.ev)
  {
    hide Apply;
    assert (log + [r])[..|log + [r]| - 1] == log;
  }

  lemma Earlier(log: seq<LogRecord>)
    requires WellLogged(log) && log != []
    ensures WellLogged(log[..|log| - 1]) && log == log[..|log| - 1] + [log[|log| - 1]]
    ensures log[|log| - 1].cmd.Admissible()
  {}

  // ---------------------------------------------------------------- shape, time and sequence

  lemma NextInSequence(log: seq<LogRecord>, r: LogRecord)
    requires WellLogged(log + [r])
    ensures log != [] ==> r.seqno == log[|log| - 1].seqno + 1
  {
    assert (log + [r])[|log|] == r;
    if log != [] {
      assert (log + [r])[|log| - 1] == log[|log| - 1] && (log + [r])[0] == log[0];
    }
  }

  lemma FollowsOn(s: State, log: seq<LogRecord>, r: LogRecord)
    requires s.lastSeq == if log == [] then None else Some(log[|log| - 1].seqno)
    requires log != [] ==> r.seqno == log[|log| - 1].seqno + 1
    ensures InSequence(s, r.seqno)
  {}

  lemma {:induction false} RunsAreSound(c: Config, log: seq<LogRecord>)
    requires c.WellFormed() && WellLogged(log)
    ensures Between(c, Run(c, log).st)
    ensures Run(c, log).st.lastSeq == if log == [] then None else Some(log[|log| - 1].seqno)
    decreases |log|
  {
    if log == [] {
      hide Between;
      InitBetween(c);
    } else {
      var before, r := log[..|log| - 1], log[|log| - 1];
      Earlier(log);
      NextInSequence(before, r);
      hide *;
      RunsAreSound(c, before);
      RunStep(c, before, r);
      FollowsOn(Run(c, before).st, before, r);
      ApplyIsSound(c, Run(c, before).st, r);
    }
  }

  /** The latest timestamp in a log. */
  function LatestOf(log: seq<LogRecord>): U64 {
    if log == [] then 0 else Max(log[|log| - 1].ts, LatestOf(log[..|log| - 1]))
  }

  /** An auction's time is the latest timestamp it has been given. */
  lemma {:induction false} ClockIsLatest(c: Config, log: seq<LogRecord>)
    requires c.WellFormed() && WellLogged(log)
    ensures Run(c, log).st.now == LatestOf(log)
    decreases |log|
  {
    hide Apply, Between;
    if log != [] {
      var before, r := log[..|log| - 1], log[|log| - 1];
      Earlier(log);
      ClockIsLatest(c, before);
      RunsAreSound(c, before);
      RunsFollow(c, before, r);
      ApplyIsSound(c, Run(c, before).st, r);
    }
  }

  /** Never oversold: fills and remaining supply always make up the whole, the saturating total is
      exact, and there are never more fills than units. */
  lemma SupplyIsConserved(c: Config, log: seq<LogRecord>)
    requires c.WellFormed() && WellLogged(log)
    ensures var s := Run(c, log).st;
            && TotalFilled(s.fills) + s.supply == c.totalSupply
            && |s.fills| <= TotalFilled(s.fills)
            && (s.status.Live? ==> s.supply > 0)
            && (forall i :: 0 <= i < |s.fills| ==> s.fills[i].id == i && s.fills[i].qty > 0)
  {
    RunsAreSound(c, log);
    var s := Run(c, log).st;
    TotalIsExact(s.fills);
    SumAtLeastCount(s.fills);
  }

  lemma {:induction false} SumAtLeastCount(fills: seq<Fill>)
    requires forall i :: 0 <= i < |fills| ==> fills[i].qty > 0
    ensures Sum(fills, FillQty) >= |fills|
  {
    if fills != [] {
      SumAtLeastCount(fills[1..]);
    }
  }

  // ---------------------------------------------------------------- money

  /** The highest ceiling ever posted for `p`, or zero. */
  function Peak(log: seq<LogRecord>, p: Participant): int {
    if log == [] then 0 else Raised(Peak(log[..|log| - 1], p), log[|log| - 1].cmd, p)
  }

  /** The books balance for `p`, and it never had more than its peak at stake. */
  ghost predicate Secured(s: State, peak: int, p: Participant) {
    Balanced(s, p) && Ceiling(s, p) <= peak && Committed(s, p) <= peak
  }

  lemma ApplySecures(c: Config, s: State, r: LogRecord, p: Participant, peak: int)
    requires c.WellFormed() && Between(c, s) && InSequence(s, r.seqno) && r.cmd.Admissible()
    requires Secured(s, peak, p) && forall q :: Balanced(s, q)
    ensures Secured(Apply(c, s, r).st, Raised(peak, r.cmd, p), p)
  {
    hide Apply, Balanced, Ceiling, Committed, Raised, Between;
    ApplyBalances(c, s, r, p, peak);
  }

  lemma SecuredBalances(s: State, peak: int, p: Participant)
    requires Secured(s, peak, p)
    ensures Balanced(s, p)
  {}

  lemma {:induction false} RunsAreSecured(c: Config, log: seq<LogRecord>, p: Participant)
    requires c.WellFormed() && WellLogged(log)
    ensures Secured(Run(c, log).st, Peak(log, p), p)
    decreases |log|
  {
    if log != [] {
      var before, r := log[..|log| - 1], log[|log| - 1];
      Earlier(log);
      assert Peak(log, p) == Raised(Peak(before, p), r.cmd, p);
      hide *;
      forall q ensures Balanced(Run(c, before).st, q) {
        RunsAreSecured(c, before, q);
        SecuredBalances(Run(c, before).st, Peak(before, q), q);
      }
      RunsAreSecured(c, before, p);
      RunsFollow(c, before, r);
      RunStep(c, before, r);
      ApplySecures(c, Run(c, before).st, r, p, Peak(before, p));
    }
  }

  /** The next record finds a sound auction. */
  lemma RunsFollow(c: Config, log: seq<LogRecord>, r: LogRecord)
    requires c.WellFormed() && WellLogged(log + [r])
    ensures Between(c, Run(c, log).st) && InSequence(Run(c, log).st, r.seqno) && r.cmd.Admissible()
  {
    assert (log + [r])[..|log + [r]| - 1] == log && (log + [r])[|log|] == r;
    Earlier(log + [r]);
    RunsAreSound(c, log);
    hide Run, Between;
  }

  /** Collateral is conserved in every run: what `p` has committed is exactly the cost of its fills
      plus what its live bids reserve, and never above the highest ceiling posted for it. */
  lemma CollateralIsConserved(c: Config, log: seq<LogRecord>, p: Participant)
    requires c.WellFormed() && WellLogged(log)
    ensures var s := Run(c, log).st;
            && Committed(s, p) == Owed(s.fills, Flight(s), s.resting, p)
            && 0 <= Committed(s, p) <= Peak(log, p)
  {
    RunsAreSecured(c, log, p);
    RunsAreSound(c, log);
    hide Run, Owed;
    RunOwes(c, Run(c, log).st, p);
  }

  lemma RunOwes(c: Config, s: State, p: Participant)
    requires c.WellFormed() && Sound(c, s)
    ensures Owed(s.fills, Flight(s), s.resting, p) >= 0
  {
    OwedIsNonNegative(c, s, p);
  }

  /** A finished auction has only fills committed. */
  lemma FinishedAuctionsHoldOnlyFills(c: Config, log: seq<LogRecord>, p: Participant)
    requires c.WellFormed() && WellLogged(log) && Run(c, log).st.status.Terminal()
    ensures var s := Run(c, log).st;
            Committed(s, p) == Sum(s.fills, FillCost(p)) && s.window == None && s.resting == []
  {
    hide Run;
    CollateralIsConserved(c, log, p);
    RunsAreSound(c, log);
  }

  // ---------------------------------------------------------------- keys

  ghost predicate Submitted(log: seq<LogRecord>, k: Key) {
    exists i :: 0 <= i < |log| && log[i].cmd.SubmitBid? && log[i].cmd.key == k
  }

  lemma SubmittedStep(log: seq<LogRecord>, r: LogRecord, k: Key)
    ensures Submitted(log + [r], k) <==> Submitted(log, k) || (r.cmd.SubmitBid? && r.cmd.key == k)
  {
    if Submitted(log, k) {
      var i :| 0 <= i < |log| && log[i].cmd.SubmitBid? && log[i].cmd.key == k;
      assert (log + [r])[i].cmd.SubmitBid?;
    }
    assert (log + [r])[|log|] == r;
  }

  /** In every run each key's record mirrors exactly what is held under it, answers are counted, and
      exactly the submitted keys have records. */
  lemma {:induction false} KeysAreKept(c: Config, log: seq<LogRecord>, k: Key)
    requires c.WellFormed() && WellLogged(log)
    ensures var r := Run(c, log);
            Kept(r.st, k) && Counts(map[], r.ev, r.st.outcomes, k) && (k in r.st.outcomes <==> Submitted(log, k))
    decreases |log|
  {
    if log != [] {
      var before, r := log[..|log| - 1], log[|log| - 1];
      Earlier(log);
      hide *;
      KeysAreKept(c, before, k);
      RunsFollow(c, before, r);
      RunStep(c, before, r);
      SubmittedStep(before, r, k);
      ApplyKeeps(c, Run(c, before), r, k);
    }
  }

  lemma ApplyKeeps(c: Config, before: Step, r: LogRecord, k: Key)
    requires c.WellFormed() && Between(c, before.st) && InSequence(before.st, r.seqno)
    requires Kept(before.st, k) && Counts(map[], before.ev, before.st.outcomes, k)
    ensures var one := Apply(c, before.st, r);
            && Kept(one.st, k) && Counts(map[], before.ev + one.ev, one.st.outcomes, k)
            && (k in one.st.outcomes <==> k in before.st.outcomes || (r.cmd.SubmitBid? && r.cmd.key == k))
  {
    hide Apply, Kept, Counts, Between;
    var one := Apply(c, before.st, r);
    ApplyHandles(c, before.st, r, k);
    CountsChain(map[], before.ev, before.st.outcomes, one.ev, one.st.outcomes, k);
  }

  function FillUnder(k: Key): Fill -> int {
    (f: Fill) => if f.key == k then 1 else 0
  }

  function PendingUnder(k: Key): PendingBid -> int {
    (b: PendingBid) => if b.key == k then 1 else 0
  }

  function RestingUnder(k: Key): RestingBid -> int {
    (b: RestingBid) => if b.key == k then 1 else 0
  }

  lemma {:induction false} FillsCount(fills: seq<Fill>, k: Key)
    ensures |Collect(fills, FillHolds(k))| == Sum(fills, FillUnder(k)) >= 0
  {
    if fills != [] {
      FillsCount(fills[1..], k);
    }
  }

  lemma {:induction false} FlightCounts(bids: seq<PendingBid>, k: Key)
    ensures |Collect(bids, PendingHolds(k))| == Sum(bids, PendingUnder(k)) >= 0
  {
    if bids != [] {
      FlightCounts(bids[1..], k);
    }
  }

  lemma {:induction false} LadderCounts(bids: seq<RestingBid>, k: Key)
    ensures |Collect(bids, RestingHolds(k))| == Sum(bids, RestingUnder(k)) >= 0
  {
    if bids != [] {
      LadderCounts(bids[1..], k);
    }
  }

  /** How many fills, bids in flight and resting bids carry `k`. */
  ghost function Places(s: State, k: Key): int {
    Sum(s.fills, FillUnder(k)) + Sum(Flight(s), PendingUnder(k)) + Sum(s.resting, RestingUnder(k))
  }

  /** One place for a key whose record says it is held, none for any other. */
  lemma PlacesCount(s: State, k: Key)
    requires Kept(s, k)
    ensures Places(s, k) == |Recorded(s.outcomes, k)| <= 1
  {
    FillsCount(s.fills, k);
    FlightCounts(Flight(s), k);
    LadderCounts(s.resting, k);
  }

  /** A key is in exactly one place if its record says it is held, and in none otherwise; in
      particular nothing is ever filled twice under one key. */
  lemma OnePlacePerKey(c: Config, log: seq<LogRecord>, k: Key)
    requires c.WellFormed() && WellLogged(log)
    ensures var s := Run(c, log).st;
            Places(s, k) == if k in s.outcomes && !s.outcomes[k].Rejected? && !s.outcomes[k].Cancelled? then 1 else 0
  {
    hide Run, Places, Kept;
    KeysAreKept(c, log, k);
    PlacesCount(Run(c, log).st, k);
  }

  /** Every fill is quoted, at its own quantity and price, by the outcome a retry is answered from. */
  lemma FillIsQuoted(c: Config, log: seq<LogRecord>, i: nat)
    requires c.WellFormed() && WellLogged(log)
    ensures var s := Run(c, log).st;
            i < |s.fills| ==>
              var f := s.fills[i];
              f.key in s.outcomes && s.outcomes[f.key] == Outcome.Filled(f.qty, f.price)
  {
    hide Run, Held;
    var s := Run(c, log).st;
    if i < |s.fills| {
      var f := s.fills[i];
      KeysAreKept(c, log, f.key);
      HeldFillAt(s, i);
      OnlyHeld(s.outcomes, f.key, Outcome.Filled(f.qty, f.price), HeldBesides(s, i));
    }
  }

  ghost function HeldBesides(s: State, i: nat): multiset<Outcome>
    requires i < |s.fills|
  {
    Held(s.fills[..i] + s.fills[i + 1..], Flight(s), s.resting, s.fills[i].key)
  }

  lemma HeldFillAt(s: State, i: nat)
    requires i < |s.fills|
    ensures var f := s.fills[i];
            Held(s.fills, Flight(s), s.resting, f.key) == multiset{Outcome.Filled(f.qty, f.price)} + HeldBesides(s, i)
  {
    var k := s.fills[i].key;
    CollectSplit(s.fills, i, FillHolds(k));
    Rearrange(multiset{}, FillHolds(k)(s.fills[i]), Collect(s.fills[..i] + s.fills[i + 1..], FillHolds(k)) + Collect(Flight(s), PendingHolds(k)),
              Collect(s.resting, RestingHolds(k)));
  }

  /** A record of a fill mirrors one fill; there is no such thing as a fill that was then withdrawn. */
  lemma QuoteIsFilled(c: Config, log: seq<LogRecord>, k: Key) returns (i: nat)
    requires c.WellFormed() && WellLogged(log)
    requires var s := Run(c, log).st; k in s.outcomes && (s.outcomes[k].Filled? || s.outcomes[k].FilledThenCancelled?)
    ensures var s := Run(c, log).st;
            && s.outcomes[k].Filled? && i < |s.fills|
            && s.fills[i].key == k && s.outcomes[k] == Outcome.Filled(s.fills[i].qty, s.fills[i].price)
  {
    hide Run;
    var s := Run(c, log).st;
    KeysAreKept(c, log, k);
    assert s.outcomes[k] in Held(s.fills, Flight(s), s.resting, k);
    FlightHoldsNoFill(Flight(s), k, s.outcomes[k]);
    LadderHoldsNoFill(s.resting, k, s.outcomes[k]);
    i := FindFill(s.fills, k, s.outcomes[k]);
  }

  lemma {:induction false} FindFill(fills: seq<Fill>, k: Key, o: Outcome) returns (i: nat)
    requires o in Collect(fills, FillHolds(k))
    ensures i < |fills| && fills[i].key == k && o == Outcome.Filled(fills[i].qty, fills[i].price)
    decreases |fills|
  {
    if o in FillHolds(k)(fills[0]) {
      i := 0;
    } else {
      var j := FindFill(fills[1..], k, o);
      i := j + 1;
    }
  }

  lemma {:induction false} FlightHoldsNoFill(bids: seq<PendingBid>, k: Key, o: Outcome)
    requires o.Filled? || o.FilledThenCancelled?
    ensures o !in Collect(bids, PendingHolds(k))
  {
    if bids != [] {
      FlightHoldsNoFill(bids[1..], k, o);
    }
  }

  lemma {:induction false} LadderHoldsNoFill(bids: seq<RestingBid>, k: Key, o: Outcome)
    requires o.Filled? || o.FilledThenCancelled?
    ensures o !in Collect(bids, RestingHolds(k))
  {
    if bids != [] {
      LadderHoldsNoFill(bids[1..], k, o);
    }
  }

  /** With nothing in flight and nothing resting, no record is left waiting. */
  lemma NothingWaits(s: State, k: Key)
    requires Kept(s, k) && s.window == None && s.resting == []
    ensures !Waiting(s.outcomes, k)
  {
    if Waiting(s.outcomes, k) {
      assert s.outcomes[k] in Held(s.fills, [], [], k);
      var i := FindFill(s.fills, k, s.outcomes[k]);
    }
  }

  /** No submission is ever answered twice, and by the time the auction is over each has exactly one
      final answer: a fill, a refusal or a withdrawal. */
  lemma ExactlyOneAnswer(c: Config, log: seq<LogRecord>, k: Key)
    requires c.WellFormed() && WellLogged(log)
    ensures var r := Run(c, log);
            && 0 <= Sum(r.ev, Answer(k)) <= (if Submitted(log, k) then 1 else 0)
            && (r.st.status.Terminal() && Submitted(log, k) ==> Sum(r.ev, Answer(k)) == 1)
  {
    hide Run, Submitted, Kept, Sum;
    KeysAreKept(c, log, k);
    RunsAreSound(c, log);
    if Run(c, log).st.status.Terminal() {
      NothingWaits(Run(c, log).st, k);
    }
  }

  /** A record once final answers every retry the same way, but for a fill getting cheaper. */
  lemma RecordsMoveForward(c: Config, log: seq<LogRecord>, r: LogRecord, k: Key)
    requires c.WellFormed() && WellLogged(log + [r])
    requires k in Run(c, log).st.outcomes
    ensures k in Run(c, log + [r]).st.outcomes
    ensures Forward(Run(c, log).st.outcomes[k], Run(c, log + [r]).st.outcomes[k])
  {
    hide Apply;
    assert (log + [r])[..|log|] == log && (log + [r])[|log|] == r;
    Earlier(log + [r]);
    RunsAreSound(c, log);
    KeysAreKept(c, log, k);
    RunStep(c, log, r);
    ApplyHandles(c, Run(c, log).st, r, k);
  }

  // ---------------------------------------------------------------- retries

  lemma DuplicateOnly(c: Config, s: State, r: LogRecord)
    requires c.WellFormed() && r.cmd.SubmitBid?
    ensures var stamped := Stamp(s, r.seqno, r.ts);
            var closed := CloseElapsed(c, stamped, stamped.now);
            r.cmd.key in closed.st.outcomes ==>
              Apply(c, s, r) == Step(closed.st, closed.ev + [Duplicate(r.cmd.key, closed.st.outcomes[r.cmd.key])])
  {
    hide CloseElapsed, OnTake, OnRest;
  }

  /** Resubmitting a known key is nothing but the passing of time: the state is the one the elapsed
      window leaves, and the last event answers with the record as it then stands. */
  lemma RetryExecutesNothing(c: Config, log: seq<LogRecord>, r: LogRecord)
    requires c.WellFormed() && WellLogged(log + [r])
    requires r.cmd.SubmitBid? && r.cmd.key in Run(c, log).st.outcomes
    ensures var s, one := Run(c, log).st, Apply(c, Run(c, log).st, r);
            && one.st == Closed(c, s, r)
            && r.cmd.key in one.st.outcomes
            && one.ev != [] && one.ev[|one.ev| - 1] == Duplicate(r.cmd.key, one.st.outcomes[r.cmd.key])
  {
    hide Run, CloseElapsed, Apply, Between, Carries;
    RunsFollow(c, log, r);
    assert (log + [r])[..|log + [r]| - 1] == log;
    Earlier(log + [r]);
    var s, k := Run(c, log).st, r.cmd.key;
    var stamped := Stamp(s, r.seqno, r.ts);
    KeysAreKept(c, log, k);
    StampIsSoundly(c, s, r);
    StampKeeps(s, r, k);
    CloseCarries(c, stamped, k);
    CarriedDomain(stamped, CloseElapsed(c, stamped, stamped.now), k);
    DuplicateOnly(c, s, r);
  }

  // ---------------------------------------------------------------- the stream

  lemma RunTold(c: Config, log: seq<LogRecord>, r: LogRecord)
    requires c.WellFormed() && WellLogged(log) && WellLogged(log + [r])
    ensures var s := Run(c, log).st;
            HearAll(PublicOf(s), Apply(c, s, r).ev) == PublicOf(Apply(c, s, r).st)
  {
    hide Apply, HearAll, Kept, Between, Run;
    RunsFollow(c, log, r);
    forall k ensures Kept(Run(c, log).st, k) {
      KeysAreKept(c, log, k);
    }
    ApplyTold(c, Run(c, log).st, r);
  }

  /** Folding only the emitted events of a run reproduces its fills, outcomes, remaining supply,
      status and clearing price. */
  lemma {:induction false} EventsReproduceTheAuction(c: Config, log: seq<LogRecord>)
    requires c.WellFormed() && WellLogged(log)
    ensures HearAll(PublicOf(Init(c)), Run(c, log).ev) == PublicOf(Run(c, log).st)
    decreases |log|
  {
    if log != [] {
      var before, r := log[..|log| - 1], log[|log| - 1];
      var one := Apply(c, Run(c, before).st, r);
      Earlier(log);
      hide *;
      EventsReproduceTheAuction(c, before);
      RunsFollow(c, before, r);
      RunStep(c, before, r);
      RunTold(c, before, r);
      HearConcat(PublicOf(Init(c)), Run(c, before).ev, one.ev);
    }
  }

  // ---------------------------------------------------------------- provenance

  /** Everything a run holds goes back to the record that asked for it. */
  lemma {:induction false} EverythingWasAskedFor(c: Config, log: seq<LogRecord>)
    requires c.WellFormed() && WellLogged(log)
    ensures Traced(c, log, Run(c, log).st)
    decreases |log|
  {
    if log != [] {
      var before, r := log[..|log| - 1], log[|log| - 1];
      Earlier(log);
      hide *;
      EverythingWasAskedFor(c, before);
      RunsFollow(c, before, r);
      RunStep(c, before, r);
      ApplyTraced(c, before, Run(c, before).st, r);
    }
  }

  /** Records with one sequence number are one record. */
  lemma SameRecord(c: Config, log: seq<LogRecord>, a: PendingBid, b: PendingBid)
    requires Gapless(log) && PendingAsked(c, log, a) && PendingAsked(c, log, b) && a.seqno == b.seqno
    ensures a.key == b.key
  {
    var i :| 0 <= i < |log| && Asks(c, log[i], a.seqno, a.participant, a.key, a.qty, a.reservePrice);
    var j :| 0 <= j < |log| && Asks(c, log[j], b.seqno, b.participant, b.key, b.qty, b.reservePrice);
  }

  lemma {:induction false} ApartIsDistinct(bids: seq<PendingBid>, n: U64)
    requires forall i, j :: 0 <= i < j < |bids| ==> bids[i].seqno != bids[j].seqno
    ensures Sum(bids, Matching.AtSeq(n)) <= 1
  {
    if bids != [] {
      ApartIsDistinct(bids[1..], n);
      if bids[0].seqno == n {
        SumZero(bids[1..], Matching.AtSeq(n));
      }
    }
  }

  // ---------------------------------------------------------------- prices

  /** Over any continuation of a run the published price never rises, no fill is lost or made
      dearer, and an auction that has ended stays as it ended. */
  lemma {:induction false} PriceNeverRises(c: Config, log: seq<LogRecord>, more: seq<LogRecord>)
    requires c.WellFormed() && WellLogged(log + more)
    ensures Descends(c, Run(c, log).st, Run(c, log + more).st)
    decreases |more|
  {
    hide Apply, Run;
    if more == [] {
      assert log + more == log;
      PersistItself(Run(c, log).st.fills);
    } else {
      var before, r := log + more[..|more| - 1], more[|more| - 1];
      assert log + more == before + [r] && (log + more)[..|log + more| - 1] == before;
      Earlier(log + more);
      PriceNeverRises(c, log, more[..|more| - 1]);
      RunsAreSound(c, before);
      RunStep(c, before, r);
      ApplyProceeds(c, Run(c, before).st, r);
      DescendsChain(c, Run(c, log).st, Run(c, before).st, Run(c, log + more).st);
    }
  }

  /** What each command's events claim is so once the command is done: bids are turned away as
      sold out only in the step that ends the auction with nothing left, every markdown is strictly
      down to the clearing price, and the final totals add up. */
  lemma EventsTellTheTruth(c: Config, log: seq<LogRecord>, r: LogRecord)
    requires c.WellFormed() && WellLogged(log + [r])
    ensures AllTrue(c, Run(c, log + [r]).st, Apply(c, Run(c, log).st, r).ev)
  {
    hide Apply, Run;
    assert (log + [r])[..|log|] == log && (log + [r])[|log|] == r;
    Earlier(log + [r]);
    RunsAreSound(c, log);
    RunStep(c, log, r);
    ApplyProceeds(c, Run(c, log).st, r);
  }

  /** While trading, fills descend and nobody is above what they agreed to pay; once cleared there is
      one price, one the clock takes at some instant, on every fill and in every recorded outcome. */
  lemma OneClearingPrice(c: Config, log: seq<LogRecord>)
    requires c.WellFormed() && WellLogged(log)
    ensures var s := Run(c, log).st;
            && (forall i, j :: 0 <= i < j < |s.fills| ==> s.fills[i].price >= s.fills[j].price)
            && FillsAsked(c, log, s.fills)
            && (s.status.Cleared? ==>
                  && s.clearing.Some? && (exists t: U64 :: c.PriceAt(t) == s.clearing.value)
                  && c.schedule.floor <= s.clearing.value <= c.schedule.start
                  && (forall i :: 0 <= i < |s.fills| ==> s.fills[i].price == s.clearing.value)
                  && (forall k :: k in s.outcomes && s.outcomes[k].Filled? ==> s.outcomes[k].price == s.clearing.value))
            && (!s.status.Cleared? ==> s.clearing == None)
  {
    RunsAreSound(c, log);
    EverythingWasAskedFor(c, log);
    hide Run;
    var s := Run(c, log).st;
    forall k | k in s.outcomes && s.outcomes[k].Filled?
      ensures s.status.Cleared? ==> s.outcomes[k].price == s.clearing.value
    {
      var i := QuoteIsFilled(c, log, k);
    }
  }
}
