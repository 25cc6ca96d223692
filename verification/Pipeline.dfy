/** From command to acknowledgement as interleaved steps: the engine, the log writer, the standby and
    the ack thread, each free to run whenever it can, and the machine free to crash. */
module Pipeline {
  import opened Auction
  import opened Bounded
  import opened Framing
  import opened History
  import opened Journal
  import opened Recovery
  import opened Rules
  import opened Soundness
  import opened Sums
  import Committer
  import Descent
  import Stream

  /** The public summary of an auction. */
  datatype View = View(
    status: Status, supply: U64, price: I64, clearing: Option<I64>, elapsed: U64, seqno: Option<U64>)

  function ViewOf(c: Config, s: State): View
    requires c.WellFormed()
  {
    View(s.status, s.supply, Descent.Price(c, s), s.clearing, s.now, s.lastSeq)
  }

  /** What the engine leaves for the ack thread to say about one command. */
  datatype Pending = Pending(seqno: U64, events: seq<Event>, reply: bool, view: Option<View>)

  /** What the engine thread has in hand between two commands. */
  datatype Hand =
    | Idle
    | Applied(record: LogRecord, pending: Pending)
    | Logged(pending: Pending)
    | Halted(unlogged: seq<LogRecord>)

  /** Which gates the head of the ack queue has passed. */
  datatype Gate = Waiting | Durable | Cleared | Shut

  datatype Standby = Standby(state: State, inbox: seq<LogRecord>, unconfirmed: Option<U64>, confirmed: Option<U64>)

  datatype Sent = Sent(seqno: U64, event: Event)

  /** An answer to whoever submitted a command: its number and what came of it. */
  datatype Reply = Reply(seqno: U64, events: seq<Event>)

  datatype Setup = Setup(config: Config, crc: Checksum, segmentBytes: nat, sync: bool)

  /** `passed`, `resumed`, `replies`, `guarded` and `asked` are history: how far the ack thread has got,
      where this incarnation resumed, every reply ever sent, the numbers of those sent in this incarnation
      with the standby's confirmation, and the numbers of this incarnation's commands that asked for one. */
  datatype System = System(
    state: State, nextSeq: nat, hand: Hand,
    queue: seq<LogRecord>, wal: Wal, mark: Option<U64>, closed: bool,
    acks: seq<Pending>, gate: Gate, lost: bool,
    view: View, broadcasts: seq<Sent>,
    standby: Option<Standby>,
    passed: nat, resumed: nat, replies: seq<Reply>, guarded: seq<U64>, asked: set<U64>)

  function Count(mark: Option<U64>): nat {
    if mark.Some? then mark.value + 1 else 0
  }

  function Tagged(seqno: U64, events: seq<Event>): seq<Sent> {
    if events == [] then [] else [Sent(seqno, events[0])] + Tagged(seqno, events[1..])
  }

  // ---------------------------------------------------------------- the steps

  datatype Move =
    | Command(ts: U64, cmd: Auction.Command, reply: bool)
    | Submit(refused: bool)
    | Enqueue(refused: bool)
    | WriterAppend
    | WriterSync
    | WriterPublish
    | WriterStop
    | AckDurable
    | AckConfirm
    | AckLose
    | AckPublish
    | StandbyApply
    | StandbyConfirm
    | Restart(cut: nat, missing: bool, snapshot: Option<Snapshot>, replicated: bool)

  predicate Guarding(k: Setup, y: System) {
    k.sync && y.standby.Some? && !y.lost
  }

  /** Snapshots that recovery may be handed: whatever is not beyond the log agrees with it. */
  ghost predicate Usable(c: Config, snapshot: Option<Snapshot>, log: seq<LogRecord>)
    requires c.WellFormed()
  {
    && (log == [] ==> snapshot.None?)
    && (snapshot.Some? && !Ahead(snapshot.value, log) ==> Agrees(c, snapshot.value, log))
  }

  /** When each thread can take its next step. A send is refused only by a thread that has gone; between
      shutting its gate and going, the thread leaves a queue that still takes what nobody will read. */
  ghost predicate Enabled(k: Setup, y: System, move: Move)
    requires k.config.WellFormed() && y.wal.files != []
  {
    match move
    case Command(_, cmd, _) => y.hand.Idle? && cmd.Admissible() && y.nextSeq <= U64_MAX
    case Submit(refused) => y.hand.Applied? && (refused ==> y.closed)
    case Enqueue(refused) => y.hand.Logged? && (refused ==> y.gate.Shut?)
    case WriterAppend => !y.closed && y.queue != []
    case WriterSync => !y.closed
    case WriterPublish => !y.closed
    case WriterStop => !y.closed
    case AckDurable => y.gate.Waiting? && y.acks != [] && (y.acks[0].seqno < Count(y.mark) || y.closed)
    case AckConfirm =>
      y.gate.Durable? && y.acks != []
      && (Guarding(k, y) ==> y.acks[0].seqno < Count(y.standby.value.confirmed))
    case AckLose => y.gate.Durable? && Guarding(k, y)
    case AckPublish => y.gate.Cleared? && y.acks != []
    case StandbyApply => y.standby.Some? && y.standby.value.inbox != [] && y.standby.value.unconfirmed.None?
    case StandbyConfirm => y.standby.Some? && y.standby.value.unconfirmed.Some?
    case Restart(cut, missing, snapshot, _) =>
      var files := Crashed(y.wal, cut, missing);
      var reading := ReadAll(k.crc, files);
      && reading.Read? && Reopen(k.crc, files).Opened?
      && Usable(k.config, snapshot, reading.records)
      && Recover(k.config, snapshot, reading.records).Recovered?
  }

  function Applying(k: Setup, y: System, r: LogRecord, reply: bool): System
    requires k.config.WellFormed()
  {
    var step := Apply(k.config, y.state, r);
    var view := if step.ev == [] then None else Some(ViewOf(k.config, step.st));
    y.(state := step.st, nextSeq := y.nextSeq + 1, asked := if reply then y.asked + {r.seqno} else y.asked,
       hand := Applied(r, Pending.Pending(r.seqno, step.ev, reply, view)),
       standby := if y.standby.Some? then Some(y.standby.value.(inbox := y.standby.value.inbox + [r])) else None)
  }

  /** Show the head of the queue: the view, then the broadcasts, then the reply. */
  function Publishing(k: Setup, y: System): System
    requires y.acks != []
  {
    var p := y.acks[0];
    y.(view := if p.view.Some? then p.view.value else y.view,
       broadcasts := y.broadcasts + Tagged(p.seqno, p.events),
       replies := if p.reply then y.replies + [Reply(p.seqno, p.events)] else y.replies,
       guarded := if p.reply && Guarding(k, y) then y.guarded + [p.seqno] else y.guarded,
       acks := y.acks[1..], passed := y.passed + 1, gate := Waiting)
  }

  function Restarted(k: Setup, y: System, wal: Wal, state: State, nextSeq: nat, replicated: bool): System
    requires k.config.WellFormed()
  {
    System(state, nextSeq, Idle, [], wal, wal.durable, false, [], Waiting, false,
           ViewOf(k.config, state), [],
           if replicated then Some(Standby(state, [], None, None)) else None,
           Count(wal.durable), Count(wal.durable), y.replies, [], {})
  }

  function Submitting(y: System, refused: bool): System
    requires y.hand.Applied?
  {
    if refused then y.(hand := Halted([y.hand.record]))
    else y.(queue := y.queue + [y.hand.record], hand := Logged(y.hand.pending))
  }

  function Enqueuing(y: System, refused: bool): System
    requires y.hand.Logged?
  {
    if refused then y.(hand := Halted([])) else y.(acks := y.acks + [y.hand.pending], hand := Idle)
  }

  function Writing(k: Setup, y: System): System
    requires y.wal.files != [] && y.queue != []
  {
    var written := AppendRecord(k.crc, k.segmentBytes, y.wal, y.queue[0]);
    if written.Ok? then y.(wal := written.wal, queue := y.queue[1..]) else y.(closed := true)
  }

  function Marking(y: System): System {
    if Committer.AtMost(y.wal.durable, y.mark) then y else y.(mark := y.wal.durable)
  }

  function Following(k: Setup, y: System): System
    requires k.config.WellFormed() && y.standby.Some? && y.standby.value.inbox != []
  {
    var b := y.standby.value;
    y.(standby := Some(Standby(Apply(k.config, b.state, b.inbox[0]).st, b.inbox[1..], Some(b.inbox[0].seqno), b.confirmed)))
  }

  function Confirming(y: System): System
    requires y.standby.Some?
  {
    var b := y.standby.value;
    var confirmed := if Committer.AtMost(b.unconfirmed, b.confirmed) then b.confirmed else b.unconfirmed;
    y.(standby := Some(b.(unconfirmed := None, confirmed := confirmed)))
  }

  function Gating(k: Setup, y: System): System
    requires y.acks != []
  {
    y.(gate := if y.acks[0].seqno < Count(y.mark) then Durable else Shut)
  }

  function Next(k: Setup, y: System, move: Move): System
    requires k.config.WellFormed() && y.wal.files != [] && Enabled(k, y, move)
  {
    match move
    case Command(ts, cmd, reply) => Applying(k, y, LogRecord(y.nextSeq, ts, cmd), reply)
    case Submit(refused) => Submitting(y, refused)
    case Enqueue(refused) => Enqueuing(y, refused)
    case WriterAppend => Writing(k, y)
    case WriterSync => y.(wal := SyncAll(y.wal))
    case WriterPublish => Marking(y)
    case WriterStop => y.(closed := true)
    case AckDurable => Gating(k, y)
    case AckConfirm => y.(gate := Gate.Cleared)
    case AckLose => y.(gate := Gate.Cleared, lost := true)
    case AckPublish => Publishing(k, y)
    case StandbyApply => Following(k, y)
    case StandbyConfirm => Confirming(y)
    case Restart(cut, missing, snapshot, replicated) =>
      var files := Crashed(y.wal, cut, missing);
      var recovered := Recover(k.config, snapshot, ReadAll(k.crc, files).records);
      Restarted(k, y, Reopen(k.crc, files).wal, recovered.state, recovered.nextSeq, replicated)
  }

  // ---------------------------------------------------------------- what always holds

  function Unlogged(hand: Hand): seq<LogRecord> {
    match hand
    case Applied(r, _) => [r]
    case Halted(rest) => rest
    case _ => []
  }

  /** Everything the engine has applied: what is in the files, in the writer's queue and in hand. */
  function LogOf(k: Setup, y: System): seq<LogRecord> {
    Flat(k.crc, y.wal.files) + y.queue + Unlogged(y.hand)
  }

  /** Numbered from zero. */
  ghost predicate Numbered(log: seq<LogRecord>) {
    forall i :: 0 <= i < |log| ==> log[i].seqno == i && log[i].cmd.Admissible()
  }

  function StateAt(c: Config, log: seq<LogRecord>, n: nat): State
    requires c.WellFormed() && n <= |log|
  {
    Run(c, log[..n]).st
  }

  function EventsAt(c: Config, log: seq<LogRecord>, n: nat): seq<Event>
    requires c.WellFormed() && n < |log|
  {
    Apply(c, StateAt(c, log, n), log[n]).ev
  }

  /** Everything there was to tell about the records from `a` up to `b`, in order. */
  ghost function Told(c: Config, log: seq<LogRecord>, a: nat, b: nat): seq<Sent>
    requires c.WellFormed() && b <= |log| && Numbered(log)
    decreases b
  {
    if b <= a then [] else Told(c, log, a, b - 1) + Tagged(log[b - 1].seqno, EventsAt(c, log, b - 1))
  }

  /** A pending acknowledgement says what its command did. */
  ghost predicate Honest(c: Config, log: seq<LogRecord>, p: Pending)
    requires c.WellFormed()
  {
    && p.seqno < |log|
    && p.events == EventsAt(c, log, p.seqno)
    && (p.view.Some? <==> p.events != [])
    && (p.view.Some? ==> p.view.value == ViewOf(c, StateAt(c, log, p.seqno + 1)))
  }

  ghost predicate EngineOk(c: Config, log: seq<LogRecord>, state: State, nextSeq: nat)
    requires c.WellFormed()
  {
    Numbered(log) && state == Run(c, log).st && nextSeq == |log|
  }

  ghost predicate DiskOk(crc: Checksum, wal: Wal, mark: Option<U64>) {
    && Count(wal.durable) <= |Flat(crc, wal.files)|
    && Keeps(crc, wal, Flat(crc, wal.files)[..Count(wal.durable)])
    && Count(mark) <= Count(wal.durable)
  }

  ghost predicate AcksOk(c: Config, log: seq<LogRecord>, acks: seq<Pending>, hand: Hand, passed: nat)
    requires c.WellFormed()
  {
    && (forall i :: 0 <= i < |acks| ==> Honest(c, log, acks[i]) && acks[i].seqno == passed + i)
    && (hand.Idle? ==> passed + |acks| == |log|)
    && (hand.Applied? || hand.Logged? ==>
          && passed + |acks| + 1 == |log|
          && Honest(c, log, hand.pending) && hand.pending.seqno == |log| - 1)
  }

  /** The ack thread lets nothing past that the mark does not cover. */
  predicate GateOk(acks: seq<Pending>, gate: Gate, passed: nat, mark: Option<U64>) {
    && passed <= Count(mark)
    && (gate.Durable? || gate.Cleared? ==> acks != [] && passed < Count(mark))
  }

  /** What has been shown is so, complete and in order: nothing was said since the record the view
      shows, and the broadcasts are every event since this incarnation resumed. */
  ghost predicate ShownOk(c: Config, log: seq<LogRecord>, resumed: nat, passed: nat, view: View, broadcasts: seq<Sent>)
    requires c.WellFormed() && Numbered(log)
  {
    && resumed <= passed <= |log|
    && Count(view.seqno) <= passed
    && view == ViewOf(c, StateAt(c, log, Count(view.seqno)))
    && Silent(c, log, Count(view.seqno), passed)
    && broadcasts == Told(c, log, resumed, passed)
  }

  /** The records from `a` up to `b` had nothing to tell. */
  ghost predicate Silent(c: Config, log: seq<LogRecord>, a: nat, b: nat)
    requires c.WellFormed() && b <= |log|
  {
    forall n :: a <= n < b ==> EventsAt(c, log, n) == []
  }

  /** A reply says what its command did. */
  ghost predicate Answers(c: Config, log: seq<LogRecord>, passed: nat, reply: Reply)
    requires c.WellFormed() && passed <= |log|
  {
    reply.seqno < passed && reply.events == EventsAt(c, log, reply.seqno)
  }

  /** No command is answered twice, and none after a later one. */
  ghost predicate InOrder(replies: seq<Reply>) {
    forall i, j :: 0 <= i < j < |replies| ==> replies[i].seqno < replies[j].seqno
  }

  ghost predicate RepliesOk(c: Config, log: seq<LogRecord>, passed: nat, replies: seq<Reply>)
    requires c.WellFormed() && passed <= |log|
  {
    InOrder(replies) && forall i :: 0 <= i < |replies| ==> Answers(c, log, passed, replies[i])
  }

  /** The standby is the run of a prefix of the log, with the rest on its way, and has confirmed only
      what it has applied. */
  ghost predicate StandbyOk(c: Config, log: seq<LogRecord>, standby: Option<Standby>)
    requires c.WellFormed()
  {
    standby.Some? ==>
      var b := standby.value;
      var n := Count(b.state.lastSeq);
      && n <= |log| && b.state == StateAt(c, log, n) && b.inbox == log[n..]
      && Count(b.unconfirmed) <= n && Count(b.confirmed) <= n
  }

  function Confirmed(standby: Option<Standby>): nat {
    if standby.Some? then Count(standby.value.confirmed) else 0
  }

  /** Replies sent under the standby's guard are covered by its confirmation, and until the standby is
      given up those are all the replies of this incarnation. */
  ghost predicate GuardOk(
    guarding: bool, gate: Gate, passed: nat, resumed: nat, standby: Option<Standby>, replies: seq<Reply>, guarded: seq<U64>)
  {
    && (guarding && gate.Cleared? ==> passed < Confirmed(standby))
    && (guarding ==> forall i :: 0 <= i < |replies| && resumed <= replies[i].seqno ==> replies[i].seqno in guarded)
    && (forall i :: 0 <= i < |guarded| ==> guarded[i] < Confirmed(standby))
  }

  ghost predicate Replied(replies: seq<Reply>, n: U64) {
    exists i :: 0 <= i < |replies| && replies[i].seqno == n
  }

  /** Of the commands the ack thread has passed in this incarnation exactly those that asked have been
      answered, and what waits in the queue still knows whether to. */
  ghost predicate AskedOk(
    asked: set<U64>, acks: seq<Pending>, hand: Hand, resumed: nat, passed: nat, nextSeq: nat, replies: seq<Reply>)
  {
    && (forall n :: n in asked ==> resumed <= n < nextSeq)
    && (forall i :: 0 <= i < |acks| ==> (acks[i].reply <==> acks[i].seqno in asked))
    && (hand.Applied? || hand.Logged? ==> (hand.pending.reply <==> hand.pending.seqno in asked))
    && (forall n: U64 :: resumed <= n < passed ==> (n in asked <==> Replied(replies, n)))
  }

  ghost predicate Consistent(k: Setup, y: System)
    requires k.config.WellFormed()
  {
    var c, log := k.config, LogOf(k, y);
    && y.wal.files != []
    && EngineOk(c, log, y.state, y.nextSeq)
    && DiskOk(k.crc, y.wal, y.mark)
    && AcksOk(c, log, y.acks, y.hand, y.passed)
    && GateOk(y.acks, y.gate, y.passed, y.mark)
    && ShownOk(c, log, y.resumed, y.passed, y.view, y.broadcasts)
    && RepliesOk(c, log, y.passed, y.replies)
    && StandbyOk(c, log, y.standby)
    && GuardOk(Guarding(k, y), y.gate, y.passed, y.resumed, y.standby, y.replies, y.guarded)
    && AskedOk(y.asked, y.acks, y.hand, y.resumed, y.passed, y.nextSeq, y.replies)
  }

  // ---------------------------------------------------------------- longer logs

  lemma StateStill(c: Config, log: seq<LogRecord>, longer: seq<LogRecord>, n: nat)
    requires c.WellFormed() && log <= longer && n <= |log|
    ensures StateAt(c, longer, n) == StateAt(c, log, n)
  {
    assert longer[..n] == log[..n];
  }

  lemma HonestStill(c: Config, log: seq<LogRecord>, longer: seq<LogRecord>, p: Pending)
    requires c.WellFormed() && log <= longer && Honest(c, log, p)
    ensures Honest(c, longer, p)
  {
    hide Run, Apply;
    StateStill(c, log, longer, p.seqno);
    StateStill(c, log, longer, p.seqno + 1);
  }

  lemma {:induction false} StreamStill(c: Config, log: seq<LogRecord>, longer: seq<LogRecord>, a: nat, b: nat)
    requires c.WellFormed() && Numbered(longer) && Numbered(log) && log <= longer && b <= |log|
    ensures Told(c, longer, a, b) == Told(c, log, a, b)
    decreases b
  {
    if b > a {
      hide Run, Apply;
      StreamStill(c, log, longer, a, b - 1);
      StateStill(c, log, longer, b - 1);
    }
  }

  lemma EventsStill(c: Config, log: seq<LogRecord>, longer: seq<LogRecord>, n: nat)
    requires c.WellFormed() && log <= longer && n < |log|
    ensures EventsAt(c, longer, n) == EventsAt(c, log, n)
  {
    hide Run, Apply;
    StateStill(c, log, longer, n);
  }

  lemma ShownStill(
    c: Config, log: seq<LogRecord>, longer: seq<LogRecord>, resumed: nat, passed: nat, view: View, broadcasts: seq<Sent>)
    requires c.WellFormed() && Numbered(longer) && Numbered(log) && log <= longer
    requires ShownOk(c, log, resumed, passed, view, broadcasts)
    ensures ShownOk(c, longer, resumed, passed, view, broadcasts)
  {
    hide Run, StateAt, EventsAt, Told, ViewOf;
    StateStill(c, log, longer, Count(view.seqno));
    StreamStill(c, log, longer, resumed, passed);
    forall n | Count(view.seqno) <= n < passed ensures EventsAt(c, longer, n) == [] {
      EventsStill(c, log, longer, n);
    }
  }

  /** Replies stand as long as the records they answer do, whichever way the log goes on from there. */
  lemma RepliesStill(c: Config, log: seq<LogRecord>, other: seq<LogRecord>, passed: nat, later: nat, replies: seq<Reply>)
    requires c.WellFormed() && passed <= later && passed <= |log| && later <= |other|
    requires log[..passed] <= other && RepliesOk(c, log, passed, replies)
    ensures RepliesOk(c, other, later, replies)
  {
    hide Run, EventsAt;
    var kept := log[..passed];
    forall i | 0 <= i < |replies| ensures Answers(c, other, later, replies[i]) {
      assert Answers(c, log, passed, replies[i]);
      EventsStill(c, kept, log, replies[i].seqno);
      EventsStill(c, kept, other, replies[i].seqno);
    }
  }

  /** The state of a run knows how long the run was. */
  lemma StateCounts(c: Config, log: seq<LogRecord>, n: nat)
    requires c.WellFormed() && Numbered(log) && n <= |log|
    ensures Count(StateAt(c, log, n).lastSeq) == n
  {
    hide Run;
    RunsAreSound(c, log[..n]);
  }

  lemma StateNext(c: Config, log: seq<LogRecord>, n: nat)
    requires c.WellFormed() && n < |log|
    ensures StateAt(c, log, n + 1) == Apply(c, StateAt(c, log, n), log[n]).st
  {
    hide Apply;
    assert log[..n + 1] == log[..n] + [log[n]];
    RunStep(c, log[..n], log[n]);
  }

  lemma PassedWithin(c: Config, log: seq<LogRecord>, resumed: nat, passed: nat, view: View, broadcasts: seq<Sent>)
    requires c.WellFormed() && Numbered(log) && ShownOk(c, log, resumed, passed, view, broadcasts)
    ensures Count(view.seqno) <= passed <= |log| && resumed <= passed
  {}

  // ---------------------------------------------------------------- the engine

  lemma CommandKeeps(k: Setup, y: System, r: LogRecord, reply: bool)
    requires k.config.WellFormed() && Consistent(k, y)
    requires y.hand.Idle? && r.cmd.Admissible() && r.seqno == y.nextSeq
    ensures var z := Applying(k, y, r, reply);
            Consistent(k, z) && LogOf(k, z) == LogOf(k, y) + [r]
  {
    hide Run, Apply, Flat, DiskOk, Honest, StateAt, ViewOf, GateOk, ShownOk, RepliesOk;
    var log, z := LogOf(k, y), Applying(k, y, r, reply);
    var longer := log + [r];
    assert LogOf(k, z) == longer;
    RunStep(k.config, log, r);
    CommandIsHonest(k, y, log, r, reply);
    forall i | 0 <= i < |y.acks| ensures Honest(k.config, longer, y.acks[i]) {
      HonestStill(k.config, log, longer, y.acks[i]);
    }
    PassedWithin(k.config, log, y.resumed, y.passed, y.view, y.broadcasts);
    ShownStill(k.config, log, longer, y.resumed, y.passed, y.view, y.broadcasts);
    assert log[..y.passed] <= longer;
    RepliesStill(k.config, log, longer, y.passed, y.passed, y.replies);
    if y.standby.Some? {
      var n := Count(y.standby.value.state.lastSeq);
      StateStill(k.config, log, longer, n);
      assert longer[n..] == log[n..] + [r];
    }
  }

  lemma CommandIsHonest(k: Setup, y: System, log: seq<LogRecord>, r: LogRecord, reply: bool)
    requires k.config.WellFormed() && EngineOk(k.config, log, y.state, y.nextSeq) && r.seqno == |log|
    ensures Honest(k.config, log + [r], Applying(k, y, r, reply).hand.pending)
  {
    hide Run, Apply;
    assert (log + [r])[..|log|] == log && (log + [r])[|log|] == r;
    StateNext(k.config, log + [r], |log|);
  }

  lemma SubmitKeeps(k: Setup, y: System, refused: bool)
    requires k.config.WellFormed() && Consistent(k, y) && y.hand.Applied?
    ensures Consistent(k, Submitting(y, refused)) && LogOf(k, Submitting(y, refused)) == LogOf(k, y)
  {
    hide EngineOk, DiskOk, GateOk, ShownOk, RepliesOk, StandbyOk, GuardOk, Honest, Flat;
    Regroup(Flat(k.crc, y.wal.files), y.queue, [y.hand.record]);
    assert LogOf(k, Submitting(y, refused)) == LogOf(k, y);
  }

  lemma EnqueueKeeps(k: Setup, y: System, refused: bool)
    requires k.config.WellFormed() && Consistent(k, y) && y.hand.Logged?
    ensures Consistent(k, Enqueuing(y, refused)) && LogOf(k, Enqueuing(y, refused)) == LogOf(k, y)
  {
    hide EngineOk, DiskOk, ShownOk, RepliesOk, StandbyOk, GuardOk, Honest, Flat;
    assert LogOf(k, Enqueuing(y, refused)) == LogOf(k, y);
  }

  // ---------------------------------------------------------------- the writer

  /** The disk after one more record, with the same records proven durable. */
  lemma AppendDisk(k: Setup, y: System)
    requires DiskOk(k.crc, y.wal, y.mark) && y.wal.files != [] && y.queue != []
    ensures var written := AppendRecord(k.crc, k.segmentBytes, y.wal, y.queue[0]);
            written.Ok? ==>
              && Flat(k.crc, written.wal.files) == Flat(k.crc, y.wal.files) + [y.queue[0]]
              && DiskOk(k.crc, written.wal, y.mark) && written.wal.files != []
  {
    hide Flat, Keeps, AppendRecord;
    var flat := Flat(k.crc, y.wal.files);
    var n := Count(y.wal.durable);
    AppendKeeps(k.crc, k.segmentBytes, y.wal, y.queue[0], flat[..n]);
    AppendLeavesMark(k.crc, k.segmentBytes, y.wal, y.queue[0]);
    assert (flat + [y.queue[0]])[..n] == flat[..n];
  }

  lemma AppendLeavesMark(crc: Checksum, limit: nat, w: Wal, r: LogRecord)
    requires w.files != []
    ensures var written := AppendRecord(crc, limit, w, r);
            written.Ok? ==> written.wal.durable == w.durable && written.wal.files != []
  {
    hide Frame;
  }

  lemma WriterAppendKeeps(k: Setup, y: System)
    requires k.config.WellFormed() && Consistent(k, y) && y.queue != []
    ensures Consistent(k, Writing(k, y)) && LogOf(k, Writing(k, y)) == LogOf(k, y)
  {
    hide EngineOk, DiskOk, AcksOk, GateOk, ShownOk, RepliesOk, StandbyOk, GuardOk, AskedOk, Flat, AppendRecord;
    AppendDisk(k, y);
    Regroup(Flat(k.crc, y.wal.files), [y.queue[0]], y.queue[1..]);
    assert [y.queue[0]] + y.queue[1..] == y.queue;
    assert LogOf(k, Writing(k, y)) == LogOf(k, y);
  }

  lemma SyncDisk(k: Setup, y: System, log: seq<LogRecord>)
    requires DiskOk(k.crc, y.wal, y.mark) && y.wal.files != [] && Numbered(log) && Flat(k.crc, y.wal.files) <= log
    ensures var synced := SyncAll(y.wal);
            && Count(synced.durable) == |Flat(k.crc, y.wal.files)| && DiskOk(k.crc, synced, y.mark)
  {
    hide Flat, Keeps;
    var flat := Flat(k.crc, y.wal.files);
    SyncKeeps(k.crc, y.wal, flat[..Count(y.wal.durable)]);
    KeepsMark(k.crc, y.wal, flat[..Count(y.wal.durable)]);
    assert flat[..|flat|] == flat;
    if flat != [] {
      assert flat[|flat| - 1] == log[|flat| - 1];
    }
  }

  lemma WriterSyncKeeps(k: Setup, y: System)
    requires k.config.WellFormed() && Consistent(k, y)
    ensures var z := y.(wal := SyncAll(y.wal));
            Consistent(k, z) && LogOf(k, z) == LogOf(k, y)
  {
    hide Run, DiskOk, AcksOk, GateOk, ShownOk, RepliesOk, StandbyOk, GuardOk, AskedOk, Flat;
    SyncDisk(k, y, LogOf(k, y));
  }

  lemma WriterPublishKeeps(k: Setup, y: System)
    requires k.config.WellFormed() && Consistent(k, y)
    ensures Consistent(k, Marking(y)) && LogOf(k, Marking(y)) == LogOf(k, y) && Count(y.mark) <= Count(Marking(y).mark)
  {
    hide EngineOk, AcksOk, ShownOk, RepliesOk, StandbyOk, GuardOk, AskedOk, Flat, Keeps;
  }

  // ---------------------------------------------------------------- the ack thread

  lemma GatesKeep(k: Setup, y: System)
    requires k.config.WellFormed() && Consistent(k, y) && y.acks != []
    ensures y.gate.Waiting? ==> Consistent(k, Gating(k, y))
    ensures y.gate.Durable? && (Guarding(k, y) ==> y.acks[0].seqno < Count(y.standby.value.confirmed)) ==>
              Consistent(k, y.(gate := Gate.Cleared))
    ensures y.gate.Durable? ==> Consistent(k, y.(gate := Gate.Cleared, lost := true))
  {
    hide AskedOk, EngineOk, DiskOk, ShownOk, RepliesOk, StandbyOk, Flat, Honest;
    assert y.acks[0].seqno == y.passed;
  }

  lemma PublishShows(k: Setup, y: System, log: seq<LogRecord>)
    requires k.config.WellFormed() && Numbered(log) && y.acks != [] && y.gate.Cleared?
    requires Honest(k.config, log, y.acks[0]) && y.acks[0].seqno == y.passed
    requires ShownOk(k.config, log, y.resumed, y.passed, y.view, y.broadcasts)
    ensures var z := Publishing(k, y);
            && ShownOk(k.config, log, z.resumed, z.passed, z.view, z.broadcasts)
            && Count(y.view.seqno) <= Count(z.view.seqno)
  {
    hide Run, Apply, ViewOf, Tagged;
    var p := y.acks[0];
    StateCounts(k.config, log, p.seqno + 1);
    ViewCounts(k.config, StateAt(k.config, log, p.seqno + 1));
  }

  lemma PublishReplies(k: Setup, y: System, log: seq<LogRecord>)
    requires k.config.WellFormed() && Numbered(log) && y.acks != [] && y.gate.Cleared?
    requires Honest(k.config, log, y.acks[0]) && y.acks[0].seqno == y.passed < |log|
    requires RepliesOk(k.config, log, y.passed, y.replies)
    ensures RepliesOk(k.config, log, Publishing(k, y).passed, Publishing(k, y).replies)
  {
    hide Run, EventsAt;
    var z := Publishing(k, y);
    forall i | 0 <= i < |z.replies| ensures Answers(k.config, log, z.passed, z.replies[i]) {
      if i < |y.replies| {
        assert z.replies[i] == y.replies[i] && Answers(k.config, log, y.passed, y.replies[i]);
      }
    }
    forall i, j | 0 <= i < j < |z.replies| ensures z.replies[i].seqno < z.replies[j].seqno {
      assert Answers(k.config, log, y.passed, y.replies[i]);
    }
  }

  lemma PublishAnswers(k: Setup, y: System, log: seq<LogRecord>)
    requires k.config.WellFormed() && y.acks != [] && y.acks[0].seqno == y.passed < |log|
    requires RepliesOk(k.config, log, y.passed, y.replies)
    requires AskedOk(y.asked, y.acks, y.hand, y.resumed, y.passed, y.nextSeq, y.replies)
    ensures var z := Publishing(k, y);
            AskedOk(z.asked, z.acks, z.hand, z.resumed, z.passed, z.nextSeq, z.replies)
  {
    hide EventsAt, Tagged;
    var z, p := Publishing(k, y), y.acks[0];
    RepliesWithin(k.config, log, y.passed, y.replies);
    forall n: U64 | y.resumed <= n < z.passed ensures n in z.asked <==> Replied(z.replies, n) {
      if n < y.passed {
        RepliedStill(y.replies, z.replies, p.seqno, n);
      } else if p.reply {
        assert z.replies[|y.replies|].seqno == n;
      }
    }
    forall i | 0 <= i < |z.acks| ensures z.acks[i].reply <==> z.acks[i].seqno in z.asked {
      assert z.acks[i] == y.acks[i + 1];
    }
  }

  /** A reply under another number answers nobody else. */
  lemma RepliedStill(replies: seq<Reply>, more: seq<Reply>, m: U64, n: U64)
    requires n != m && replies <= more && forall i :: |replies| <= i < |more| ==> more[i].seqno == m
    ensures Replied(more, n) <==> Replied(replies, n)
  {
    if Replied(replies, n) {
      var i :| 0 <= i < |replies| && replies[i].seqno == n;
      assert more[i].seqno == n;
    }
  }

  lemma ViewCounts(c: Config, s: State)
    requires c.WellFormed()
    ensures ViewOf(c, s).seqno == s.lastSeq
  {}

  lemma AckPublishKeeps(k: Setup, y: System)
    requires k.config.WellFormed() && Consistent(k, y) && y.acks != [] && y.gate.Cleared?
    ensures Consistent(k, Publishing(k, y)) && LogOf(k, Publishing(k, y)) == LogOf(k, y)
    ensures Count(y.view.seqno) <= Count(Publishing(k, y).view.seqno)
  {
    hide Run, AskedOk, DiskOk, ShownOk, RepliesOk, StandbyOk, Flat, Honest, Tagged;
    var log, z := LogOf(k, y), Publishing(k, y);
    assert y.acks[0].seqno == y.passed && Honest(k.config, log, y.acks[0]);
    HonestWithin(k.config, log, y.acks[0]);
    PublishShows(k, y, log);
    PublishReplies(k, y, log);
    PublishAnswers(k, y, log);
    forall i | 0 <= i < |z.acks| ensures Honest(k.config, log, z.acks[i]) && z.acks[i].seqno == z.passed + i {
      assert z.acks[i] == y.acks[i + 1];
    }
  }

  lemma HonestWithin(c: Config, log: seq<LogRecord>, p: Pending)
    requires c.WellFormed() && Honest(c, log, p)
    ensures p.seqno < |log|
  {}

  // ---------------------------------------------------------------- the standby

  lemma StandbyApplyKeeps(k: Setup, y: System)
    requires k.config.WellFormed() && Consistent(k, y) && y.standby.Some? && y.standby.value.inbox != []
    ensures Consistent(k, Following(k, y)) && LogOf(k, Following(k, y)) == LogOf(k, y)
  {
    hide AskedOk, Run, Apply, DiskOk, AcksOk, GateOk, ShownOk, RepliesOk, Flat, StateAt;
    var log, b := LogOf(k, y), y.standby.value;
    var n := Count(b.state.lastSeq);
    assert b.inbox[0] == log[n] && b.inbox[1..] == log[n + 1..];
    StateNext(k.config, log, n);
    StateCounts(k.config, log, n + 1);
  }

  lemma StandbyConfirmKeeps(k: Setup, y: System)
    requires k.config.WellFormed() && Consistent(k, y) && y.standby.Some?
    ensures var z := Confirming(y);
            && Consistent(k, z) && LogOf(k, z) == LogOf(k, y)
            && Confirmed(y.standby) <= Confirmed(z.standby)
  {
    hide AskedOk, EngineOk, DiskOk, AcksOk, GateOk, ShownOk, RepliesOk, Flat, StateAt;
  }

  // ---------------------------------------------------------------- crash and restart

  /** What recovery makes of a numbered log. */
  lemma RecoveredRun(c: Config, snapshot: Option<Snapshot>, log: seq<LogRecord>)
    requires c.WellFormed() && Numbered(log) && Usable(c, snapshot, log)
    ensures var r := Recover(c, snapshot, log);
            r.Recovered? && r.state == Run(c, log).st && r.nextSeq == |log|
  {
    hide Run, Apply;
    if log == [] {
      FromNothing(c, log);
    } else {
      RecoveryIsReplay(c, snapshot, log);
    }
  }

  lemma PrefixOf(a: seq<LogRecord>, b: seq<LogRecord>, log: seq<LogRecord>)
    requires Numbered(log) && a <= b && b <= log
    ensures Numbered(a) && a <= log
    ensures Count(LastSeq(a)) == |a|
  {
    if a != [] {
      assert a[|a| - 1] == log[|a| - 1];
    }
    forall i | 0 <= i < |a| ensures a[i].seqno == i && a[i].cmd.Admissible() {
      assert a[i] == log[i];
    }
  }

  /** The disk a restart finds. */
  lemma RestartDisk(k: Setup, y: System, cut: nat, missing: bool, log: seq<LogRecord>)
    requires DiskOk(k.crc, y.wal, y.mark) && Numbered(log) && y.wal.files != [] && Flat(k.crc, y.wal.files) <= log
    ensures var files := Crashed(y.wal, cut, missing);
            var survivors := Flat(k.crc, files);
            && ReadAll(k.crc, files) == Read(survivors) && Reopen(k.crc, files).Opened?
            && Count(y.mark) <= |survivors|
            && log[..Count(y.mark)] <= survivors <= log
            && Numbered(survivors)
            && var w := Reopen(k.crc, files).wal;
               && Flat(k.crc, w.files) == survivors && DiskOk(k.crc, w, w.durable)
               && Count(w.durable) == |survivors|
  {
    hide Flat, Keeps, Crashed, ReadAll, Reopen;
    var flat := Flat(k.crc, y.wal.files);
    var acked := flat[..Count(y.wal.durable)];
    var files := Crashed(y.wal, cut, missing);
    CrashKeeps(k.crc, y.wal, cut, missing, acked);
    ReadAllIsFlat(k.crc, files);
    OpenKeeps(k.crc, files);
    var survivors := Flat(k.crc, files);
    PrefixOf(survivors, flat, log);
    MarksAcked(k.crc, Reopen(k.crc, files).wal, survivors);
    assert survivors[..|survivors|] == survivors;
    assert log[..Count(y.mark)] == acked[..Count(y.mark)];
  }

  lemma RestartKeeps(k: Setup, y: System, cut: nat, missing: bool, snapshot: Option<Snapshot>, replicated: bool)
    requires k.config.WellFormed() && Consistent(k, y)
    requires Usable(k.config, snapshot, Flat(k.crc, Crashed(y.wal, cut, missing)))
    ensures var files := Crashed(y.wal, cut, missing);
            && ReadAll(k.crc, files) == Read(Flat(k.crc, files)) && Reopen(k.crc, files).Opened?
            && var recovered := Recover(k.config, snapshot, Flat(k.crc, files));
               && recovered.Recovered?
               && var z := Restarted(k, y, Reopen(k.crc, files).wal, recovered.state, recovered.nextSeq, replicated);
                  && Consistent(k, z)
                  && LogOf(k, y)[..Count(y.mark)] <= LogOf(k, z) <= LogOf(k, y)
                  && Count(y.mark) <= Count(z.mark)
                  && Count(y.view.seqno) <= Count(z.view.seqno) && y.passed <= z.passed && z.replies == y.replies
  {
    hide Run, Apply, DiskOk, Flat, Crashed, ReadAll, Reopen, Recover, Usable, ViewOf, AcksOk, StandbyOk, GuardOk, AskedOk, ShownOk,
         RepliesOk;
    var log := LogOf(k, y);
    var files := Crashed(y.wal, cut, missing);
    var survivors := Flat(k.crc, files);
    RestartDisk(k, y, cut, missing, log);
    RecoveredRun(k.config, snapshot, survivors);
    PassedWithin(k.config, log, y.resumed, y.passed, y.view, y.broadcasts);
    assert log[..y.passed] <= survivors by { assert log[..Count(y.mark)][..y.passed] == log[..y.passed]; }
    RepliesStill(k.config, log, survivors, y.passed, |survivors|, y.replies);
    RestartedIs(k, y, Reopen(k.crc, files).wal, survivors, replicated);
  }

  /** A system restarted from a log that is all on the disk. */
  lemma RestartedIs(k: Setup, y: System, w: Wal, log: seq<LogRecord>, replicated: bool)
    requires k.config.WellFormed() && Numbered(log) && w.files != []
    requires Flat(k.crc, w.files) == log && DiskOk(k.crc, w, w.durable) && Count(w.durable) == |log|
    requires RepliesOk(k.config, log, |log|, y.replies)
    ensures var z := Restarted(k, y, w, Run(k.config, log).st, |log|, replicated);
            Consistent(k, z) && LogOf(k, z) == log && Count(z.view.seqno) == z.passed == |log|
  {
    hide Run, DiskOk, Flat, RepliesOk;
    assert log[..|log|] == log;
    RepliesWithin(k.config, log, |log|, y.replies);
    StateCounts(k.config, log, |log|);
    ViewCounts(k.config, Run(k.config, log).st);
    assert log + [] + [] == log;
  }

  // ---------------------------------------------------------------- every step, every run

  lemma MarkIsWithin(k: Setup, y: System)
    requires k.config.WellFormed() && Consistent(k, y)
    ensures y.wal.files != [] && Count(y.mark) <= |Flat(k.crc, y.wal.files)| <= |LogOf(k, y)|
    ensures y.gate.Durable? ==> y.acks != []
  {
    hide EngineOk, AcksOk, ShownOk, RepliesOk, StandbyOk, GuardOk, AskedOk, Flat, Keeps;
  }

  /** From `y` to `z` the mark, the ack thread and the published view do not fall back, no reply is taken
      back, and nothing the mark covers is taken back or moved. */
  ghost predicate Advances(k: Setup, y: System, z: System) {
    && Count(y.mark) <= Count(z.mark)
    && Count(y.view.seqno) <= Count(z.view.seqno) && y.passed <= z.passed && y.replies <= z.replies
    && Count(y.mark) <= |LogOf(k, y)|
    && LogOf(k, y)[..Count(y.mark)] <= LogOf(k, z)
  }

  lemma GrowsAdvances(k: Setup, y: System, z: System)
    requires Count(y.mark) <= |LogOf(k, y)| && Count(y.mark) <= Count(z.mark) && LogOf(k, y) <= LogOf(k, z)
    requires Count(y.view.seqno) <= Count(z.view.seqno) && y.passed <= z.passed && y.replies <= z.replies
    ensures Advances(k, y, z)
  {
    hide LogOf, Count;
  }

  /** No step breaks the chain from command to acknowledgement; the mark never falls, and no step,
      not even a crash, takes back or moves a record the mark covers. */
  lemma MovesKeep(k: Setup, y: System, move: Move)
    requires k.config.WellFormed() && Consistent(k, y) && Enabled(k, y, move)
    ensures Consistent(k, Next(k, y, move)) && Advances(k, y, Next(k, y, move))
  {
    hide Consistent, LogOf, Apply, Recover, ReadAll, Reopen, Crashed, Usable, Advances, SyncAll, AppendRecord, ViewOf, Restarted,
         Committer.AtMost, Flat, Count;
    MarkIsWithin(k, y);
    var z := Next(k, y, move);
    match move
    case Command(ts, cmd, reply) =>
      CommandKeeps(k, y, LogRecord(y.nextSeq, ts, cmd), reply);
      GrowsAdvances(k, y, z);
    case Submit(refused) =>
      SubmitKeeps(k, y, refused);
      GrowsAdvances(k, y, z);
    case Enqueue(refused) =>
      EnqueueKeeps(k, y, refused);
      GrowsAdvances(k, y, z);
    case WriterAppend =>
      WriterAppendKeeps(k, y);
      GrowsAdvances(k, y, z);
    case WriterSync =>
      WriterSyncKeeps(k, y);
      GrowsAdvances(k, y, z);
    case WriterPublish =>
      WriterPublishKeeps(k, y);
      GrowsAdvances(k, y, z);
    case WriterStop =>
      WriterStopKeeps(k, y);
      SameLog(k, y, z);
    case AckDurable =>
      GatesKeep(k, y);
      SameLog(k, y, z);
    case AckConfirm =>
      GatesKeep(k, y);
      SameLog(k, y, z);
    case AckLose =>
      GatesKeep(k, y);
      SameLog(k, y, z);
    case AckPublish =>
      AckPublishKeeps(k, y);
      GrowsAdvances(k, y, z);
    case StandbyApply =>
      StandbyApplyKeeps(k, y);
      GrowsAdvances(k, y, z);
    case StandbyConfirm =>
      StandbyConfirmKeeps(k, y);
      GrowsAdvances(k, y, z);
    case Restart(cut, missing, snapshot, replicated) =>
      RestartAdvances(k, y, cut, missing, snapshot, replicated);
  }

  lemma SameLog(k: Setup, y: System, z: System)
    requires Count(y.mark) <= |LogOf(k, y)|
    requires z.wal == y.wal && z.queue == y.queue && z.hand == y.hand && z.mark == y.mark
    requires z.view == y.view && z.passed == y.passed && z.replies == y.replies
    ensures LogOf(k, z) == LogOf(k, y) && Advances(k, y, z)
  {
    hide Count, Flat;
    assert LogOf(k, z) == LogOf(k, y);
  }

  lemma WriterStopKeeps(k: Setup, y: System)
    requires k.config.WellFormed() && Consistent(k, y)
    ensures Consistent(k, y.(closed := true))
  {
    hide EngineOk, AcksOk, ShownOk, RepliesOk, StandbyOk, GuardOk, AskedOk, DiskOk, GateOk, Flat;
    assert LogOf(k, y.(closed := true)) == LogOf(k, y);
  }

  lemma RestartAdvances(k: Setup, y: System, cut: nat, missing: bool, snapshot: Option<Snapshot>, replicated: bool)
    requires k.config.WellFormed() && Consistent(k, y) && y.wal.files != []
    requires Enabled(k, y, Restart(cut, missing, snapshot, replicated))
    ensures var z := Next(k, y, Restart(cut, missing, snapshot, replicated));
            Consistent(k, z) && Advances(k, y, z)
  {
    hide Consistent, LogOf, Apply, Recover, Reopen, Crashed, Usable, ViewOf, Restarted, Flat, Count, ReadAll;
    MarkIsWithin(k, y);
    CrashedReads(k, y, cut, missing);
    RestartKeeps(k, y, cut, missing, snapshot, replicated);
  }

  lemma CrashedReads(k: Setup, y: System, cut: nat, missing: bool)
    requires k.config.WellFormed() && Consistent(k, y)
    ensures y.wal.files != []
    ensures var files := Crashed(y.wal, cut, missing);
            ReadAll(k.crc, files) == Read(Flat(k.crc, files)) && Reopen(k.crc, files).Opened?
  {
    hide AcksOk, ShownOk, RepliesOk, StandbyOk, GuardOk, AskedOk, DiskOk, GateOk, Flat, Crashed, ReadAll, Reopen, Run, Keeps;
    RestartDisk(k, y, cut, missing, LogOf(k, y));
  }

  /** A restart is always possible: whatever the crash left can be read, reopened and recovered. */
  lemma AlwaysRestartable(k: Setup, y: System, cut: nat, missing: bool, replicated: bool)
    requires k.config.WellFormed() && Consistent(k, y)
    ensures Enabled(k, y, Restart(cut, missing, None, replicated))
  {
    hide Consistent, Run, Apply, Recover, Reopen, Crashed, Flat, ReadAll;
    CrashedReads(k, y, cut, missing);
    RestartKeeps(k, y, cut, missing, None, replicated);
  }

  // ---------------------------------------------------------------- runs

  function Start(k: Setup, replicated: bool): System
    requires k.config.WellFormed()
  {
    var state := Init(k.config);
    System(state, 0, Idle, [], Empty(), None, false, [], Waiting, false, ViewOf(k.config, state), [],
           if replicated then Some(Standby(state, [], None, None)) else None, 0, 0, [], [], {})
  }

  lemma StartIsConsistent(k: Setup, replicated: bool)
    requires k.config.WellFormed()
    ensures Consistent(k, Start(k, replicated)) && LogOf(k, Start(k, replicated)) == []
  {
    hide Flat, Keeps;
    EmptyKeeps(k.crc);
    assert [] + [] + [] == LogOf(k, Start(k, replicated));
    assert Run(k.config, []) == Step(Init(k.config), []);
  }

  /** `trace` is a way the threads, and the power supply, can interleave. */
  ghost predicate Interleaving(k: Setup, trace: seq<System>, moves: seq<Move>)
    requires k.config.WellFormed()
  {
    && |trace| == |moves| + 1
    && forall i :: 0 <= i < |moves| ==>
         trace[i].wal.files != [] && Enabled(k, trace[i], moves[i]) && trace[i + 1] == Next(k, trace[i], moves[i])
  }

  lemma {:induction false} InterleavingsKeep(k: Setup, trace: seq<System>, moves: seq<Move>, i: nat, j: nat)
    requires k.config.WellFormed() && Interleaving(k, trace, moves) && Consistent(k, trace[0])
    requires i <= j < |trace|
    ensures Consistent(k, trace[j]) && Advances(k, trace[i], trace[j])
    decreases j
  {
    hide Consistent, Enabled, Next, LogOf, Count;
    if j == 0 {
      MarkIsWithin(k, trace[0]);
      GrowsAdvances(k, trace[0], trace[0]);
    } else {
      assert Enabled(k, trace[j - 1], moves[j - 1]) && trace[j] == Next(k, trace[j - 1], moves[j - 1]);
      InterleavingsKeep(k, trace, moves, if i < j then i else j - 1, j - 1);
      MovesKeep(k, trace[j - 1], moves[j - 1]);
      if i == j {
        MarkIsWithin(k, trace[j]);
        GrowsAdvances(k, trace[j], trace[j]);
      } else {
        AdvancesChain(k, trace[i], trace[j - 1], trace[j]);
      }
    }
  }

  lemma AdvancesChain(k: Setup, x: System, y: System, z: System)
    requires Advances(k, x, y) && Advances(k, y, z)
    ensures Advances(k, x, z)
  {
    hide LogOf, Count;
    var n := Count(x.mark);
    assert LogOf(k, x)[..n] == LogOf(k, y)[..n] == LogOf(k, z)[..n];
  }

  /** Numbered from `a` up to `b`, and in order. */
  ghost predicate Ranged(told: seq<Sent>, a: nat, b: nat) {
    && (forall i :: 0 <= i < |told| ==> a <= told[i].seqno < b)
    && (forall i, j :: 0 <= i < j < |told| ==> told[i].seqno <= told[j].seqno)
  }

  lemma RangedGrows(told: seq<Sent>, more: seq<Sent>, a: nat, b: nat)
    requires Ranged(told, a, b) && a <= b
    requires forall i :: 0 <= i < |more| ==> more[i].seqno == b
    ensures Ranged(told + more, a, b + 1)
  {}

  lemma {:induction false} StreamWithin(c: Config, log: seq<LogRecord>, a: nat, b: nat)
    requires c.WellFormed() && b <= |log| && Numbered(log)
    ensures Ranged(Told(c, log, a, b), a, b)
    decreases b
  {
    hide Run, EventsAt, Tagged, Ranged;
    if b > a {
      StreamWithin(c, log, a, b - 1);
      TaggedWith(log[b - 1].seqno, EventsAt(c, log, b - 1));
      RangedGrows(Told(c, log, a, b - 1), Tagged(log[b - 1].seqno, EventsAt(c, log, b - 1)), a, b - 1);
    } else {
      NothingRanged(a, b);
    }
  }

  lemma NothingRanged(a: nat, b: nat)
    ensures Ranged([], a, b)
  {}

  lemma {:induction false} TaggedWith(seqno: U64, events: seq<Event>)
    ensures forall i :: 0 <= i < |Tagged(seqno, events)| ==> Tagged(seqno, events)[i].seqno == seqno
  {
    if events != [] {
      TaggedWith(seqno, events[1..]);
    }
  }

  /** Under every interleaving, with crashes anywhere: what has been replied to, broadcast or shown is
      within the mark, the mark within what is synced, that within what is appended, and that within
      what has been applied. */
  lemma NothingRunsAhead(k: Setup, replicated: bool, trace: seq<System>, moves: seq<Move>, i: nat)
    requires k.config.WellFormed() && Interleaving(k, trace, moves) && trace[0] == Start(k, replicated)
    requires i < |trace|
    ensures var y := trace[i];
            && (forall j :: 0 <= j < |y.replies| ==> y.replies[j].seqno < y.passed)
            && (forall j :: 0 <= j < |y.broadcasts| ==> y.resumed <= y.broadcasts[j].seqno < y.passed)
            && Count(y.view.seqno) <= y.passed <= Count(y.mark) <= Count(y.wal.durable)
            && Count(y.wal.durable) <= |Flat(k.crc, y.wal.files)| <= |LogOf(k, y)| == y.nextSeq
  {
    hide *;
    StartIsConsistent(k, replicated);
    InterleavingsKeep(k, trace, moves, i, i);
    MarksInOrder(k, trace[i]);
    ShowsInOrder(k, trace[i]);
  }

  lemma MarksInOrder(k: Setup, y: System)
    requires k.config.WellFormed() && Consistent(k, y)
    ensures Count(y.view.seqno) <= y.passed <= Count(y.mark) <= Count(y.wal.durable)
    ensures Count(y.wal.durable) <= |Flat(k.crc, y.wal.files)| <= |LogOf(k, y)| == y.nextSeq
  {
    hide Flat, Keeps, Run, StandbyOk, GuardOk, AskedOk, AcksOk, RepliesOk, StateAt, Told, ViewOf, Silent;
  }

  lemma ShowsInOrder(k: Setup, y: System)
    requires k.config.WellFormed() && Consistent(k, y)
    ensures var log := LogOf(k, y);
            && Numbered(log) && Count(y.view.seqno) <= y.passed <= |log|
            && y.view == ViewOf(k.config, StateAt(k.config, log, Count(y.view.seqno)))
            && (forall n :: Count(y.view.seqno) <= n < y.passed ==> EventsAt(k.config, log, n) == [])
            && y.broadcasts == Told(k.config, log, y.resumed, y.passed)
            && (forall a :: 0 <= a < |y.broadcasts| ==> y.resumed <= y.broadcasts[a].seqno < y.passed)
            && (forall a, b :: 0 <= a < b < |y.broadcasts| ==> y.broadcasts[a].seqno <= y.broadcasts[b].seqno)
            && (forall a, b :: 0 <= a < b < |y.replies| ==> y.replies[a].seqno < y.replies[b].seqno)
            && (forall a :: 0 <= a < |y.replies| ==>
                  y.replies[a].seqno < y.passed && y.replies[a].events == EventsAt(k.config, log, y.replies[a].seqno))
  {
    hide LogOf, Run, StandbyOk, GuardOk, AskedOk, AcksOk, StateAt, EventsAt, Told, ViewOf, DiskOk, GateOk;
    var log := LogOf(k, y);
    StreamWithin(k.config, log, y.resumed, y.passed);
    RepliesWithin(k.config, log, y.passed, y.replies);
  }

  lemma RepliesWithin(c: Config, log: seq<LogRecord>, passed: nat, replies: seq<Reply>)
    requires c.WellFormed() && passed <= |log| && RepliesOk(c, log, passed, replies)
    ensures forall j :: 0 <= j < |replies| ==>
              replies[j].seqno < passed && replies[j].events == EventsAt(c, log, replies[j].seqno)
  {
    hide EventsAt;
    forall j | 0 <= j < |replies|
      ensures replies[j].seqno < passed && replies[j].events == EventsAt(c, log, replies[j].seqno)
    {
      assert Answers(c, log, passed, replies[j]);
    }
  }

  /** Whatever happens after a reply, crashes included, the log read back from any disk a further
      crash could leave still holds the acknowledged record in its place, and replaying it still gives
      what the reply said. */
  lemma AcknowledgedForGood(
    k: Setup, replicated: bool, trace: seq<System>, moves: seq<Move>, i: nat, j: nat, m: nat, cut: nat, missing: bool)
    requires k.config.WellFormed() && Interleaving(k, trace, moves) && trace[0] == Start(k, replicated)
    requires i <= j < |trace| && m < |trace[i].replies|
    ensures trace[j].wal.files != [] && trace[i].replies[m].seqno < |LogOf(k, trace[i])|
    ensures var reply := trace[i].replies[m];
            var reading := ReadAll(k.crc, Crashed(trace[j].wal, cut, missing));
            && reading.Read? && reply.seqno < |reading.records|
            && reading.records[reply.seqno] == LogOf(k, trace[i])[reply.seqno]
            && reading.records[reply.seqno].seqno == reply.seqno
            && reply.events == EventsAt(k.config, reading.records, reply.seqno)
  {
    hide Interleaving, Flat, Keeps, Run, Told, StateAt, EventsAt, ViewOf, Crashed, ReadAll, Reopen, AcksOk, StandbyOk, GuardOk,
         LogOf, Next, Enabled, Silent;
    StartIsConsistent(k, replicated);
    InterleavingsKeep(k, trace, moves, i, i);
    InterleavingsKeep(k, trace, moves, i, j);
    MarkIsWithin(k, trace[i]);
    MarkIsWithin(k, trace[j]);
    LogHoldsFiles(k, trace[j]);
    RestartDisk(k, trace[j], cut, missing, LogOf(k, trace[j]));
    var y, z := trace[i], trace[j];
    var survivors := Flat(k.crc, Crashed(z.wal, cut, missing));
    var n := y.replies[m].seqno;
    RepliesWithin(k.config, LogOf(k, y), y.passed, y.replies);
    assert LogOf(k, y)[..Count(y.mark)][n] == LogOf(k, z)[n];
    assert LogOf(k, z)[..Count(z.mark)][n] == survivors[n];
    assert survivors[..Count(y.mark)] == LogOf(k, y)[..Count(y.mark)] by {
      assert LogOf(k, z)[..Count(z.mark)][..Count(y.mark)] == LogOf(k, z)[..Count(y.mark)];
    }
    EventsStill(k.config, LogOf(k, y)[..Count(y.mark)], LogOf(k, y), n);
    EventsStill(k.config, LogOf(k, y)[..Count(y.mark)], survivors, n);
  }

  lemma LogHoldsFiles(k: Setup, y: System)
    ensures Flat(k.crc, y.wal.files) <= LogOf(k, y)
  {}

  /** The view field by field: the status, supply, clearing price and clock of the run as of the last
      record shown, its price the clearing price once there is one and the clock's before that; and
      whoever has heard every event of that run has the same status, supply and clearing price. */
  ghost predicate Shows(c: Config, view: View, log: seq<LogRecord>)
    requires c.WellFormed()
  {
    var run := Run(c, log);
    var heard := Stream.HearAll(Stream.Public(Status.Pending, c.totalSupply, None, [], map[]), run.ev);
    && view.status == run.st.status == heard.status
    && view.supply == run.st.supply == heard.supply
    && view.clearing == run.st.clearing == heard.clearing
    && view.elapsed == run.st.now == LatestOf(log)
    && view.seqno == LastSeq(log)
    && view.price == match run.st.clearing { case Some(price) => price case None => c.PriceAt(LatestOf(log)) }
  }

  lemma ViewShows(c: Config, log: seq<LogRecord>)
    requires c.WellFormed() && WellLogged(log)
    ensures Shows(c, ViewOf(c, Run(c, log).st), log)
  {
    hide Run, Stream.HearAll;
    RunsAreSound(c, log);
    ClockIsLatest(c, log);
    EventsReproduceTheAuction(c, log);
  }

  lemma AskersAnswered(k: Setup, y: System)
    requires k.config.WellFormed() && Consistent(k, y)
    ensures forall n: U64 :: y.resumed <= n < y.passed ==> (n in y.asked <==> Replied(y.replies, n))
  {
    hide EngineOk, DiskOk, AcksOk, GateOk, ShownOk, RepliesOk, StandbyOk, GuardOk, LogOf, Replied;
  }

  lemma StateIs(c: Config, log: seq<LogRecord>, n: nat)
    requires c.WellFormed() && n <= |log|
    ensures StateAt(c, log, n) == Run(c, log[..n]).st
  {}

  lemma NumberedIsLogged(log: seq<LogRecord>, n: nat)
    requires Numbered(log) && n <= |log|
    ensures WellLogged(log[..n])
  {}

  /** What is on show is what there is to show, in order, each only once its command is durable: the view
      is the auction as of some shown record with nothing said since; subscribers hear every event since
      this incarnation resumed; and replies, over all incarnations, go out one per command and in
      sequence, each saying what its command did. */
  lemma ShownInOrder(k: Setup, replicated: bool, trace: seq<System>, moves: seq<Move>, i: nat)
    requires k.config.WellFormed() && Interleaving(k, trace, moves) && trace[0] == Start(k, replicated)
    requires i < |trace|
    ensures var y := trace[i];
            var log := LogOf(k, y);
            && Numbered(log) && Count(y.view.seqno) <= y.passed <= |log|
            && Shows(k.config, y.view, log[..Count(y.view.seqno)])
            && (forall n :: Count(y.view.seqno) <= n < y.passed ==> EventsAt(k.config, log, n) == [])
            && y.broadcasts == Told(k.config, log, y.resumed, y.passed)
            && (forall a, b :: 0 <= a < b < |y.broadcasts| ==> y.broadcasts[a].seqno <= y.broadcasts[b].seqno)
            && (forall a, b :: 0 <= a < b < |y.replies| ==> y.replies[a].seqno < y.replies[b].seqno)
            && (forall a :: 0 <= a < |y.replies| ==>
                  y.replies[a].seqno < |log| && y.replies[a].events == EventsAt(k.config, log, y.replies[a].seqno))
            && (forall n: U64 :: y.resumed <= n < y.passed ==> (n in y.asked <==> Replied(y.replies, n)))
  {
    hide *;
    StartIsConsistent(k, replicated);
    InterleavingsKeep(k, trace, moves, i, i);
    ShowsInOrder(k, trace[i]);
    AskersAnswered(k, trace[i]);
    var log, n := LogOf(k, trace[i]), Count(trace[i].view.seqno);
    NumberedIsLogged(log, n);
    StateIs(k.config, log, n);
    ViewShows(k.config, log[..n]);
  }

  /** Along every interleaving, restarts included, the published view, the ack thread and the mark only
      go forward, and no reply is ever taken back. */
  lemma ShownOnlyForward(k: Setup, replicated: bool, trace: seq<System>, moves: seq<Move>, i: nat, j: nat)
    requires k.config.WellFormed() && Interleaving(k, trace, moves) && trace[0] == Start(k, replicated)
    requires i <= j < |trace|
    ensures var y, z := trace[i], trace[j];
            && Count(y.view.seqno) <= Count(z.view.seqno) && y.passed <= z.passed
            && Count(y.mark) <= Count(z.mark) && y.replies <= z.replies
  {
    hide Interleaving, Consistent, LogOf, Count;
    StartIsConsistent(k, replicated);
    InterleavingsKeep(k, trace, moves, i, j);
  }

  /** A reply sent under the standby's guard is for a command the standby has applied: its state is
      the run of a prefix that contains the command. */
  lemma GuardedRepliesAreReplicated(k: Setup, replicated: bool, trace: seq<System>, moves: seq<Move>, i: nat, n: U64)
    requires k.config.WellFormed() && Interleaving(k, trace, moves) && trace[0] == Start(k, replicated)
    requires i < |trace| && n in trace[i].guarded
    ensures trace[i].standby.Some?
    ensures var b := trace[i].standby.value;
            var m := Count(b.state.lastSeq);
            n < m <= |LogOf(k, trace[i])| && b.state == StateAt(k.config, LogOf(k, trace[i]), m)
  {
    StartIsConsistent(k, replicated);
    InterleavingsKeep(k, trace, moves, i, i);
    hide Interleaving, Flat, Keeps, Run, AcksOk, StateAt, Told, ViewOf, ShownOk;
  }

  /** The command thread never meets a sequence violation: the state machine accepts every number
      the sequencer hands out, across restarts too. */
  lemma SequenceIsNeverViolated(k: Setup, replicated: bool, trace: seq<System>, moves: seq<Move>, i: nat)
    requires k.config.WellFormed() && Interleaving(k, trace, moves) && trace[0] == Start(k, replicated)
    requires i < |trace| && trace[i].nextSeq <= U64_MAX
    ensures InSequence(trace[i].state, trace[i].nextSeq) && Between(k.config, trace[i].state)
  {
    hide Interleaving, Consistent, EngineOk, LogOf, Between;
    StartIsConsistent(k, replicated);
    InterleavingsKeep(k, trace, moves, i, i);
    ConsistentEngine(k, trace[i]);
    EngineInSequence(k.config, LogOf(k, trace[i]), trace[i].state, trace[i].nextSeq);
  }

  lemma ConsistentEngine(k: Setup, y: System)
    requires k.config.WellFormed() && Consistent(k, y)
    ensures EngineOk(k.config, LogOf(k, y), y.state, y.nextSeq)
  {}

  lemma EngineInSequence(c: Config, log: seq<LogRecord>, state: State, nextSeq: nat)
    requires c.WellFormed() && EngineOk(c, log, state, nextSeq) && nextSeq <= U64_MAX
    ensures InSequence(state, nextSeq) && Between(c, state)
  {
    hide Run, Between;
    RunsAreSound(c, log);
  }

  // ---------------------------------------------------------------- every command can be answered

  /** The standby is given up only by the ack thread losing it, and for as long as this incarnation lasts. */
  lemma GivenUpExactly(k: Setup, y: System, move: Move)
    requires k.config.WellFormed() && y.wal.files != [] && Enabled(k, y, move)
    ensures Next(k, y, move).lost <==> move.AckLose? || (y.lost && !move.Restart?)
  {
    hide Apply, Recover, ReadAll, Reopen, Crashed, AppendRecord, ViewOf, Tagged, Committer.AtMost;
  }

  /** Until then every reply of the incarnation is a guarded one. */
  lemma EveryReplyIsGuarded(k: Setup, replicated: bool, trace: seq<System>, moves: seq<Move>, i: nat, m: nat)
    requires k.config.WellFormed() && Interleaving(k, trace, moves) && trace[0] == Start(k, replicated)
    requires i < |trace| && m < |trace[i].replies|
    requires Guarding(k, trace[i]) && trace[i].resumed <= trace[i].replies[m].seqno
    ensures trace[i].replies[m].seqno in trace[i].guarded
  {
    hide Interleaving, EngineOk, DiskOk, AcksOk, GateOk, ShownOk, RepliesOk, StandbyOk, AskedOk, LogOf;
    StartIsConsistent(k, replicated);
    InterleavingsKeep(k, trace, moves, i, i);
  }

  /** What the engine submits always continues the log, so the writer never stops over a gap. */
  lemma WriterNeverRefuses(k: Setup, y: System)
    requires k.config.WellFormed() && Consistent(k, y) && y.queue != []
    ensures AppendRecord(k.crc, k.segmentBytes, y.wal, y.queue[0]).Ok?
  {
    hide Keeps, Flat, Run, AcksOk, GateOk, ShownOk, RepliesOk, StandbyOk, GuardOk, AskedOk;
    var log, flat := LogOf(k, y), Flat(k.crc, y.wal.files);
    KeepsMark(k.crc, y.wal, flat[..Count(y.wal.durable)]);
    assert log[|flat|] == y.queue[0];
    if flat != [] {
      assert log[|flat| - 1] == flat[|flat| - 1];
    }
  }

  /** `moves`, one after another, take `y` to `z`. */
  ghost predicate Leads(k: Setup, y: System, moves: seq<Move>, z: System)
    requires k.config.WellFormed()
    decreases |moves|
  {
    if moves == [] then y == z
    else y.wal.files != [] && Enabled(k, y, moves[0]) && Leads(k, Next(k, y, moves[0]), moves[1..], z)
  }

  lemma {:induction false} LeadsOn(k: Setup, x: System, some: seq<Move>, y: System, more: seq<Move>, z: System)
    requires k.config.WellFormed() && Leads(k, x, some, y) && Leads(k, y, more, z)
    ensures Leads(k, x, some + more, z)
    decreases |some|
  {
    hide Enabled, Next;
    if some == [] {
      assert some + more == more;
    } else {
      assert (some + more)[1..] == some[1..] + more;
      LeadsOn(k, Next(k, x, some[0]), some[1..], y, more, z);
    }
  }

  /** Every thread is still there. */
  ghost predicate Running(k: Setup, y: System)
    requires k.config.WellFormed()
  {
    Consistent(k, y) && !y.closed && !y.gate.Shut? && !y.hand.Halted?
  }

  /** No new command has come in between. */
  ghost predicate Settles(k: Setup, y: System, z: System) {
    LogOf(k, z) == LogOf(k, y) && z.asked == y.asked && z.resumed == y.resumed
  }

  lemma TakesStep(k: Setup, y: System, move: Move) returns (z: System)
    requires k.config.WellFormed() && Consistent(k, y) && Enabled(k, y, move) && y.wal.files != []
    ensures z == Next(k, y, move) && Leads(k, y, [move], z) && Consistent(k, z)
  {
    hide Consistent, Enabled, Next;
    z := Next(k, y, move);
    assert [move][1..] == [];
    MovesKeep(k, y, move);
  }

  lemma HasFiles(k: Setup, y: System)
    requires k.config.WellFormed() && Consistent(k, y)
    ensures y.wal.files != []
  {}

  lemma Submits(k: Setup, y: System) returns (moves: seq<Move>, z: System)
    requires k.config.WellFormed() && Running(k, y)
    ensures Leads(k, y, moves, z) && Running(k, z) && Settles(k, y, z) && z.hand.Idle?
  {
    hide Consistent, Flat;
    moves, z := [], y;
    HasFiles(k, y);
    if z.hand.Applied? {
      SubmitKeeps(k, y, false);
      z := TakesStep(k, y, Submit(false));
      moves := [Submit(false)];
    }
    if z.hand.Logged? {
      var before, so := z, moves;
      HasFiles(k, before);
      EnqueueKeeps(k, before, false);
      z := TakesStep(k, before, Enqueue(false));
      moves := so + [Enqueue(false)];
      LeadsOn(k, y, so, before, [Enqueue(false)], z);
    }
  }

  lemma {:induction false} Writes(k: Setup, y: System) returns (moves: seq<Move>, z: System)
    requires k.config.WellFormed() && Running(k, y) && y.hand.Idle?
    ensures Leads(k, y, moves, z) && Running(k, z) && Settles(k, y, z) && z.hand.Idle? && z.queue == []
    decreases |y.queue|
  {
    hide Consistent, Flat, AppendRecord;
    moves, z := [], y;
    if y.queue != [] {
      HasFiles(k, y);
      WriterNeverRefuses(k, y);
      WriterAppendKeeps(k, y);
      var next := TakesStep(k, y, WriterAppend);
      moves, z := Writes(k, next);
      LeadsOn(k, y, [WriterAppend], next, moves, z);
      moves := [WriterAppend] + moves;
    }
  }

  lemma Synced(k: Setup, y: System)
    requires k.config.WellFormed() && Consistent(k, y)
    ensures Count(SyncAll(y.wal).durable) == |Flat(k.crc, y.wal.files)|
  {
    hide Run, DiskOk, AcksOk, GateOk, ShownOk, RepliesOk, StandbyOk, GuardOk, AskedOk, Flat;
    SyncDisk(k, y, LogOf(k, y));
  }

  lemma Syncs(k: Setup, y: System) returns (moves: seq<Move>, z: System)
    requires k.config.WellFormed() && Running(k, y) && y.hand.Idle? && y.queue == []
    ensures Leads(k, y, moves, z) && Running(k, z) && Settles(k, y, z) && z.hand.Idle? && z.queue == []
    ensures Count(z.mark) == |LogOf(k, z)|
  {
    hide Consistent, Flat;
    HasFiles(k, y);
    WriterSyncKeeps(k, y);
    Synced(k, y);
    var synced := TakesStep(k, y, WriterSync);
    HasFiles(k, synced);
    WriterPublishKeeps(k, synced);
    z := TakesStep(k, synced, WriterPublish);
    MarkIsWithin(k, z);
    MarkCaughtUp(synced);
    LeadsOn(k, y, [WriterSync], synced, [WriterPublish], z);
    moves := [WriterSync] + [WriterPublish];
  }

  lemma MarkCaughtUp(y: System)
    ensures Count(y.wal.durable) <= Count(Marking(y).mark)
  {}

  lemma HeadIsNext(k: Setup, y: System)
    requires k.config.WellFormed() && Consistent(k, y)
    ensures y.acks != [] ==> y.acks[0].seqno == y.passed < |LogOf(k, y)|
    ensures y.hand.Idle? ==> y.passed + |y.acks| == |LogOf(k, y)|
  {
    hide EngineOk, DiskOk, GateOk, ShownOk, RepliesOk, StandbyOk, GuardOk, AskedOk, Honest, LogOf;
    if y.acks != [] {
      HonestWithin(k.config, LogOf(k, y), y.acks[0]);
    }
  }

  /** Both gates open for the head of the ack queue, once its record is durable: the standby confirms it
      or is lost. */
  lemma Passes(k: Setup, y: System) returns (moves: seq<Move>, z: System)
    requires k.config.WellFormed() && Running(k, y) && y.acks != [] && y.acks[0].seqno < Count(y.mark)
    ensures Leads(k, y, moves, z) && Consistent(k, z) && z.gate.Cleared?
    ensures z == y.(gate := Gate.Cleared, lost := z.lost)
  {
    hide Consistent, Flat, Count, Crashed, ReadAll, Reopen, Usable, Recover, Apply;
    HasFiles(k, y);
    moves, z := [], y;
    if z.gate.Waiting? {
      z := TakesStep(k, y, AckDurable);
      moves := [AckDurable];
    }
    if z.gate.Durable? {
      var before, so := z, moves;
      var move := if Guarding(k, z) && z.acks[0].seqno >= Count(z.standby.value.confirmed) then AckLose else AckConfirm;
      z := TakesStep(k, before, move);
      moves := so + [move];
      LeadsOn(k, y, so, before, [move], z);
    }
  }

  lemma Acknowledges(k: Setup, y: System) returns (moves: seq<Move>, z: System)
    requires k.config.WellFormed() && Running(k, y) && y.acks != [] && y.acks[0].seqno < Count(y.mark)
    ensures Leads(k, y, moves, z) && Running(k, z) && Settles(k, y, z)
    ensures z.acks == y.acks[1..] && z.hand == y.hand && z.queue == y.queue && z.mark == y.mark
  {
    hide Consistent, Flat, Count, Leads, Crashed, ReadAll, Reopen, Usable, Recover, Apply;
    var some, before := Passes(k, y);
    HasFiles(k, before);
    AckPublishKeeps(k, before);
    z := TakesStep(k, before, AckPublish);
    moves := some + [AckPublish];
    LeadsOn(k, y, some, before, [AckPublish], z);
  }

  lemma {:induction false} Drains(k: Setup, y: System) returns (moves: seq<Move>, z: System)
    requires k.config.WellFormed() && Running(k, y) && y.hand.Idle? && Count(y.mark) == |LogOf(k, y)|
    ensures Leads(k, y, moves, z) && Running(k, z) && Settles(k, y, z) && z.passed == |LogOf(k, y)|
    decreases |y.acks|
  {
    hide Running, Consistent, LogOf, Count;
    moves, z := [], y;
    RunningIs(k, y);
    HeadIsNext(k, y);
    if y.acks != [] {
      var some, next := Acknowledges(k, y);
      moves, z := Drains(k, next);
      LeadsOn(k, y, some, next, moves, z);
      moves := some + moves;
    }
  }

  lemma RunningIs(k: Setup, y: System)
    requires k.config.WellFormed() && Running(k, y)
    ensures Consistent(k, y)
  {}

  /** While every thread is there, whatever has been applied can be written, synced, confirmed and shown
      to its last record, and then everyone who asked has been answered. */
  lemma EveryoneCanBeAnswered(k: Setup, y: System) returns (moves: seq<Move>, z: System)
    requires k.config.WellFormed() && Running(k, y)
    ensures Leads(k, y, moves, z) && Running(k, z)
    ensures LogOf(k, z) == LogOf(k, y) && z.passed == |LogOf(k, y)|
    ensures forall n :: n in y.asked ==> Replied(z.replies, n)
  {
    hide Running, LogOf, Consistent, Count, Replied, Leads;
    var a, y1 := Submits(k, y);
    var b, y2 := Writes(k, y1);
    LeadsOn(k, y, a, y1, b, y2);
    var d, y3 := Syncs(k, y2);
    LeadsOn(k, y, a + b, y2, d, y3);
    var e, y4 := Drains(k, y3);
    LeadsOn(k, y, a + b + d, y3, e, y4);
    moves, z := a + b + d + e, y4;
    RunningIs(k, z);
    AskersAnswered(k, z);
    AskedInLog(k, z);
  }

  lemma AskedInLog(k: Setup, y: System)
    requires k.config.WellFormed() && Consistent(k, y)
    ensures forall n :: n in y.asked ==> y.resumed <= n < |LogOf(k, y)|
  {
    hide DiskOk, AcksOk, GateOk, ShownOk, RepliesOk, StandbyOk, GuardOk, LogOf, Run, Replied;
  }
}
