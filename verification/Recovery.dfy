/** Recovery is the run of the log: whichever snapshot it starts from, the state it ends in is the one
    the whole log leads to. */
module Recovery {
  import opened Auction
  import opened Bounded
  import opened Framing
  import opened History
  import opened Journal
  import opened Rules
  import opened Soundness
  import Machine

  /** A state and the last command applied to it. */
  datatype Snapshot = Snapshot(seqno: U64, state: State)

  datatype Recovered =
    | Recovered(state: State, nextSeq: nat, replayed: nat, from: Option<U64>)
    | OutOfSequence(after: U64, found: U64)

  /** The newest snapshot that loads, out of files listed newest first. */
  function LatestUsable(files: seq<Option<Snapshot>>): Option<Snapshot> {
    if files == [] then None else if files[0].Some? then files[0] else LatestUsable(files[1..])
  }

  method FindLatestUsable(files: seq<Option<Snapshot>>) returns (snapshot: Option<Snapshot>)
    ensures snapshot == LatestUsable(files)
    ensures snapshot.Some? ==>
              exists i :: 0 <= i < |files| && files[i] == snapshot && forall j :: 0 <= j < i ==> files[j].None?
    ensures snapshot.None? ==> forall i :: 0 <= i < |files| ==> files[i].None?
  {
    assert files[0..] == files;
    for i := 0 to |files|
      invariant LatestUsable(files[i..]) == LatestUsable(files)
      invariant forall j :: 0 <= j < i ==> files[j].None?
    {
      if files[i].Some? {
        return files[i];
      }
      assert files[i..][1..] == files[i + 1..];
    }
    snapshot := None;
  }

  /** The guard under which a snapshot is not used: the log ends before it. */
  predicate Ahead(snapshot: Snapshot, records: seq<LogRecord>) {
    records != [] && records[|records| - 1].seqno < snapshot.seqno
  }

  /** Where recovery starts. */
  function Begin(c: Config, snapshot: Option<Snapshot>, records: seq<LogRecord>): (State, Option<U64>) {
    if snapshot.Some? && !Ahead(snapshot.value, records) then (snapshot.value.state, Some(snapshot.value.seqno))
    else (Init(c), None)
  }

  /** Where the sequencer resumes. */
  function Resume(last: Option<U64>): nat {
    if last.Some? then last.value + 1 else 0
  }

  /** Replay what comes after the snapshot, checking for gaps. */
  function Replay(
    c: Config, state: State, last: Option<U64>, resumeAfter: Option<U64>, records: seq<LogRecord>, replayed: nat): Recovered
    requires c.WellFormed()
    decreases |records|
  {
    if records == [] then Recovered(state, Resume(last), replayed, resumeAfter)
    else
      var r := records[0];
      if resumeAfter.Some? && r.seqno <= resumeAfter.value then
        Replay(c, state, last, resumeAfter, records[1..], replayed)
      else if !Follows(last, r.seqno) then OutOfSequence(last.value, r.seqno)
      else Replay(c, Apply(c, state, r).st, Some(r.seqno), resumeAfter, records[1..], replayed + 1)
  }

  /** `recover`, given what the log and the snapshot files hold. */
  function Recover(c: Config, snapshot: Option<Snapshot>, records: seq<LogRecord>): Recovered
    requires c.WellFormed()
  {
    var (state, from) := Begin(c, snapshot, records);
    Replay(c, state, from, from, records, 0)
  }

  method RecoverLog(c: Config, snapshot: Option<Snapshot>, records: seq<LogRecord>) returns (recovered: Recovered)
    requires c.WellFormed()
    ensures recovered == Recover(c, snapshot, records)
  {
    hide Apply;
    var state, resumeAfter := Init(c), None;
    if snapshot.Some? && !Ahead(snapshot.value, records) {
      state, resumeAfter := snapshot.value.state, Some(snapshot.value.seqno);
    }
    var last, replayed := resumeAfter, 0;
    assert records[0..] == records;
    for i := 0 to |records|
      invariant Replay(c, state, last, resumeAfter, records[i..], replayed) == Recover(c, snapshot, records)
    {
      var r := records[i];
      assert records[i..][0] == r && records[i..][1..] == records[i + 1..];
      if !(resumeAfter.Some? && r.seqno <= resumeAfter.value) {
        if !Follows(last, r.seqno) {
          return OutOfSequence(last.value, r.seqno);
        }
        state := Apply(c, state, r).st;
        last := Some(r.seqno);
        replayed := replayed + 1;
      }
    }
    recovered := Recovered(state, Resume(last), replayed, resumeAfter);
  }

  // ---------------------------------------------------------------- agreement with the log

  /** `snapshot` is the log replayed as far as its own sequence number. */
  ghost predicate Agrees(c: Config, snapshot: Snapshot, records: seq<LogRecord>)
    requires c.WellFormed()
  {
    exists n :: 0 < n <= |records| && records[n - 1].seqno == snapshot.seqno && snapshot.state == Run(c, records[..n]).st
  }

  lemma {:induction false} Skipping(
    c: Config, state: State, last: Option<U64>, resumeAfter: Option<U64>, records: seq<LogRecord>, n: nat)
    requires c.WellFormed() && n <= |records| && resumeAfter.Some?
    requires forall i :: 0 <= i < n ==> records[i].seqno <= resumeAfter.value
    ensures Replay(c, state, last, resumeAfter, records, 0) == Replay(c, state, last, resumeAfter, records[n..], 0)
    decreases n
  {
    if n == 0 {
      assert records[0..] == records;
    } else {
      hide Apply;
      Skipping(c, state, last, resumeAfter, records[1..], n - 1);
      assert records[1..][n - 1..] == records[n..];
    }
  }

  /** Past the snapshot, replay is the run continued. */
  lemma {:induction false} ReplayContinues(
    c: Config, log: seq<LogRecord>, n: nat, resumeAfter: Option<U64>, replayed: nat)
    requires c.WellFormed() && Gapless(log) && n <= |log|
    requires resumeAfter.Some? ==> forall i :: n <= i < |log| ==> resumeAfter.value < log[i].seqno
    ensures Replay(c, Run(c, log[..n]).st, LastSeq(log[..n]), resumeAfter, log[n..], replayed)
         == Recovered(Run(c, log).st, Resume(LastSeq(log)), replayed + |log| - n, resumeAfter)
    decreases |log| - n
  {
    hide Apply, Run;
    if n == |log| {
      assert log[..n] == log;
    } else {
      var r := log[n];
      assert log[n..][0] == r && log[n..][1..] == log[n + 1..];
      assert log[..n + 1] == log[..n] + [r];
      RunStep(c, log[..n], r);
      ReplayContinues(c, log, n + 1, resumeAfter, replayed + 1);
    }
  }

  /** Recovery over a gapless log is the fold of the whole log, resuming one past its end, whichever
      snapshot is picked: none, an older one, or one ahead of the log. */
  lemma RecoveryIsReplay(c: Config, snapshot: Option<Snapshot>, log: seq<LogRecord>)
    requires c.WellFormed() && Gapless(log) && log != []
    requires snapshot.Some? && !Ahead(snapshot.value, log) ==> Agrees(c, snapshot.value, log)
    ensures var r, last := Recover(c, snapshot, log), log[|log| - 1].seqno;
            && r.Recovered? && r.state == Run(c, log).st && r.nextSeq == last + 1
            && if snapshot.Some? && snapshot.value.seqno <= last then
                 r.from == Some(snapshot.value.seqno) && r.replayed == last - snapshot.value.seqno
               else r.from == None && r.replayed == |log|
  {
    hide Apply, Run;
    if snapshot.Some? && !Ahead(snapshot.value, log) {
      var s := snapshot.value;
      var n :| 0 < n <= |log| && log[n - 1].seqno == s.seqno && s.state == Run(c, log[..n]).st;
      Skipping(c, s.state, Some(s.seqno), Some(s.seqno), log, n);
      ReplayContinues(c, log, n, Some(s.seqno), 0);
    } else {
      FromNothing(c, log);
    }
  }

  lemma FromNothing(c: Config, log: seq<LogRecord>)
    requires c.WellFormed() && Gapless(log)
    ensures Replay(c, Init(c), None, None, log, 0)
         == Recovered(Run(c, log).st, Resume(LastSeq(log)), |log|, None)
  {
    hide Apply;
    assert log[..0] == [] && log[0..] == log;
    ReplayContinues(c, log, 0, None, 0);
  }

  /** The records the snapshot does not already hold. */
  function Past(from: Option<U64>, records: seq<LogRecord>): seq<LogRecord>
    decreases |records|
  {
    if records == [] then []
    else (if from.Some? && records[0].seqno <= from.value then [] else [records[0]]) + Past(from, records[1..])
  }

  /** The number record `i` of `records` comes after: the one before it, or the snapshot's. */
  function Before(from: Option<U64>, records: seq<LogRecord>, i: nat): Option<U64>
    requires i < |records|
  {
    if i == 0 then from else Some(records[i - 1].seqno)
  }

  predicate Breaks(from: Option<U64>, records: seq<LogRecord>, i: nat)
    requires i < |records|
  {
    Before(from, records, i).Some? && records[i].seqno != Before(from, records, i).value + 1
  }

  ghost predicate Continues(from: Option<U64>, records: seq<LogRecord>) {
    forall i: nat :: i < |records| ==> !Breaks(from, records, i)
  }

  /** The first place where `records` does not go on from what came before. */
  ghost predicate FirstBreak(from: Option<U64>, records: seq<LogRecord>, i: nat) {
    i < |records| && Breaks(from, records, i) && forall j: nat :: j < i ==> !Breaks(from, records, j)
  }

  /** `records` first breaks off after number `after`, with number `found`. */
  ghost predicate BreaksOff(from: Option<U64>, records: seq<LogRecord>, after: U64, found: U64) {
    exists i: nat :: FirstBreak(from, records, i) && Before(from, records, i) == Some(after) && records[i].seqno == found
  }

  ghost function Advance(c: Config, s: State, records: seq<LogRecord>): State
    requires c.WellFormed()
    decreases |records|
  {
    if records == [] then s else Advance(c, Apply(c, s, records[0]).st, records[1..])
  }

  lemma BreaksLater(from: Option<U64>, records: seq<LogRecord>, i: nat)
    requires i + 1 < |records|
    ensures Before(from, records, i + 1) == Before(Some(records[0].seqno), records[1..], i)
    ensures Breaks(from, records, i + 1) == Breaks(Some(records[0].seqno), records[1..], i)
  {}

  lemma ContinuesLater(from: Option<U64>, records: seq<LogRecord>)
    requires records != [] && !Breaks(from, records, 0)
    ensures Continues(from, records) <==> Continues(Some(records[0].seqno), records[1..])
  {
    hide Breaks;
    forall i: nat | i + 1 < |records|
      ensures Breaks(from, records, i + 1) == Breaks(Some(records[0].seqno), records[1..], i)
    {
      BreaksLater(from, records, i);
    }
    if Continues(Some(records[0].seqno), records[1..]) {
      forall i: nat | i < |records| ensures !Breaks(from, records, i) {
        if i > 0 {
          assert !Breaks(Some(records[0].seqno), records[1..], i - 1);
        }
      }
    }
    if Continues(from, records) {
      forall i: nat | i < |records[1..]| ensures !Breaks(Some(records[0].seqno), records[1..], i) {
        assert !Breaks(from, records, i + 1);
      }
    }
  }

  lemma BreaksOffLater(from: Option<U64>, records: seq<LogRecord>, after: U64, found: U64)
    requires records != [] && !Breaks(from, records, 0)
    requires BreaksOff(Some(records[0].seqno), records[1..], after, found)
    ensures BreaksOff(from, records, after, found)
  {
    hide Breaks, Before;
    var next := Some(records[0].seqno);
    var i: nat :| FirstBreak(next, records[1..], i) && Before(next, records[1..], i) == Some(after) && records[1..][i].seqno == found;
    BreaksLater(from, records, i);
    forall j: nat | j < i + 1 ensures !Breaks(from, records, j) {
      if j > 0 {
        BreaksLater(from, records, j - 1);
        assert !Breaks(next, records[1..], j - 1);
      }
    }
    assert FirstBreak(from, records, i + 1);
  }

  lemma BreaksOffNow(from: Option<U64>, records: seq<LogRecord>)
    requires records != [] && Breaks(from, records, 0)
    ensures !Continues(from, records) && BreaksOff(from, records, from.value, records[0].seqno)
  {
    assert FirstBreak(from, records, 0);
  }

  /** What a replay of `past` from `s`, which came after number `last`, must answer. */
  ghost predicate Answers(
    c: Config, s: State, last: Option<U64>, from: Option<U64>, past: seq<LogRecord>, replayed: nat, r: Recovered)
    requires c.WellFormed()
  {
    && (r.Recovered? <==> Continues(last, past))
    && (r.Recovered? ==>
          && r.state == Advance(c, s, past) && r.from == from && r.replayed == replayed + |past|
          && r.nextSeq == if past != [] then past[|past| - 1].seqno + 1 else if last.Some? then last.value + 1 else 0)
    && (r.OutOfSequence? ==> BreaksOff(last, past, r.after, r.found))
  }

  lemma AnswersLater(
    c: Config, s: State, last: Option<U64>, from: Option<U64>, past: seq<LogRecord>, replayed: nat, r: Recovered)
    requires c.WellFormed() && past != [] && !Breaks(last, past, 0)
    requires Answers(c, Apply(c, s, past[0]).st, Some(past[0].seqno), from, past[1..], replayed + 1, r)
    ensures Answers(c, s, last, from, past, replayed, r)
  {
    hide Apply, Continues, BreaksOff, Breaks;
    ContinuesLater(last, past);
    if r.OutOfSequence? {
      BreaksOffLater(last, past, r.after, r.found);
    }
  }

  /** Replay, whatever the records are. */
  lemma {:induction false} ReplayExactly(
    c: Config, s: State, last: Option<U64>, from: Option<U64>, records: seq<LogRecord>, replayed: nat)
    requires c.WellFormed()
    ensures Answers(c, s, last, from, Past(from, records), replayed, Replay(c, s, last, from, records, replayed))
    decreases |records|
  {
    hide Apply, Continues, BreaksOff;
    if records == [] {
      NothingBreaks(last);
    } else {
      var r, past, later := records[0], Past(from, records), Past(from, records[1..]);
      if from.Some? && r.seqno <= from.value {
        hide Answers;
        assert past == later;
        ReplayExactly(c, s, last, from, records[1..], replayed);
      } else {
        assert past == [r] + later && past[1..] == later;
        if Breaks(last, past, 0) {
          BreaksOffNow(last, past);
        } else {
          hide Answers;
          ReplayExactly(c, Apply(c, s, r).st, Some(r.seqno), from, records[1..], replayed + 1);
          AnswersLater(c, s, last, from, past, replayed, Replay(c, s, last, from, records, replayed));
        }
      }
    }
  }

  lemma NothingBreaks(last: Option<U64>)
    ensures Continues(last, [])
  {}

  /** Recovery over any log at all: it replays what lies past the snapshot, if that goes on from the
      snapshot without a gap, and otherwise names the first gap and replays nothing. */
  lemma RecoverExactly(c: Config, snapshot: Option<Snapshot>, records: seq<LogRecord>)
    requires c.WellFormed()
    ensures var used := snapshot.Some? && (records == [] || snapshot.value.seqno <= records[|records| - 1].seqno);
            var from, base := if used then Some(snapshot.value.seqno) else None, if used then snapshot.value.state else Init(c);
            var past, r := Past(from, records), Recover(c, snapshot, records);
            && (r.Recovered? <==> Continues(from, past))
            && (r.Recovered? ==>
                  && r.state == Advance(c, base, past) && r.from == from && r.replayed == |past|
                  && r.nextSeq == if past != [] then past[|past| - 1].seqno + 1 else if used then snapshot.value.seqno + 1 else 0)
            && (r.OutOfSequence? ==> BreaksOff(from, past, r.after, r.found))
  {
    hide Apply, Advance, Past, Replay, Continues, BreaksOff;
    var (base, from) := Begin(c, snapshot, records);
    ReplayExactly(c, base, from, from, records, 0);
  }

  /** A log that starts beyond the snapshot is out of sequence at its first record. */
  lemma StartsBeyond(c: Config, snapshot: Snapshot, records: seq<LogRecord>)
    requires c.WellFormed() && Gapless(records) && records != [] && records[0].seqno > snapshot.seqno + 1
    ensures Recover(c, Some(snapshot), records) == OutOfSequence(snapshot.seqno, records[0].seqno)
  {}

  /** Exactly when recovery replays the log: with an empty log the guard against snapshots from
      beyond it does not fire, and any snapshot at all is trusted. */
  lemma RecoveryIsReplayExactly(c: Config, snapshot: Option<Snapshot>, log: seq<LogRecord>)
    requires c.WellFormed() && Gapless(log)
    requires snapshot.Some? ==> snapshot.value.state.lastSeq == Some(snapshot.value.seqno)
    requires snapshot.Some? && log != [] && !Ahead(snapshot.value, log) ==> Agrees(c, snapshot.value, log)
    ensures (Recover(c, snapshot, log).Recovered? && Recover(c, snapshot, log).state == Run(c, log).st)
            <==> log != [] || snapshot.None?
  {
    hide Apply;
    if log != [] {
      RecoveryIsReplay(c, snapshot, log);
    }
  }

  /** What a crash leaves recovers the same before and after its torn tail is cut off, and the writer
      that reopens the log expects exactly the sequence number recovery resumes at. */
  lemma RecoveryAfterCrash(crc: Checksum, c: Config, snapshot: Option<Snapshot>, files: seq<seq<Byte>>)
    requires c.WellFormed() && Intact(crc, files) && Gapless(Flat(crc, files)) && Flat(crc, files) != []
    requires snapshot.Some? && !Ahead(snapshot.value, Flat(crc, files)) ==> Agrees(c, snapshot.value, Flat(crc, files))
    ensures var before, after := ReadAll(crc, files), ReadAll(crc, Truncate(crc, files));
            && before.Read? && after.Read?
            && Recover(c, snapshot, before.records) == Recover(c, snapshot, after.records)
            && Recover(c, snapshot, before.records).Recovered?
            && Recover(c, snapshot, before.records).state == Run(c, Flat(crc, files)).st
            && Reopen(crc, files).Opened?
            && Reopen(crc, files).wal.appended == Some(Recover(c, snapshot, before.records).nextSeq - 1)
  {
    hide Apply, Run, Flat, Gapless, Intact, ReadAll, Keeps, Recover, Truncate;
    ReadAllIsFlat(crc, files);
    OpenKeeps(crc, files);
    KeepsMark(crc, Reopen(crc, files).wal, Flat(crc, files));
    RecoveryIsReplay(c, snapshot, Flat(crc, files));
  }

  // ---------------------------------------------------------------- the standby

  /** One record on the standby's object is one application of the rules. */
  method Follow(standby: Machine.AuctionState, r: LogRecord)
    requires standby.Valid() && InSequence(standby.Model(), r.seqno)
    modifies standby, standby.resting
    ensures standby.Valid() && standby.Model() == Apply(standby.config, old(standby.Model()), r).st
  {
    hide Apply;
    var ev := standby.Apply(r.seqno, r.ts, r.cmd);
  }

  /** Following a whole log from nothing reaches the state of the run. */
  method FollowAll(c: Config, log: seq<LogRecord>) returns (standby: Machine.AuctionState)
    requires c.WellFormed() && WellLogged(log)
    ensures fresh(standby) && standby.Valid() && standby.config == c
    ensures standby.Model() == Run(c, log).st
  {
    hide Apply, Run;
    standby := new Machine.AuctionState(c);
    assert log[..0] == [];
    assert Run(c, []).st == Init(c) by { RunNothing(c); }
    for i := 0 to |log|
      invariant fresh(standby) && fresh(standby.resting) && standby.Valid() && standby.config == c
      invariant standby.Model() == Run(c, log[..i]).st
    {
      assert log[..i + 1] == log[..i] + [log[i]];
      RunStep(c, log[..i], log[i]);
      Prefixes(log, i);
      RunsFollow(c, log[..i], log[i]);
      Follow(standby, log[i]);
    }
    assert log[..|log|] == log;
  }

  lemma Prefixes(log: seq<LogRecord>, i: nat)
    requires WellLogged(log) && i < |log|
    ensures WellLogged(log[..i] + [log[i]])
  {}
}
