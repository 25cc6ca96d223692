/** The log as an object, the durability watermark, and the group-commit writer between them. */
module Committer {
  import opened Auction
  import opened Bounded
  import opened Framing
  import opened Journal
  import opened Segments
  import opened Sums

  /** A missing mark is below every mark. */
  predicate AtMost(a: Option<U64>, b: Option<U64>) {
    a.None? || (b.Some? && a.value <= b.value)
  }

  // ---------------------------------------------------------------- the log

  class LogFiles {
    const crc: Checksum
    const segmentBytes: nat
    var files: seq<seq<Byte>>
    var activeBytes: nat
    var appended: Option<U64>
    var durable: Option<U64>
    /** How much of the active segment has reached the disk. */
    ghost var synced: nat

    ghost predicate Valid()
      reads this
    {
      files != [] && activeBytes == |files[|files| - 1]|
    }

    ghost function Model(): Wal
      reads this
    {
      Wal(files, synced, appended, durable)
    }

    constructor (crc: Checksum, segmentBytes: nat, files: seq<seq<Byte>>, last: Option<U64>)
      requires files != []
      ensures Valid() && this.crc == crc && this.segmentBytes == segmentBytes
      ensures Model() == Wal(files, |files[|files| - 1]|, last, last)
    {
      this.crc, this.segmentBytes, this.files := crc, segmentBytes, files;
      activeBytes, synced := |files[|files| - 1]|, |files[|files| - 1]|;
      appended, durable := last, last;
    }

    /** The append rule over the byte counter, encoding into a scratch buffer. */
    method Append(r: LogRecord) returns (ok: bool)
      requires Valid()
      modifies this
      ensures Valid() && durable == old(durable)
      ensures var written := AppendRecord(crc, segmentBytes, old(Model()), r);
              ok == written.Ok? && Model() == if ok then written.wal else old(Model())
    {
      hide Frame;
      if appended.Some? && r.seqno != appended.value + 1 {
        return false;
      }
      var scratch := EncodeInto(crc, r, []);
      assert scratch == Frame(crc, r);
      if activeBytes > 0 && activeBytes + |scratch| > segmentBytes {
        Roll();
      }
      files := files[..|files| - 1] + [files[|files| - 1] + scratch];
      activeBytes := activeBytes + |scratch|;
      appended := Some(r.seqno);
      ok := true;
    }

    /** Flush and sync. */
    method Sync() returns (mark: Option<U64>)
      requires Valid()
      modifies this`durable, this`synced
      ensures Valid() && Model() == SyncAll(old(Model())) && mark == durable
    {
      synced := activeBytes;
      durable := appended;
      mark := durable;
    }

    method Roll()
      requires Valid()
      modifies this`files, this`activeBytes, this`synced
      ensures Valid() && Model() == Rotate(old(Model()))
    {
      files := files + [[]];
      activeBytes, synced := 0, 0;
    }
  }

  /** The loop over segments that reads the whole log back. */
  method ReadLog(crc: Checksum, files: seq<seq<Byte>>) returns (reading: Reading)
    ensures reading == ReadAll(crc, files)
  {
    hide ReadSegment;
    var all: seq<LogRecord> := [];
    var i := 0;
    while i < |files|
      invariant i <= |files|
      invariant ReadAll(crc, files) == ReadFrom(crc, files, i, all)
    {
      var contents := ReadSegmentFile(crc, files[i]);
      if contents.Corrupt? || (contents.trailing > 0 && i + 1 < |files|) {
        return Damaged(i);
      }
      var joined := JoinRecords(all, contents.records);
      if !joined.Read? {
        return joined;
      }
      all := joined.records;
      i := i + 1;
    }
    reading := Read(all);
  }

  /** The inner loop: each record must follow the last. */
  method JoinRecords(before: seq<LogRecord>, records: seq<LogRecord>) returns (reading: Reading)
    ensures reading == Join(before, records)
  {
    var all, i := before, 0;
    assert records[0..] == records;
    while i < |records|
      invariant i <= |records|
      invariant Join(before, records) == Join(all, records[i..])
    {
      if all != [] && records[i].seqno != all[|all| - 1].seqno + 1 {
        return Gap(all[|all| - 1].seqno, records[i].seqno);
      }
      assert records[i..][1..] == records[i + 1..];
      all := all + [records[i]];
      i := i + 1;
    }
    reading := Read(all);
  }

  /** Open the log a directory holds, cutting off a torn tail before anything is appended. */
  method OpenLog(crc: Checksum, segmentBytes: nat, files: seq<seq<Byte>>) returns (log: LogFiles?)
    ensures var opening := Reopen(crc, files);
            if opening.Opened? then
              log != null && fresh(log) && log.Valid() && log.crc == crc && log.segmentBytes == segmentBytes
              && log.Model() == opening.wal
            else log == null
  {
    hide ReadSegment, ReadAll;
    var reading := ReadLog(crc, files);
    if !reading.Read? {
      return null;
    }
    log := new LogFiles(crc, segmentBytes, Truncate(crc, files), LastSeq(reading.records));
  }

  // ---------------------------------------------------------------- the watermark

  datatype Wait = Go | Park | Stopped

  /** The published durability mark. */
  class Watermark {
    var durable: Option<U64>
    var closed: bool

    constructor (durable: Option<U64>)
      ensures this.durable == durable && !closed
    {
      this.durable, closed := durable, false;
    }

    /** Advance the mark, if that is forward: it never falls, and is final once closed. */
    method Publish(seqno: Option<U64>)
      modifies this`durable
      ensures AtMost(old(durable), durable)
      ensures closed ==> durable == old(durable)
      ensures !closed ==> AtMost(seqno, durable) && (durable == seqno || durable == old(durable))
    {
      if AtMost(seqno, durable) || closed {
        return;
      }
      durable := seqno;
    }

    /** Stop permanently. */
    method Close()
      modifies this`closed
      ensures closed && durable == old(durable)
    {
      closed := true;
    }

    /** One look at the mark by a waiter: released exactly when its record is durable, turned away
        only when the mark can no longer reach it. */
    method Poll(target: U64) returns (wait: Wait)
      ensures wait == Go <==> AtMost(Some(target), durable)
      ensures wait == Stopped <==> closed && !AtMost(Some(target), durable)
    {
      if durable.Some? && durable.value >= target {
        return Go;
      }
      wait := if closed then Stopped else Park;
    }
  }

  // ---------------------------------------------------------------- the writer

  datatype Msg = Record(record: LogRecord) | Stop

  /** The records of a queue, in order. */
  function Records(queue: seq<Msg>): seq<LogRecord> {
    if queue == [] then []
    else (if queue[0].Record? then [queue[0].record] else []) + Records(queue[1..])
  }

  /** The log in good order, with its mark at or below what the disk holds. */
  ghost predicate Sound(log: LogFiles, mark: Watermark, acked: seq<LogRecord>)
    reads log, mark
  {
    log.Valid() && Keeps(log.crc, log.Model(), acked) && AtMost(mark.durable, log.durable)
  }

  ghost function Held(log: LogFiles): seq<LogRecord>
    reads log
  {
    Flat(log.crc, log.files)
  }

  /** `log` grew by the longest stretch of `batch` that follows it without a gap: `n` records. */
  ghost predicate GrewBy(start: seq<LogRecord>, batch: seq<LogRecord>, n: nat, held: seq<LogRecord>) {
    && n <= |batch| && held == start + batch[..n]
    && (n < |batch| ==> !Gapless(start + batch[..n + 1]))
  }

  /** All of a batch that follows is taken. */
  lemma GrewWithin(start: seq<LogRecord>, batch: seq<LogRecord>, n: nat, held: seq<LogRecord>)
    requires GrewBy(start, batch, n, held)
    ensures n <= |batch|
    ensures Gapless(start + batch) ==> n == |batch| && held == start + batch
  {
    if n == |batch| {
      assert batch[..n] == batch;
    } else if Gapless(start + batch) {
      GaplessPrefix(start + batch, start + batch[..n + 1]);
    }
  }

  /** The append loop of a batch, cut short where a record leaves a gap. */
  method AppendBatch(log: LogFiles, batch: seq<LogRecord>, ghost acked: seq<LogRecord>) returns (ok: bool, ghost n: nat)
    requires log.Valid() && Keeps(log.crc, log.Model(), acked)
    modifies log
    ensures log.Valid() && Keeps(log.crc, log.Model(), acked) && log.durable == old(log.durable)
    ensures GrewBy(old(Held(log)), batch, n, Held(log))
    ensures (ok <==> n == |batch|) && (ok <==> Gapless(old(Held(log)) + batch))
    ensures ok ==> Held(log) == old(Held(log)) + batch
  {
    hide Keeps, Flat, AppendRecord, Gapless;
    KeepsFiles(log.crc, log.Model(), acked);
    ghost var start := Held(log);
    assert start + batch[..0] == start;
    n := 0;
    for i := 0 to |batch|
      invariant n == i
      invariant log.Valid() && Keeps(log.crc, log.Model(), acked) && log.durable == old(log.durable)
      invariant Held(log) == start + batch[..i] && Gapless(start + batch[..i])
    {
      assert start + batch[..i + 1] == (start + batch[..i]) + [batch[i]];
      AppendKeeps(log.crc, log.segmentBytes, log.Model(), batch[i], acked);
      NextGapless(start + batch[..i], batch[i]);
      ok := log.Append(batch[i]);
      if !ok {
        GrewWithin(start, batch, n, Held(log));
        return;
      }
      n := n + 1;
    }
    assert batch[..|batch|] == batch;
    ok := true;
  }

  /** Append the batch, sync, and only then publish. */
  method WriteBatch(log: LogFiles, mark: Watermark, batch: seq<LogRecord>, ghost acked: seq<LogRecord>)
    returns (ok: bool, ghost n: nat)
    requires Sound(log, mark, acked) && !mark.closed
    modifies log, mark
    ensures mark.closed == old(mark.closed)
    ensures GrewBy(old(Held(log)), batch, n, Held(log))
    ensures (ok <==> n == |batch|) && (ok <==> Gapless(old(Held(log)) + batch))
    ensures ok ==>
              && Held(log) == old(Held(log)) + batch
              && Sound(log, mark, Held(log)) && log.durable == LastSeq(Held(log))
              && AtMost(log.durable, mark.durable) && AtMost(old(mark.durable), mark.durable)
    ensures !ok ==> Sound(log, mark, acked) && mark.durable == old(mark.durable)
  {
    hide Keeps, Flat, Gapless, SyncAll;
    ok, n := AppendBatch(log, batch, acked);
    if ok {
      SyncMark(log.crc, log.Model(), acked);
      var durable := log.Sync();
      mark.Publish(durable);
    }
  }

  /** What a sync returns covers the whole log, and is no lower than the mark before it. */
  lemma SyncMark(crc: Checksum, w: Wal, acked: seq<LogRecord>)
    requires Keeps(crc, w, acked)
    ensures var synced := SyncAll(w);
            && Keeps(crc, synced, Flat(crc, w.files)) && synced.files == w.files
            && synced.durable == LastSeq(Flat(crc, w.files)) && AtMost(w.durable, synced.durable)
  {
    hide Keeps, Flat, Gapless;
    SyncKeeps(crc, w, acked);
    KeepsMark(crc, w, acked);
    KeepsFiles(crc, w, acked);
    MarksAcked(crc, w, acked);
    MarkGrows(acked, Flat(crc, w.files));
  }

  /** A longer gapless log has a later mark. */
  lemma MarkGrows(some: seq<LogRecord>, all: seq<LogRecord>)
    requires Gapless(all) && some <= all
    ensures AtMost(LastSeq(some), LastSeq(all))
  {
    if some != [] {
      assert some[|some| - 1] == all[|some| - 1];
    }
  }

  lemma NextGapless(log: seq<LogRecord>, r: LogRecord)
    requires Gapless(log)
    ensures Gapless(log + [r]) <==> Follows(LastSeq(log), r.seqno)
  {
    assert (log + [r])[|log|] == r;
  }

  /** Gather whatever else arrives before the deadline, up to a full batch or a stop. */
  method Gather(first: LogRecord, queue: seq<Msg>, polls: nat, maxBatch: nat)
    returns (batch: seq<LogRecord>, rest: seq<Msg>, stopping: bool)
    ensures batch != [] && batch + Records(rest) == [first] + Records(queue) && |rest| <= |queue|
  {
    batch, rest, stopping := [first], queue, false;
    var left := polls;
    while |batch| < maxBatch && left > 0 && rest != [] && !stopping
      invariant batch != [] && batch + Records(rest) == [first] + Records(queue) && |rest| <= |queue|
      decreases left
    {
      if rest[0].Record? {
        Regroup(batch, [rest[0].record], Records(rest[1..]));
        batch := batch + [rest[0].record];
      } else {
        stopping := true;
        assert Records(rest) == [] + Records(rest[1..]) == Records(rest[1..]);
      }
      rest := rest[1..];
      left := left - 1;
    }
  }

  /** The log holds the first `written` records of `all` after `start`, and `left` are the others. */
  ghost predicate Midway(start: seq<LogRecord>, all: seq<LogRecord>, written: nat, held: seq<LogRecord>, left: seq<LogRecord>) {
    written <= |all| && held == start + all[..written] && left == all[written..]
  }

  /** One round of the writer: `batch` is what comes next in `all`, `later` what is left after it. */
  method WriteOn(log: LogFiles, mark: Watermark, batch: seq<LogRecord>, ghost start: seq<LogRecord>, ghost all: seq<LogRecord>,
                 ghost written: nat, ghost later: seq<LogRecord>)
    returns (ok: bool, ghost more: nat)
    requires Sound(log, mark, Held(log)) && !mark.closed
    requires Midway(start, all, written, Held(log), batch + later)
    modifies log, mark
    ensures !mark.closed && AtMost(old(mark.durable), mark.durable)
    ensures ok ==>
              && Sound(log, mark, Held(log)) && AtMost(LastSeq(Held(log)), mark.durable)
              && Midway(start, all, written + more, Held(log), later)
    ensures !ok ==>
              && Sound(log, mark, old(Held(log))) && written + more < |all|
              && GrewBy(start, all, written + more, Held(log))
  {
    hide Keeps, Flat, Gapless, GrewBy;
    Stretch(start, all, written, batch, later);
    ok, more := WriteBatch(log, mark, batch, Held(log));
    GrewWithin(start + all[..written], batch, more, Held(log));
    GrewFurther(start, all, written, batch, later, more, Held(log));
  }

  /** The writer loop. `queue` is everything ever submitted and `linger(n)` how many arrivals the
      n-th batch waits for. However the batches fall, what ends up in the log is the longest stretch of
      the queue without a gap, all of it on the disk and marked if that is the whole queue; the mark
      ends closed, never fell, and never ran ahead of what the disk holds. */
  method Run(log: LogFiles, mark: Watermark, queue: seq<Msg>, linger: nat -> nat, maxBatch: nat)
    returns (ghost acked: seq<LogRecord>, ghost written: nat)
    requires !mark.closed && Sound(log, mark, Held(log))
    modifies log, mark
    ensures mark.closed && Sound(log, mark, acked) && AtMost(old(mark.durable), mark.durable)
    ensures GrewBy(old(Held(log)), Records(queue), written, Held(log))
    ensures Gapless(old(Held(log)) + Records(queue)) ==>
              Held(log) == acked == old(Held(log)) + Records(queue)
    ensures old(Held(log)) <= acked && (written == |Records(queue)| ==> acked == Held(log))
    ensures acked != old(Held(log)) ==> AtMost(LastSeq(acked), mark.durable)
  {
    hide Keeps, Flat, Gapless, GrewBy, Midway, Records, LastSeq;
    ghost var start, all := Held(log), Records(queue);
    ghost var more;
    var ok;
    acked, written := start, 0;
    Beginning(start, all);
    var rest, round := queue, 0;
    while rest != [] && rest[0].Record?
      invariant !mark.closed && Sound(log, mark, Held(log)) && acked == Held(log)
      invariant AtMost(old(mark.durable), mark.durable)
      invariant Midway(start, all, written, Held(log), Records(rest))
      invariant acked != start ==> AtMost(LastSeq(acked), mark.durable)
      decreases |rest|
    {
      var batch, later, stopping := Gather(rest[0].record, rest[1..], linger(round), maxBatch);
      RecordsHead(rest);
      ok, more := WriteOn(log, mark, batch, start, all, written, Records(later));
      Onward(start, all, written, acked);
      written := written + more;
      if !ok {
        GrewWithin(start, all, written, Held(log));
        mark.Close();
        return;
      }
      acked, rest, round := Held(log), later, round + 1;
      if stopping {
        break;
      }
    }
    Onward(start, all, written, acked);
    var leftovers := Records(rest);
    if leftovers == [] {
      Ended(start, all, written, Held(log));
    } else {
      assert leftovers + [] == leftovers;
      ok, more := WriteOn(log, mark, leftovers, start, all, written, []);
      written := written + more;
      if ok {
        Ended(start, all, written, Held(log));
        acked := Held(log);
      }
    }
    GrewWithin(start, all, written, Held(log));
    mark.Close();
  }

  lemma RecordsHead(queue: seq<Msg>)
    requires queue != [] && queue[0].Record?
    ensures [queue[0].record] + Records(queue[1..]) == Records(queue)
  {}

  lemma Beginning(start: seq<LogRecord>, all: seq<LogRecord>)
    ensures Midway(start, all, 0, start, all)
  {
    assert start + all[..0] == start && all[0..] == all;
  }

  lemma Onward(start: seq<LogRecord>, all: seq<LogRecord>, written: nat, held: seq<LogRecord>)
    ensures forall left :: Midway(start, all, written, held, left) ==> start <= held && written <= |all|
  {}

  lemma Ended(start: seq<LogRecord>, all: seq<LogRecord>, written: nat, held: seq<LogRecord>)
    requires Midway(start, all, written, held, [])
    ensures GrewBy(start, all, written, held) && start <= held && written == |all|
  {
    assert |all[written..]| == |all| - written;
  }

  /** A batch taken off what is left of the queue. */
  lemma Stretch(start: seq<LogRecord>, all: seq<LogRecord>, written: nat, batch: seq<LogRecord>, later: seq<LogRecord>)
    requires written <= |all| && batch + later == all[written..]
    ensures written + |batch| <= |all| && later == all[written + |batch|..]
    ensures forall n :: 0 <= n <= |batch| ==> (start + all[..written]) + batch[..n] == start + all[..written + n]
  {
    assert later == (batch + later)[|batch|..];
    forall n | 0 <= n <= |batch|
      ensures (start + all[..written]) + batch[..n] == start + all[..written + n]
    {
      assert batch[..n] == (batch + later)[..n] == all[written..written + n];
      assert all[..written + n] == all[..written] + all[written..written + n];
    }
  }

  /** Growing by a batch is growing by that much more of the whole. */
  lemma GrewFurther(start: seq<LogRecord>, all: seq<LogRecord>, written: nat, batch: seq<LogRecord>, later: seq<LogRecord>,
                    n: nat, held: seq<LogRecord>)
    requires written <= |all| && batch + later == all[written..]
    requires GrewBy(start + all[..written], batch, n, held)
    ensures written + n <= |all| && held == start + all[..written + n]
    ensures n < |batch| ==> GrewBy(start, all, written + n, held)
    ensures n == |batch| && later == [] ==> GrewBy(start, all, written + n, held)
  {
    hide Gapless;
    Stretch(start, all, written, batch, later);
  }
}
