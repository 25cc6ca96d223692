/** The write-ahead log over segment files: append, rotate, sync, crash, reopen. */
module Journal {
  import opened Auction
  import opened Bounded
  import opened Framing
  import opened Segments
  import opened Sums

  // ---------------------------------------------------------------- reading everything

  datatype Reading = Read(records: seq<LogRecord>) | Damaged(segment: nat) | Gap(from: U64, found: U64)

  predicate Follows(prior: Option<U64>, seqno: U64) {
    prior.Some? ==> seqno == prior.value + 1
  }

  function LastSeq(log: seq<LogRecord>): Option<U64> {
    if log == [] then None else Some(log[|log| - 1].seqno)
  }

  /** One segment's records joined to those before it. */
  function Join(all: seq<LogRecord>, records: seq<LogRecord>): Reading
    decreases |records|
  {
    if records == [] then Read(all)
    else if !Follows(LastSeq(all), records[0].seqno) then Gap(LastSeq(all).value, records[0].seqno)
    else Join(all + [records[0]], records[1..])
  }

  function ReadFrom(crc: Checksum, files: seq<seq<Byte>>, i: nat, all: seq<LogRecord>): Reading
    requires i <= |files|
    decreases |files| - i
  {
    if i == |files| then Read(all)
    else
      var contents := ReadSegment(crc, files[i]);
      if contents.Corrupt? || (contents.trailing > 0 && i + 1 < |files|) then Damaged(i)
      else
        var joined := Join(all, contents.records);
        if joined.Read? then ReadFrom(crc, files, i + 1, joined.records) else joined
  }

  /** `read_all`: every record in the log; a torn tail is discarded in the last segment only. */
  function ReadAll(crc: Checksum, files: seq<seq<Byte>>): Reading {
    ReadFrom(crc, files, 0, [])
  }

  /** The segments as one flat list. */
  function Flat(crc: Checksum, files: seq<seq<Byte>>): seq<LogRecord>
    decreases |files|
  {
    if files == [] then [] else Flat(crc, files[..|files| - 1]) + RecordsIn(crc, files[|files| - 1])
  }

  /** Sealed segments are whole; the last one may end in a torn tail. */
  ghost predicate Intact(crc: Checksum, files: seq<seq<Byte>>) {
    && (forall i :: 0 <= i < |files| ==> Readable(crc, files[i]))
    && (forall i :: 0 <= i < |files| - 1 ==> Whole(crc, files[i]))
  }

  lemma {:induction false} JoinIsGapless(all: seq<LogRecord>, records: seq<LogRecord>)
    requires Gapless(all)
    ensures Join(all, records).Read? <==> Gapless(all + records)
    ensures Join(all, records).Read? ==> Join(all, records).records == all + records
    decreases |records|
  {
    if records == [] {
      assert all + records == all;
    } else {
      var more := all + [records[0]];
      assert all + records == more + records[1..];
      if Follows(LastSeq(all), records[0].seqno) {
        assert Gapless(more);
        JoinIsGapless(more, records[1..]);
      } else {
        assert (all + records)[|all|] == records[0] && (all + records)[|all| - 1] == all[|all| - 1];
        assert (all + records)[0] == all[0];
      }
    }
  }

  lemma FlatStep(crc: Checksum, files: seq<seq<Byte>>, i: nat)
    requires i < |files|
    ensures Flat(crc, files[..i + 1]) == Flat(crc, files[..i]) + RecordsIn(crc, files[i])
  {
    assert files[..i + 1][..i] == files[..i];
  }

  lemma {:induction false} FlatPrefix(crc: Checksum, files: seq<seq<Byte>>, i: nat)
    requires i <= |files|
    ensures Flat(crc, files[..i]) <= Flat(crc, files)
    decreases |files| - i
  {
    if i == |files| {
      assert files[..i] == files;
    } else {
      FlatStep(crc, files, i);
      FlatPrefix(crc, files, i + 1);
    }
  }

  lemma GaplessPrefix(all: seq<LogRecord>, some: seq<LogRecord>)
    requires Gapless(all) && some <= all
    ensures Gapless(some)
  {}

  lemma {:induction false} ReadFromIsFlat(crc: Checksum, files: seq<seq<Byte>>, i: nat)
    requires Intact(crc, files) && Gapless(Flat(crc, files)) && i <= |files|
    ensures ReadFrom(crc, files, i, Flat(crc, files[..i])) == Read(Flat(crc, files))
    decreases |files| - i
  {
    if i == |files| {
      assert files[..i] == files;
    } else {
      hide ReadSegment, Flat;
      FlatStep(crc, files, i);
      FlatPrefix(crc, files, i);
      FlatPrefix(crc, files, i + 1);
      GaplessPrefix(Flat(crc, files), Flat(crc, files[..i]));
      GaplessPrefix(Flat(crc, files), Flat(crc, files[..i + 1]));
      JoinIsGapless(Flat(crc, files[..i]), RecordsIn(crc, files[i]));
      ReadFromIsFlat(crc, files, i + 1);
    }
  }

  /** Segments refine one flat list. */
  lemma ReadAllIsFlat(crc: Checksum, files: seq<seq<Byte>>)
    requires Intact(crc, files) && Gapless(Flat(crc, files))
    ensures ReadAll(crc, files) == Read(Flat(crc, files))
  {
    assert files[..0] == [];
    ReadFromIsFlat(crc, files, 0);
  }

  // ---------------------------------------------------------------- the log's own state

  /** The segment files, how much of the last one has reached the disk, and the two marks. */
  datatype Wal = Wal(files: seq<seq<Byte>>, synced: nat, appended: Option<U64>, durable: Option<U64>) {
    function Active(): seq<Byte>
      requires files != []
    {
      files[|files| - 1]
    }

    function Sealed(): seq<seq<Byte>>
      requires files != []
    {
      files[..|files| - 1]
    }
  }

  datatype Written = Ok(wal: Wal) | Refused(from: U64, found: U64)

  /** Seal the active segment, flushed and synced, and start the next. */
  function Rotate(w: Wal): Wal {
    w.(files := w.files + [[]], synced := 0)
  }

  /** Whether the active segment has no room for another `n` bytes. */
  predicate Full(w: Wal, n: nat, limit: nat)
    requires w.files != []
  {
    |w.Active()| > 0 && |w.Active()| + n > limit
  }

  function Extended(w: Wal, bytes: seq<Byte>): Wal
    requires w.files != []
  {
    w.(files := w.Sealed() + [w.Active() + bytes])
  }

  /** The append rule: one frame at the end of the active segment, or of a fresh one if it is full. */
  function AppendRecord(crc: Checksum, limit: nat, w: Wal, r: LogRecord): Written
    requires w.files != []
  {
    if !Follows(w.appended, r.seqno) then Refused(w.appended.value, r.seqno)
    else
      var frame := Frame(crc, r);
      var room := if Full(w, |frame|, limit) then Rotate(w) else w;
      Ok(Extended(room, frame).(appended := Some(r.seqno)))
  }

  /** The sync rule: the active segment is on the disk to its end, and the durable mark catches up. */
  function SyncAll(w: Wal): Wal
    requires w.files != []
  {
    w.(synced := |w.Active()|, durable := w.appended)
  }

  datatype Opening = Opened(wal: Wal) | Failed(reading: Reading)

  /** Shorten the last segment to its last complete record. */
  function Truncate(crc: Checksum, files: seq<seq<Byte>>): (kept: seq<seq<Byte>>)
    ensures kept != []
  {
    if files == [] then [[]]
    else
      var last := files[|files| - 1];
      var contents := ReadSegment(crc, last);
      if contents.Contents? && contents.trailing <= |last| then
        files[..|files| - 1] + [last[..|last| - contents.trailing]]
      else files
  }

  /** `open`: resume the log the directory holds. */
  function Reopen(crc: Checksum, files: seq<seq<Byte>>): (opening: Opening)
    ensures opening.Opened? ==> opening.wal.files != []
  {
    var reading := ReadAll(crc, files);
    if !reading.Read? then Failed(reading)
    else
      var kept := Truncate(crc, files);
      Opening.Opened(Wal(kept, |kept[|kept| - 1]|, LastSeq(reading.records), LastSeq(reading.records)))
  }

  /** What a crash can leave: any cut of the active segment at or past what has been synced. A
      segment just created and never synced may be missing altogether. */
  function Crashed(w: Wal, cut: nat, missing: bool): seq<seq<Byte>>
    requires w.files != []
  {
    var n := Max(w.synced, Min(cut, |w.Active()|));
    if missing && n == 0 then w.Sealed()
    else w.Sealed() + [w.Active()[..Min(n, |w.Active()|)]]
  }

  // ---------------------------------------------------------------- what always holds

  /** The log holds whole, gapless records, and everything in `acked` is both its beginning and on
      the disk. */
  ghost predicate Keeps(crc: Checksum, w: Wal, acked: seq<LogRecord>) {
    && w.files != []
    && Intact(crc, w.files) && Whole(crc, w.Active())
    && Gapless(Flat(crc, w.files))
    && w.appended == LastSeq(Flat(crc, w.files))
    && w.durable == LastSeq(acked)
    && acked <= Flat(crc, w.files)
    && w.synced <= |w.Active()|
    && OnDisk(crc, w, |acked|)
  }

  /** The first `n` records lie in sealed segments or in the synced part of the active one. */
  ghost predicate OnDisk(crc: Checksum, w: Wal, n: nat)
    requires w.files != []
  {
    var before := |Flat(crc, w.Sealed())|;
    n > before ==> EndOf(crc, w.Active(), n - before) <= w.synced
  }

  lemma FlatSnoc(crc: Checksum, files: seq<seq<Byte>>, last: seq<Byte>)
    ensures Flat(crc, files + [last]) == Flat(crc, files) + RecordsIn(crc, last)
  {
    assert (files + [last])[..|files|] == files;
  }

  lemma NoBytes(crc: Checksum)
    ensures Whole(crc, []) && RecordsIn(crc, []) == []
  {}

  lemma IntactSnoc(crc: Checksum, files: seq<seq<Byte>>, last: seq<Byte>)
    requires forall i :: 0 <= i < |files| ==> Whole(crc, files[i])
    requires Readable(crc, last)
    ensures Intact(crc, files + [last])
  {}

  lemma RotateKeeps(crc: Checksum, w: Wal, acked: seq<LogRecord>)
    requires Keeps(crc, w, acked)
    ensures Keeps(crc, Rotate(w), acked) && Flat(crc, Rotate(w).files) == Flat(crc, w.files)
  {
    hide ReadSegment, EndOf, Gapless, Flat;
    NoBytes(crc);
    FlatSnoc(crc, w.files, []);
    assert Flat(crc, w.files) + [] == Flat(crc, w.files);
    assert forall i :: 0 <= i < |w.files| ==> Whole(crc, w.files[i]);
    IntactSnoc(crc, w.files, []);
    assert Rotate(w).Sealed() == w.files;
  }

  lemma GaplessSnoc(log: seq<LogRecord>, r: LogRecord)
    requires Gapless(log) && Follows(LastSeq(log), r.seqno)
    ensures Gapless(log + [r])
  {}

  lemma ExtendKeeps(crc: Checksum, w: Wal, r: LogRecord, acked: seq<LogRecord>)
    requires Keeps(crc, w, acked) && Follows(w.appended, r.seqno)
    ensures var x := Extended(w, Frame(crc, r)).(appended := Some(r.seqno));
            Keeps(crc, x, acked) && Flat(crc, x.files) == Flat(crc, w.files) + [r]
  {
    hide ReadSegment, EndOf, Gapless, Flat, Frame;
    var x := Extended(w, Frame(crc, r)).(appended := Some(r.seqno));
    AppendReads(crc, w.Active(), r);
    assert w.files == w.Sealed() + [w.Active()];
    FlatSnoc(crc, w.Sealed(), w.Active());
    FlatSnoc(crc, w.Sealed(), x.Active());
    Regroup(Flat(crc, w.Sealed()), RecordsIn(crc, w.Active()), [r]);
    assert x.Sealed() == w.Sealed();
    IntactSnoc(crc, w.Sealed(), x.Active());
    GaplessSnoc(Flat(crc, w.files), r);
    var before := |Flat(crc, w.Sealed())|;
    if |acked| > before {
      AppendKeepsEnds(crc, w.Active(), Frame(crc, r), |acked| - before);
    }
  }

  /** Appending puts exactly one more record at the end, rotating or not. */
  lemma AppendKeeps(crc: Checksum, limit: nat, w: Wal, r: LogRecord, acked: seq<LogRecord>)
    requires Keeps(crc, w, acked)
    ensures var written := AppendRecord(crc, limit, w, r);
            if Follows(LastSeq(Flat(crc, w.files)), r.seqno) then
              && written.Ok? && Keeps(crc, written.wal, acked)
              && Flat(crc, written.wal.files) == Flat(crc, w.files) + [r]
            else written.Refused?
  {
    if Follows(w.appended, r.seqno) {
      hide Keeps, Flat, Frame;
      assert w.appended == LastSeq(Flat(crc, w.files)) by { KeepsMark(crc, w, acked); }
      RotateKeeps(crc, w, acked);
      var room := if Full(w, |Frame(crc, r)|, limit) then Rotate(w) else w;
      ExtendKeeps(crc, room, r, acked);
    }
  }

  lemma KeepsMark(crc: Checksum, w: Wal, acked: seq<LogRecord>)
    requires Keeps(crc, w, acked)
    ensures w.appended == LastSeq(Flat(crc, w.files)) && acked <= Flat(crc, w.files)
  {}

  lemma MarksAcked(crc: Checksum, w: Wal, acked: seq<LogRecord>)
    requires Keeps(crc, w, acked)
    ensures w.durable == LastSeq(acked)
  {}

  /** Syncing puts everything appended on the disk. */
  lemma SyncKeeps(crc: Checksum, w: Wal, acked: seq<LogRecord>)
    requires Keeps(crc, w, acked)
    ensures Keeps(crc, SyncAll(w), Flat(crc, w.files))
  {
    hide ReadSegment, EndOf, Gapless, Flat;
    FlatSnoc(crc, w.Sealed(), w.Active());
    assert w.files == w.Sealed() + [w.Active()];
    WholeEnds(crc, w.Active());
  }

  /** A log of whole records, all of them on the disk. */
  lemma FreshKeeps(crc: Checksum, w: Wal)
    requires w.files != [] && Intact(crc, w.files) && Whole(crc, w.Active()) && Gapless(Flat(crc, w.files))
    requires w.synced == |w.Active()|
    requires w.appended == w.durable == LastSeq(Flat(crc, w.files))
    ensures Keeps(crc, w, Flat(crc, w.files))
  {
    hide ReadSegment, EndOf, Gapless, Flat, Intact, Readable;
    FlatSnoc(crc, w.Sealed(), w.Active());
    assert w.files == w.Sealed() + [w.Active()];
    WholeEnds(crc, w.Active());
  }

  /** Reopening what intact files hold: no record is lost or gained, the torn tail is gone, and the
      log can be appended to. */
  lemma OpenKeeps(crc: Checksum, files: seq<seq<Byte>>)
    requires Intact(crc, files) && Gapless(Flat(crc, files))
    ensures Reopen(crc, files).Opened?
    ensures var w := Reopen(crc, files).wal;
            Keeps(crc, w, Flat(crc, files)) && Flat(crc, w.files) == Flat(crc, files)
    ensures ReadAll(crc, Truncate(crc, files)) == ReadAll(crc, files)
  {
    hide ReadSegment, EndOf, Gapless, Flat, Intact, ReadAll, Truncate, Keeps, Readable;
    ReadAllIsFlat(crc, files);
    TruncateKeeps(crc, files);
    ReadAllIsFlat(crc, Truncate(crc, files));
    FreshKeeps(crc, Reopen(crc, files).wal);
  }

  lemma TruncateKeeps(crc: Checksum, files: seq<seq<Byte>>)
    requires Intact(crc, files)
    ensures var kept := Truncate(crc, files);
            && kept != [] && Intact(crc, kept) && Whole(crc, kept[|kept| - 1])
            && Flat(crc, kept) == Flat(crc, files)
  {
    hide EndOf, Gapless, ReadSegment;
    NoBytes(crc);
    var kept := Truncate(crc, files);
    if files != [] {
      var last := files[|files| - 1];
      TruncateReads(crc, last);
      FlatSnoc(crc, files[..|files| - 1], kept[|kept| - 1]);
      IntactSnoc(crc, files[..|files| - 1], kept[|kept| - 1]);
    } else {
      FlatSnoc(crc, [], []);
      assert [] + [[]] == kept;
    }
  }

  /** A crash at any byte leaves a prefix of the log that holds everything acknowledged. */
  lemma CrashKeeps(crc: Checksum, w: Wal, cut: nat, missing: bool, acked: seq<LogRecord>)
    requires Keeps(crc, w, acked)
    ensures var files := Crashed(w, cut, missing);
            && Intact(crc, files) && Gapless(Flat(crc, files))
            && acked <= Flat(crc, files) <= Flat(crc, w.files)
  {
    hide ReadSegment, EndOf, Flat, Gapless;
    var n := Max(w.synced, Min(cut, |w.Active()|));
    var before := |Flat(crc, w.Sealed())|;
    var k := if |acked| > before then |acked| - before else 0;
    assert w.files == w.Sealed() + [w.Active()];
    FlatSnoc(crc, w.Sealed(), w.Active());
    EndZero(crc, w.Active());
    CutReads(crc, w.Active(), n, k);
    var part := w.Active()[..n];
    FlatSnoc(crc, w.Sealed(), part);
    IntactSnoc(crc, w.Sealed(), part);
    var files := Crashed(w, cut, missing);
    if missing && n == 0 {
      NoBytes(crc);
      assert part == [];
      assert Flat(crc, files) == Flat(crc, w.Sealed() + [part]);
    }
    PrefixBetween(acked, Flat(crc, w.Sealed()), RecordsIn(crc, part), RecordsIn(crc, w.Active()), k);
    GaplessPrefix(Flat(crc, w.files), Flat(crc, files));
  }

  lemma PrefixBetween(acked: seq<LogRecord>, before: seq<LogRecord>, some: seq<LogRecord>, all: seq<LogRecord>, k: nat)
    requires acked <= before + all && some <= all && k <= |all| && all[..k] <= some && |acked| <= |before| + k
    ensures acked <= before + some <= before + all
  {}

  // ---------------------------------------------------------------- runs

  datatype Act = Append(record: LogRecord) | Sync | Crash(cut: nat, missing: bool)

  /** One step of the log's life; a crash is followed by reopening. */
  function Perform(crc: Checksum, limit: nat, w: Wal, act: Act): (next: Wal)
    requires w.files != []
    ensures next.files != []
  {
    match act
    case Append(r) =>
      var written := AppendRecord(crc, limit, w, r);
      if written.Ok? then written.wal else w
    case Sync => SyncAll(w)
    case Crash(cut, missing) =>
      var opening := Reopen(crc, Crashed(w, cut, missing));
      if opening.Opened? then opening.wal else w
  }

  /** What may have been acknowledged once `act` is done: everything durable, and after reopening
      everything that survived. */
  ghost function Acked(crc: Checksum, acked: seq<LogRecord>, act: Act, after: Wal): seq<LogRecord> {
    if act.Append? then acked else Flat(crc, after.files)
  }

  lemma PerformKeeps(crc: Checksum, limit: nat, w: Wal, act: Act, acked: seq<LogRecord>)
    requires Keeps(crc, w, acked)
    ensures var after := Perform(crc, limit, w, act);
            && Keeps(crc, after, Acked(crc, acked, act, after))
            && acked <= Acked(crc, acked, act, after)
  {
    hide Keeps, Reopen, Crashed, Flat;
    assert w.files != [] by { assert Keeps(crc, w, acked); KeepsFiles(crc, w, acked); }
    match act
    case Append(r) => AppendKeeps(crc, limit, w, r, acked);
    case Sync =>
      KeepsMark(crc, w, acked);
      SyncKeeps(crc, w, acked);
    case Crash(cut, missing) =>
      CrashKeeps(crc, w, cut, missing, acked);
      OpenKeeps(crc, Crashed(w, cut, missing));
  }

  lemma KeepsFiles(crc: Checksum, w: Wal, acked: seq<LogRecord>)
    requires Keeps(crc, w, acked)
    ensures w.files != [] && Intact(crc, w.files) && Gapless(Flat(crc, w.files))
  {}

  function PerformAll(crc: Checksum, limit: nat, w: Wal, acts: seq<Act>): (after: Wal)
    requires w.files != []
    ensures after.files != []
    decreases |acts|
  {
    if acts == [] then w else PerformAll(crc, limit, Perform(crc, limit, w, acts[0]), acts[1..])
  }

  /** Over any run of appends, rotations, syncs, crashes at any byte and reopenings, every record
      ever acknowledged stays where it was in the log, and the log stays gapless and readable. */
  lemma {:induction false} AcknowledgedRecordsSurvive(crc: Checksum, limit: nat, w: Wal, acts: seq<Act>, acked: seq<LogRecord>)
    requires Keeps(crc, w, acked)
    ensures var after := PerformAll(crc, limit, w, acts);
            && ReadAll(crc, after.files) == Read(Flat(crc, after.files))
            && acked <= Flat(crc, after.files) && Gapless(Flat(crc, after.files))
            && after.appended == LastSeq(Flat(crc, after.files))
    decreases |acts|
  {
    hide Keeps, Perform, Flat, Gapless, ReadAll;
    KeepsFiles(crc, w, acked);
    if acts == [] {
      KeepsMark(crc, w, acked);
      ReadAllIsFlat(crc, w.files);
    } else {
      var next := Perform(crc, limit, w, acts[0]);
      PerformKeeps(crc, limit, w, acts[0], acked);
      KeepsFiles(crc, next, Acked(crc, acked, acts[0], next));
      AcknowledgedRecordsSurvive(crc, limit, next, acts[1..], Acked(crc, acked, acts[0], next));
    }
  }

  /** A run keeps the log in order, whatever happens to it. */
  lemma {:induction false} RunKeeps(crc: Checksum, limit: nat, w: Wal, acts: seq<Act>, acked: seq<LogRecord>)
    returns (grown: seq<LogRecord>)
    requires Keeps(crc, w, acked)
    ensures Keeps(crc, PerformAll(crc, limit, w, acts), grown) && acked <= grown
    decreases |acts|
  {
    hide Keeps, Perform, Flat;
    KeepsFiles(crc, w, acked);
    grown := acked;
    if acts != [] {
      var next := Perform(crc, limit, w, acts[0]);
      PerformKeeps(crc, limit, w, acts[0], acked);
      KeepsFiles(crc, next, Acked(crc, acked, acts[0], next));
      grown := RunKeeps(crc, limit, next, acts[1..], Acked(crc, acked, acts[0], next));
    }
  }

  /** The log of a directory that did not exist. */
  function Empty(): Wal {
    Wal([[]], 0, None, None)
  }

  lemma EmptyKeeps(crc: Checksum)
    ensures Keeps(crc, Empty(), []) && Flat(crc, Empty().files) == []
    ensures Reopen(crc, []) == Opening.Opened(Empty())
  {
    NoBytes(crc);
    FlatSnoc(crc, [], []);
    assert [] + [[]] == Empty().files;
    assert Empty().Sealed() == [];
  }

  /** Whatever came before, once a sync returns nothing that comes after takes a record back. */
  lemma SyncedRecordsSurvive(crc: Checksum, limit: nat, before: seq<Act>, after: seq<Act>)
    ensures var w := PerformAll(crc, limit, Empty(), before);
            var later := PerformAll(crc, limit, Perform(crc, limit, w, Act.Sync), after);
            && ReadAll(crc, w.files).Read? && ReadAll(crc, later.files).Read?
            && ReadAll(crc, w.files).records <= ReadAll(crc, later.files).records
  {
    hide Keeps, PerformAll, Flat, ReadAll;
    EmptyKeeps(crc);
    var acked := RunKeeps(crc, limit, Empty(), before, []);
    var w := PerformAll(crc, limit, Empty(), before);
    KeepsFiles(crc, w, acked);
    ReadAllIsFlat(crc, w.files);
    KeepsMark(crc, w, acked);
    SyncKeeps(crc, w, acked);
    AcknowledgedRecordsSurvive(crc, limit, SyncAll(w), after, Flat(crc, w.files));
  }

  // ---------------------------------------------------------------- the segmented round trip

  function WriteAll(crc: Checksum, limit: nat, w: Wal, records: seq<LogRecord>): (after: Wal)
    requires w.files != []
    ensures after.files != []
    decreases |records|
  {
    if records == [] then w else WriteAll(crc, limit, Perform(crc, limit, w, Act.Append(records[0])), records[1..])
  }

  lemma {:induction false} WriteAllKeeps(crc: Checksum, limit: nat, w: Wal, records: seq<LogRecord>, acked: seq<LogRecord>)
    requires Keeps(crc, w, acked) && Gapless(Flat(crc, w.files) + records)
    ensures var after := WriteAll(crc, limit, w, records);
            Keeps(crc, after, acked) && Flat(crc, after.files) == Flat(crc, w.files) + records
    decreases |records|
  {
    hide Keeps, Flat, AppendRecord;
    KeepsFiles(crc, w, acked);
    if records == [] {
      assert Flat(crc, w.files) + records == Flat(crc, w.files);
    } else {
      var all := Flat(crc, w.files) + records;
      NextFollows(Flat(crc, w.files), records);
      AppendKeeps(crc, limit, w, records[0], acked);
      var next := Perform(crc, limit, w, Act.Append(records[0]));
      KeepsFiles(crc, next, acked);
      assert Flat(crc, next.files) + records[1..] == all;
      WriteAllKeeps(crc, limit, next, records[1..], acked);
    }
  }

  lemma NextFollows(log: seq<LogRecord>, records: seq<LogRecord>)
    requires Gapless(log + records) && records != []
    ensures Follows(LastSeq(log), records[0].seqno)
  {
    var all := log + records;
    assert all[|log|] == records[0];
    if log != [] {
      assert all[0] == log[0] && all[|log| - 1] == log[|log| - 1];
    }
  }

  /** Written in any segment size and cut off inside a further frame, a log reads back as exactly
      its whole records; reopened and written on, it reads back as the concatenation. */
  lemma SegmentedRoundTrip(
    crc: Checksum, limit: nat, limit': nat, records: seq<LogRecord>, next: LogRecord, cut: nat, more: seq<LogRecord>)
    requires Gapless(records) && Gapless(records + more) && cut < |Frame(crc, next)|
    ensures var w := WriteAll(crc, limit, Empty(), records);
            var torn := Extended(w, Frame(crc, next)[..cut]).files;
            && ReadAll(crc, torn) == Read(records)
            && Reopen(crc, torn).Opened?
            && ReadAll(crc, WriteAll(crc, limit', Reopen(crc, torn).wal, more).files) == Read(records + more)
  {
    hide Keeps, Flat, AppendRecord, ReadAll, Frame, WriteAll, Reopen, Gapless, Intact;
    var w := WriteAll(crc, limit, Empty(), records);
    EmptyKeeps(crc);
    assert [] + records == records;
    WriteAllKeeps(crc, limit, Empty(), records, []);
    KeepsFiles(crc, w, []);
    var tail := Frame(crc, next)[..cut];
    TornFrame(crc, next, cut);
    TornKeeps(crc, w, tail, []);
    var torn := Extended(w, tail).files;
    ReadAllIsFlat(crc, torn);
    OpenKeeps(crc, torn);
    var reopened := Reopen(crc, torn).wal;
    KeepsFiles(crc, reopened, records);
    WriteAllKeeps(crc, limit', reopened, more, records);
    var after := WriteAll(crc, limit', reopened, more);
    KeepsFiles(crc, after, records);
    ReadAllIsFlat(crc, after.files);
  }

  /** A torn tail behind whole records hides nothing. */
  lemma TornKeeps(crc: Checksum, w: Wal, tail: seq<Byte>, acked: seq<LogRecord>)
    requires Keeps(crc, w, acked) && (tail == [] || Decode(crc, tail) == Incomplete)
    ensures Intact(crc, Extended(w, tail).files)
    ensures Flat(crc, Extended(w, tail).files) == Flat(crc, w.files)
  {
    hide ReadSegment, EndOf, Gapless, Flat, Decode;
    TornReads(crc, w.Active(), tail);
    assert w.files == w.Sealed() + [w.Active()];
    FlatSnoc(crc, w.Sealed(), w.Active());
    FlatSnoc(crc, w.Sealed(), w.Active() + tail);
    IntactSnoc(crc, w.Sealed(), w.Active() + tail);
  }

  /** Damage anywhere but at the very end is reported, not skipped. */
  lemma SealedDamageIsReported(crc: Checksum, files: seq<seq<Byte>>, i: nat)
    requires i + 1 < |files| && !Whole(crc, files[i])
    ensures !ReadAll(crc, files).Read?
  {
    SealedDamageFrom(crc, files, 0, [], i);
  }

  lemma {:induction false} SealedDamageFrom(crc: Checksum, files: seq<seq<Byte>>, from: nat, all: seq<LogRecord>, i: nat)
    requires from <= i && i + 1 < |files| && !Whole(crc, files[i])
    ensures !ReadFrom(crc, files, from, all).Read?
    decreases i - from
  {
    hide ReadSegment;
    if from < i {
      var contents := ReadSegment(crc, files[from]);
      if contents.Contents? {
        var joined := Join(all, contents.records);
        if joined.Read? {
          SealedDamageFrom(crc, files, from + 1, joined.records, i);
        }
      }
    }
  }

  // ---------------------------------------------------------------- what a reading says

  /** Segment `i` cannot be read as far as it should: at all, or to its end if another follows. */
  ghost predicate Bad(crc: Checksum, files: seq<seq<Byte>>, i: nat)
    requires i < |files|
  {
    !Readable(crc, files[i]) || (i + 1 < |files| && !Whole(crc, files[i]))
  }

  /** The log runs without a gap up to a record numbered `from`, and goes on with one numbered `found`. */
  ghost predicate BreaksAt(log: seq<LogRecord>, from: U64, found: U64) {
    found != from + 1
    && exists n :: 0 < n < |log| && Gapless(log[..n]) && log[n - 1].seqno == from && log[n].seqno == found
  }

  lemma {:induction false} JoinBreaks(all: seq<LogRecord>, records: seq<LogRecord>)
    requires Gapless(all) && Join(all, records).Gap?
    ensures BreaksAt(all + records, Join(all, records).from, Join(all, records).found)
    decreases |records|
  {
    var log := all + records;
    if Follows(LastSeq(all), records[0].seqno) {
      var more := all + [records[0]];
      assert log == more + records[1..];
      GaplessSnoc(all, records[0]);
      JoinBreaks(more, records[1..]);
    } else {
      assert log[..|all|] == all && log[|all| - 1] == all[|all| - 1] && log[|all|] == records[0];
    }
  }

  /** The first `n` segments can each be read as far as they should. */
  ghost predicate NoneBad(crc: Checksum, files: seq<seq<Byte>>, n: nat)
    requires n <= |files|
  {
    forall j: nat :: j < n ==> !Bad(crc, files, j)
  }

  ghost predicate FirstBad(crc: Checksum, files: seq<seq<Byte>>, i: nat) {
    i < |files| && Bad(crc, files, i) && NoneBad(crc, files, i) && Gapless(Flat(crc, files[..i]))
  }

  ghost predicate GapIn(crc: Checksum, files: seq<seq<Byte>>, i: nat, from: U64, found: U64) {
    i < |files| && NoneBad(crc, files, i + 1) && Gapless(Flat(crc, files[..i]))
    && BreaksAt(Flat(crc, files[..i + 1]), from, found)
  }

  ghost predicate FirstGap(crc: Checksum, files: seq<seq<Byte>>, from: U64, found: U64) {
    exists i :: GapIn(crc, files, i, from, found)
  }

  lemma NoneBadIsIntact(crc: Checksum, files: seq<seq<Byte>>)
    requires NoneBad(crc, files, |files|)
    ensures Intact(crc, files)
  {
    forall j: nat | j < |files| ensures Readable(crc, files[j]) && (j + 1 < |files| ==> Whole(crc, files[j])) {
      assert !Bad(crc, files, j);
    }
  }

  /** What a reading means, whichever way it ends. */
  ghost predicate Means(crc: Checksum, files: seq<seq<Byte>>, reading: Reading) {
    match reading
    case Read(records) => Intact(crc, files) && Gapless(Flat(crc, files)) && records == Flat(crc, files)
    case Damaged(i) => FirstBad(crc, files, i)
    case Gap(from, found) => FirstGap(crc, files, from, found)
  }

  lemma {:induction false} ReadFromMeans(crc: Checksum, files: seq<seq<Byte>>, i: nat)
    requires i <= |files| && NoneBad(crc, files, i) && Gapless(Flat(crc, files[..i]))
    ensures Means(crc, files, ReadFrom(crc, files, i, Flat(crc, files[..i])))
    decreases |files| - i
  {
    hide ReadSegment, Flat, Gapless;
    if i == |files| {
      assert files[..i] == files;
      NoneBadIsIntact(crc, files);
    } else if !Bad(crc, files, i) {
      FlatStep(crc, files, i);
      JoinIsGapless(Flat(crc, files[..i]), RecordsIn(crc, files[i]));
      if Join(Flat(crc, files[..i]), RecordsIn(crc, files[i])).Read? {
        ReadFromMeans(crc, files, i + 1);
      } else {
        JoinNeverDamaged(Flat(crc, files[..i]), RecordsIn(crc, files[i]));
        JoinBreaks(Flat(crc, files[..i]), RecordsIn(crc, files[i]));
        var gap := Join(Flat(crc, files[..i]), RecordsIn(crc, files[i]));
        assert GapIn(crc, files, i, gap.from, gap.found);
      }
    }
  }

  lemma {:induction false} JoinNeverDamaged(all: seq<LogRecord>, records: seq<LogRecord>)
    ensures !Join(all, records).Damaged?
    decreases |records|
  {
    if records != [] && Follows(LastSeq(all), records[0].seqno) {
      JoinNeverDamaged(all + [records[0]], records[1..]);
    }
  }

  lemma BreakIsNotGapless(log: seq<LogRecord>, from: U64, found: U64)
    requires BreaksAt(log, from, found)
    ensures !Gapless(log)
  {
    var n :| 0 < n < |log| && Gapless(log[..n]) && log[n - 1].seqno == from && log[n].seqno == found;
  }

  lemma GaplessStep(log: seq<LogRecord>, n: nat, i: nat)
    requires 0 < i < n <= |log| && Gapless(log[..n])
    ensures log[i].seqno == log[i - 1].seqno + 1
  {
    assert log[..n][i] == log[i] && log[..n][i - 1] == log[i - 1];
  }

  lemma BreakIsUnique(log: seq<LogRecord>, from: U64, found: U64, from': U64, found': U64)
    requires BreaksAt(log, from, found) && BreaksAt(log, from', found')
    ensures from == from' && found == found'
  {
    var n :| 0 < n < |log| && Gapless(log[..n]) && log[n - 1].seqno == from && log[n].seqno == found;
    var n' :| 0 < n' < |log| && Gapless(log[..n']) && log[n' - 1].seqno == from' && log[n'].seqno == found';
    hide Gapless;
    if n < n' {
      GaplessStep(log, n', n);
    } else if n' < n {
      GaplessStep(log, n, n');
    }
  }

  lemma FlatGrows(crc: Checksum, files: seq<seq<Byte>>, i: nat, j: nat)
    requires i <= j <= |files|
    ensures Flat(crc, files[..i]) <= Flat(crc, files[..j])
  {
    assert files[..j][..i] == files[..i];
    FlatPrefix(crc, files[..j], i);
  }

  /** A gap inside segment `i` shows in every longer stretch of the log. */
  lemma GapPersists(crc: Checksum, files: seq<seq<Byte>>, i: nat, j: nat, from: U64, found: U64)
    requires GapIn(crc, files, i, from, found) && i < j <= |files|
    ensures !Gapless(Flat(crc, files[..j]))
  {
    hide Flat, Gapless, BreaksAt, NoneBad;
    BreakIsNotGapless(Flat(crc, files[..i + 1]), from, found);
    FlatGrows(crc, files, i + 1, j);
    if Gapless(Flat(crc, files[..j])) {
      GaplessPrefix(Flat(crc, files[..j]), Flat(crc, files[..i + 1]));
    }
  }

  lemma GapIsUnique(crc: Checksum, files: seq<seq<Byte>>, i: nat, j: nat, from: U64, found: U64, from': U64, found': U64)
    requires GapIn(crc, files, i, from, found) && GapIn(crc, files, j, from', found')
    ensures from == from' && found == found'
  {
    hide Flat, Gapless, BreaksAt, NoneBad;
    if i < j {
      GapPersists(crc, files, i, j, from, found);
    } else if j < i {
      GapPersists(crc, files, j, i, from', found');
    } else {
      BreakIsUnique(Flat(crc, files[..i + 1]), from, found, from', found');
    }
  }

  lemma GapIsNoOther(crc: Checksum, files: seq<seq<Byte>>, i: nat, from: U64, found: U64)
    requires GapIn(crc, files, i, from, found)
    ensures !(Intact(crc, files) && Gapless(Flat(crc, files)))
    ensures forall j :: !FirstBad(crc, files, j)
  {
    hide Flat, Gapless, BreaksAt;
    assert files[..|files|] == files;
    GapPersists(crc, files, i, |files|, from, found);
    forall j: nat ensures !FirstBad(crc, files, j) {
      if j <= i {
        assert !Bad(crc, files, j);
      } else if j < |files| {
        GapPersists(crc, files, i, j, from, found);
      }
    }
  }

  lemma MeansOneThing(crc: Checksum, files: seq<seq<Byte>>, a: Reading, b: Reading)
    requires Means(crc, files, a) && Means(crc, files, b)
    ensures a == b
  {
    hide Flat, Gapless, GapIn;
    if a.Gap? {
      var i :| GapIn(crc, files, i, a.from, a.found);
      GapIsNoOther(crc, files, i, a.from, a.found);
      if b.Gap? {
        var j :| GapIn(crc, files, j, b.from, b.found);
        GapIsUnique(crc, files, i, j, a.from, a.found, b.from, b.found);
      }
    } else if b.Gap? {
      var j :| GapIn(crc, files, j, b.from, b.found);
      GapIsNoOther(crc, files, j, b.from, b.found);
    }
  }

  /** Reading everything answers with the flat list, with the first segment that cannot be read as far
      as it should, or with the two numbers either side of the first gap, each exactly when it is so. */
  lemma ReadAllExactly(crc: Checksum, files: seq<seq<Byte>>, reading: Reading)
    ensures ReadAll(crc, files) == reading <==> Means(crc, files, reading)
  {
    hide Means, ReadFrom;
    assert files[..0] == [];
    ReadFromMeans(crc, files, 0);
    if Means(crc, files, reading) {
      MeansOneThing(crc, files, reading, ReadAll(crc, files));
    }
  }

  /** A frame altered in a sealed segment is damage, wherever it stands. */
  lemma AlteredSealedFrameIsDamage(
    crc: Checksum, files: seq<seq<Byte>>, i: nat, buf: seq<Byte>, r: LogRecord, payload: seq<Byte>, rest: seq<Byte>)
    requires i + 1 < |files| && files[i] == buf + (Frame(crc, r)[..8] + payload + rest)
    requires Whole(crc, buf) && |payload| == |Payload(r)| && crc(payload) != crc(Payload(r))
    ensures !ReadAll(crc, files).Read?
    ensures NoneBad(crc, files, i) && Gapless(Flat(crc, files[..i])) ==> ReadAll(crc, files) == Damaged(i)
  {
    hide Frame, Payload, Gapless, Flat, ReadAll, ReadSegment, NoneBad;
    AlteredFrameEnds(crc, buf, r, payload, rest);
    SealedDamageIsReported(crc, files, i);
    ReadAllExactly(crc, files, Damaged(i));
  }

  /** In the last segment it is where the log ends. */
  lemma AlteredLastFrameIsTheEnd(
    crc: Checksum, before: seq<seq<Byte>>, buf: seq<Byte>, r: LogRecord, payload: seq<Byte>, rest: seq<Byte>)
    requires Intact(crc, before + [buf]) && Whole(crc, buf) && Gapless(Flat(crc, before + [buf]))
    requires |payload| == |Payload(r)| && crc(payload) != crc(Payload(r))
    ensures ReadAll(crc, before + [buf + (Frame(crc, r)[..8] + payload + rest)]) == Read(Flat(crc, before + [buf]))
  {
    hide Frame, Payload, ReadSegment, Flat, Gapless, ReadAll;
    FrameInBytes(crc, r);
    var last := buf + (Frame(crc, r)[..8] + payload + rest);
    AlteredFrameEnds(crc, buf, r, payload, rest);
    FlatSnoc(crc, before, buf);
    FlatSnoc(crc, before, last);
    assert forall i :: 0 <= i < |before| ==> (before + [buf])[i] == before[i];
    IntactSnoc(crc, before, last);
    ReadAllIsFlat(crc, before + [last]);
  }

  /** A sealed-up payload that no record begins is an error in every segment, the last included. */
  lemma UnreadableFrameIsReported(
    crc: Checksum, files: seq<seq<Byte>>, i: nat, buf: seq<Byte>, payload: seq<Byte>, rest: seq<Byte>)
    requires i < |files| && files[i] == buf + (Framed(crc, payload) + rest)
    requires Whole(crc, buf) && 0 < |payload| <= 1_048_576 && forall r :: !(Payload(r) <= payload)
    ensures !ReadAll(crc, files).Read?
    ensures NoneBad(crc, files, i) && Gapless(Flat(crc, files[..i])) ==> ReadAll(crc, files) == Damaged(i)
  {
    hide Framed, Payload, ReadSegment, Flat, Gapless, ReadAll, NoneBad;
    UnreadableFrameIsCorrupt(crc, buf, payload, rest);
    ReadAllExactly(crc, files, Damaged(i));
    ReadAllExactly(crc, files, ReadAll(crc, files));
  }

  // ---------------------------------------------------------------- how long a segment gets

  /** Within the limit, unless it holds a single record. */
  ghost predicate Sized(crc: Checksum, limit: nat, file: seq<Byte>) {
    |file| <= limit || |RecordsIn(crc, file)| == 1
  }

  ghost predicate AllSized(crc: Checksum, limit: nat, files: seq<seq<Byte>>) {
    forall i :: 0 <= i < |files| ==> Sized(crc, limit, files[i])
  }

  /** Where an append puts its frame: behind the active segment if there is room, else alone in a fresh
      one; and there is room exactly when the segment is empty or the frame fits. */
  lemma AppendPlaces(crc: Checksum, limit: nat, w: Wal, r: LogRecord)
    requires w.files != [] && Follows(w.appended, r.seqno)
    ensures var n := |w.files|;
            var active, frame := w.files[n - 1], Frame(crc, r);
            var files := AppendRecord(crc, limit, w, r).wal.files;
            AppendRecord(crc, limit, w, r).Ok?
            && files == if active == [] || |active| + |frame| <= limit then w.files[..n - 1] + [active + frame]
                        else w.files + [frame]
  {
    hide Frame;
    assert [] + Frame(crc, r) == Frame(crc, r);
    assert (w.files + [[]])[..|w.files|] == w.files;
  }

  lemma NothingSized(crc: Checksum, limit: nat)
    ensures Sized(crc, limit, [])
  {}

  lemma SizedSnoc(crc: Checksum, limit: nat, files: seq<seq<Byte>>, last: seq<Byte>)
    requires AllSized(crc, limit, files) && Sized(crc, limit, last)
    ensures AllSized(crc, limit, files + [last])
  {}

  lemma AppendSized(crc: Checksum, limit: nat, w: Wal, r: LogRecord, acked: seq<LogRecord>)
    requires Keeps(crc, w, acked) && AllSized(crc, limit, w.files)
    ensures AppendRecord(crc, limit, w, r).Ok? ==> AllSized(crc, limit, AppendRecord(crc, limit, w, r).wal.files)
  {
    if Follows(w.appended, r.seqno) {
      hide ReadSegment, EndOf, Gapless, Flat, Frame, AppendRecord, OnDisk, Intact;
      var frame, active := Frame(crc, r), w.Active();
      AppendPlaces(crc, limit, w, r);
      NoBytes(crc);
      AppendReads(crc, [], r);
      assert [] + frame == frame && AllSized(crc, limit, w.Sealed());
      hide AllSized;
      SizedSnoc(crc, limit, if active == [] || |active| + |frame| <= limit then w.Sealed() else w.files,
                if active == [] || |active| + |frame| <= limit then active + frame else frame);
    }
  }

  /** What is left of a segment cut at a byte and shortened to its whole records. */
  function Kept(crc: Checksum, file: seq<Byte>, n: nat): seq<Byte>
    requires Readable(crc, file[..Min(n, |file|)])
  {
    var part := file[..Min(n, |file|)];
    part[..|part| - Min(|part|, ReadSegment(crc, part).trailing)]
  }

  lemma CutSized(crc: Checksum, limit: nat, file: seq<Byte>, n: nat)
    requires Readable(crc, file) && Sized(crc, limit, file)
    ensures Readable(crc, file[..Min(n, |file|)]) && Sized(crc, limit, Kept(crc, file, n))
  {
    hide ReadSegment, EndOf;
    var part := file[..Min(n, |file|)];
    EndZero(crc, file);
    CutReads(crc, file, |part|, 0);
    assert file[..|part|] == part;
    TruncateReads(crc, part);
    var kept := Kept(crc, file, n);
    if RecordsIn(crc, part) == [] {
      NoRecords(crc, kept);
    }
  }

  lemma TruncateCut(crc: Checksum, before: seq<seq<Byte>>, file: seq<Byte>, n: nat)
    requires Readable(crc, file[..Min(n, |file|)])
    ensures Truncate(crc, before + [file[..Min(n, |file|)]]) == before + [Kept(crc, file, n)]
  {
    hide ReadSegment;
    TrailingIsWithin(crc, file[..Min(n, |file|)]);
    var files := before + [file[..Min(n, |file|)]];
    assert files[..|files| - 1] == before;
  }

  lemma TruncateWhole(crc: Checksum, files: seq<seq<Byte>>)
    requires files != [] ==> Whole(crc, files[|files| - 1])
    ensures Truncate(crc, files) == if files == [] then [[]] else files
  {
    hide ReadSegment;
    if files != [] {
      var last := files[|files| - 1];
      assert last[..|last|] == last && files[..|files| - 1] + [last] == files;
    }
  }

  lemma CrashSized(crc: Checksum, limit: nat, w: Wal, cut: nat, missing: bool, acked: seq<LogRecord>)
    requires Keeps(crc, w, acked) && AllSized(crc, limit, w.files)
    ensures AllSized(crc, limit, Truncate(crc, Crashed(w, cut, missing)))
  {
    hide ReadSegment, EndOf, Gapless, Flat, OnDisk, Truncate;
    var n := Max(w.synced, Min(cut, |w.Active()|));
    assert AllSized(crc, limit, w.Sealed());
    if missing && n == 0 {
      TruncateWhole(crc, w.Sealed());
      NothingSized(crc, limit);
    } else {
      CutSized(crc, limit, w.Active(), n);
      TruncateCut(crc, w.Sealed(), w.Active(), n);
      hide AllSized;
      SizedSnoc(crc, limit, w.Sealed(), Kept(crc, w.Active(), n));
    }
  }

  lemma PerformSized(crc: Checksum, limit: nat, w: Wal, act: Act, acked: seq<LogRecord>)
    requires Keeps(crc, w, acked) && AllSized(crc, limit, w.files)
    ensures AllSized(crc, limit, Perform(crc, limit, w, act).files)
  {
    hide Keeps, AllSized, AppendRecord, Truncate, ReadAll, Crashed, Flat;
    KeepsFiles(crc, w, acked);
    match act
    case Append(r) => AppendSized(crc, limit, w, r, acked);
    case Sync =>
    case Crash(cut, missing) => CrashSized(crc, limit, w, cut, missing, acked);
  }

  /** Over any run from an empty directory, crashes included, no segment exceeds the limit unless it
      holds a single record. */
  lemma {:induction false} SegmentsStaySized(crc: Checksum, limit: nat, w: Wal, acts: seq<Act>, acked: seq<LogRecord>)
    requires Keeps(crc, w, acked) && AllSized(crc, limit, w.files)
    ensures AllSized(crc, limit, PerformAll(crc, limit, w, acts).files)
    decreases |acts|
  {
    hide Keeps, AllSized, Perform, Flat;
    if acts != [] {
      KeepsFiles(crc, w, acked);
      PerformSized(crc, limit, w, acts[0], acked);
      PerformKeeps(crc, limit, w, acts[0], acked);
      var next := Perform(crc, limit, w, acts[0]);
      SegmentsStaySized(crc, limit, next, acts[1..], Acked(crc, acked, acts[0], next));
    }
  }

  lemma SegmentsAreSized(crc: Checksum, limit: nat, acts: seq<Act>)
    ensures AllSized(crc, limit, PerformAll(crc, limit, Empty(), acts).files)
  {
    hide Keeps, PerformAll;
    EmptyKeeps(crc);
    NothingSized(crc, limit);
    SegmentsStaySized(crc, limit, Empty(), acts, []);
  }
}
