/** One segment file: the parser of its records, and what appending, cutting and truncating do to what
    it reads. */
module Segments {
  import opened Auction
  import opened Framing

  datatype Contents = Contents(records: seq<LogRecord>, trailing: nat) | Corrupt(at: nat)

  /** `read_segment`. */
  function ReadSegment(crc: Checksum, buf: seq<Byte>): Contents
    decreases |buf|
  {
    if buf == [] then Contents([], 0)
    else
      match Decode(crc, buf)
      case Incomplete => Contents([], |buf|)
      case Malformed => Corrupt(0)
      case Record(r, n) =>
        var rest := ReadSegment(crc, buf[n..]);
        if rest.Corrupt? then Corrupt(n + rest.at) else Contents([r] + rest.records, rest.trailing)
  }

  predicate Readable(crc: Checksum, buf: seq<Byte>) {
    ReadSegment(crc, buf).Contents?
  }

  function RecordsIn(crc: Checksum, buf: seq<Byte>): seq<LogRecord> {
    var contents := ReadSegment(crc, buf);
    if contents.Contents? then contents.records else []
  }

  /** Whole records and nothing else. */
  predicate Whole(crc: Checksum, buf: seq<Byte>) {
    Readable(crc, buf) && ReadSegment(crc, buf).trailing == 0
  }

  /** Where the first `k` records of a segment end. */
  ghost function EndOf(crc: Checksum, buf: seq<Byte>, k: nat): nat
    decreases k
  {
    if k == 0 || !Decode(crc, buf).Record? then 0
    else Decode(crc, buf).consumed + EndOf(crc, buf[Decode(crc, buf).consumed..], k - 1)
  }

  /** Decoding looks no further than the frame it decodes. */
  lemma DecodeIsLocal(crc: Checksum, buf: seq<Byte>, more: seq<Byte>)
    requires Decode(crc, buf).Record?
    ensures Decode(crc, buf + more) == Decode(crc, buf)
  {
    hide ReadRecord, Value;
    var n := Decode(crc, buf).consumed;
    assert (buf + more)[..4] == buf[..4] && (buf + more)[4..8] == buf[4..8];
    assert (buf + more)[HEADER_LEN..n] == buf[HEADER_LEN..n];
  }

  /** Cutting inside a frame leaves it incomplete; cutting behind it leaves it whole. */
  lemma DecodeCut(crc: Checksum, buf: seq<Byte>, n: nat)
    requires Decode(crc, buf).Record? && n <= |buf|
    ensures Decode(crc, buf[..n]) == if n < Decode(crc, buf).consumed then Incomplete else Decode(crc, buf)
  {
    hide ReadRecord, Value;
    var end := Decode(crc, buf).consumed;
    if n >= HEADER_LEN {
      assert buf[..n][..4] == buf[..4] && buf[..n][4..8] == buf[4..8];
      if n >= end {
        assert buf[..n][HEADER_LEN..end] == buf[HEADER_LEN..end];
      }
    }
  }

  /** Appending a frame to whole records appends its record, and moves nothing. */
  lemma {:induction false} AppendReads(crc: Checksum, buf: seq<Byte>, r: LogRecord)
    requires Whole(crc, buf)
    ensures Whole(crc, buf + Frame(crc, r))
    ensures RecordsIn(crc, buf + Frame(crc, r)) == RecordsIn(crc, buf) + [r]
    decreases |buf|
  {
    hide Decode, Frame;
    if buf == [] {
      FrameRoundTrip(crc, r, []);
      assert buf + Frame(crc, r) == Frame(crc, r) + [];
      assert Frame(crc, r)[|Frame(crc, r)|..] == [];
      FrameLength(crc, r);
    } else {
      var n := Decode(crc, buf).consumed;
      DecodeIsLocal(crc, buf, Frame(crc, r));
      assert (buf + Frame(crc, r))[n..] == buf[n..] + Frame(crc, r);
      AppendReads(crc, buf[n..], r);
    }
  }

  lemma FrameLength(crc: Checksum, r: LogRecord)
    ensures |Frame(crc, r)| > HEADER_LEN
  {
    PayloadLength(r);
  }

  /** One record read off the front. */
  lemma EndStep(crc: Checksum, buf: seq<Byte>, k: nat)
    requires Readable(crc, buf) && 0 < k <= |RecordsIn(crc, buf)|
    ensures Decode(crc, buf).Record?
    ensures var n := Decode(crc, buf).consumed;
            && Readable(crc, buf[n..]) && |RecordsIn(crc, buf)| == 1 + |RecordsIn(crc, buf[n..])|
            && EndOf(crc, buf, k) == n + EndOf(crc, buf[n..], k - 1)
            && ReadSegment(crc, buf).trailing == ReadSegment(crc, buf[n..]).trailing
  {
    hide Decode;
  }

  lemma EndZero(crc: Checksum, buf: seq<Byte>)
    ensures EndOf(crc, buf, 0) == 0
  {}

  lemma {:induction false} AppendKeepsEnds(crc: Checksum, buf: seq<Byte>, more: seq<Byte>, k: nat)
    requires Readable(crc, buf) && Readable(crc, buf + more)
    requires k <= |RecordsIn(crc, buf)| && k <= |RecordsIn(crc, buf + more)|
    ensures EndOf(crc, buf + more, k) == EndOf(crc, buf, k)
    decreases k
  {
    hide Decode, ReadSegment, EndOf;
    if k > 0 {
      EndStep(crc, buf, k);
      EndStep(crc, buf + more, k);
      var n := Decode(crc, buf).consumed;
      DecodeIsLocal(crc, buf, more);
      assert (buf + more)[n..] == buf[n..] + more;
      AppendKeepsEnds(crc, buf[n..], more, k - 1);
    } else {
      EndZero(crc, buf);
      EndZero(crc, buf + more);
    }
  }

  lemma {:induction false} EndIsWithin(crc: Checksum, buf: seq<Byte>, k: nat)
    requires Readable(crc, buf) && k <= |RecordsIn(crc, buf)|
    ensures EndOf(crc, buf, k) <= |buf| - ReadSegment(crc, buf).trailing
    decreases k
  {
    hide Decode, ReadSegment, EndOf;
    if k > 0 {
      EndStep(crc, buf, k);
      EndIsWithin(crc, buf[Decode(crc, buf).consumed..], k - 1);
    } else {
      EndZero(crc, buf);
      TrailingIsWithin(crc, buf);
    }
  }

  lemma {:induction false} TrailingIsWithin(crc: Checksum, buf: seq<Byte>)
    requires Readable(crc, buf)
    ensures ReadSegment(crc, buf).trailing <= |buf|
    decreases |buf|
  {
    if buf != [] && Decode(crc, buf).Record? {
      TrailingIsWithin(crc, buf[Decode(crc, buf).consumed..]);
    }
  }

  /** A segment cut at any byte reads back as a prefix of its records, with every record that ends
      at or before the cut. */
  lemma {:induction false} CutReads(crc: Checksum, buf: seq<Byte>, n: nat, k: nat)
    requires Readable(crc, buf) && n <= |buf|
    requires k <= |RecordsIn(crc, buf)| && EndOf(crc, buf, k) <= n
    ensures Readable(crc, buf[..n])
    ensures RecordsIn(crc, buf)[..k] <= RecordsIn(crc, buf[..n]) <= RecordsIn(crc, buf)
    decreases |buf|
  {
    hide Decode;
    if n > 0 {
      match Decode(crc, buf) {
        case Incomplete => CutIncomplete(crc, buf, n);
        case Malformed =>
        case Record(r, end) =>
          DecodeCut(crc, buf, n);
          if n >= end {
            assert buf[..n][end..] == buf[end..][..n - end];
            if k > 0 {
              CutReads(crc, buf[end..], n - end, k - 1);
            } else {
              CutReads(crc, buf[end..], n - end, 0);
            }
          }
      }
    }
  }

  /** What cannot be decoded cannot be decoded when it is shorter. */
  lemma CutIncomplete(crc: Checksum, buf: seq<Byte>, n: nat)
    requires Decode(crc, buf) == Incomplete && n <= |buf|
    ensures Decode(crc, buf[..n]) == Incomplete
  {
    hide ReadRecord, Value;
    if n >= HEADER_LEN {
      assert buf[..n][..4] == buf[..4] && buf[..n][4..8] == buf[4..8];
      var len := Value(buf[..4]);
      if n >= HEADER_LEN + len {
        assert buf[..n][HEADER_LEN..HEADER_LEN + len] == buf[HEADER_LEN..HEADER_LEN + len];
      }
    }
  }

  /** Cutting off exactly the unreadable tail loses no record and leaves nothing unreadable. */
  lemma {:induction false} TruncateReads(crc: Checksum, buf: seq<Byte>)
    requires Readable(crc, buf)
    ensures ReadSegment(crc, buf).trailing <= |buf|
    ensures var kept := buf[..|buf| - ReadSegment(crc, buf).trailing];
            Whole(crc, kept) && RecordsIn(crc, kept) == RecordsIn(crc, buf)
    decreases |buf|
  {
    hide Decode;
    if buf != [] {
      TrailingIsWithin(crc, buf);
      var kept := buf[..|buf| - ReadSegment(crc, buf).trailing];
      match Decode(crc, buf) {
        case Incomplete => assert kept == [];
        case Malformed =>
        case Record(r, end) =>
          TruncateReads(crc, buf[end..]);
          DecodeCut(crc, buf, |kept|);
          assert kept[end..] == buf[end..][..|buf[end..]| - ReadSegment(crc, buf[end..]).trailing];
      }
    }
  }

  /** Bytes that are no record's beginning, after whole records, are all that is left unread. */
  lemma {:induction false} TornReads(crc: Checksum, buf: seq<Byte>, torn: seq<Byte>)
    requires Whole(crc, buf) && (torn == [] || Decode(crc, torn) == Incomplete)
    ensures ReadSegment(crc, buf + torn) == Contents(RecordsIn(crc, buf), |torn|)
    decreases |buf|
  {
    hide Decode;
    if buf == [] {
      assert buf + torn == torn;
    } else {
      var end := Decode(crc, buf).consumed;
      DecodeIsLocal(crc, buf, torn);
      assert (buf + torn)[end..] == buf[end..] + torn;
      TornReads(crc, buf[end..], torn);
    }
  }

  /** After whole records, a frame whose payload was altered ends the reading, and all of it from there
      on is unread. */
  lemma AlteredFrameEnds(crc: Checksum, buf: seq<Byte>, r: LogRecord, payload: seq<Byte>, rest: seq<Byte>)
    requires Whole(crc, buf) && |payload| == |Payload(r)| && crc(payload) != crc(Payload(r))
    ensures var altered := Frame(crc, r)[..8] + payload + rest;
            && altered != []
            && ReadSegment(crc, buf + altered) == Contents(RecordsIn(crc, buf), |altered|)
  {
    hide Decode, Frame, Payload;
    FrameLength(crc, r);
    AlteredPayload(crc, r, payload, rest);
    TornReads(crc, buf, Frame(crc, r)[..8] + payload + rest);
  }

  /** A frame that bears its checksum out over something unreadable is reported at its place. */
  lemma {:induction false} UnreadableFrameIsCorrupt(crc: Checksum, buf: seq<Byte>, payload: seq<Byte>, rest: seq<Byte>)
    requires Whole(crc, buf) && 0 < |payload| <= 1_048_576 && forall r :: !(Payload(r) <= payload)
    ensures ReadSegment(crc, buf + (Framed(crc, payload) + rest)) == Corrupt(|buf|)
    decreases |buf|
  {
    hide Decode, Framed, Payload;
    var tail := Framed(crc, payload) + rest;
    if buf == [] {
      UnreadablePayload(crc, payload, rest);
      FramedHeader(crc, payload, rest);
      assert buf + tail == tail;
    } else {
      var end := Decode(crc, buf).consumed;
      DecodeIsLocal(crc, buf, tail);
      assert (buf + tail)[end..] == buf[end..] + tail;
      UnreadableFrameIsCorrupt(crc, buf[end..], payload, rest);
    }
  }

  /** The whole segment is its records. */
  lemma {:induction false} WholeEnds(crc: Checksum, buf: seq<Byte>)
    requires Whole(crc, buf)
    ensures EndOf(crc, buf, |RecordsIn(crc, buf)|) == |buf|
    decreases |buf|
  {
    hide Decode, ReadSegment, EndOf;
    if |RecordsIn(crc, buf)| > 0 {
      EndStep(crc, buf, |RecordsIn(crc, buf)|);
      WholeEnds(crc, buf[Decode(crc, buf).consumed..]);
    } else {
      NoRecords(crc, buf);
      EndZero(crc, buf);
    }
  }

  lemma NoRecords(crc: Checksum, buf: seq<Byte>)
    requires Whole(crc, buf) && RecordsIn(crc, buf) == []
    ensures buf == []
  {}

  /** The loop that reads a segment. */
  method ReadSegmentFile(crc: Checksum, buf: seq<Byte>) returns (contents: Contents)
    ensures contents == ReadSegment(crc, buf)
  {
    hide Decode;
    var records: seq<LogRecord> := [];
    var at := 0;
    assert buf[0..] == buf;
    while at < |buf|
      invariant at <= |buf|
      invariant ReadSegment(crc, buf) ==
                var rest := ReadSegment(crc, buf[at..]);
                if rest.Corrupt? then Corrupt(at + rest.at) else Contents(records + rest.records, rest.trailing)
    {
      match Decode(crc, buf[at..]) {
        case Record(r, consumed) =>
          assert buf[at..][consumed..] == buf[at + consumed..];
          Prepended(records, r, ReadSegment(crc, buf[at + consumed..]));
          records := records + [r];
          at := at + consumed;
        case Incomplete => break;
        case Malformed => return Corrupt(at);
      }
    }
    contents := Contents(records, |buf| - at);
  }

  lemma Prepended(records: seq<LogRecord>, r: LogRecord, rest: Contents)
    ensures rest.Contents? ==> records + ([r] + rest.records) == (records + [r]) + rest.records
  {}
}
