/** How a log record becomes bytes and comes back: little-endian fields in a frame of length,
    checksum and payload. The checksum is any function of the payload. */
module Framing {
  import opened Auction
  import opened Bounded

  type Byte = x: int | 0 <= x < 256
  type U32 = x: int | 0 <= x <= 0xFFFF_FFFF
  type Checksum = seq<Byte> -> U32

  // ---------------------------------------------------------------- integers

  function Power(k: nat): (p: nat)
    ensures p > 0
  {
    if k == 0 then 1 else 256 * Power(k - 1)
  }

  lemma Powers()
    ensures Power(4) == 0x1_0000_0000
    ensures Power(8) == 0x1_0000_0000_0000_0000
    ensures Power(16) == 0x1_0000_0000_0000_0000_0000_0000_0000_0000
  {
    assert Power(2) == 0x1_0000 && Power(3) == 0x100_0000;
    assert Power(5) == 0x100_0000_0000 && Power(6) == 0x1_0000_0000_0000 && Power(7) == 0x100_0000_0000_0000;
    assert Power(9) == 0x100_0000_0000_0000_0000 && Power(10) == 0x1_0000_0000_0000_0000_0000;
    assert Power(11) == 0x100_0000_0000_0000_0000_0000 && Power(12) == 0x1_0000_0000_0000_0000_0000_0000;
    assert Power(13) == 0x100_0000_0000_0000_0000_0000_0000;
    assert Power(14) == 0x1_0000_0000_0000_0000_0000_0000_0000;
    assert Power(15) == 0x100_0000_0000_0000_0000_0000_0000_0000;
  }

  /** The low `k` bytes of `n`, least significant first. */
  function Little(n: nat, k: nat): (bs: seq<Byte>)
    ensures |bs| == k
  {
    if k == 0 then [] else [n % 256] + Little(n / 256, k - 1)
  }

  function Value(bs: seq<Byte>): (n: nat)
    ensures n < Power(|bs|)
  {
    if bs == [] then 0 else bs[0] + 256 * Value(bs[1..])
  }

  lemma {:induction false} LittleValue(n: nat, k: nat)
    requires n < Power(k)
    ensures Value(Little(n, k)) == n
  {
    if k > 0 {
      LittleValue(n / 256, k - 1);
      assert Little(n, k)[1..] == Little(n / 256, k - 1);
    }
  }

  /** Two's complement. */
  function Bits(x: I64): U64 {
    if x >= 0 then x else x + 0x1_0000_0000_0000_0000
  }

  function Signed(n: U64): I64 {
    if n <= I64_MAX then n else n - 0x1_0000_0000_0000_0000
  }

  // ---------------------------------------------------------------- records

  datatype Parsed<T> = Parsed(value: T, rest: seq<Byte>) | Unreadable

  function ReadInt(bs: seq<Byte>, k: nat): (r: Parsed<nat>)
    ensures r.Parsed? ==> r.value < Power(k)
  {
    if |bs| < k then Unreadable else Parsed(Value(bs[..k]), bs[k..])
  }

  function PutInt(n: nat, k: nat, tail: seq<Byte>): seq<Byte> {
    Little(n, k) + tail
  }

  lemma IntRoundTrip(n: nat, k: nat, tail: seq<Byte>)
    requires n < Power(k)
    ensures ReadInt(PutInt(n, k, tail), k) == Parsed(n, tail)
  {
    LittleValue(n, k);
    assert PutInt(n, k, tail)[..k] == Little(n, k) && PutInt(n, k, tail)[k..] == tail;
  }

  function PutKind(kind: BidKind, tail: seq<Byte>): seq<Byte> {
    match kind
    case Take(expected) => PutInt(0, 4, PutInt(Bits(expected), 8, tail))
    case Resting(limit) => PutInt(1, 4, PutInt(Bits(limit), 8, tail))
  }

  function PutCommand(cmd: Command, tail: seq<Byte>): seq<Byte> {
    match cmd
    case Open => PutInt(0, 4, tail)
    case SetCollateral(p, ceiling) => PutInt(1, 4, PutInt(p, 16, PutInt(Bits(ceiling), 8, tail)))
    case SubmitBid(p, key, qty, kind) =>
      PutInt(2, 4, PutInt(p, 16, PutInt(key, 16, PutInt(qty, 8, PutKind(kind, tail)))))
    case CancelResting(p, key) => PutInt(3, 4, PutInt(p, 16, PutInt(key, 16, tail)))
    case Tick => PutInt(4, 4, tail)
    case Cancel => PutInt(5, 4, tail)
  }

  function Payload(r: LogRecord): seq<Byte> {
    PutInt(r.seqno, 8, PutInt(r.ts, 8, PutCommand(r.cmd, [])))
  }

  function ReadU64(bs: seq<Byte>): Parsed<U64> {
    Powers();
    var r := ReadInt(bs, 8);
    if r.Unreadable? then Unreadable else Parsed(r.value, r.rest)
  }

  function ReadI64(bs: seq<Byte>): Parsed<I64> {
    var r := ReadU64(bs);
    if r.Unreadable? then Unreadable else Parsed(Signed(r.value), r.rest)
  }

  function ReadU128(bs: seq<Byte>): Parsed<U128> {
    Powers();
    var r := ReadInt(bs, 16);
    if r.Unreadable? then Unreadable else Parsed(r.value, r.rest)
  }

  function ReadKind(bs: seq<Byte>): Parsed<BidKind> {
    var tag := ReadInt(bs, 4);
    if tag.Unreadable? || tag.value > 1 then Unreadable
    else
      var price := ReadI64(tag.rest);
      if price.Unreadable? then Unreadable
      else Parsed(if tag.value == 0 then Take(price.value) else BidKind.Resting(price.value), price.rest)
  }

  function ReadSetCollateral(bs: seq<Byte>): Parsed<Command> {
    var p := ReadU128(bs);
    if p.Unreadable? then Unreadable
    else
      var ceiling := ReadI64(p.rest);
      if ceiling.Unreadable? then Unreadable else Parsed(SetCollateral(p.value, ceiling.value), ceiling.rest)
  }

  function ReadSubmitBid(bs: seq<Byte>): Parsed<Command> {
    var p := ReadU128(bs);
    if p.Unreadable? then Unreadable
    else
      var key := ReadU128(p.rest);
      if key.Unreadable? then Unreadable
      else
        var qty := ReadU64(key.rest);
        if qty.Unreadable? then Unreadable
        else
          var kind := ReadKind(qty.rest);
          if kind.Unreadable? then Unreadable
          else Parsed(SubmitBid(p.value, key.value, qty.value, kind.value), kind.rest)
  }

  function ReadCancelResting(bs: seq<Byte>): Parsed<Command> {
    var p := ReadU128(bs);
    if p.Unreadable? then Unreadable
    else
      var key := ReadU128(p.rest);
      if key.Unreadable? then Unreadable else Parsed(CancelResting(p.value, key.value), key.rest)
  }

  function ReadCommand(bs: seq<Byte>): Parsed<Command> {
    var tag := ReadInt(bs, 4);
    if tag.Unreadable? then Unreadable
    else if tag.value == 0 then Parsed(Open, tag.rest)
    else if tag.value == 1 then ReadSetCollateral(tag.rest)
    else if tag.value == 2 then ReadSubmitBid(tag.rest)
    else if tag.value == 3 then ReadCancelResting(tag.rest)
    else if tag.value == 4 then Parsed(Tick, tag.rest)
    else if tag.value == 5 then Parsed(Cancel, tag.rest)
    else Unreadable
  }

  /** Bytes after a complete record are tolerated. */
  function ReadRecord(bs: seq<Byte>): Option<LogRecord> {
    var seqno := ReadU64(bs);
    if seqno.Unreadable? then None
    else
      var ts := ReadU64(seqno.rest);
      if ts.Unreadable? then None
      else
        var cmd := ReadCommand(ts.rest);
        if cmd.Unreadable? then None else Some(LogRecord(seqno.value, ts.value, cmd.value))
  }

  lemma U64RoundTrip(n: U64, tail: seq<Byte>)
    ensures ReadU64(PutInt(n, 8, tail)) == Parsed(n, tail)
  {
    Powers();
    IntRoundTrip(n, 8, tail);
  }

  lemma I64RoundTrip(x: I64, tail: seq<Byte>)
    ensures ReadI64(PutInt(Bits(x), 8, tail)) == Parsed(x, tail)
  {
    U64RoundTrip(Bits(x), tail);
  }

  lemma U128RoundTrip(n: U128, tail: seq<Byte>)
    ensures ReadU128(PutInt(n, 16, tail)) == Parsed(n, tail)
  {
    Powers();
    IntRoundTrip(n, 16, tail);
  }

  lemma KindRoundTrip(kind: BidKind, tail: seq<Byte>)
    ensures ReadKind(PutKind(kind, tail)) == Parsed(kind, tail)
  {
    hide PutInt, ReadInt, ReadI64;
    Powers();
    match kind
    case Take(expected) =>
      IntRoundTrip(0, 4, PutInt(Bits(expected), 8, tail));
      I64RoundTrip(expected, tail);
    case Resting(limit) =>
      IntRoundTrip(1, 4, PutInt(Bits(limit), 8, tail));
      I64RoundTrip(limit, tail);
  }

  lemma BidRoundTrip(p: Participant, key: Key, qty: U64, kind: BidKind, tail: seq<Byte>)
    ensures ReadSubmitBid(PutInt(p, 16, PutInt(key, 16, PutInt(qty, 8, PutKind(kind, tail)))))
         == Parsed(SubmitBid(p, key, qty, kind), tail)
  {
    hide PutInt, PutKind, ReadInt, ReadKind, ReadU64, ReadU128;
    U128RoundTrip(p, PutInt(key, 16, PutInt(qty, 8, PutKind(kind, tail))));
    U128RoundTrip(key, PutInt(qty, 8, PutKind(kind, tail)));
    U64RoundTrip(qty, PutKind(kind, tail));
    KindRoundTrip(kind, tail);
  }

  lemma CommandRoundTrip(cmd: Command, tail: seq<Byte>)
    ensures ReadCommand(PutCommand(cmd, tail)) == Parsed(cmd, tail)
  {
    hide PutInt, PutKind, ReadInt, ReadI64, ReadU64, ReadU128, ReadSubmitBid;
    Powers();
    match cmd
    case Open => IntRoundTrip(0, 4, tail);
    case SetCollateral(p, ceiling) =>
      IntRoundTrip(1, 4, PutInt(p, 16, PutInt(Bits(ceiling), 8, tail)));
      U128RoundTrip(p, PutInt(Bits(ceiling), 8, tail));
      I64RoundTrip(ceiling, tail);
    case SubmitBid(p, key, qty, kind) =>
      IntRoundTrip(2, 4, PutInt(p, 16, PutInt(key, 16, PutInt(qty, 8, PutKind(kind, tail)))));
      BidRoundTrip(p, key, qty, kind, tail);
    case CancelResting(p, key) =>
      IntRoundTrip(3, 4, PutInt(p, 16, PutInt(key, 16, tail)));
      U128RoundTrip(p, PutInt(key, 16, tail));
      U128RoundTrip(key, tail);
    case Tick => IntRoundTrip(4, 4, tail);
    case Cancel => IntRoundTrip(5, 4, tail);
  }

  /** The payload codec loses nothing. */
  lemma RecordRoundTrip(r: LogRecord)
    ensures ReadRecord(Payload(r)) == Some(r)
  {
    hide PutInt, PutCommand, ReadU64, ReadCommand;
    U64RoundTrip(r.seqno, PutInt(r.ts, 8, PutCommand(r.cmd, [])));
    U64RoundTrip(r.ts, PutCommand(r.cmd, []));
    CommandRoundTrip(r.cmd, []);
  }

  // ---------------------------------------------------------------- nothing else reads as a record

  lemma {:induction false} ValueLittle(bs: seq<Byte>)
    ensures Little(Value(bs), |bs|) == bs
  {
    if bs != [] {
      ValueLittle(bs[1..]);
      assert Value(bs) % 256 == bs[0] && Value(bs) / 256 == Value(bs[1..]);
    }
  }

  /** What an integer was read from is what it prints as. */
  lemma IntReadBack(bs: seq<Byte>, k: nat)
    ensures var r := ReadInt(bs, k);
            r.Parsed? ==> bs == PutInt(r.value, k, r.rest)
  {
    if k <= |bs| {
      ValueLittle(bs[..k]);
    }
  }

  lemma U64ReadBack(bs: seq<Byte>)
    ensures var r := ReadU64(bs);
            r.Parsed? ==> bs == PutInt(r.value, 8, r.rest)
  {
    IntReadBack(bs, 8);
  }

  lemma I64ReadBack(bs: seq<Byte>)
    ensures var r := ReadI64(bs);
            r.Parsed? ==> bs == PutInt(Bits(r.value), 8, r.rest)
  {
    U64ReadBack(bs);
  }

  lemma U128ReadBack(bs: seq<Byte>)
    ensures var r := ReadU128(bs);
            r.Parsed? ==> bs == PutInt(r.value, 16, r.rest)
  {
    IntReadBack(bs, 16);
  }

  lemma KindReadBack(bs: seq<Byte>)
    ensures var r := ReadKind(bs);
            r.Parsed? ==> bs == PutKind(r.value, r.rest)
  {
    hide PutInt, ReadInt, ReadI64;
    IntReadBack(bs, 4);
    if ReadInt(bs, 4).Parsed? {
      I64ReadBack(ReadInt(bs, 4).rest);
    }
  }

  lemma SetCollateralReadBack(bs: seq<Byte>)
    ensures var r := ReadSetCollateral(bs);
            r.Parsed? ==> PutInt(1, 4, bs) == PutCommand(r.value, r.rest)
  {
    hide PutInt, ReadU128, ReadI64;
    U128ReadBack(bs);
    if ReadU128(bs).Parsed? {
      I64ReadBack(ReadU128(bs).rest);
    }
  }

  lemma SubmitBidReadBack(bs: seq<Byte>)
    ensures var r := ReadSubmitBid(bs);
            r.Parsed? ==> PutInt(2, 4, bs) == PutCommand(r.value, r.rest)
  {
    hide PutInt, PutKind, ReadU128, ReadU64, ReadKind;
    U128ReadBack(bs);
    if ReadU128(bs).Parsed? {
      var after := ReadU128(bs).rest;
      U128ReadBack(after);
      if ReadU128(after).Parsed? {
        U64ReadBack(ReadU128(after).rest);
        if ReadU64(ReadU128(after).rest).Parsed? {
          KindReadBack(ReadU64(ReadU128(after).rest).rest);
        }
      }
    }
  }

  lemma CancelRestingReadBack(bs: seq<Byte>)
    ensures var r := ReadCancelResting(bs);
            r.Parsed? ==> PutInt(3, 4, bs) == PutCommand(r.value, r.rest)
  {
    hide PutInt, ReadU128;
    U128ReadBack(bs);
    if ReadU128(bs).Parsed? {
      U128ReadBack(ReadU128(bs).rest);
    }
  }

  lemma CommandReadBack(bs: seq<Byte>)
    ensures var r := ReadCommand(bs);
            r.Parsed? ==> bs == PutCommand(r.value, r.rest)
  {
    hide PutInt, ReadInt, ReadSetCollateral, ReadSubmitBid, ReadCancelResting;
    IntReadBack(bs, 4);
    if ReadInt(bs, 4).Parsed? {
      SetCollateralReadBack(ReadInt(bs, 4).rest);
      SubmitBidReadBack(ReadInt(bs, 4).rest);
      CancelRestingReadBack(ReadInt(bs, 4).rest);
    }
  }

  /** A record's payload with more bytes behind it. */
  function PutRecord(r: LogRecord, tail: seq<Byte>): seq<Byte> {
    PutInt(r.seqno, 8, PutInt(r.ts, 8, PutCommand(r.cmd, tail)))
  }

  lemma PutIntTail(n: nat, k: nat, mid: seq<Byte>, tail: seq<Byte>)
    ensures PutInt(n, k, mid + tail) == PutInt(n, k, mid) + tail
  {}

  lemma PutKindTail(kind: BidKind, mid: seq<Byte>, tail: seq<Byte>)
    ensures PutKind(kind, mid + tail) == PutKind(kind, mid) + tail
  {
    var price := match kind case Take(expected) => expected case Resting(limit) => limit;
    var tag := if kind.Take? then 0 else 1;
    PutIntTail(Bits(price), 8, mid, tail);
    PutIntTail(tag, 4, PutInt(Bits(price), 8, mid), tail);
    hide PutInt;
  }

  lemma PutCommandTail(cmd: Command, mid: seq<Byte>, tail: seq<Byte>)
    ensures PutCommand(cmd, mid + tail) == PutCommand(cmd, mid) + tail
  {
    hide PutInt, PutKind;
    match cmd
    case Open => PutIntTail(0, 4, mid, tail);
    case SetCollateral(p, ceiling) =>
      PutIntTail(Bits(ceiling), 8, mid, tail);
      PutIntTail(p, 16, PutInt(Bits(ceiling), 8, mid), tail);
      PutIntTail(1, 4, PutInt(p, 16, PutInt(Bits(ceiling), 8, mid)), tail);
    case SubmitBid(p, key, qty, kind) =>
      PutKindTail(kind, mid, tail);
      PutIntTail(qty, 8, PutKind(kind, mid), tail);
      PutIntTail(key, 16, PutInt(qty, 8, PutKind(kind, mid)), tail);
      PutIntTail(p, 16, PutInt(key, 16, PutInt(qty, 8, PutKind(kind, mid))), tail);
      PutIntTail(2, 4, PutInt(p, 16, PutInt(key, 16, PutInt(qty, 8, PutKind(kind, mid)))), tail);
    case CancelResting(p, key) =>
      PutIntTail(key, 16, mid, tail);
      PutIntTail(p, 16, PutInt(key, 16, mid), tail);
      PutIntTail(3, 4, PutInt(p, 16, PutInt(key, 16, mid)), tail);
    case Tick => PutIntTail(4, 4, mid, tail);
    case Cancel => PutIntTail(5, 4, mid, tail);
  }

  lemma PutRecordIs(r: LogRecord, tail: seq<Byte>)
    ensures PutRecord(r, tail) == Payload(r) + tail
  {
    hide PutInt, PutCommand;
    PutCommandTail(r.cmd, [], tail);
    assert [] + tail == tail;
    PutIntTail(r.ts, 8, PutCommand(r.cmd, []), tail);
    PutIntTail(r.seqno, 8, PutInt(r.ts, 8, PutCommand(r.cmd, [])), tail);
  }

  /** Bytes read as a record exactly when they begin with that record's payload. */
  lemma RecordReadsExactly(bs: seq<Byte>, r: LogRecord)
    ensures ReadRecord(bs) == Some(r) <==> Payload(r) <= bs
  {
    hide PutInt, PutCommand, ReadU64, ReadCommand, Payload;
    U64ReadBack(bs);
    if ReadRecord(bs) == Some(r) {
      U64ReadBack(ReadU64(bs).rest);
      CommandReadBack(ReadU64(ReadU64(bs).rest).rest);
      PutRecordIs(r, ReadCommand(ReadU64(ReadU64(bs).rest).rest).rest);
    }
    if Payload(r) <= bs {
      var tail := bs[|Payload(r)|..];
      assert bs == Payload(r) + tail;
      PutRecordIs(r, tail);
      U64RoundTrip(r.seqno, PutInt(r.ts, 8, PutCommand(r.cmd, tail)));
      U64RoundTrip(r.ts, PutCommand(r.cmd, tail));
      CommandRoundTrip(r.cmd, tail);
    }
  }

  lemma PayloadLength(r: LogRecord)
    ensures 20 <= |Payload(r)| <= 80
  {
    hide Little;
  }

  // ---------------------------------------------------------------- frames

  const HEADER_LEN: nat := 8
  const MAX_RECORD_LEN: nat := 0x10_0000

  function Frame(crc: Checksum, r: LogRecord): seq<Byte> {
    Little(|Payload(r)|, 4) + Little(crc(Payload(r)), 4) + Payload(r)
  }

  datatype Decoded =
    | Record(record: LogRecord, consumed: nat)
    | Incomplete
    | Malformed

  /** The parser of one frame: total on all byte strings, and blind to what lies behind the frame. */
  function Decode(crc: Checksum, buf: seq<Byte>): (d: Decoded)
    ensures d.Record? ==> HEADER_LEN < d.consumed <= |buf|
  {
    if |buf| < HEADER_LEN then Incomplete
    else
      var len, sum := Value(buf[..4]), Value(buf[4..8]);
      if len == 0 || len > MAX_RECORD_LEN then Incomplete
      else if |buf| < HEADER_LEN + len then Incomplete
      else
        var payload := buf[HEADER_LEN..HEADER_LEN + len];
        if crc(payload) != sum then Incomplete
        else
          var r := ReadRecord(payload);
          if r.Some? then Record(r.value, HEADER_LEN + len) else Malformed
  }

  /** What the header of a frame says, whatever follows it. */
  lemma HeaderReads(crc: Checksum, r: LogRecord, buf: seq<Byte>)
    requires |buf| >= HEADER_LEN && buf[..HEADER_LEN] == Frame(crc, r)[..HEADER_LEN]
    ensures Value(buf[..4]) == |Payload(r)| && Value(buf[4..8]) == crc(Payload(r))
  {
    Powers();
    PayloadLength(r);
    LittleValue(|Payload(r)|, 4);
    LittleValue(crc(Payload(r)), 4);
    var header := Little(|Payload(r)|, 4) + Little(crc(Payload(r)), 4);
    assert Frame(crc, r)[..HEADER_LEN] == header;
    assert buf[..4] == buf[..HEADER_LEN][..4] == header[..4] == Little(|Payload(r)|, 4);
    assert buf[4..8] == buf[..HEADER_LEN][4..] == header[4..] == Little(crc(Payload(r)), 4);
  }

  /** Decoding gives back the record that was encoded, and how long its frame was. */
  lemma FrameRoundTrip(crc: Checksum, r: LogRecord, rest: seq<Byte>)
    ensures Decode(crc, Frame(crc, r) + rest) == Record(r, |Frame(crc, r)|)
  {
    hide Payload, Little, Value, ReadRecord;
    var buf := Frame(crc, r) + rest;
    PayloadLength(r);
    RecordRoundTrip(r);
    assert buf[..HEADER_LEN] == Frame(crc, r)[..HEADER_LEN];
    HeaderReads(crc, r, buf);
    assert buf[HEADER_LEN..HEADER_LEN + |Payload(r)|] == Payload(r);
  }

  /** A frame cut anywhere short of its end is incomplete, never misread. */
  lemma TornFrame(crc: Checksum, r: LogRecord, n: nat)
    requires n < |Frame(crc, r)|
    ensures Decode(crc, Frame(crc, r)[..n]) == Incomplete
  {
    hide Payload, Little, Value, ReadRecord;
    PayloadLength(r);
    var buf := Frame(crc, r)[..n];
    if n >= HEADER_LEN {
      assert buf[..HEADER_LEN] == Frame(crc, r)[..HEADER_LEN];
      HeaderReads(crc, r, buf);
    }
  }

  // ---------------------------------------------------------------- what a frame is

  /** Four bytes from position `at`, least significant first. */
  function Word(buf: seq<Byte>, at: nat): nat
    requires at + 4 <= |buf|
  {
    (buf[at] as int) + 0x100 * (buf[at + 1] as int) + 0x1_0000 * (buf[at + 2] as int) + 0x100_0000 * (buf[at + 3] as int)
  }

  lemma WordIs(buf: seq<Byte>, at: nat)
    requires at + 4 <= |buf|
    ensures Value(buf[at..at + 4]) == Word(buf, at)
  {
    var w := buf[at..at + 4];
    assert Value(w[4..]) == 0;
    assert Value(w[3..]) == w[3] + 256 * Value(w[3..][1..]) && w[3..][1..] == w[4..];
    assert Value(w[2..]) == w[2] + 256 * Value(w[2..][1..]) && w[2..][1..] == w[3..];
    assert Value(w[1..]) == w[1] + 256 * Value(w[1..][1..]) && w[1..][1..] == w[2..];
  }

  /** A frame in bytes: the payload's length, its checksum, the payload. */
  lemma FrameInBytes(crc: Checksum, r: LogRecord)
    ensures |Frame(crc, r)| == 8 + |Payload(r)| && Frame(crc, r)[8..] == Payload(r)
    ensures Word(Frame(crc, r), 0) == |Payload(r)| && Word(Frame(crc, r), 4) == crc(Payload(r))
  {
    HeaderReads(crc, r, Frame(crc, r));
    WordIs(Frame(crc, r), 0);
    WordIs(Frame(crc, r), 4);
  }

  /** The header announces a payload of an allowed length that is there and bears its checksum out. */
  predicate Sealed(crc: Checksum, buf: seq<Byte>) {
    && |buf| >= 8 && 0 < Word(buf, 0) <= 1_048_576 && |buf| >= 8 + Word(buf, 0)
    && crc(buf[8..8 + Word(buf, 0)]) == Word(buf, 4)
  }

  /** Exactly which bytes decode, and to what: a sealed payload that begins with a record's own; sealed
      bytes that begin with no record's are malformed, and everything else is incomplete. */
  lemma DecodesExactly(crc: Checksum, buf: seq<Byte>)
    ensures !Sealed(crc, buf) <==> Decode(crc, buf) == Incomplete
    ensures forall r, n: nat :: Decode(crc, buf) == Record(r, n) <==>
              Sealed(crc, buf) && n == 8 + Word(buf, 0) && Payload(r) <= buf[8..n]
    ensures Decode(crc, buf) == Malformed <==>
              Sealed(crc, buf) && forall r :: !(Payload(r) <= buf[8..8 + Word(buf, 0)])
  {
    hide Value, ReadRecord, Payload, Word;
    if |buf| >= 8 {
      WordIs(buf, 0);
      WordIs(buf, 4);
      assert buf[..4] == buf[0..4];
      if |buf| >= 8 + Word(buf, 0) {
        var payload := buf[8..8 + Word(buf, 0)];
        forall r ensures ReadRecord(payload) == Some(r) <==> Payload(r) <= payload {
          RecordReadsExactly(payload, r);
        }
        if ReadRecord(payload).Some? {
          assert Payload(ReadRecord(payload).value) <= payload;
        }
      }
    }
  }

  /** A payload altered under its header is not read at all, whatever it has become. */
  lemma AlteredPayload(crc: Checksum, r: LogRecord, payload: seq<Byte>, rest: seq<Byte>)
    requires |payload| == |Payload(r)| && crc(payload) != crc(Payload(r))
    ensures Decode(crc, Frame(crc, r)[..8] + payload + rest) == Incomplete
  {
    hide Payload, Little, Value, ReadRecord;
    var buf := Frame(crc, r)[..8] + payload + rest;
    PayloadLength(r);
    assert buf[..8] == Frame(crc, r)[..8];
    HeaderReads(crc, r, buf);
    assert buf[8..8 + |payload|] == payload;
  }

  /** A frame around any payload, a record's or not. */
  function Framed(crc: Checksum, payload: seq<Byte>): seq<Byte> {
    Little(|payload|, 4) + Little(crc(payload), 4) + payload
  }

  lemma FramedHeader(crc: Checksum, payload: seq<Byte>, rest: seq<Byte>)
    requires 0 < |payload| <= 1_048_576
    ensures var buf := Framed(crc, payload) + rest;
            && |buf| >= 8 + |payload| && buf[8..8 + |payload|] == payload
            && Value(buf[..4]) == |payload| && Value(buf[4..8]) == crc(payload)
  {
    Powers();
    LittleValue(|payload|, 4);
    LittleValue(crc(payload), 4);
    hide Little, Value;
    var buf := Framed(crc, payload) + rest;
    assert buf[..4] == Little(|payload|, 4) && buf[4..8] == Little(crc(payload), 4);
  }

  /** A payload that bears its checksum out and is no record's is an error of its own. */
  lemma UnreadablePayload(crc: Checksum, payload: seq<Byte>, rest: seq<Byte>)
    requires 0 < |payload| <= 1_048_576 && forall r :: !(Payload(r) <= payload)
    ensures Decode(crc, Framed(crc, payload) + rest) == Malformed
  {
    hide Payload, Value, ReadRecord, Framed;
    FramedHeader(crc, payload, rest);
    if ReadRecord(payload).Some? {
      RecordReadsExactly(payload, ReadRecord(payload).value);
    }
  }

  /** `encode_into`: reserve the header, write the payload after it, then patch the header in place. */
  method EncodeInto(crc: Checksum, r: LogRecord, buffer: seq<Byte>) returns (out: seq<Byte>)
    ensures out == buffer + Frame(crc, r)
  {
    hide Payload, Little;
    var start := |buffer|;
    out := buffer + [0, 0, 0, 0, 0, 0, 0, 0];
    out := out + Payload(r);
    var len := |out| - start - HEADER_LEN;
    var sum := crc(out[start + HEADER_LEN..]);
    assert out[start + HEADER_LEN..] == Payload(r);
    out := out[..start] + Little(len, 4) + out[start + 4..];
    out := out[..start + 4] + Little(sum, 4) + out[start + HEADER_LEN..];
    assert out[..start] == buffer;
    assert out[start..] == Frame(crc, r);
    assert out == out[..start] + out[start..];
  }
}
