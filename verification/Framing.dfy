/**
 * Canonical plaintext records and strict one-message reassembly.
 *
 * A logical message of at most 16 MiB is cut into the minimum number of
 * records; the receiver accepts nothing but that exact sequence of records.
 */
module Framing {
  import opened Common
  import opened Machine

  const MAGIC: Bytes := [0x4D, 0x52]
  const VERSION: Byte := 1
  const KIND_HERMES: Byte := 1
  const FLAGS_NONE: Byte := 0
  const RESERVED_NONE: Byte := 0
  const ID_SIZE := 16
  const HEADER_SIZE := 50
  const MAX_PLAINTEXT := 65_519
  const MAX_LOGICAL := 16_777_216
  const MAX_PAYLOAD := 65_469
  const MAX_FRAGMENTS := 257

  /** The reasons for which a record or a message is refused. */
  datatype Fault =
    | WrongIdSize | MessageTooLong
    | TruncatedHeader | RecordTooLong | BadMagic | UnknownVersion | UnknownKind | UnknownFlags
    | ReservedNonzero | FragmentCountRange | LogicalTooLong | IndexNotCanonical
    | CountNotCanonical | PayloadLengthNotCanonical | RecordLengthMismatch
    | KindMismatch | ChannelMismatch | FirstFragmentMissing | MetadataMismatch
    | NotContiguous | ReceivedTooMuch | ReceivedIncomplete

  datatype Frame = Frame(channel: Bytes, message: Bytes, kind: Byte, flags: Byte,
                         index: nat, count: nat, logical: nat, payload: Bytes)

  // ---------------------------------------------------------------- lengths

  /** Where the i-th slice of a message begins: i times the payload of one full record. */
  function Offset(i: nat): (n: nat)
    ensures n >= i
  {
    65_469 * i
  }

  /** The number of records of a message: ceiling division, and one for the empty message. */
  function FragmentCount(logical: nat): (c: nat)
    ensures 1 <= c
    ensures Offset(c - 1) < logical || c == 1
    ensures logical <= Offset(c)
    ensures logical <= MAX_LOGICAL ==> c <= MAX_FRAGMENTS
  {
    Max(1, (logical + 65_468) / 65_469)
  }

  function PayloadLength(logical: nat, index: nat): (n: nat)
    requires index < FragmentCount(logical)
    ensures n <= MAX_PAYLOAD
    ensures index + 1 < FragmentCount(logical) ==> n == MAX_PAYLOAD
    ensures index + 1 == FragmentCount(logical) ==> Offset(index) + n == logical
  {
    Min(MAX_PAYLOAD, logical - Offset(index))
  }

  // ------------------------------------------------------------ big endian

  function U16(n: nat): (b: Bytes)
    requires n < 0x1_0000
    ensures |b| == 2 && U16At(b, 0) == n
  {
    [(n / 256) as Byte, (n % 256) as Byte]
  }

  function U16At(b: Bytes, i: nat): (n: nat)
    requires i + 2 <= |b|
    ensures n < 0x1_0000
  {
    b[i] as int * 256 + b[i + 1] as int
  }

  function U32(n: nat): (b: Bytes)
    requires n < 0x1_0000_0000
    ensures |b| == 4 && U32At(b, 0) == n
  {
    U16(n / 0x1_0000) + U16(n % 0x1_0000)
  }

  function U32At(b: Bytes, i: nat): (n: nat)
    requires i + 4 <= |b|
    ensures n < 0x1_0000_0000
  {
    U16At(b, i) * 0x1_0000 + U16At(b, i + 2)
  }

  lemma U16Unique(b: Bytes, i: nat)
    requires i + 2 <= |b|
    ensures U16(U16At(b, i)) == b[i..i + 2]
  {
  }

  lemma U32Unique(b: Bytes, i: nat)
    requires i + 4 <= |b|
    ensures U32(U32At(b, i)) == b[i..i + 4]
  {
    var n := U32At(b, i);
    assert n / 0x1_0000 == U16At(b, i) && n % 0x1_0000 == U16At(b, i + 2);
    U16Unique(b, i);
    U16Unique(b, i + 2);
    assert b[i..i + 4] == b[i..i + 2] + b[i + 2..i + 4];
  }

  // --------------------------------------------------------------- records

  /** The frames that have a record: canonical counts, lengths and identifiers. */
  ghost predicate Canonical(f: Frame) {
    && |f.channel| == ID_SIZE && |f.message| == ID_SIZE
    && f.kind == KIND_HERMES && f.flags == FLAGS_NONE
    && f.logical <= MAX_LOGICAL
    && f.count == FragmentCount(f.logical)
    && f.index < f.count
    && |f.payload| == PayloadLength(f.logical, f.index)
  }

  function Header(f: Frame): (h: Bytes)
    requires f.index < 0x1_0000 && f.count < 0x1_0000
    requires f.logical < 0x1_0000_0000 && |f.payload| < 0x1_0000_0000
    requires |f.channel| == ID_SIZE && |f.message| == ID_SIZE
    ensures |h| == HEADER_SIZE
  {
    MAGIC + [VERSION, f.kind, f.flags, RESERVED_NONE] + U16(f.index) + U16(f.count)
    + U32(f.logical) + U32(|f.payload|) + f.channel + f.message
  }

  function Record(f: Frame): (r: Bytes)
    requires Canonical(f)
    ensures |r| == HEADER_SIZE + |f.payload| <= MAX_PLAINTEXT
  {
    Header(f) + f.payload
  }

  function DecodeRecord(r: Bytes): (res: Result<Frame, Fault>)
  {
    if |r| < HEADER_SIZE then Err(TruncatedHeader)
    else if |r| > MAX_PLAINTEXT then Err(RecordTooLong)
    else
      var index := U16At(r, 6);
      var count := U16At(r, 8);
      var logical := U32At(r, 10);
      var length := U32At(r, 14);
      if r[0] != MAGIC[0] || r[1] != MAGIC[1] then Err(BadMagic)
      else if r[2] != VERSION then Err(UnknownVersion)
      else if r[3] != KIND_HERMES then Err(UnknownKind)
      else if r[4] != FLAGS_NONE then Err(UnknownFlags)
      else if r[5] != RESERVED_NONE then Err(ReservedNonzero)
      else if count == 0 || count > MAX_FRAGMENTS then Err(FragmentCountRange)
      else if logical > MAX_LOGICAL then Err(LogicalTooLong)
      else if index >= FragmentCount(logical) then Err(IndexNotCanonical)
      else if count != FragmentCount(logical) then Err(CountNotCanonical)
      else if length != PayloadLength(logical, index) then Err(PayloadLengthNotCanonical)
      else if |r| != HEADER_SIZE + length then Err(RecordLengthMismatch)
      else Ok(Frame(r[18..34], r[34..50], r[3], r[4], index, count, logical, r[HEADER_SIZE..]))
  }

  /** The decoder's reads of a record, matched with the fields of its frame. */
  lemma HeaderFields(f: Frame, r: Bytes)
    requires Canonical(f) && r == Record(f)
    ensures r[0] == MAGIC[0] && r[1] == MAGIC[1] && r[2] == VERSION
    ensures r[3] == f.kind && r[4] == f.flags && r[5] == RESERVED_NONE
    ensures U16At(r, 6) == f.index && U16At(r, 8) == f.count
    ensures U32At(r, 10) == f.logical && U32At(r, 14) == |f.payload|
    ensures r[18..34] == f.channel && r[34..50] == f.message && r[HEADER_SIZE..] == f.payload
  {
    var h := Header(f);
    assert r[..50] == h && r[50..] == f.payload;
    assert h[6..8] == U16(f.index) && h[8..10] == U16(f.count);
    assert h[10..14] == U32(f.logical) && h[14..18] == U32(|f.payload|);
    assert h[18..34] == f.channel && h[34..50] == f.message;
    assert forall i :: 0 <= i < 50 ==> r[i] == h[i];
    assert U16At(r, 6) == U16At(h[6..8], 0) && U16At(r, 8) == U16At(h[8..10], 0);
    assert U32At(r, 10) == U32At(h[10..14], 0) && U32At(r, 14) == U32At(h[14..18], 0);
  }

  /**
   * What stands where in a record: the letters MR, version 1, kind 1, two zeros, then, the most
   * significant byte first, the index and the count in two bytes each and the lengths of the
   * message and of the payload in four each, then channel, message identifier and payload.
   */
  lemma RecordLayout(f: Frame)
    requires Canonical(f)
    ensures var r := Record(f);
            && |r| == 50 + |f.payload| && r[..6] == [0x4D, 0x52, 1, 1, 0, 0]
            && r[6] as int * 256 + r[7] as int == f.index && r[8] as int * 256 + r[9] as int == f.count
            && r[10] as int * 0x100_0000 + r[11] as int * 0x1_0000 + r[12] as int * 256 + r[13] as int == f.logical
            && r[14] as int * 0x100_0000 + r[15] as int * 0x1_0000 + r[16] as int * 256 + r[17] as int == |f.payload|
            && r[18..34] == f.channel && r[34..50] == f.message && r[50..] == f.payload
  {
    HeaderFields(f, Record(f));
  }

  /** Decoding undoes encoding. */
  lemma DecodeOfRecord(f: Frame)
    requires Canonical(f)
    ensures DecodeRecord(Record(f)) == Ok(f)
  {
    HeaderFields(f, Record(f));
  }

  /** And encoding undoes decoding: every accepted record is the record of its frame. */
  lemma RecordOfDecode(r: Bytes)
    requires DecodeRecord(r).Ok?
    ensures Canonical(DecodeRecord(r).value)
    ensures Record(DecodeRecord(r).value) == r
  {
    var f := DecodeRecord(r).value;
    U16Unique(r, 6);
    U16Unique(r, 8);
    U32Unique(r, 10);
    U32Unique(r, 14);
    assert r[..6] == MAGIC + [VERSION, f.kind, f.flags, RESERVED_NONE];
    Cut(r);
  }

  lemma Cut(r: Bytes)
    requires |r| >= 50
    ensures r == r[..6] + r[6..8] + r[8..10] + r[10..14] + r[14..18] + r[18..34] + r[34..50] + r[50..]
  {
    assert r[..50] == r[..6] + r[6..8] + r[8..10] + r[10..14] + r[14..18] + r[18..34] + r[34..50];
    assert r == r[..50] + r[50..];
  }

  // -------------------------------------------------------------- messages

  /** The i-th slice of a payload. */
  function Slice(payload: Bytes, i: nat): (s: Bytes)
    requires i < FragmentCount(|payload|)
    ensures |s| == PayloadLength(|payload|, i)
  {
    payload[Offset(i)..Min(Offset(i + 1), |payload|)]
  }

  function FrameAt(channel: Bytes, message: Bytes, payload: Bytes, i: nat): (f: Frame)
    requires |channel| == ID_SIZE && |message| == ID_SIZE && |payload| <= MAX_LOGICAL
    requires i < FragmentCount(|payload|)
    ensures Canonical(f)
  {
    Frame(channel, message, KIND_HERMES, FLAGS_NONE, i, FragmentCount(|payload|), |payload|, Slice(payload, i))
  }

  function Records(channel: Bytes, message: Bytes, payload: Bytes): (rs: seq<Bytes>)
    requires |channel| == ID_SIZE && |message| == ID_SIZE && |payload| <= MAX_LOGICAL
    ensures |rs| == FragmentCount(|payload|)
  {
    seq(FragmentCount(|payload|), i requires 0 <= i < FragmentCount(|payload|) =>
      Record(FrameAt(channel, message, payload, i)))
  }

  function EncodeMessage(channel: Bytes, message: Bytes, payload: Bytes): (res: Result<seq<Bytes>, Fault>)
  {
    if |channel| != ID_SIZE || |message| != ID_SIZE then Err(WrongIdSize)
    else if |payload| > MAX_LOGICAL then Err(MessageTooLong)
    else Ok(Records(channel, message, payload))
  }

  // ------------------------------------------------------------ reassembly

  /** What the reassembler remembers of the message in progress. */
  datatype Partial = Partial(channel: Bytes, message: Bytes, count: nat, logical: nat,
                             next: nat, received: nat, parts: seq<Bytes>)

  type Assembly = Option<Partial>

  /** The state after accepting the metadata of a frame. */
  function Begin(a: Assembly, f: Frame): (p: Partial)
  {
    if a.Some? then a.value else Partial(f.channel, f.message, f.count, f.logical, 0, 0, [])
  }

  /** Why the frame cannot continue the assembly, if it cannot. */
  function Refusal(expected: Option<Bytes>, a: Assembly, f: Frame): (r: Option<Fault>)
  {
    var p := Begin(a, f);
    if f.kind != KIND_HERMES || f.flags != FLAGS_NONE then Some(KindMismatch)
    else if expected.Some? && f.channel != expected.value then Some(ChannelMismatch)
    else if a.None? && f.index != 0 then Some(FirstFragmentMissing)
    else if f.channel != p.channel || f.message != p.message || f.count != p.count || f.logical != p.logical then
      Some(MetadataMismatch)
    else if f.index != p.next then Some(NotContiguous)
    else if p.received + |f.payload| > p.logical then Some(ReceivedTooMuch)
    else if p.next + 1 == p.count && p.received + |f.payload| != p.logical then Some(ReceivedIncomplete)
    else None
  }

  /** The effect of one accepted or refused frame. */
  function Absorbed(expected: Option<Bytes>, a: Assembly, f: Frame): (res: (Assembly, Result<Option<Bytes>, Fault>))
  {
    var bad := Refusal(expected, a, f);
    if bad.Some? then (None, Err(bad.value))
    else
      var p := Begin(a, f);
      var parts := p.parts + [f.payload];
      if p.next + 1 != p.count then
        (Some(p.(next := p.next + 1, received := p.received + |f.payload|, parts := parts)), Ok(None))
      else (None, Ok(Some(Join(parts))))
  }

  /** One push: the next state and either a fault, nothing yet, or the message. */
  function Pushed(expected: Option<Bytes>, a: Assembly, r: Bytes): (res: (Assembly, Result<Option<Bytes>, Fault>))
  {
    match DecodeRecord(r)
    case Err(e) => (None, Err(e))
    case Ok(f) => Absorbed(expected, a, f)
  }

  /** The states that pushes can reach, with the records pushed since the assembly was idle. */
  ghost predicate Consistent(a: Assembly, since: seq<Bytes>) {
    match a
    case None => since == []
    case Some(p) => 0 < p.next && Collected(p, since)
  }

  /** The parts collected so far agree with the records they came from; none yet is allowed. */
  ghost predicate Collected(p: Partial, since: seq<Bytes>) {
    && |p.channel| == ID_SIZE && |p.message| == ID_SIZE && p.logical <= MAX_LOGICAL
    && p.count == FragmentCount(p.logical)
    && p.next < p.count
    && |p.parts| == |since| == p.next
    && p.received == Offset(p.next) == |Join(p.parts)|
    && (forall i {:trigger since[i]} {:trigger p.parts[i]} :: 0 <= i < p.next ==>
          && |p.parts[i]| == MAX_PAYLOAD
          && since[i] == Record(PartialFrame(p, i)))
  }

  /** The frame from which part i of an assembly came. */
  ghost function PartialFrame(p: Partial, i: nat): (f: Frame)
    requires |p.channel| == ID_SIZE && |p.message| == ID_SIZE && p.logical <= MAX_LOGICAL
    requires p.count == FragmentCount(p.logical)
    requires i < |p.parts| && i + 1 < p.count && |p.parts[i]| == MAX_PAYLOAD
    ensures Canonical(f)
  {
    Frame(p.channel, p.message, KIND_HERMES, FLAGS_NONE, i, p.count, p.logical, p.parts[i])
  }

  /** The records remembered after a push of r that leads to the assembly a. */
  ghost function Since(a: Assembly, since: seq<Bytes>, r: Bytes): seq<Bytes> {
    if a.None? then [] else since + [r]
  }

  lemma JoinSnoc(parts: seq<Bytes>, last: Bytes)
    ensures Join(parts + [last]) == Join(parts) + last
  {
    assert (parts + [last])[..|parts|] == parts;
  }

  /** The parts of equal size sit at multiples of that size in their concatenation. */
  lemma {:induction false} JoinSlices(parts: seq<Bytes>, payload: Bytes)
    requires forall i :: 0 <= i < |parts| ==> |parts[i]| == MAX_PAYLOAD
    requires Offset(|parts|) <= |payload| && Join(parts) == payload[..Offset(|parts|)]
    ensures forall i :: 0 <= i < |parts| ==> parts[i] == payload[Offset(i)..Offset(i + 1)]
  {
    if parts != [] {
      var n := |parts| - 1;
      var init := parts[..n];
      assert Join(parts) == Join(init) + parts[n];
      JoinLength(init);
      assert Join(init) == payload[..Offset(n)];
      assert parts[n] == payload[Offset(n)..Offset(n + 1)];
      JoinSlices(init, payload);
      forall i | 0 <= i < |parts|
        ensures parts[i] == payload[Offset(i)..Offset(i + 1)]
      {
        if i < n {
          assert parts[i] == init[i];
        }
      }
    }
  }

  lemma {:induction false} JoinLength(parts: seq<Bytes>)
    requires forall i :: 0 <= i < |parts| ==> |parts[i]| == MAX_PAYLOAD
    ensures |Join(parts)| == Offset(|parts|)
  {
    if parts != [] {
      JoinLength(parts[..|parts| - 1]);
    }
  }

  /** No reachable state refuses a record for its received length. */
  lemma ReceivedLengthRefusalsUnreachable(expected: Option<Bytes>, a: Assembly, since: seq<Bytes>, r: Bytes)
    requires Consistent(a, since)
    ensures Pushed(expected, a, r).1 != Err(ReceivedTooMuch)
    ensures Pushed(expected, a, r).1 != Err(ReceivedIncomplete)
    ensures Pushed(expected, a, r).1 != Err(KindMismatch)
  {
    DecodeFaults(r);
    if DecodeRecord(r).Ok? {
      RecordOfDecode(r);
      FrameFaults(expected, a, since, DecodeRecord(r).value);
    }
  }

  lemma DecodeFaults(r: Bytes)
    ensures DecodeRecord(r).Err? ==>
              DecodeRecord(r).error != ReceivedTooMuch && DecodeRecord(r).error != ReceivedIncomplete
                  && DecodeRecord(r).error != KindMismatch
  {
  }

  lemma FrameFaults(expected: Option<Bytes>, a: Assembly, since: seq<Bytes>, f: Frame)
    requires Consistent(a, since) && Canonical(f)
    ensures var r := Refusal(expected, a, f); r != Some(ReceivedTooMuch) && r != Some(ReceivedIncomplete) && r != Some(KindMismatch)
  {
    var p := Begin(a, f);
    if f.index == p.next && f.logical == p.logical && f.count == p.count {
      assert p.received == Offset(p.next);
    }
  }

  /** Every push keeps the invariant. */
  lemma PushKeepsConsistent(expected: Option<Bytes>, a: Assembly, since: seq<Bytes>, r: Bytes)
    requires Consistent(a, since)
    ensures Consistent(Pushed(expected, a, r).0, Since(Pushed(expected, a, r).0, since, r))
  {
    if DecodeRecord(r).Ok? {
      RecordOfDecode(r);
      AbsorbKeepsConsistent(expected, a, since, r, DecodeRecord(r).value);
    }
  }

  lemma AbsorbKeepsConsistent(expected: Option<Bytes>, a: Assembly, since: seq<Bytes>, r: Bytes, f: Frame)
    requires Consistent(a, since) && Canonical(f) && r == Record(f)
    ensures var a' := Absorbed(expected, a, f).0; Consistent(a', Since(a', since, r))
  {
    var a' := Absorbed(expected, a, f).0;
    if a'.Some? {
      BegunIsConsistent(a, since, f);
      AbsorbedShape(expected, a, f);
      OneMorePart(Begin(a, f), since, f);
    }
  }

  lemma BegunIsConsistent(a: Assembly, since: seq<Bytes>, f: Frame)
    requires Consistent(a, since) && Canonical(f)
    ensures Collected(Begin(a, f), since)
  {
  }

  /** The frame is the next one of the assembly. */
  predicate Continues(p: Partial, f: Frame) {
    && f.kind == KIND_HERMES && f.flags == FLAGS_NONE && f.channel == p.channel && f.message == p.message
    && f.count == p.count && f.logical == p.logical && f.index == p.next
  }

  function Extended(p: Partial, f: Frame): Partial {
    p.(next := p.next + 1, received := p.received + |f.payload|, parts := p.parts + [f.payload])
  }

  lemma AbsorbedShape(expected: Option<Bytes>, a: Assembly, f: Frame)
    requires Absorbed(expected, a, f).0.Some?
    ensures Continues(Begin(a, f), f) && Begin(a, f).next + 1 != Begin(a, f).count
    ensures Absorbed(expected, a, f).0 == Some(Extended(Begin(a, f), f))
  {
  }

  lemma OneMorePart(p: Partial, since: seq<Bytes>, f: Frame)
    requires Collected(p, since) && Canonical(f) && p.next + 1 < p.count && Continues(p, f)
    ensures Collected(Extended(p, f), since + [Record(f)])
  {
    var q, r := Extended(p, f), Record(f);
    JoinSnoc(p.parts, f.payload);
    assert |f.payload| == MAX_PAYLOAD;
    forall i | 0 <= i < p.next
      ensures |q.parts[i]| == MAX_PAYLOAD && (since + [r])[i] == Record(PartialFrame(q, i))
    {
      assert q.parts[i] == p.parts[i] && (since + [r])[i] == since[i];
      SameFrame(p, q, i);
    }
    assert PartialFrame(q, p.next) == f;
  }

  lemma SameFrame(p: Partial, q: Partial, i: nat)
    requires |p.channel| == ID_SIZE && |p.message| == ID_SIZE && p.logical <= MAX_LOGICAL && p.count == FragmentCount(p.logical)
    requires q.channel == p.channel && q.message == p.message && q.logical == p.logical && q.count == p.count
    requires i < |p.parts| && i < |q.parts| && q.parts[i] == p.parts[i] && i + 1 < p.count && |p.parts[i]| == MAX_PAYLOAD
    ensures PartialFrame(q, i) == PartialFrame(p, i)
  {
  }

  /** What a delivering push says about its record and the assembly before it. */
  lemma DeliveryShape(expected: Option<Bytes>, a: Assembly, since: seq<Bytes>, r: Bytes) returns (p: Partial, m: Bytes)
    requires Consistent(a, since)
    requires Pushed(expected, a, r).1.Ok? && Pushed(expected, a, r).1.value.Some?
    ensures p == Begin(a, DecodeRecord(r).value)
    ensures m == Pushed(expected, a, r).1.value.value == Join(p.parts) + DecodeRecord(r).value.payload
    ensures Canonical(DecodeRecord(r).value) && r == Record(DecodeRecord(r).value)
    ensures var f := DecodeRecord(r).value;
            && f.channel == p.channel && f.message == p.message && f.count == p.count && f.logical == p.logical
            && f.index == p.next == |p.parts| == |since| == p.count - 1
    ensures |Join(p.parts)| == Offset(p.next) && |m| == p.logical
    ensures forall i {:trigger p.parts[i]} :: 0 <= i < p.next ==>
              |p.parts[i]| == MAX_PAYLOAD && since[i] == Record(PartialFrame(p, i))
  {
    RecordOfDecode(r);
    var f := DecodeRecord(r).value;
    p := Begin(a, f);
    m := Join(p.parts + [f.payload]);
    JoinSnoc(p.parts, f.payload);
  }

  /**
   * Soundness of reassembly: when a push delivers a message, the records since the
   * assembly was idle are exactly the canonical encoding of that message.
   */
  lemma DeliveredIsEncoded(expected: Option<Bytes>, a: Assembly, since: seq<Bytes>, r: Bytes)
    requires Consistent(a, since)
    requires Pushed(expected, a, r).1.Ok? && Pushed(expected, a, r).1.value.Some?
    ensures var f := DecodeRecord(r).value;
            EncodeMessage(f.channel, f.message, Pushed(expected, a, r).1.value.value) == Ok(since + [r])
    ensures expected.Some? ==> DecodeRecord(r).value.channel == expected.value
  {
    var p, m := DeliveryShape(expected, a, since, r);
    var f := DecodeRecord(r).value;
    JoinSlices(p.parts, m);
    var all := since + [r];
    var rs := Records(f.channel, f.message, m);
    assert |all| == |rs|;
    forall i | 0 <= i < |rs|
      ensures all[i] == rs[i]
    {
      if i < p.next {
        SlicedFrame(p, m, i);
        assert all[i] == since[i] == Record(PartialFrame(p, i));
      } else {
        assert f.payload == m[Offset(i)..];
        assert FrameAt(f.channel, f.message, m, i) == f;
      }
    }
    assert all == rs;
  }

  lemma SlicedFrame(p: Partial, m: Bytes, i: nat)
    requires |p.channel| == ID_SIZE && |p.message| == ID_SIZE && p.logical <= MAX_LOGICAL
    requires p.count == FragmentCount(p.logical) && |m| == p.logical
    requires i < |p.parts| && i + 1 < p.count && |p.parts[i]| == MAX_PAYLOAD
    requires Offset(i + 1) <= |m| && p.parts[i] == m[Offset(i)..Offset(i + 1)]
    ensures PartialFrame(p, i) == FrameAt(p.channel, p.message, m, i)
  {
  }

  /** The first n slices of a payload. */
  function Slices(payload: Bytes, n: nat): (parts: seq<Bytes>)
    requires n <= FragmentCount(|payload|)
    ensures |parts| == n && forall i :: 0 <= i < n ==> parts[i] == Slice(payload, i)
  {
    seq(n, i requires 0 <= i < n => Slice(payload, i))
  }

  lemma {:induction false} JoinOfSlices(payload: Bytes, n: nat)
    requires n <= FragmentCount(|payload|)
    ensures Join(Slices(payload, n)) == payload[..Min(Offset(n), |payload|)]
  {
    if n > 0 {
      JoinOfSlices(payload, n - 1);
      assert Slices(payload, n)[..n - 1] == Slices(payload, n - 1);
    }
  }

  /** The assembly after the first n records of a message. */
  function Prefix(channel: Bytes, message: Bytes, payload: Bytes, n: nat): (a: Assembly)
    requires n < FragmentCount(|payload|)
  {
    if n == 0 then None
    else Some(Partial(channel, message, FragmentCount(|payload|), |payload|, n, Offset(n), Slices(payload, n)))
  }

  /** A frame that fits the assembly is appended to it, and completes it when it is the last. */
  lemma Absorbs(expected: Option<Bytes>, a: Assembly, f: Frame, p: Partial)
    requires p == Begin(a, f) && f.kind == KIND_HERMES && f.flags == FLAGS_NONE
    requires expected.None? || expected.value == f.channel
    requires f.channel == p.channel && f.message == p.message && f.count == p.count && f.logical == p.logical
    requires f.index == p.next && p.received + |f.payload| <= p.logical
    requires p.next + 1 == p.count ==> p.received + |f.payload| == p.logical
    ensures p.next + 1 != p.count ==>
              Absorbed(expected, a, f)
              == (Some(p.(next := p.next + 1, received := p.received + |f.payload|, parts := p.parts + [f.payload])), Ok(None))
    ensures p.next + 1 == p.count ==> Absorbed(expected, a, f) == (None, Ok(Some(Join(p.parts + [f.payload]))))
  {
  }

  lemma SliceBounds(payload: Bytes, i: nat)
    requires i < FragmentCount(|payload|)
    ensures i + 1 < FragmentCount(|payload|) ==> |Slice(payload, i)| == MAX_PAYLOAD && Offset(i + 1) <= |payload|
    ensures i + 1 == FragmentCount(|payload|) ==> Offset(i) + |Slice(payload, i)| == |payload| <= Offset(i + 1)
    ensures Slices(payload, i) + [Slice(payload, i)] == Slices(payload, i + 1)
  {
  }

  /**
   * Completeness of reassembly: from an idle assembly, the i-th record of a message
   * yields nothing until the last one, which yields the message and returns to idle.
   */
  lemma FrameIsAbsorbed(expected: Option<Bytes>, channel: Bytes, message: Bytes, payload: Bytes, i: nat)
    requires |channel| == ID_SIZE && |message| == ID_SIZE && |payload| <= MAX_LOGICAL
    requires expected.None? || expected.value == channel
    requires i < FragmentCount(|payload|)
    ensures Absorbed(expected, Prefix(channel, message, payload, i), FrameAt(channel, message, payload, i))
            == if i + 1 < FragmentCount(|payload|)
               then (Prefix(channel, message, payload, i + 1), Ok(None))
               else (None, Ok(Some(payload)))
  {
    var a, f := Prefix(channel, message, payload, i), FrameAt(channel, message, payload, i);
    var p := Partial(channel, message, f.count, |payload|, i, Offset(i), Slices(payload, i));
    SliceBounds(payload, i);
    Absorbs(expected, a, f, p);
    JoinOfSlices(payload, i + 1);
    if i + 1 == f.count {
      assert payload[..Min(Offset(i + 1), |payload|)] == payload;
    } else {
      assert Offset(i) + |f.payload| == Offset(i + 1);
    }
  }

  lemma RecordsAreAccepted(expected: Option<Bytes>, channel: Bytes, message: Bytes, payload: Bytes, i: nat)
    requires |channel| == ID_SIZE && |message| == ID_SIZE && |payload| <= MAX_LOGICAL
    requires expected.None? || expected.value == channel
    requires i < FragmentCount(|payload|)
    ensures Pushed(expected, Prefix(channel, message, payload, i), Records(channel, message, payload)[i])
            == Absorbed(expected, Prefix(channel, message, payload, i), FrameAt(channel, message, payload, i))
  {
    DecodeOfRecord(FrameAt(channel, message, payload, i));
  }

  type Outcome = Result<Option<Bytes>, Fault>

  /** The reassembler for an expected channel, as a step function. */
  function Pusher(expected: Option<Bytes>): (Assembly, Bytes) -> (Assembly, Outcome) {
    (a, r) => Pushed(expected, a, r)
  }

  /** The outcomes of the records of one message: nothing until the last one. */
  function MessageOutcomes(payload: Bytes): (outs: seq<Outcome>)
    ensures |outs| == FragmentCount(|payload|)
  {
    seq(FragmentCount(|payload|) - 1, i => Ok(None)) + [Ok(Some(payload))]
  }

  /** The assemblies before, between and after the records of a message. */
  function Assemblies(channel: Bytes, message: Bytes, payload: Bytes): (states: seq<Assembly>)
    ensures |states| == FragmentCount(|payload|) + 1
    ensures states[0] == None == states[FragmentCount(|payload|)]
  {
    seq(FragmentCount(|payload|), i requires 0 <= i < FragmentCount(|payload|) => Prefix(channel, message, payload, i)) + [None]
  }

  lemma PushedInOrder(expected: Option<Bytes>, channel: Bytes, message: Bytes, payload: Bytes, i: nat)
    requires |channel| == ID_SIZE && |message| == ID_SIZE && |payload| <= MAX_LOGICAL
    requires expected.None? || expected.value == channel
    requires i < FragmentCount(|payload|)
    ensures var states := Assemblies(channel, message, payload);
            Pusher(expected)(states[i], Records(channel, message, payload)[i]) == (states[i + 1], MessageOutcomes(payload)[i])
  {
    RecordsAreAccepted(expected, channel, message, payload, i);
    FrameIsAbsorbed(expected, channel, message, payload, i);
  }

  /** Completeness: the records of a message, sent to an idle reassembler, deliver it once and last. */
  lemma PushRecords(expected: Option<Bytes>, channel: Bytes, message: Bytes, payload: Bytes)
    requires |channel| == ID_SIZE && |message| == ID_SIZE && |payload| <= MAX_LOGICAL
    requires expected.None? || expected.value == channel
    ensures Run(Pusher(expected), None, Records(channel, message, payload)) == (None, MessageOutcomes(payload))
  {
    var rs, states, outs := Records(channel, message, payload), Assemblies(channel, message, payload), MessageOutcomes(payload);
    forall i | 0 <= i < |rs|
      ensures Pusher(expected)(states[i], rs[i]) == (states[i + 1], outs[i])
    {
      PushedInOrder(expected, channel, message, payload, i);
    }
    RunOfStates(Pusher(expected), rs, states, outs);
  }

  /** The records since the reassembler was last idle. */
  ghost function SinceIdle(expected: Option<Bytes>, rs: seq<Bytes>): seq<Bytes> {
    if rs == [] then []
    else Since(Run(Pusher(expected), None, rs).0, SinceIdle(expected, rs[..|rs| - 1]), rs[|rs| - 1])
  }

  /** Every list of pushes keeps the invariant. */
  lemma {:induction false} ReachableIsConsistent(expected: Option<Bytes>, rs: seq<Bytes>)
    ensures Consistent(Run(Pusher(expected), None, rs).0, SinceIdle(expected, rs))
  {
    if rs != [] {
      var init, r := rs[..|rs| - 1], rs[|rs| - 1];
      ReachableIsConsistent(expected, init);
      var a := Run(Pusher(expected), None, init).0;
      PushKeepsConsistent(expected, a, SinceIdle(expected, init), r);
      PushLast(expected, init, r);
      assert rs == init + [r];
    }
  }

  lemma {:induction false} SinceIdleIsSuffix(expected: Option<Bytes>, rs: seq<Bytes>)
    ensures |SinceIdle(expected, rs)| <= |rs|
    ensures SinceIdle(expected, rs) == rs[|rs| - |SinceIdle(expected, rs)|..]
  {
    if rs != [] {
      SinceIdleIsSuffix(expected, rs[..|rs| - 1]);
    }
  }

  lemma PushLast(expected: Option<Bytes>, rs: seq<Bytes>, r: Bytes)
    ensures var (a, outs) := Run(Pusher(expected), None, rs);
            Run(Pusher(expected), None, rs + [r]) == (Pushed(expected, a, r).0, outs + [Pushed(expected, a, r).1])
  {
    RunAppend(Pusher(expected), None, rs, [r]);
    RunOne(Pusher(expected), Run(Pusher(expected), None, rs).0, r);
  }

  /** Under some message identifier, m is encoded on the channel as exactly these records. */
  ghost predicate Encodes(channel: Bytes, rs: seq<Bytes>, m: Bytes) {
    exists message :: EncodeMessage(channel, message, m) == Ok(rs)
  }

  /** The channel of a reassembler: the one it expects, else that of the message in progress, else that of the record. */
  function OwnChannel(expected: Option<Bytes>, a: Assembly, r: Bytes): Bytes {
    if expected.Some? then expected.value
    else if a.Some? then a.value.channel
    else if DecodeRecord(r).Ok? then DecodeRecord(r).value.channel else []
  }

  lemma DeliveredOnOwnChannel(expected: Option<Bytes>, a: Assembly, r: Bytes)
    requires Pushed(expected, a, r).1.Ok?
    ensures DecodeRecord(r).Ok? && DecodeRecord(r).value.channel == OwnChannel(expected, a, r)
  {
    match DecodeRecord(r)
    case Ok(f) => assert Refusal(expected, a, f).None?;
    case Err(_) =>
  }

  /** The same as DeliveredIsEncoded, in terms of the reassembler's own channel. */
  lemma DeliveryIsAnEncoding(expected: Option<Bytes>, a: Assembly, since: seq<Bytes>, r: Bytes, m: Bytes)
    requires Consistent(a, since) && Pushed(expected, a, r).1 == Ok(Some(m))
    ensures Encodes(OwnChannel(expected, a, r), since + [r], m)
  {
    DeliveredIsEncoded(expected, a, since, r);
    DeliveredOnOwnChannel(expected, a, r);
    assert EncodeMessage(OwnChannel(expected, a, r), DecodeRecord(r).value.message, m) == Ok(since + [r]);
  }

  /**
   * Soundness over every list of pushes: whenever the last push delivers a message, the
   * records since the reassembler was idle are exactly the canonical encoding of it on the
   * reassembler's own channel.
   */
  lemma EveryDeliveryIsAnEncoding(expected: Option<Bytes>, rs: seq<Bytes>, r: Bytes, m: Bytes)
    requires Run(Pusher(expected), None, rs + [r]).1[|rs|] == Ok(Some(m))
    ensures Encodes(OwnChannel(expected, Run(Pusher(expected), None, rs).0, r), SinceIdle(expected, rs) + [r], m)
    ensures var n := |SinceIdle(expected, rs)|;
            n <= |rs| && SinceIdle(expected, rs) + [r] == (rs + [r])[|rs| - n..]
  {
    ReachableIsConsistent(expected, rs);
    SinceIdleIsSuffix(expected, rs);
    PushLast(expected, rs, r);
    DeliveryIsAnEncoding(expected, Run(Pusher(expected), None, rs).0, SinceIdle(expected, rs), r, m);
  }

  /**
   * The parts of the message in progress and the values every further record of it must repeat;
   * `Assembly` is its abstract value.
   */
  class Reassembler {
    const expected: Option<Bytes>
    var activeChannel: Option<Bytes>
    var messageId: Option<Bytes>
    var fragmentCount: nat
    var logicalLength: nat
    var nextIndex: nat
    var receivedLength: nat
    var parts: seq<Bytes>

    ghost predicate Valid()
      reads this
    {
      activeChannel.Some? == messageId.Some?
    }

    /** The abstract assembly held in the fields. */
    ghost function View(): (a: Assembly)
      requires Valid()
      reads this
    {
      if messageId.None? then None
      else Some(Partial(activeChannel.value, messageId.value, fragmentCount, logicalLength,
                        nextIndex, receivedLength, parts))
    }

    constructor (channel: Option<Bytes>)
      ensures Valid() && View() == None && expected == channel
    {
      expected := channel;
      activeChannel, messageId := None, None;
      fragmentCount, logicalLength, nextIndex, receivedLength, parts := 0, 0, 0, 0, [];
    }

    method Reset()
      modifies this
      ensures Valid() && View() == None
    {
      activeChannel, messageId := None, None;
      fragmentCount, logicalLength, nextIndex, receivedLength, parts := 0, 0, 0, 0, [];
    }

    /** Consume one record, resetting the state after every rejection. */
    method Push(record: Bytes) returns (res: Result<Option<Bytes>, Fault>)
      requires Valid()
      modifies this
      ensures Valid()
      ensures (View(), res) == Pushed(expected, old(View()), record)
    {
      var decoded := DecodeRecord(record);
      if decoded.Err? {
        Reset();
        return Err(decoded.error);
      }
      res := Absorb(decoded.value);
    }

    /** Consume one decoded frame. */
    method Absorb(frame: Frame) returns (res: Result<Option<Bytes>, Fault>)
      requires Valid()
      modifies this
      ensures Valid()
      ensures (View(), res) == Absorbed(expected, old(View()), frame)
    {
      var fault: Option<Fault> := None;
      if frame.kind != KIND_HERMES || frame.flags != FLAGS_NONE {
        fault := Some(KindMismatch);
      } else if expected.Some? && frame.channel != expected.value {
        fault := Some(ChannelMismatch);
      } else if messageId.None? {
        if frame.index != 0 {
          fault := Some(FirstFragmentMissing);
        } else {
          activeChannel, messageId := Some(frame.channel), Some(frame.message);
          fragmentCount, logicalLength := frame.count, frame.logical;
          nextIndex, receivedLength, parts := 0, 0, [];
        }
      } else if frame.channel != activeChannel.value || frame.message != messageId.value
                || frame.count != fragmentCount || frame.logical != logicalLength {
        fault := Some(MetadataMismatch);
      }
      if fault.None? {
        if frame.index != nextIndex {
          fault := Some(NotContiguous);
        } else if receivedLength + |frame.payload| > logicalLength {
          fault := Some(ReceivedTooMuch);
        } else {
          parts := parts + [frame.payload];
          receivedLength := receivedLength + |frame.payload|;
          nextIndex := nextIndex + 1;
          if nextIndex != fragmentCount {
            return Ok(None);
          }
          if receivedLength != logicalLength {
            fault := Some(ReceivedIncomplete);
          } else {
            var message := Join(parts);
            Reset();
            return Ok(Some(message));
          }
        }
      }
      Reset();
      res := Err(fault.value);
    }
  }
}
