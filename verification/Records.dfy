/** Ordered record framing inside reliable byte streams: encoders and the incremental decoder. */
module Records {
  import opened BigEndian
  import opened Common

  const HEADER_LENGTH := 11

  const MIN_FRAME_LENGTH := 6

  const DEFAULT_MAX_FRAME_LENGTH := 0xff_ffff

  const MAX_ORDINAL: nat := 0xffff_ffff_ffff_ffff

  lemma Widths()
    ensures Range(8) == MAX_ORDINAL + 1 && Range(4) == 0x1_0000_0000 && Range(3) == DEFAULT_MAX_FRAME_LENGTH + 1
  {
    assert Range(3) == 0x100 * Range(2);
    assert Range(6) == 0x100 * Range(5) == 0x1_0000 * Range(4);
    assert Range(8) == 0x100 * Range(7) == 0x1_0000 * Range(6);
  }

  /** Fills eight bytes from the last one back, as the mapping header is written. */
  method WriteOrdinal(bytes: array<byte>, offset: nat, ordinal: nat)
    requires offset + 8 <= bytes.Length && ordinal <= MAX_ORDINAL
    modifies bytes
    ensures bytes[..] == old(bytes[..offset]) + Digits(ordinal, 8) + old(bytes[offset + 8..])
  {
    var rest := ordinal;
    var index := 8;
    while index > 0
      invariant 0 <= index <= 8
      invariant bytes[..offset] == old(bytes[..offset])
      invariant bytes[offset + 8..] == old(bytes[offset + 8..])
      invariant Digits(ordinal, 8) == Digits(rest, index) + bytes[offset + index..offset + 8]
    {
      index := index - 1;
      ghost var tail := bytes[offset + index + 1..offset + 8];
      bytes[offset + index] := rest % 0x100;
      assert bytes[offset + index..offset + 8] == [rest % 0x100] + tail;
      rest := rest / 0x100;
    }
    assert bytes[..] == bytes[..offset] + bytes[offset..offset + 8] + bytes[offset + 8..];
  }

  /** Reads eight bytes in network order. */
  method ReadOrdinal(bytes: Bytes, offset: nat) returns (ordinal: nat)
    requires offset + 8 <= |bytes|
    ensures ordinal == Number(bytes[offset..offset + 8])
  {
    ordinal := 0;
    for index := 0 to 8
      invariant ordinal == Number(bytes[offset..offset + index])
    {
      assert bytes[offset..offset + index + 1][..index] == bytes[offset..offset + index];
      ordinal := 0x100 * ordinal + bytes[offset + index];
    }
  }

  // One record

  /** What one record carries: a frame, or the id of a fire-and-forget lost as a datagram. */
  datatype Record = FrameRecord(ordinal: nat, frame: Bytes) | SkipRecord(ordinal: nat, streamId: nat)

  /** Four bytes assembled with 32-bit shifts give a signed number. */
  function SignedWord(bytes: Bytes): int
    requires |bytes| == 4
  {
    var n := Number(bytes);
    if n < 0x8000_0000 then n else n - 0x1_0000_0000
  }

  /** Length 4 marks a skip; every other record must hold one whole frame. */
  predicate LengthAccepted(length: nat, maxFrameLength: nat)
  {
    length == 4 || MIN_FRAME_LENGTH <= length <= maxFrameLength
  }

  datatype Head = Incomplete | Malformed | Complete(record: Record, length: nat)

  /** The record at the front of a byte stream. */
  function Next(bytes: Bytes, maxFrameLength: nat): (h: Head)
    ensures h.Complete? ==> HEADER_LENGTH < h.length <= |bytes|
  {
    if |bytes| < HEADER_LENGTH then Incomplete
    else
      var length := Number(bytes[8..11]);
      if !LengthAccepted(length, maxFrameLength) then Malformed
      else if |bytes| < HEADER_LENGTH + length then Incomplete
      else Decoded(Number(bytes[..8]), bytes[HEADER_LENGTH..HEADER_LENGTH + length])
  }

  /** One complete body under its header. */
  function Decoded(ordinal: nat, body: Bytes): (h: Head)
    ensures h.Complete? ==> h.length == HEADER_LENGTH + |body|
  {
    if |body| != 4 then Complete(FrameRecord(ordinal, body), HEADER_LENGTH + |body|)
    else if SignedWord(body) <= 0 then Malformed
    else Complete(SkipRecord(ordinal, SignedWord(body)), HEADER_LENGTH + |body|)
  }

  predicate Encodable(r: Record, maxFrameLength: nat)
  {
    && r.ordinal <= MAX_ORDINAL
    && match r
       case FrameRecord(_, frame) => MIN_FRAME_LENGTH <= |frame| <= maxFrameLength
       case SkipRecord(_, streamId) => 0 < streamId <= MAX_REQUEST_N
  }

  /** The bytes of one record, or None where the encoder rejects it. */
  function Encode(r: Record, maxFrameLength: nat): Option<Bytes>
  {
    if !Encodable(r, maxFrameLength) then None
    else match r
      case FrameRecord(ordinal, frame) => Some(Digits(ordinal, 8) + Digits(|frame|, 3) + frame)
      case SkipRecord(ordinal, streamId) => Some(Digits(ordinal, 8) + Digits(4, 3) + Digits(streamId, 4))
  }

  /** Reading the header of a well-formed packet. */
  lemma HeaderReads(ordinal: nat, body: Bytes, rest: Bytes)
    requires ordinal <= MAX_ORDINAL && |body| <= DEFAULT_MAX_FRAME_LENGTH
    ensures var packet := Digits(ordinal, 8) + Digits(|body|, 3) + body;
            && |packet| == HEADER_LENGTH + |body|
            && Number((packet + rest)[..8]) == ordinal
            && Number((packet + rest)[8..11]) == |body|
            && (packet + rest)[HEADER_LENGTH..HEADER_LENGTH + |body|] == body
  {
    Widths();
    NumberOfDigits(ordinal, 8);
    NumberOfDigits(|body|, 3);
    var packet := Digits(ordinal, 8) + Digits(|body|, 3) + body;
    assert (packet + rest)[..8] == Digits(ordinal, 8);
    assert (packet + rest)[8..11] == Digits(|body|, 3);
  }

  /** A decoder reads back what the encoder wrote, whatever follows it. */
  lemma EncodedReads(r: Record, rest: Bytes, maxFrameLength: nat)
    requires Encodable(r, maxFrameLength) && maxFrameLength <= DEFAULT_MAX_FRAME_LENGTH
    ensures var packet := Encode(r, maxFrameLength).value;
            Next(packet + rest, maxFrameLength) == Complete(r, |packet|)
  {
    match r
    case FrameRecord(ordinal, frame) =>
      HeaderReads(ordinal, frame, rest);
    case SkipRecord(ordinal, streamId) =>
      Widths();
      NumberOfDigits(streamId, 4);
      HeaderReads(ordinal, Digits(streamId, 4), rest);
  }

  /** Conversely, the bytes of a decoded record are the encoding of it. */
  lemma ReadEncodes(bytes: Bytes, maxFrameLength: nat)
    requires maxFrameLength <= DEFAULT_MAX_FRAME_LENGTH
    requires Next(bytes, maxFrameLength).Complete?
    ensures var h := Next(bytes, maxFrameLength);
            && Encodable(h.record, maxFrameLength)
            && Encode(h.record, maxFrameLength) == Some(bytes[..h.length])
  {
    Widths();
    var length := Number(bytes[8..11]);
    var body := bytes[HEADER_LENGTH..HEADER_LENGTH + length];
    DigitsOfNumber(bytes[..8]);
    DigitsOfNumber(bytes[8..11]);
    assert bytes[..HEADER_LENGTH + length] == bytes[..8] + bytes[8..11] + body;
    if length == 4 {
      DigitsOfNumber(body);
    }
  }

  // A whole stream

  /** Records decoded so far, the bytes of the one still incomplete, and whether decoding failed. */
  datatype Parsed = Parsed(records: seq<Record>, rest: Bytes, failed: bool)

  function Parse(bytes: Bytes, maxFrameLength: nat): Parsed
    decreases |bytes|
  {
    match Next(bytes, maxFrameLength)
    case Incomplete => Parsed([], bytes, false)
    case Malformed => Parsed([], bytes, true)
    case Complete(record, length) => Prepend([record], Parse(bytes[length..], maxFrameLength))
  }

  function Prepend(records: seq<Record>, p: Parsed): Parsed
  {
    p.(records := records + p.records)
  }

  lemma PrependTwice(a: seq<Record>, b: seq<Record>, p: Parsed)
    ensures Prepend(a, Prepend(b, p)) == Prepend(a + b, p)
  {
    ConcatAssociates(a, b, p.records);
  }

  /** A verdict already reached does not depend on later bytes. */
  lemma NextIsStable(bytes: Bytes, more: Bytes, maxFrameLength: nat)
    requires Next(bytes, maxFrameLength) != Incomplete
    ensures Next(bytes + more, maxFrameLength) == Next(bytes, maxFrameLength)
  {
    var all := bytes + more;
    assert all[..8] == bytes[..8] && all[8..11] == bytes[8..11];
    var length := Number(bytes[8..11]);
    if LengthAccepted(length, maxFrameLength) {
      assert all[HEADER_LENGTH..HEADER_LENGTH + length] == bytes[HEADER_LENGTH..HEADER_LENGTH + length];
    }
  }

  /** Decoding continues from the incomplete rest as if the bytes had arrived together. */
  lemma {:induction false} ParseContinues(bytes: Bytes, more: Bytes, maxFrameLength: nat)
    ensures var p := Parse(bytes, maxFrameLength);
            && (p.failed ==> Parse(bytes + more, maxFrameLength).failed
                             && Parse(bytes + more, maxFrameLength).records == p.records)
            && (!p.failed ==> Parse(bytes + more, maxFrameLength)
                              == Prepend(p.records, Parse(p.rest + more, maxFrameLength)))
    decreases |bytes|
  {
    var h := Next(bytes, maxFrameLength);
    if h != Incomplete {
      NextIsStable(bytes, more, maxFrameLength);
      if h.Complete? {
        ParseContinues(bytes[h.length..], more, maxFrameLength);
        assert (bytes + more)[h.length..] == bytes[h.length..] + more;
        var p := Parse(bytes[h.length..], maxFrameLength);
        PrependTwice([h.record], p.records, Parse(p.rest + more, maxFrameLength));
      }
    } else {
      assert [] + Parse(bytes + more, maxFrameLength).records == Parse(bytes + more, maxFrameLength).records;
    }
  }

  /** Decoding a list of chunks one by one, stopping at the first failure. */
  function ParseChunks(p: Parsed, chunks: seq<Bytes>, maxFrameLength: nat): Parsed
    decreases chunks
  {
    if chunks == [] || p.failed then p
    else ParseChunks(Prepend(p.records, Parse(p.rest + chunks[0], maxFrameLength)), chunks[1..], maxFrameLength)
  }

  lemma {:induction false} ChunksFrom(p: Parsed, chunks: seq<Bytes>, maxFrameLength: nat)
    requires !p.failed && Next(p.rest, maxFrameLength) == Incomplete
    ensures var whole := Prepend(p.records, Parse(p.rest + Flatten(chunks), maxFrameLength));
            var pieces := ParseChunks(p, chunks, maxFrameLength);
            && pieces.failed == whole.failed
            && pieces.records == whole.records
            && (!whole.failed ==> pieces.rest == whole.rest)
    decreases chunks
  {
    if chunks == [] {
      assert p.rest + [] == p.rest;
      assert p.records + [] == p.records;
    } else {
      var chunk, later := chunks[0], Flatten(chunks[1..]);
      var first := Parse(p.rest + chunk, maxFrameLength);
      ParseContinues(p.rest + chunk, later, maxFrameLength);
      ConcatAssociates(p.rest, chunk, later);
      if !first.failed {
        RestIsIncomplete(p.rest + chunk, maxFrameLength);
        ChunksFrom(Prepend(p.records, first), chunks[1..], maxFrameLength);
        PrependTwice(p.records, first.records, Parse(first.rest + later, maxFrameLength));
      }
    }
  }

  /** What stays buffered never holds a whole record. */
  lemma {:induction false} RestIsIncomplete(bytes: Bytes, maxFrameLength: nat)
    ensures var p := Parse(bytes, maxFrameLength);
            !p.failed ==> Next(p.rest, maxFrameLength) == Incomplete
    decreases |bytes|
  {
    var h := Next(bytes, maxFrameLength);
    if h.Complete? {
      RestIsIncomplete(bytes[h.length..], maxFrameLength);
    }
  }

  /**
    Every way of cutting a byte stream into chunks gives the same records, the same verdict, and
    the same buffered bytes.
   */
  lemma ChunkInvariance(chunks: seq<Bytes>, maxFrameLength: nat)
    ensures var whole := Parse(Flatten(chunks), maxFrameLength);
            var pieces := ParseChunks(Parsed([], [], false), chunks, maxFrameLength);
            && pieces.failed == whole.failed
            && pieces.records == whole.records
            && (!whole.failed ==> pieces.rest == whole.rest)
  {
    ChunksFrom(Parsed([], [], false), chunks, maxFrameLength);
    var whole := Parse(Flatten(chunks), maxFrameLength);
    assert [] + Flatten(chunks) == Flatten(chunks);
    assert [] + whole.records == whole.records;
  }

  /** The byte stream of a list of records. */
  function EncodeAll(records: seq<Record>, maxFrameLength: nat): Bytes
    requires forall r :: r in records ==> Encodable(r, maxFrameLength)
  {
    if records == [] then []
    else Encode(records[0], maxFrameLength).value + EncodeAll(records[1..], maxFrameLength)
  }

  /** Decoding what was encoded gives back the records, then continues with whatever follows. */
  lemma {:induction false} RoundTrip(records: seq<Record>, tail: Bytes, maxFrameLength: nat)
    requires maxFrameLength <= DEFAULT_MAX_FRAME_LENGTH
    requires forall r :: r in records ==> Encodable(r, maxFrameLength)
    ensures Parse(EncodeAll(records, maxFrameLength) + tail, maxFrameLength)
            == Prepend(records, Parse(tail, maxFrameLength))
    decreases records
  {
    if records == [] {
      assert [] + tail == tail;
      assert [] + Parse(tail, maxFrameLength).records == Parse(tail, maxFrameLength).records;
    } else {
      var packet := Encode(records[0], maxFrameLength).value;
      var later := EncodeAll(records[1..], maxFrameLength) + tail;
      EncodedReads(records[0], later, maxFrameLength);
      ConcatAssociates(packet, EncodeAll(records[1..], maxFrameLength), tail);
      assert (packet + later)[|packet|..] == later;
      RoundTrip(records[1..], tail, maxFrameLength);
      PrependTwice([records[0]], records[1..], Parse(tail, maxFrameLength));
      assert [records[0]] + records[1..] == records;
    }
  }

  /** Conversely, a stream that decodes is the encoding of its records and one incomplete rest. */
  lemma {:induction false} DecodedReencodes(bytes: Bytes, maxFrameLength: nat)
    requires maxFrameLength <= DEFAULT_MAX_FRAME_LENGTH
    requires !Parse(bytes, maxFrameLength).failed
    ensures var p := Parse(bytes, maxFrameLength);
            && (forall r :: r in p.records ==> Encodable(r, maxFrameLength))
            && bytes == EncodeAll(p.records, maxFrameLength) + p.rest
    decreases |bytes|
  {
    var h := Next(bytes, maxFrameLength);
    if h.Complete? {
      ReadEncodes(bytes, maxFrameLength);
      DecodedReencodes(bytes[h.length..], maxFrameLength);
      var later := Parse(bytes[h.length..], maxFrameLength);
      var records := [h.record] + later.records;
      assert records[1..] == later.records;
      TakeThenDrop(bytes, h.length);
      ConcatAssociates(bytes[..h.length], EncodeAll(later.records, maxFrameLength), later.rest);
    } else {
      assert [] + bytes == bytes;
    }
  }

  /**
    Nothing stays buffered exactly when the stream is a concatenation of encoded records: the
    places at which `finish` accepts.
   */
  lemma BoundaryExactly(bytes: Bytes, maxFrameLength: nat)
    requires maxFrameLength <= DEFAULT_MAX_FRAME_LENGTH
    ensures var p := Parse(bytes, maxFrameLength);
            !p.failed && p.rest == []
            <==> exists records: seq<Record> ::
                   (forall r :: r in records ==> Encodable(r, maxFrameLength))
                   && EncodeAll(records, maxFrameLength) == bytes
  {
    var p := Parse(bytes, maxFrameLength);
    if !p.failed && p.rest == [] {
      DecodedReencodes(bytes, maxFrameLength);
      assert EncodeAll(p.records, maxFrameLength) + [] == EncodeAll(p.records, maxFrameLength);
    }
    if records: seq<Record> :| (forall r :: r in records ==> Encodable(r, maxFrameLength))
                               && EncodeAll(records, maxFrameLength) == bytes {
      RoundTrip(records, [], maxFrameLength);
      assert bytes + [] == bytes;
    }
  }

  /** Whatever the transport does to the chunk boundaries, the records sent are the records decoded. */
  lemma SentIsDecoded(records: seq<Record>, chunks: seq<Bytes>, maxFrameLength: nat)
    requires maxFrameLength <= DEFAULT_MAX_FRAME_LENGTH
    requires forall r :: r in records ==> Encodable(r, maxFrameLength)
    requires Flatten(chunks) == EncodeAll(records, maxFrameLength)
    ensures ParseChunks(Parsed([], [], false), chunks, maxFrameLength) == Parsed(records, [], false)
  {
    ChunkInvariance(chunks, maxFrameLength);
    RoundTrip(records, [], maxFrameLength);
    assert Flatten(chunks) + [] == Flatten(chunks);
    assert records + [] == records;
  }

  /** A transport that dies early cuts the stream anywhere: what was decoded is a prefix of what was sent. */
  lemma PrefixIsDecoded(records: seq<Record>, chunks: seq<Bytes>, maxFrameLength: nat)
    requires maxFrameLength <= DEFAULT_MAX_FRAME_LENGTH
    requires forall r :: r in records ==> Encodable(r, maxFrameLength)
    requires Flatten(chunks) <= EncodeAll(records, maxFrameLength)
    ensures var p := ParseChunks(Parsed([], [], false), chunks, maxFrameLength);
            !p.failed && p.records <= records
  {
    hide Parse, ParseChunks, EncodeAll, Encodable, Flatten;
    var all, bytes := EncodeAll(records, maxFrameLength), Flatten(chunks);
    ChunkInvariance(chunks, maxFrameLength);
    RoundTrip(records, [], maxFrameLength);
    ParseNothing(maxFrameLength);
    assert all + [] == all && records + [] == records;
    ParseContinues(bytes, all[|bytes|..], maxFrameLength);
    PrefixSplits(bytes, all);
  }

  lemma PrefixSplits<T>(a: seq<T>, b: seq<T>)
    requires a <= b
    ensures a + b[|a|..] == b
  {}

  lemma ParseNothing(maxFrameLength: nat)
    ensures Parse([], maxFrameLength) == Parsed([], [], false)
  {}

  // The encoders and the decoder as the mapping runs them

  /** Three bytes of length after the ordinal. */
  method WriteLength(bytes: array<byte>, length: nat)
    requires HEADER_LENGTH <= bytes.Length && length <= DEFAULT_MAX_FRAME_LENGTH
    modifies bytes
    ensures bytes[..] == old(bytes[..8]) + Digits(length, 3) + old(bytes[HEADER_LENGTH..])
  {
    bytes[8] := length / 0x1_0000 % 0x100;
    bytes[9] := length / 0x100 % 0x100;
    bytes[10] := length % 0x100;
    assert length / 0x100 / 0x100 == length / 0x1_0000;
    assert Digits(length, 3) == Digits(length / 0x100, 2) + [length % 0x100];
    assert Digits(length / 0x100, 2) == Digits(length / 0x100 / 0x100, 1) + [length / 0x100 % 0x100];
    assert Digits(length / 0x1_0000, 1) == [length / 0x1_0000 % 0x100];
    assert bytes[8..HEADER_LENGTH] == Digits(length, 3);
    assert bytes[..] == bytes[..8] + bytes[8..HEADER_LENGTH] + bytes[HEADER_LENGTH..];
  }

  /** Encodes one frame record, or rejects its ordinal or its length. */
  method EncodeWebTransportRecord(ordinal: nat, frame: Bytes, maxFrameLength: nat)
    returns (ok: bool, packet: array<byte>)
    requires maxFrameLength <= DEFAULT_MAX_FRAME_LENGTH
    ensures ok == Encodable(FrameRecord(ordinal, frame), maxFrameLength)
    ensures ok ==> Encode(FrameRecord(ordinal, frame), maxFrameLength) == Some(packet[..])
  {
    ok := ordinal <= MAX_ORDINAL && MIN_FRAME_LENGTH <= |frame| <= maxFrameLength;
    packet := new byte[HEADER_LENGTH + |frame|](_ => 0);
    if ok {
      WriteOrdinal(packet, 0, ordinal);
      WriteLength(packet, |frame|);
      forall k | 0 <= k < |frame| {
        packet[HEADER_LENGTH + k] := frame[k];
      }
      assert packet[HEADER_LENGTH..] == frame;
      assert packet[..HEADER_LENGTH] == Digits(ordinal, 8) + Digits(|frame|, 3);
      TakeThenDrop(packet[..], HEADER_LENGTH);
    }
  }

  /** One turn of the decoder: the verdict on `before`, and the bytes then left to decode. */
  ghost predicate Advanced(before: Bytes, h: Head, after: Bytes, maxFrameLength: nat)
  {
    match h
    case Complete(_, length) => Next(before, maxFrameLength) == h && before[length..] == after
    case Malformed => Next(before, maxFrameLength) == Malformed
    case Incomplete => before == after
  }

  /** What one turn adds to the records of the whole. */
  lemma ParseTurn(all: Bytes, emitted: seq<Record>, before: Bytes, h: Head, after: Bytes, maxFrameLength: nat)
    requires Parse(all, maxFrameLength) == Prepend(emitted, Parse(before, maxFrameLength))
    requires Advanced(before, h, after, maxFrameLength)
    ensures h.Complete? ==> Parse(all, maxFrameLength) == Prepend(emitted + [h.record], Parse(after, maxFrameLength))
    ensures h.Malformed? ==> Parse(all, maxFrameLength) == Parsed(emitted, before, true)
    ensures h.Incomplete? ==> Parse(all, maxFrameLength) == Prepend(emitted, Parse(after, maxFrameLength))
  {
    if h.Complete? {
      PrependTwice(emitted, [h.record], Parse(after, maxFrameLength));
    } else if h.Malformed? {
      assert emitted + [] == emitted;
    }
  }

  /** Nothing more to decode. */
  lemma ParseEnds(all: Bytes, emitted: seq<Record>, before: Bytes, maxFrameLength: nat)
    requires Parse(all, maxFrameLength) == Prepend(emitted, Parse(before, maxFrameLength))
    requires Next(before, maxFrameLength) == Incomplete
    ensures Parse(all, maxFrameLength) == Parsed(emitted, before, false)
  {
    assert emitted + [] == emitted;
  }

  lemma PrependNothing(p: Parsed)
    ensures Prepend([], p) == p
  {
    assert [] + p.records == p.records;
  }

  lemma SplitAt(chunk: Bytes, offset: nat, used: nat)
    requires offset + used <= |chunk|
    ensures chunk[offset..] == chunk[offset..offset + used] + chunk[offset + used..]
  {}

  /** A whole header in the chunk decides the turn: an illegal length fails, and a whole body is decoded. */
  lemma WholeHeader(chunk: Bytes, offset: nat, maxFrameLength: nat)
    requires offset + HEADER_LENGTH <= |chunk|
    ensures var length := Number(chunk[offset + 8..offset + 11]);
            if !LengthAccepted(length, maxFrameLength) then
              Advanced(chunk[offset..], Malformed, [], maxFrameLength)
            else offset + HEADER_LENGTH + length <= |chunk| ==>
              Advanced(chunk[offset..],
                       Decoded(Number(chunk[offset..offset + 8]),
                               chunk[offset + HEADER_LENGTH..offset + HEADER_LENGTH + length]),
                       chunk[offset + HEADER_LENGTH + length..], maxFrameLength)
  {
    hide Number;
    var rest := chunk[offset..];
    assert rest[..8] == chunk[offset..offset + 8] && rest[8..11] == chunk[offset + 8..offset + 11];
    var length := Number(chunk[offset + 8..offset + 11]);
    if offset + HEADER_LENGTH + length <= |chunk| {
      var body := chunk[offset + HEADER_LENGTH..offset + HEADER_LENGTH + length];
      assert rest[HEADER_LENGTH..HEADER_LENGTH + length] == body;
      assert rest[HEADER_LENGTH + length..] == chunk[offset + HEADER_LENGTH + length..];
    }
  }

  /** Copying the header out of the chunk leaves the same bytes to decode. */
  lemma HeaderTaken(chunk: Bytes, offset: nat, maxFrameLength: nat)
    requires offset + HEADER_LENGTH <= |chunk|
    ensures Advanced(chunk[offset..], Incomplete,
                     chunk[offset..offset + HEADER_LENGTH] + chunk[offset + HEADER_LENGTH..], maxFrameLength)
  {
    SplitAt(chunk, offset, HEADER_LENGTH);
  }

  /** Incrementally decodes split or coalesced records. */
  class RSocketWebTransportRecordDecoder {
    const header: array<byte>
    const maxFrameLength: nat
    var headerOffset: nat
    var body: Option<array<byte>>
    var bodyOffset: nat
    var ordinal: nat
    var recordLength: nat

    /** The fields agree; the header or the body may just have been filled. */
    ghost predicate Filling()
      reads this, header, if body.Some? then {body.value} else {}
    {
      && header.Length == HEADER_LENGTH
      && MIN_FRAME_LENGTH <= maxFrameLength <= DEFAULT_MAX_FRAME_LENGTH
      && headerOffset <= HEADER_LENGTH
      && (body.Some? ==>
            && body.value != header
            && headerOffset == 0
            && bodyOffset <= body.value.Length == recordLength
            && LengthAccepted(recordLength, maxFrameLength)
            && ordinal <= MAX_ORDINAL)
    }

    ghost predicate Valid()
      reads this, header, if body.Some? then {body.value} else {}
    {
      Filling() && headerOffset < HEADER_LENGTH && (body.Some? ==> bodyOffset < recordLength)
    }

    /** Bytes of the record that is still incomplete. */
    ghost function Pending(): (bytes: Bytes)
      requires Filling()
      reads this, header, if body.Some? then {body.value} else {}
    {
      if body.None? then header[..headerOffset]
      else Digits(ordinal, 8) + Digits(recordLength, 3) + body.value[..bodyOffset]
    }

    constructor (maxFrameLength: nat)
      requires MIN_FRAME_LENGTH <= maxFrameLength <= DEFAULT_MAX_FRAME_LENGTH
      ensures Valid() && Pending() == [] && fresh(header)
      ensures body == None && this.maxFrameLength == maxFrameLength
    {
      header := new byte[HEADER_LENGTH](_ => 0);
      this.maxFrameLength := maxFrameLength;
      headerOffset := 0;
      body := None;
      bodyOffset := 0;
      ordinal := 0;
      recordLength := 0;
    }

    /** Bytes retained for one incomplete record: all of its body once the length is known. */
    function BufferedBytes(): (r: nat)
      requires Valid()
      reads this, header, if body.Some? then {body.value} else {}
      ensures |Pending()| <= r <= HEADER_LENGTH + maxFrameLength
      ensures r == 0 <==> Pending() == []
    {
      if body.None? then headerOffset else HEADER_LENGTH + body.value.Length
    }

    /** A validated header whose body has not arrived. */
    method StartPendingBody(bytes: Bytes, offset: nat) returns (ok: bool)
      requires header.Length == HEADER_LENGTH && MIN_FRAME_LENGTH <= maxFrameLength <= DEFAULT_MAX_FRAME_LENGTH
      requires offset + HEADER_LENGTH <= |bytes|
      modifies this`headerOffset, this`body, this`bodyOffset, this`ordinal, this`recordLength
      ensures ok == LengthAccepted(Number(bytes[offset + 8..offset + 11]), maxFrameLength)
      ensures ok ==> body.Some? && fresh(body.value) && Valid() && Pending() == bytes[offset..offset + HEADER_LENGTH]
      ensures !ok ==> unchanged(this)
    {
      var length := Number(bytes[offset + 8..offset + 11]);
      ok := LengthAccepted(length, maxFrameLength);
      if ok {
        ordinal := ReadOrdinal(bytes, offset);
        recordLength := length;
        var buffer := new byte[length](_ => 0);
        body := Some(buffer);
        bodyOffset := 0;
        headerOffset := 0;
        Widths();
        DigitsOfNumber(bytes[offset..offset + 8]);
        DigitsOfNumber(bytes[offset + 8..offset + 11]);
        assert bytes[offset..offset + HEADER_LENGTH]
            == bytes[offset..offset + 8] + bytes[offset + 8..offset + 11] + buffer[..0];
      }
    }

    /** Between two chunks the retained bytes never hold a whole record. */
    lemma PendingIsIncomplete()
      requires Valid()
      ensures Next(Pending(), maxFrameLength) == Incomplete
    {
      if body.Some? {
        HeaderReads(ordinal, body.value[..], []);
        var full := Digits(ordinal, 8) + Digits(recordLength, 3) + body.value[..];
        assert full + [] == full;
        assert Pending()[8..11] == full[8..11];
      }
    }

    /** A filled body completes its record. */
    lemma FilledBodyDecodes(rest: Bytes)
      requires Filling() && body.Some? && bodyOffset == recordLength
      ensures Next(Pending() + rest, maxFrameLength) == Decoded(ordinal, body.value[..])
      ensures |Pending()| == HEADER_LENGTH + recordLength
    {
      HeaderReads(ordinal, body.value[..], rest);
      assert body.value[..bodyOffset] == body.value[..];
    }

    /** Copies as much of the chunk as the header still needs. */
    method FillHeader(chunk: Bytes, offset: nat) returns (copied: nat)
      requires Valid() && body.None? && offset < |chunk|
      modifies this`headerOffset, header
      ensures Filling() && 0 < copied && offset + copied <= |chunk|
      ensures Pending() == old(Pending()) + chunk[offset..offset + copied]
      ensures headerOffset < HEADER_LENGTH ==> offset + copied == |chunk|
    {
      copied := Min(HEADER_LENGTH - headerOffset, |chunk| - offset);
      forall k | 0 <= k < copied {
        header[headerOffset + k] := chunk[offset + k];
      }
      headerOffset := headerOffset + copied;
    }

    /** Copies as much of the chunk as the body still needs. */
    method FillBody(chunk: Bytes, offset: nat) returns (copied: nat)
      requires Valid() && body.Some? && offset < |chunk|
      modifies this`bodyOffset, body.value
      ensures Filling() && 0 < copied && offset + copied <= |chunk|
      ensures Pending() == old(Pending()) + chunk[offset..offset + copied]
      ensures bodyOffset < recordLength ==> offset + copied == |chunk|
    {
      copied := Min(recordLength - bodyOffset, |chunk| - offset);
      ghost var before := body.value[..bodyOffset];
      var buffer, start := body.value, bodyOffset;
      forall k | 0 <= k < copied {
        buffer[start + k] := chunk[offset + k];
      }
      bodyOffset := bodyOffset + copied;
      assert body.value[..bodyOffset] == before + chunk[offset..offset + copied];
      ConcatAssociates(Digits(ordinal, 8) + Digits(recordLength, 3), before, chunk[offset..offset + copied]);
    }

    /** Releases a filled body and decodes it; a skip with an invalid stream id fails. */
    method EmitPendingBody() returns (h: Head)
      requires Filling() && body.Some? && bodyOffset == recordLength
      modifies this
      ensures h == old(Decoded(ordinal, body.value[..]))
      ensures Valid() && body == None && Pending() == []
    {
      h := Decoded(ordinal, body.value[..]);
      body := None;
      bodyOffset := 0;
      ordinal := 0;
      recordLength := 0;
    }

    /** Copies into the retained body, and emits it once it is whole. */
    method AdvanceBody(chunk: Bytes, offset: nat) returns (h: Head, used: nat)
      requires Valid() && body.Some? && offset < |chunk|
      modifies this, body.value
      ensures 0 < used && offset + used <= |chunk|
      ensures Valid() && body in {None, old(body)}
      ensures Advanced(old(Pending()) + chunk[offset..], h, Pending() + chunk[offset + used..], maxFrameLength)
    {
      ghost var pending := Pending();
      used := FillBody(chunk, offset);
      SplitAt(chunk, offset, used);
      ConcatAssociates(pending, chunk[offset..offset + used], chunk[offset + used..]);
      h := Incomplete;
      if bodyOffset == recordLength {
        FilledBodyDecodes(chunk[offset + used..]);
        ghost var packet := Pending();
        h := EmitPendingBody();
        assert (packet + chunk[offset + used..])[|packet|..] == [] + chunk[offset + used..];
      }
    }

    /** Copies into the retained header, and allocates the body once it is whole. */
    method AdvanceHeader(chunk: Bytes, offset: nat) returns (h: Head, used: nat)
      requires Valid() && body.None? && offset < |chunk|
      modifies this, header
      ensures 0 < used && offset + used <= |chunk|
      ensures h != Malformed ==> Valid()
      ensures body.Some? ==> fresh(body.value)
      ensures Advanced(old(Pending()) + chunk[offset..], h,
                       if h == Malformed then [] else Pending() + chunk[offset + used..], maxFrameLength)
    {
      ghost var pending := Pending();
      used := FillHeader(chunk, offset);
      SplitAt(chunk, offset, used);
      ConcatAssociates(pending, chunk[offset..offset + used], chunk[offset + used..]);
      h := Incomplete;
      if headerOffset == HEADER_LENGTH {
        ghost var filled := Pending();
        assert (filled + chunk[offset + used..])[8..11] == header[8..11];
        var ok := StartPendingBody(header[..], 0);
        if !ok {
          h := Malformed;
        }
      }
    }

    /** Reads straight from the chunk when a whole header is in it and nothing is retained. */
    method AdvanceChunk(chunk: Bytes, offset: nat) returns (h: Head, used: nat)
      requires Valid() && body.None? && headerOffset == 0 && offset + HEADER_LENGTH <= |chunk|
      modifies this
      ensures offset + used <= |chunk|
      ensures h != Malformed ==> Valid() && 0 < used
      ensures body.Some? ==> fresh(body.value)
      ensures Advanced(old(Pending()) + chunk[offset..], h,
                       if h == Malformed then [] else Pending() + chunk[offset + used..], maxFrameLength)
    {
      WholeHeader(chunk, offset, maxFrameLength);
      HeaderTaken(chunk, offset, maxFrameLength);
      hide Advanced, Number, Digits, Decoded;
      assert Pending() + chunk[offset..] == chunk[offset..];
      h, used := Malformed, 0;
      var length := Number(chunk[offset + 8..offset + 11]);
      if LengthAccepted(length, maxFrameLength) {
        var bodyStart := offset + HEADER_LENGTH;
        if |chunk| - offset < HEADER_LENGTH + length {
          var ok := StartPendingBody(chunk, offset);
          h, used := Incomplete, HEADER_LENGTH;
        } else {
          var ordinal := ReadOrdinal(chunk, offset);
          h := Decoded(ordinal, chunk[bodyStart..bodyStart + length]);
          used := HEADER_LENGTH + length;
          assert Pending() + chunk[offset + used..] == chunk[offset + used..];
        }
      }
    }

    /** One turn of the decoding loop. */
    method Advance(chunk: Bytes, offset: nat) returns (h: Head, used: nat)
      requires Valid() && offset < |chunk|
      modifies this, header, if body.Some? then {body.value} else {}
      ensures offset + used <= |chunk|
      ensures h != Malformed ==> Valid() && 0 < used
      ensures body.Some? && body != old(body) ==> fresh(body.value)
      ensures Advanced(old(Pending()) + chunk[offset..], h,
                       if h == Malformed then [] else Pending() + chunk[offset + used..], maxFrameLength)
    {
      hide Next, Pending, Number, Digits;
      if body.Some? {
        h, used := AdvanceBody(chunk, offset);
      } else if headerOffset != 0 || |chunk| - offset < HEADER_LENGTH {
        h, used := AdvanceHeader(chunk, offset);
      } else {
        h, used := AdvanceChunk(chunk, offset);
      }
    }

    /**
      Consumes one chunk. However the chunk cuts records, what is emitted, whether it fails, and
      what stays buffered are those of the retained bytes followed by the chunk.
     */
    method Push(chunk: Bytes) returns (emitted: seq<Record>, failed: bool)
      requires Valid()
      modifies this, header, if body.Some? then {body.value} else {}
      ensures var p := Parse(old(Pending()) + chunk, maxFrameLength);
              && emitted == p.records
              && failed == p.failed
              && (!failed ==> Valid() && Pending() == p.rest)
      ensures body.Some? && body != old(body) ==> fresh(body.value)
    {
      hide Parse, Prepend, Next, Advanced, Pending;
      emitted, failed := [], false;
      var offset := 0;
      ghost var all := Pending() + chunk;
      assert chunk[0..] == chunk;
      PrependNothing(Parse(all, maxFrameLength));
      while offset < |chunk| && !failed
        invariant offset <= |chunk|
        invariant body.Some? && body != old(body) ==> fresh(body.value)
        invariant !failed ==> Valid()
        invariant failed ==> Parse(all, maxFrameLength).failed && Parse(all, maxFrameLength).records == emitted
        invariant !failed ==> Parse(all, maxFrameLength)
                              == Prepend(emitted, Parse(Pending() + chunk[offset..], maxFrameLength))
        decreases |chunk| - offset, !failed
      {
        ghost var before := Pending() + chunk[offset..];
        var h, used := Advance(chunk, offset);
        offset := offset + used;
        ghost var after := if h == Malformed then [] else Pending() + chunk[offset..];
        ParseTurn(all, emitted, before, h, after, maxFrameLength);
        if h.Complete? {
          emitted := emitted + [h.record];
        } else if h.Malformed? {
          failed := true;
        }
      }
      if !failed {
        assert Pending() + chunk[offset..] == Pending();
        PendingIsIncomplete();
        ParseEnds(all, emitted, Pending(), maxFrameLength);
      }
    }

    /** Releases an incomplete record. */
    method Reset()
      requires Valid()
      modifies this
      ensures Valid() && Pending() == []
    {
      headerOffset := 0;
      body := None;
      bodyOffset := 0;
      ordinal := 0;
      recordLength := 0;
    }

    /** Accepts the end of the stream exactly on a record boundary. */
    method Finish() returns (ok: bool)
      requires Valid()
      modifies this
      ensures ok == (old(Pending()) == [])
      ensures Valid() && Pending() == []
    {
      var length := if body.None? then headerOffset else HEADER_LENGTH + bodyOffset;
      Reset();
      ok := length == 0;
    }
  }
}
