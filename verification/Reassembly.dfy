/** Joining received fragments back into the frame that was split. */
module Reassembly {
  import opened Common
  import opened Frames
  import opened Fragmentation

  /** Bytes accumulated for one fragmented logical frame. */
  datatype Parts = Parts(
    metadataChunks: seq<Bytes>, dataChunks: seq<Bytes>,
    hasMetadata: bool, metadataLength: nat, dataLength: nat)

  const NO_PARTS := Parts([], [], false, 0, 0)

  ghost predicate PartsOk(p: Parts)
  {
    && p.metadataLength == |Flatten(p.metadataChunks)|
    && p.dataLength == |Flatten(p.dataChunks)|
  }

  /** Appends metadata before data, or refuses metadata after data. */
  function AppendParts(p: Parts, f: Frame): (r: Option<Parts>)
    ensures r.None? <==> p.dataLength > 0 && HasMetadata(f)
  {
    if p.dataLength > 0 && HasMetadata(f) then None
    else
      var metadata, data := BytesOf(f.metadata), BytesOf(f.data);
      Some(Parts(
        if metadata != [] then p.metadataChunks + [metadata] else p.metadataChunks,
        if data != [] then p.dataChunks + [data] else p.dataChunks,
        p.hasMetadata || HasMetadata(f),
        p.metadataLength + |metadata|, p.dataLength + |data|))
  }

  lemma AppendPartsExtends(p: Parts, f: Frame)
    requires PartsOk(p) && AppendParts(p, f).Some?
    ensures var q := AppendParts(p, f).value;
            && PartsOk(q)
            && Flatten(q.metadataChunks) == Flatten(p.metadataChunks) + BytesOf(f.metadata)
            && Flatten(q.dataChunks) == Flatten(p.dataChunks) + BytesOf(f.data)
  {
    FlattenAppend(p.metadataChunks, BytesOf(f.metadata));
    FlattenAppend(p.dataChunks, BytesOf(f.data));
    assert Flatten(p.metadataChunks) + [] == Flatten(p.metadataChunks);
    assert Flatten(p.dataChunks) + [] == Flatten(p.dataChunks);
  }

  /** Copies the retained views into one buffer of the accumulated length. */
  method ConcatFragmentBytes(chunks: seq<Bytes>, length: nat) returns (bytes: Bytes)
    requires length == |Flatten(chunks)|
    requires forall c :: c in chunks ==> c != []
    ensures bytes == Flatten(chunks)
  {
    if length == 0 {
      return [];
    }
    if |chunks| == 1 {
      assert Flatten(chunks) == chunks[0];
      return chunks[0];
    }
    var buffer := new byte[length](_ => 0);
    var offset, index := 0, 0;
    assert chunks[..0] == [];
    while index < |chunks|
      invariant 0 <= index <= |chunks| && offset == |Flatten(chunks[..index])| <= length
      invariant buffer[..offset] == Flatten(chunks[..index])
    {
      var value := chunks[index];
      FlattenSplit(chunks, index);
      forall k | 0 <= k < |value| {
        buffer[offset + k] := value[k];
      }
      assert buffer[..offset + |value|] == Flatten(chunks[..index]) + value;
      offset := offset + |value|;
      index := index + 1;
    }
    assert chunks[..index] == chunks;
    bytes := buffer[..];
  }

  lemma FlattenSplit(chunks: seq<Bytes>, k: nat)
    requires k < |chunks|
    ensures Flatten(chunks[..k + 1]) == Flatten(chunks[..k]) + chunks[k]
    ensures |Flatten(chunks[..k + 1])| <= |Flatten(chunks)|
  {
    assert chunks[..k + 1] == chunks[..k] + [chunks[k]];
    FlattenAppend(chunks[..k], chunks[k]);
    assert chunks == chunks[..k + 1] + chunks[k + 1..];
    FlattenConcat(chunks[..k + 1], chunks[k + 1..]);
  }

  // ----- one stream

  /** What an endpoint remembers of one stream between fragments. */
  datatype StreamState =
    | Whole
    | RequestParts(initial: Frame, request: Parts)
    | PayloadParts(payload: Parts, flags: Flags)

  datatype Outcome = Pending | Delivered(frame: Frame) | Rejected

  /** The new state of a stream, and what one frame of it yields. */
  datatype Progress = Progress(state: StreamState, outcome: Outcome)

  function LogicalFlags(flags: Flags): Flags
  {
    flags.(follows := false, metadata := false)
  }

  function JoinedMetadata(p: Parts): Option<Bytes>
  {
    if p.hasMetadata then Some(Flatten(p.metadataChunks)) else None
  }

  /** Restores the original request type after all continuation bytes arrived. */
  function RebuildRequest(initial: Frame, p: Parts, last: Frame): Frame
  {
    var flags := LogicalFlags(initial.flags);
    Make(initial.kind, initial.streamId,
         if initial.kind.RequestChannel? && last.flags.complete then flags.(complete := true) else flags,
         initial.requestN, JoinedMetadata(p), Some(Flatten(p.dataChunks)))
  }

  /** An initial request: delivered at once or the start of a fragment sequence. */
  function ReceiveInitial(st: StreamState, f: Frame): Progress
  {
    if !f.flags.follows then Progress(st, Delivered(f))
    else if st.RequestParts? then Progress(st, Rejected)
    else Progress(RequestParts(f, AppendParts(NO_PARTS, f).value), Pending)
  }

  /** A PAYLOAD continuing a fragmented request. */
  function ContinueRequest(st: StreamState, f: Frame): Progress
    requires st.RequestParts?
  {
    if !f.flags.next && !f.flags.complete && !f.flags.follows then Progress(Whole, Rejected)
    else match AppendParts(st.request, f)
      case None => Progress(Whole, Rejected)
      case Some(parts) =>
        if f.flags.follows && !f.flags.complete then Progress(RequestParts(st.initial, parts), Pending)
        else Progress(Whole, Delivered(RebuildRequest(st.initial, parts, f)))
  }

  /** A PAYLOAD of its own, possibly one fragment of it. */
  function ReassemblePayload(st: StreamState, f: Frame): Progress
    requires !st.RequestParts?
  {
    if !f.flags.next && !f.flags.complete && !f.flags.follows then Progress(Whole, Rejected)
    else
      // COMPLETE wins over a contradictory FOLLOWS.
      var follows := f.flags.follows && !f.flags.complete;
      if !follows && st.Whole? && !f.flags.follows then Progress(Whole, Delivered(f))
      else
        var flags := LogicalFlags(f.flags);
        match AppendParts(if st.PayloadParts? then st.payload else NO_PARTS, f)
        case None => Progress(Whole, Rejected)
        case Some(parts) =>
          if follows then Progress(PayloadParts(parts, flags), Pending)
          else Progress(Whole, Delivered(Make(Payload, f.streamId, flags, 0, JoinedMetadata(parts),
                                      if parts.dataLength > 0 || flags.next then Some(Flatten(parts.dataChunks))
                                      else None)))
  }

  function Receive(st: StreamState, f: Frame): Progress
  {
    if f.kind.IsRequest() then ReceiveInitial(st, f)
    else if f.kind.Payload? then
      (if st.RequestParts? then ContinueRequest(st, f) else ReassemblePayload(st, f))
    else Progress(st, Delivered(f))
  }

  /** The frames are consumed in order; only the last one yields something, namely `outcome`. */
  ghost predicate Assembles(st: StreamState, frames: seq<Frame>, outcome: Outcome)
    decreases frames
  {
    && frames != []
    && var r := Receive(st, frames[0]);
       if |frames| == 1 then r == Progress(Whole, outcome)
       else r.outcome == Pending && Assembles(r.state, frames[1..], outcome)
  }

  // ----- round trips

  /** Same stream, type, request count, flags, metadata presence and bytes, and data bytes. */
  predicate SameContent(f: Frame, g: Frame)
  {
    && g.kind == f.kind && g.streamId == f.streamId && g.requestN == f.requestN && g.flags == f.flags
    && g.metadata == Received(f).metadata
    && BytesOf(g.data) == BytesOf(f.data)
  }

  /** The state reached when `metadata` and `data` are still to come. */
  ghost predicate Awaits(st: StreamState, f: Frame, metadata: Bytes, data: Bytes)
  {
    var p := if st.RequestParts? then st.request else if st.PayloadParts? then st.payload else NO_PARTS;
    && !st.Whole? && PartsOk(p)
    && st.RequestParts? == f.kind.IsRequest()
    && Flatten(p.metadataChunks) + metadata == BytesOf(f.metadata)
    && Flatten(p.dataChunks) + data == BytesOf(f.data)
    && p.hasMetadata == HasMetadata(f)
    && (p.dataLength > 0 ==> metadata == [])
    && (st.RequestParts? ==>
          && st.initial.kind == f.kind && st.initial.streamId == f.streamId && st.initial.requestN == f.requestN
          && LogicalFlags(st.initial.flags) == KeptFlags(f))
  }

  /** The flags the first fragment of a split frame keeps. */
  function KeptFlags(f: Frame): Flags
  {
    if f.kind.RequestChannel? then LogicalFlags(f.flags).(complete := false) else LogicalFlags(f.flags)
  }

  /** One continuation fragment moves its share of the bytes into the accumulated parts. */
  lemma AppendContinuation(p: Parts, f: Frame, metadata: Bytes, data: Bytes, m: nat, d: nat, follows: bool)
    requires Constructed(f) && PartsOk(p) && m <= |metadata| && d <= |data|
    requires Flatten(p.metadataChunks) + metadata == BytesOf(f.metadata)
    requires Flatten(p.dataChunks) + data == BytesOf(f.data)
    requires p.dataLength > 0 ==> metadata == []
    requires p.hasMetadata == HasMetadata(f) && (metadata != [] ==> HasMetadata(f))
    ensures var section := if metadata != [] then Some(metadata[..m]) else None;
            var piece := Received(ContinuationFragment(f, section, data[..d], follows));
            var r := AppendParts(p, piece);
            && r.Some? && PartsOk(r.value)
            && Flatten(r.value.metadataChunks) + metadata[m..] == BytesOf(f.metadata)
            && Flatten(r.value.dataChunks) + data[d..] == BytesOf(f.data)
            && r.value.hasMetadata == HasMetadata(f)
            && r.value.dataLength == p.dataLength + d
  {
    var section := if metadata != [] then Some(metadata[..m]) else None;
    var piece := Received(ContinuationFragment(f, section, data[..d], follows));
    assert BytesOf(piece.metadata) == metadata[..m] && BytesOf(piece.data) == data[..d];
    hide Flatten;
    AppendPartsExtends(p, piece);
    ConcatAssociates(Flatten(p.metadataChunks), metadata[..m], metadata[m..]);
    ConcatAssociates(Flatten(p.dataChunks), data[..d], data[d..]);
    TakeThenDrop(metadata, m);
    TakeThenDrop(data, d);
  }

  /** PAYLOAD must carry NEXT, COMPLETE or both. */
  predicate ProtocolValid(f: Frame)
  {
    f.kind.Payload? ==> f.flags.next || f.flags.complete
  }

  /** What joining the pieces of a frame gives. */
  function Joined(f: Frame): Outcome
  {
    if !ProtocolValid(f) then Rejected
    else Delivered(Received(f).(data :=
      if f.kind.Payload? && BytesOf(f.data) == [] && !f.flags.next then None else Some(BytesOf(f.data))))
  }

  /** One piece of a PAYLOAD's own sequence. */
  lemma ContinuesPayload(st: StreamState, f: Frame, metadata: Bytes, data: Bytes, m: nat, d: nat)
    requires Constructed(f) && f.kind.IsFragmentable() && !f.flags.follows
    requires st.PayloadParts? && Awaits(st, f, metadata, data) && m <= |metadata| && d <= |data|
    requires d > 0 ==> m == |metadata|
    ensures var section := if metadata != [] then Some(metadata[..m]) else None;
            var follows := m < |metadata| || d < |data|;
            var r := Receive(st, Received(ContinuationFragment(f, section, data[..d], follows)));
            if follows then r.outcome == Pending && Awaits(r.state, f, metadata[m..], data[d..])
            else r == Progress(Whole, Joined(f))
  {
    hide Flatten, AppendParts;
    var section := if metadata != [] then Some(metadata[..m]) else None;
    var follows := m < |metadata| || d < |data|;
    AppendContinuation(st.payload, f, metadata, data, m, d, follows);
    Completed(AppendParts(st.payload, Received(ContinuationFragment(f, section, data[..d], follows))).value,
              f, metadata[m..], data[d..]);
  }

  /** One PAYLOAD piece of a request's sequence. */
  lemma ContinuesRequest(st: StreamState, f: Frame, metadata: Bytes, data: Bytes, m: nat, d: nat)
    requires Constructed(f) && f.kind.IsFragmentable() && !f.flags.follows
    requires st.RequestParts? && Awaits(st, f, metadata, data) && m <= |metadata| && d <= |data|
    requires d > 0 ==> m == |metadata|
    ensures var section := if metadata != [] then Some(metadata[..m]) else None;
            var follows := m < |metadata| || d < |data|;
            var r := Receive(st, Received(ContinuationFragment(f, section, data[..d], follows)));
            if follows then r.outcome == Pending && Awaits(r.state, f, metadata[m..], data[d..])
            else r == Progress(Whole, Joined(f))
  {
    hide Flatten, AppendParts;
    var section := if metadata != [] then Some(metadata[..m]) else None;
    var follows := m < |metadata| || d < |data|;
    AppendContinuation(st.request, f, metadata, data, m, d, follows);
    Completed(AppendParts(st.request, Received(ContinuationFragment(f, section, data[..d], follows))).value,
              f, metadata[m..], data[d..]);
  }

  /** One continuation: the last one completes the frame, any other just accumulates. */
  lemma ReceiveContinuation(st: StreamState, f: Frame, metadata: Bytes, data: Bytes, m: nat, d: nat)
    requires Constructed(f) && f.kind.IsFragmentable() && !f.flags.follows
    requires Awaits(st, f, metadata, data) && m <= |metadata| && d <= |data|
    requires d > 0 ==> m == |metadata|
    ensures var section := if metadata != [] then Some(metadata[..m]) else None;
            var follows := m < |metadata| || d < |data|;
            var r := Receive(st, Received(ContinuationFragment(f, section, data[..d], follows)));
            if follows then r.outcome == Pending && Awaits(r.state, f, metadata[m..], data[d..])
            else r == Progress(Whole, Joined(f))
  {
    hide Receive, Joined;
    if st.RequestParts? {
      ContinuesRequest(st, f, metadata, data, m, d);
    } else {
      ContinuesPayload(st, f, metadata, data, m, d);
    }
  }

  /** Parts with nothing left to come hold the whole sections. */
  lemma Completed(p: Parts, f: Frame, metadata: Bytes, data: Bytes)
    requires Flatten(p.metadataChunks) + metadata == BytesOf(f.metadata)
    requires Flatten(p.dataChunks) + data == BytesOf(f.data)
    ensures metadata == [] && data == [] ==>
              Flatten(p.metadataChunks) == BytesOf(f.metadata) && Flatten(p.dataChunks) == BytesOf(f.data)
  {
    hide Flatten;
    if metadata == [] && data == [] {
      assert Flatten(p.metadataChunks) + [] == Flatten(p.metadataChunks);
      assert Flatten(p.dataChunks) + [] == Flatten(p.dataChunks);
    }
  }

  lemma {:induction false} ContinuationsAssemble(st: StreamState, f: Frame, metadata: Bytes, data: Bytes, limit: int)
    requires Constructed(f) && f.kind.IsFragmentable() && !f.flags.follows
    requires Awaits(st, f, metadata, data) && (metadata != [] || data != [])
    requires limit > PAYLOAD_DATA_OVERHEAD && (metadata != [] ==> limit > PAYLOAD_METADATA_OVERHEAD)
    ensures Assembles(st, ReceivedAll(Continuations(f, metadata, data, limit)), Joined(f))
    decreases |metadata| + |data|
  {
    hide Continuations, ContinuationFragment, Awaits, Receive, Joined;
    var m := MetadataShare(|metadata|, limit - PAYLOAD_METADATA_OVERHEAD);
    var d := DataShare(|metadata|, |data|, limit - PAYLOAD_METADATA_OVERHEAD, limit - PAYLOAD_DATA_OVERHEAD);
    NextContinuation(f, metadata, data, limit);
    ReceiveContinuation(st, f, metadata, data, m, d);
    var section := if metadata != [] then Some(metadata[..m]) else None;
    var piece := ContinuationFragment(f, section, data[..d], m < |metadata| || d < |data|);
    var rest := Continuations(f, metadata[m..], data[d..], limit);
    assert ([piece] + rest)[1..] == rest;
    assert ReceivedAll([piece] + rest) == [Received(piece)] + ReceivedAll(rest);
    assert ([Received(piece)] + ReceivedAll(rest))[1..] == ReceivedAll(rest);
    if m < |metadata| || d < |data| {
      ContinuationsAssemble(Receive(st, Received(piece)).state, f, metadata[m..], data[d..], limit);
    } else {
      assert metadata[m..] == [] && data[d..] == [];
      NoContinuation(f, limit);
    }
  }

  /** The first piece opens the sequence. */
  lemma ReceiveFirst(f: Frame, section: Option<Bytes>, m: nat, d: nat)
    requires Constructed(f) && f.kind.IsFragmentable() && !f.flags.follows
    requires m <= |BytesOf(f.metadata)| && d <= |BytesOf(f.data)|
    requires section == if HasMetadata(f) then Some(BytesOf(f.metadata)[..m]) else None
    requires d > 0 ==> m == |BytesOf(f.metadata)|
    ensures var r := Receive(Whole, Received(InitialFragment(f, section, BytesOf(f.data)[..d], true)));
            r.outcome == Pending && Awaits(r.state, f, BytesOf(f.metadata)[m..], BytesOf(f.data)[d..])
  {
    hide Flatten, AppendParts;
    FirstParts(f, section, m, d);
  }

  lemma FirstParts(f: Frame, section: Option<Bytes>, m: nat, d: nat)
    requires Constructed(f) && f.kind.IsFragmentable()
    requires m <= |BytesOf(f.metadata)| && d <= |BytesOf(f.data)|
    requires section == if HasMetadata(f) then Some(BytesOf(f.metadata)[..m]) else None
    ensures var piece := Received(InitialFragment(f, section, BytesOf(f.data)[..d], true));
            var r := AppendParts(NO_PARTS, piece);
            && r.Some? && PartsOk(r.value)
            && Flatten(r.value.metadataChunks) + BytesOf(f.metadata)[m..] == BytesOf(f.metadata)
            && Flatten(r.value.dataChunks) + BytesOf(f.data)[d..] == BytesOf(f.data)
            && r.value.hasMetadata == HasMetadata(f) && r.value.dataLength == d
  {
    var piece := Received(InitialFragment(f, section, BytesOf(f.data)[..d], true));
    assert BytesOf(piece.metadata) == BytesOf(f.metadata)[..m] && BytesOf(piece.data) == BytesOf(f.data)[..d];
    hide Flatten;
    AppendPartsExtends(NO_PARTS, piece);
    ConcatAssociates([], BytesOf(f.metadata)[..m], BytesOf(f.metadata)[m..]);
    ConcatAssociates([], BytesOf(f.data)[..d], BytesOf(f.data)[d..]);
    TakeThenDrop(BytesOf(f.metadata), m);
    TakeThenDrop(BytesOf(f.data), d);
    assert [] + BytesOf(f.metadata) == BytesOf(f.metadata) && [] + BytesOf(f.data) == BytesOf(f.data);
  }

  /** A piece and then pieces that assemble from where it leads. */
  lemma PieceThenRest(st: StreamState, piece: Frame, rest: seq<Frame>, outcome: Outcome)
    requires Receive(st, Received(piece)).outcome == Pending && rest != []
    requires Assembles(Receive(st, Received(piece)).state, ReceivedAll(rest), outcome)
    ensures Assembles(st, ReceivedAll([piece] + rest), outcome)
  {
    hide Receive, Received;
    assert ([piece] + rest)[1..] == rest;
    assert ReceivedAll([piece] + rest) == [Received(piece)] + ReceivedAll(rest);
    assert ([Received(piece)] + ReceivedAll(rest))[1..] == ReceivedAll(rest);
  }

  lemma FragmentsAssemble(f: Frame, limit: int)
    requires Constructed(f) && f.kind.IsFragmentable() && !f.flags.follows
    requires Fits(f, limit) && |Serialize(f)| > limit
    ensures Assembles(Whole, ReceivedAll(Fragments(f, limit)), Joined(f))
  {
    EstimateIsExact(f);
    hide Serialize, Continuations, Receive, Joined, Awaits, InitialFragment, ReceivedAll, Assembles;
    var metadata, data := BytesOf(f.metadata), BytesOf(f.data);
    var m := MetadataShare(|metadata|, limit - Overhead(f.kind, true));
    var d := FirstData(f, limit);
    var section := if metadata != [] || HasMetadata(f) then Some(metadata[..m]) else None;
    ReceiveFirst(f, section, m, d);
    var piece := InitialFragment(f, section, data[..d], true);
    var rest := Continuations(f, metadata[m..], data[d..], limit);
    ContinuationsAssemble(Receive(Whole, Received(piece)).state, f, metadata[m..], data[d..], limit);
    AssemblesSomething(Receive(Whole, Received(piece)).state, rest, Joined(f));
    PieceThenRest(Whole, piece, rest, Joined(f));
  }

  lemma AssemblesSomething(st: StreamState, frames: seq<Frame>, outcome: Outcome)
    requires Assembles(st, ReceivedAll(frames), outcome)
    ensures frames != []
  {}

  /**
    Whatever is sent for a frame, split or not, the peer gets the frame back exactly if the frame
    was valid; an invalid PAYLOAD is refused with its last piece.
   */
  lemma RoundTrip(f: Frame, limit: int)
    requires Constructed(f) && f.kind.IsFragmentable() && !f.flags.follows
    requires Outbound(f, limit).Some?
    ensures var wire := ReceivedAll(Outbound(f, limit).value);
            if ProtocolValid(f)
            then exists g :: SameContent(f, g) && Assembles(Whole, wire, Delivered(g))
            else Assembles(Whole, wire, Rejected)
  {
    if |Serialize(f)| > limit {
      FragmentsAssemble(f, limit);
      assert ProtocolValid(f) ==> SameContent(f, Joined(f).frame);
    } else {
      assert ReceivedAll([f]) == [Received(f)];
      assert ProtocolValid(f) ==> SameContent(f, Received(f));
    }
  }

  // ----- many streams

  /** Fragment state of every stream; a stream without an entry has none. */
  type Store = map<nat, StreamState>

  function Get(m: Store, id: nat): StreamState
  {
    if id in m then m[id] else Whole
  }

  function Put(m: Store, id: nat, st: StreamState): Store
  {
    if st.Whole? then m - {id} else m[id := st]
  }

  /** The store after one frame. */
  function After(m: Store, f: Frame): Store
  {
    Put(m, f.streamId, Receive(Get(m, f.streamId), f).state)
  }

  function Outcomes(m: Store, frames: seq<Frame>): (outcomes: seq<Outcome>)
    ensures |outcomes| == |frames|
    decreases frames
  {
    if frames == [] then []
    else [Receive(Get(m, frames[0].streamId), frames[0]).outcome] + Outcomes(After(m, frames[0]), frames[1..])
  }

  /** Frames or outcomes belonging to one stream. */
  function On<T>(items: seq<T>, frames: seq<Frame>, id: nat): seq<T>
    requires |items| == |frames|
    decreases frames
  {
    if frames == [] then []
    else (if frames[0].streamId == id then [items[0]] else []) + On(items[1..], frames[1..], id)
  }

  function AloneOutcomes(st: StreamState, frames: seq<Frame>): seq<Outcome>
    decreases frames
  {
    if frames == [] then []
    else
      var r := Receive(st, frames[0]);
      [r.outcome] + AloneOutcomes(r.state, frames[1..])
  }

  /** However streams interleave, each one sees exactly what it would see in isolation. */
  lemma {:induction false} StreamsDoNotInterfere(m: Store, frames: seq<Frame>, id: nat)
    ensures On(Outcomes(m, frames), frames, id) == AloneOutcomes(Get(m, id), On(frames, frames, id))
    decreases frames
  {
    if frames != [] {
      hide Receive;
      var next := After(m, frames[0]);
      StreamsDoNotInterfere(next, frames[1..], id);
      var own := On(frames[1..], frames[1..], id);
      assert Outcomes(m, frames)[1..] == Outcomes(next, frames[1..]);
      if frames[0].streamId == id {
        assert ([frames[0]] + own)[1..] == own;
      } else {
        assert [] + own == own;
      }
    }
  }

  /** Nothing until the last frame, and then the outcome. */
  predicate OnlyAtLast(outs: seq<Outcome>, outcome: Outcome)
    decreases outs
  {
    && outs != []
    && if |outs| == 1 then outs[0] == outcome else outs[0] == Pending && OnlyAtLast(outs[1..], outcome)
  }

  lemma {:induction false} OnlyAtLastMeans(outs: seq<Outcome>, outcome: Outcome)
    requires OnlyAtLast(outs, outcome)
    ensures outs != [] && outs[|outs| - 1] == outcome
    ensures forall i :: 0 <= i < |outs| - 1 ==> outs[i] == Pending
    decreases outs
  {
    if |outs| > 1 {
      OnlyAtLastMeans(outs[1..], outcome);
      assert outs[1..][|outs| - 2] == outs[|outs| - 1];
      forall i | 1 <= i < |outs| - 1 ensures outs[i] == Pending {
        assert outs[i] == outs[1..][i - 1];
      }
    }
  }

  lemma {:induction false} AssemblesAlone(st: StreamState, frames: seq<Frame>, outcome: Outcome)
    requires Assembles(st, frames, outcome)
    ensures OnlyAtLast(AloneOutcomes(st, frames), outcome) && |AloneOutcomes(st, frames)| == |frames|
    decreases frames
  {
    hide Receive;
    var r := Receive(st, frames[0]);
    var rest := frames[1..];
    assert AloneOutcomes(st, frames) == [r.outcome] + AloneOutcomes(r.state, rest);
    if |frames| > 1 {
      AssemblesAlone(r.state, rest, outcome);
      assert ([r.outcome] + AloneOutcomes(r.state, rest))[1..] == AloneOutcomes(r.state, rest);
    } else {
      assert AloneOutcomes(r.state, rest) == [];
    }
  }

  /** A valid frame survives being split and interleaved with any other streams' fragments. */
  lemma InterleavedRoundTrip(f: Frame, limit: int, m: Store, arrivals: seq<Frame>)
    requires Constructed(f) && f.kind.IsFragmentable() && !f.flags.follows && ProtocolValid(f)
    requires Outbound(f, limit).Some? && Get(m, f.streamId).Whole?
    requires On(arrivals, arrivals, f.streamId) == ReceivedAll(Outbound(f, limit).value)
    ensures var outs := On(Outcomes(m, arrivals), arrivals, f.streamId);
            && outs != [] && outs[|outs| - 1].Delivered? && SameContent(f, outs[|outs| - 1].frame)
            && forall i :: 0 <= i < |outs| - 1 ==> outs[i] == Pending
  {
    hide Receive, Outbound, Outcomes, On, SameContent;
    RoundTrip(f, limit);
    StreamsDoNotInterfere(m, arrivals, f.streamId);
    var wire := ReceivedAll(Outbound(f, limit).value);
    var g :| SameContent(f, g) && Assembles(Whole, wire, Delivered(g));
    AssemblesAlone(Whole, wire, Delivered(g));
    OnlyAtLastMeans(AloneOutcomes(Whole, wire), Delivered(g));
  }
}
