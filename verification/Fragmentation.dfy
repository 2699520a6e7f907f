/** Splitting oversized frames into fragments that each fit the frame limit. */
module Fragmentation {
  import opened Common
  import opened Frames

  const FRAME_HEADER_LENGTH := 6
  const REQUEST_N_LENGTH := 4
  const METADATA_LENGTH_FIELD := 3
  const PAYLOAD_METADATA_OVERHEAD := FRAME_HEADER_LENGTH + METADATA_LENGTH_FIELD
  const PAYLOAD_DATA_OVERHEAD := FRAME_HEADER_LENGTH

  function Overhead(kind: Kind, hasMetadata: bool): int
  {
    FRAME_HEADER_LENGTH
    + (if kind.HasRequestN() then REQUEST_N_LENGTH else 0)
    + (if hasMetadata then METADATA_LENGTH_FIELD else 0)
  }

  function OutboundFrameLength(f: Frame): Option<int>
  {
    if !f.kind.IsFragmentable() then None
    else Some(Overhead(f.kind, HasMetadata(f)) + |BytesOf(f.metadata)| + |BytesOf(f.data)|)
  }

  /** The estimate used to avoid serializing oversized frames is exact. */
  lemma EstimateIsExact(f: Frame)
    requires Constructed(f) && f.kind.IsFragmentable()
    ensures OutboundFrameLength(f) == Some(|Serialize(f)|)
  {}

  // ----- flags of the pieces

  function InitialFlags(flags: Flags, follows: bool, kind: Kind, hasMetadata: bool): Flags
  {
    var base := flags.(metadata := hasMetadata, follows := false);
    var open := if follows && kind.RequestChannel? then base.(complete := false) else base;
    if follows then open.(follows := true) else open
  }

  function ContinuationFlags(kind: Kind, original: Flags, follows: bool, hasMetadata: bool): Flags
  {
    var flags := Flags(false, hasMetadata, false, false, true, 0);
    if follows then flags.(follows := true)
    else if kind.RequestChannel? && original.complete then flags.(complete := true)
    else flags
  }

  function PayloadFlags(flags: Flags, follows: bool, continuation: bool, hasMetadata: bool): Flags
  {
    var base := flags.(metadata := hasMetadata, follows := false);
    if follows then base.(complete := false, follows := true, next := base.next || continuation)
    else base
  }

  /** A section wrapped only if the original frame carried that section as a value. */
  function FragmentMetadata(f: Frame, bytes: Option<Bytes>): Option<Bytes>
  {
    if f.metadata.None? then None else bytes
  }

  function FragmentData(f: Frame, bytes: Bytes): Option<Bytes>
  {
    if bytes == [] || f.data.None? then None else Some(bytes)
  }

  function InitialFragment(f: Frame, metadata: Option<Bytes>, data: Bytes, follows: bool): Frame
  {
    var flags := if f.kind.Payload? then PayloadFlags(f.flags, follows, false, metadata.Some?)
                 else InitialFlags(f.flags, follows, f.kind, metadata.Some?);
    Make(f.kind, f.streamId, flags, f.requestN, FragmentMetadata(f, metadata), FragmentData(f, data))
  }

  function ContinuationFragment(f: Frame, metadata: Option<Bytes>, data: Bytes, follows: bool): Frame
  {
    var flags := if f.kind.Payload? then PayloadFlags(f.flags, follows, true, metadata.Some?)
                 else ContinuationFlags(f.kind, f.flags, follows, metadata.Some?);
    Make(Payload, f.streamId, flags, 0, FragmentMetadata(f, metadata), FragmentData(f, data))
  }

  // ----- the fragments as a recursive list

  /** How many metadata bytes go into a piece with this much room after its metadata header. */
  function MetadataShare(metadata: nat, capacity: int): (m: nat)
    requires metadata > 0 ==> capacity > 0
    ensures m <= metadata && (metadata > 0 ==> 0 < m)
  {
    if metadata == 0 then 0 else Min(metadata, capacity)
  }

  /** Data follows only once the metadata is complete. */
  function DataShare(metadata: nat, data: nat, metadataCapacity: int, dataCapacity: int): (d: nat)
    requires metadata > 0 ==> metadataCapacity > 0
    requires metadata == 0 && data > 0 ==> dataCapacity > 0
    ensures d <= data && (metadata == 0 && data > 0 ==> 0 < d)
    ensures d > 0 ==> MetadataShare(metadata, metadataCapacity) == metadata
  {
    if metadata == 0 then (if data == 0 then 0 else Min(data, dataCapacity))
    else if metadata <= metadataCapacity then Min(data, metadataCapacity - metadata)
    else 0
  }

  /** Continuation fragments for what is left of both sections. */
  function Continuations(f: Frame, metadata: Bytes, data: Bytes, limit: int): seq<Frame>
    requires metadata != [] ==> limit > PAYLOAD_METADATA_OVERHEAD
    requires data != [] ==> limit > PAYLOAD_DATA_OVERHEAD
    decreases |metadata| + |data|
  {
    if metadata == [] && data == [] then []
    else
      var m := MetadataShare(|metadata|, limit - PAYLOAD_METADATA_OVERHEAD);
      var d := DataShare(|metadata|, |data|, limit - PAYLOAD_METADATA_OVERHEAD, limit - PAYLOAD_DATA_OVERHEAD);
      var section := if metadata != [] then Some(metadata[..m]) else None;
      [ContinuationFragment(f, section, data[..d], m < |metadata| || d < |data|)]
      + Continuations(f, metadata[m..], data[d..], limit)
  }

  /** Whether a limit leaves room for the first piece; if it does it leaves room for all. */
  predicate Fits(f: Frame, limit: int)
  {
    var metadata, data := BytesOf(f.metadata), BytesOf(f.data);
    && (metadata != [] || data != [])
    && (if metadata != [] then limit > Overhead(f.kind, true)
        else if HasMetadata(f) then limit >= Overhead(f.kind, true)
        else limit > Overhead(f.kind, false))
  }

  function FirstData(f: Frame, limit: int): (d: nat)
    requires Fits(f, limit)
    ensures d <= |BytesOf(f.data)|
  {
    var metadata, data := |BytesOf(f.metadata)|, |BytesOf(f.data)|;
    if metadata == 0 && HasMetadata(f) then Min(data, limit - Overhead(f.kind, true))
    else DataShare(metadata, data, limit - Overhead(f.kind, true), limit - Overhead(f.kind, false))
  }

  function Fragments(f: Frame, limit: int): seq<Frame>
    requires Fits(f, limit)
  {
    var metadata, data := BytesOf(f.metadata), BytesOf(f.data);
    var m := MetadataShare(|metadata|, limit - Overhead(f.kind, true));
    var d := FirstData(f, limit);
    var section := if metadata != [] || HasMetadata(f) then Some(metadata[..m]) else None;
    [InitialFragment(f, section, data[..d], m < |metadata| || d < |data|)]
    + Continuations(f, metadata[m..], data[d..], limit)
  }

  // ----- the loop

  /** Sizes one piece, or finds that the limit leaves no room for it. */
  method SizePiece(metadataOverhead: int, dataOverhead: int, emptySection: bool,
                   metadataRemaining: nat, dataRemaining: nat, limit: int)
      returns (failed: bool, metadataLength: nat, dataLength: nat)
    requires metadataRemaining > 0 || dataRemaining > 0
    requires emptySection ==> metadataRemaining == 0
    ensures failed <==> if metadataRemaining > 0 then limit <= metadataOverhead
                        else if emptySection then limit < metadataOverhead
                        else limit <= dataOverhead
    ensures !failed ==> metadataLength == MetadataShare(metadataRemaining, limit - metadataOverhead)
    ensures !failed && !emptySection ==>
              dataLength == DataShare(metadataRemaining, dataRemaining, limit - metadataOverhead, limit - dataOverhead)
    ensures !failed && emptySection ==> dataLength == Min(dataRemaining, limit - metadataOverhead)
  {
    failed, metadataLength, dataLength := false, 0, 0;
    if metadataRemaining > 0 || emptySection {
      var metadataCapacity := limit - metadataOverhead;
      if metadataCapacity < 0 || (metadataCapacity == 0 && metadataRemaining > 0) {
        return true, 0, 0;
      }
      metadataLength := Min(metadataRemaining, metadataCapacity);
      if metadataLength == metadataRemaining && dataRemaining > 0 {
        var dataCapacity := limit - metadataOverhead - metadataLength;
        dataLength := Min(dataRemaining, Max(0, dataCapacity));
      }
    } else {
      var dataCapacity := limit - dataOverhead;
      if dataCapacity <= 0 {
        return true, 0, 0;
      }
      dataLength := Min(dataRemaining, dataCapacity);
    }
    if metadataLength <= 0 && dataLength <= 0 && !emptySection {
      failed := true;
    }
  }

  /**
    Emits the fragments one by one. It either fails before the first fragment or not at all, and
    what it emits is the recursive list.
   */
  method EmitFragmentFrames(f: Frame, limit: int) returns (emitted: seq<Frame>, failed: bool)
    requires Constructed(f) && f.kind.IsFragmentable()
    ensures failed <==> !Fits(f, limit)
    ensures failed ==> emitted == []
    ensures !failed ==> emitted == Fragments(f, limit)
  {
    hide Continuations, InitialFragment, ContinuationFragment, MetadataShare, DataShare, Min;
    emitted, failed := [], false;
    var metadataBytes, dataBytes := BytesOf(f.metadata), BytesOf(f.data);
    if |metadataBytes| == 0 && |dataBytes| == 0 {
      return [], true;
    }
    var metadataOffset, dataOffset, first := 0, 0, true;
    WholeIsRest(metadataBytes);
    WholeIsRest(dataBytes);
    while metadataOffset < |metadataBytes| || dataOffset < |dataBytes|
      invariant 0 <= metadataOffset <= |metadataBytes| && 0 <= dataOffset <= |dataBytes|
      invariant first ==> metadataOffset == dataOffset == 0 && emitted == []
      invariant !first ==> Fits(f, limit)
                           && emitted + Continuations(f, metadataBytes[metadataOffset..], dataBytes[dataOffset..],
                               limit)
                              == Fragments(f, limit)
      decreases |metadataBytes| - metadataOffset + |dataBytes| - dataOffset, first
    {
      var metadataOverhead := if first then Overhead(f.kind, true) else PAYLOAD_METADATA_OVERHEAD;
      var dataOverhead := if first then Overhead(f.kind, false) else PAYLOAD_DATA_OVERHEAD;
      var metadataRemaining := |metadataBytes| - metadataOffset;
      var dataRemaining := |dataBytes| - dataOffset;
      var includeMetadata := metadataRemaining > 0 || (first && HasMetadata(f));
      var metadataLength, dataLength;
      failed, metadataLength, dataLength := SizePiece(
        metadataOverhead, dataOverhead, includeMetadata && metadataRemaining == 0,
        metadataRemaining, dataRemaining, limit);
      if failed {
        return;
      }
      var follows := metadataOffset + metadataLength < |metadataBytes| || dataOffset + dataLength < |dataBytes|;
      var section := if includeMetadata
                     then Some(metadataBytes[metadataOffset..metadataOffset + metadataLength]) else None;
      var data := dataBytes[dataOffset..dataOffset + dataLength];
      var fragment := if first then InitialFragment(f, section, data, follows)
                      else ContinuationFragment(f, section, data, follows);
      PieceOfRest(metadataBytes, metadataOffset, metadataLength);
      PieceOfRest(dataBytes, dataOffset, dataLength);
      if !first {
        NextContinuation(f, metadataBytes[metadataOffset..], dataBytes[dataOffset..], limit);
      }
      ghost var rest := Continuations(f, metadataBytes[metadataOffset + metadataLength..],
                                      dataBytes[dataOffset + dataLength..], limit);
      ConcatAssociates(emitted, [fragment], rest);
      emitted := emitted + [fragment];
      metadataOffset := metadataOffset + metadataLength;
      dataOffset := dataOffset + dataLength;
      first := false;
    }
    NoContinuation(f, limit);
    assert metadataBytes[metadataOffset..] == [] && dataBytes[dataOffset..] == [] && emitted + [] == emitted;
  }

  lemma NextContinuation(f: Frame, metadata: Bytes, data: Bytes, limit: int)
    requires limit > PAYLOAD_DATA_OVERHEAD && (metadata != [] ==> limit > PAYLOAD_METADATA_OVERHEAD)
    requires metadata != [] || data != []
    ensures var m := MetadataShare(|metadata|, limit - PAYLOAD_METADATA_OVERHEAD);
            var d := DataShare(|metadata|, |data|, limit - PAYLOAD_METADATA_OVERHEAD, limit - PAYLOAD_DATA_OVERHEAD);
            && m + d > 0
            && Continuations(f, metadata, data, limit)
               == [ContinuationFragment(f, if metadata != [] then Some(metadata[..m]) else None, data[..d],
                                        m < |metadata| || d < |data|)]
                  + Continuations(f, metadata[m..], data[d..], limit)
  {}

  lemma NoContinuation(f: Frame, limit: int)
    ensures Continuations(f, [], [], limit) == []
  {}

  lemma WholeIsRest(bytes: Bytes)
    ensures bytes[0..] == bytes
  {}

  lemma PieceOfRest(bytes: Bytes, offset: nat, length: nat)
    requires offset + length <= |bytes|
    ensures bytes[offset..][..length] == bytes[offset..offset + length]
    ensures bytes[offset..][length..] == bytes[offset + length..]
  {}

  // ----- one logical outbound frame

  /** What reaches the transport for one frame, or None if it cannot be sent at all. */
  function Outbound(f: Frame, limit: int): Option<seq<Frame>>
  {
    if |Serialize(f)| <= limit then Some([f])
    else if f.kind.IsFragmentable() && Fits(f, limit) then Some(Fragments(f, limit))
    else None
  }

  /**
    A frame within the limit goes out as it is. A longer one fails exactly if its type cannot be
    split, it has nothing to split, or the limit leaves no room after the first header: 6 bytes, 4
    more for an initial request count, 3 more for the length of metadata. No limit above 13 does that.
   */
  method EmitSerializedOutboundFrames(f: Frame, limit: int) returns (emitted: seq<Frame>, failed: bool)
    requires Constructed(f)
    ensures if failed then emitted == [] && Outbound(f, limit) == None else Outbound(f, limit) == Some(emitted)
    ensures var metadata, data := |BytesOf(f.metadata)|, |BytesOf(f.data)|;
            var header := if f.kind.RequestStream? || f.kind.RequestChannel? then 6 + 4 else 6;
            failed <==> |Serialize(f)| > limit
                        && (|| f.kind.Other?
                            || (metadata == 0 && data == 0)
                            || (metadata > 0 && limit <= header + 3)
                            || (metadata == 0 && f.flags.metadata && limit < header + 3)
                            || (metadata == 0 && !f.flags.metadata && limit <= header))
    ensures |Serialize(f)| <= limit ==> emitted == [f]
    ensures failed ==> f.kind.Other? || limit <= 13
  {
    hide Fragments;
    if !f.kind.Other? {
      EstimateIsExact(f);
    }
    var estimatedLength := OutboundFrameLength(f);
    if estimatedLength.Some? && estimatedLength.value > limit {
      emitted, failed := EmitFragmentFrames(f, limit);
      return;
    }
    var bytes := Serialize(f);
    if |bytes| <= limit {
      return [f], false;
    }
    return [], true;
  }

  /** Every frame that can be split at all is sent at every limit above 13. */
  lemma SentAboveThirteen(f: Frame, limit: int)
    requires Constructed(f) && f.kind.IsFragmentable() && limit > 13
    ensures Outbound(f, limit).Some?
  {
    EstimateIsExact(f);
    hide Fragments, Serialize;
  }

  // ----- every piece fits, says whether another follows, and keeps metadata before data

  predicate Fitting(frames: seq<Frame>, limit: int)
  {
    forall g :: g in frames ==> Constructed(g) && |Serialize(g)| <= limit
  }

  /** All pieces but the last promise a continuation. */
  predicate Chained(frames: seq<Frame>)
  {
    forall i :: 0 <= i < |frames| ==> (frames[i].flags.follows <==> i < |frames| - 1)
  }

  /** No piece carries metadata once an earlier one carried data. */
  predicate MetadataFirst(frames: seq<Frame>)
  {
    forall i, j :: 0 <= i < j < |frames| && BytesOf(frames[i].data) != [] ==> !HasMetadata(frames[j])
  }

  predicate NoMetadata(frames: seq<Frame>)
  {
    forall g :: g in frames ==> !HasMetadata(g)
  }

  lemma {:induction false} ContinuationsWellFormed(f: Frame, metadata: Bytes, data: Bytes, limit: int)
    requires limit > PAYLOAD_DATA_OVERHEAD && (metadata != [] ==> limit > PAYLOAD_METADATA_OVERHEAD)
    ensures var frames := Continuations(f, metadata, data, limit);
            && Fitting(frames, limit) && Chained(frames) && MetadataFirst(frames)
            && (metadata == [] ==> NoMetadata(frames))
            && (frames == [] <==> metadata == [] && data == [])
    decreases |metadata| + |data|
  {
    if metadata != [] || data != [] {
      var m := MetadataShare(|metadata|, limit - PAYLOAD_METADATA_OVERHEAD);
      var d := DataShare(|metadata|, |data|, limit - PAYLOAD_METADATA_OVERHEAD, limit - PAYLOAD_DATA_OVERHEAD);
      NextContinuation(f, metadata, data, limit);
      var section := if metadata != [] then Some(metadata[..m]) else None;
      var piece := ContinuationFragment(f, section, data[..d], m < |metadata| || d < |data|);
      var rest := Continuations(f, metadata[m..], data[d..], limit);
      ContinuationsWellFormed(f, metadata[m..], data[d..], limit);
      ContinuationFits(f, section, data[..d], m < |metadata| || d < |data|, limit);
      assert d > 0 ==> metadata[m..] == [];
      hide Continuations, Serialize, ContinuationFragment;
      Prepend(piece, rest, limit);
    }
  }

  /** Putting a piece in front of a well-formed rest. */
  lemma Prepend(piece: Frame, rest: seq<Frame>, limit: int)
    requires Fitting(rest, limit) && Chained(rest) && MetadataFirst(rest)
    requires Constructed(piece) && |Serialize(piece)| <= limit
    requires piece.flags.follows <==> rest != []
    requires BytesOf(piece.data) != [] ==> NoMetadata(rest)
    ensures Fitting([piece] + rest, limit) && Chained([piece] + rest) && MetadataFirst([piece] + rest)
    ensures !HasMetadata(piece) && NoMetadata(rest) ==> NoMetadata([piece] + rest)
  {
    hide Serialize;
    var frames := [piece] + rest;
    forall i | 0 <= i < |frames| ensures frames[i].flags.follows <==> i < |frames| - 1 {
      if i > 0 {
        assert frames[i] == rest[i - 1];
      }
    }
    forall i, j | 0 <= i < j < |frames| && BytesOf(frames[i].data) != [] ensures !HasMetadata(frames[j]) {
      assert frames[j] == rest[j - 1] && rest[j - 1] in rest;
    }
  }

  lemma ContinuationFits(f: Frame, section: Option<Bytes>, data: Bytes, follows: bool, limit: int)
    requires PAYLOAD_DATA_OVERHEAD + (if section.Some? then METADATA_LENGTH_FIELD + |section.value| else 0)
             + |data| <= limit
    ensures |Serialize(ContinuationFragment(f, section, data, follows))| <= limit
    ensures ContinuationFragment(f, section, data, follows).flags.follows == follows
    ensures HasMetadata(ContinuationFragment(f, section, data, follows)) == section.Some?
  {
    EstimateIsExact(ContinuationFragment(f, section, data, follows));
  }

  lemma InitialFits(f: Frame, section: Option<Bytes>, data: Bytes, follows: bool, limit: int)
    requires f.kind.IsFragmentable() && Overhead(f.kind, section.Some?) + |BytesOf(section)| + |data| <= limit
    ensures |Serialize(InitialFragment(f, section, data, follows))| <= limit
    ensures InitialFragment(f, section, data, follows).flags.follows == follows
    ensures HasMetadata(InitialFragment(f, section, data, follows)) == section.Some?
  {
    EstimateIsExact(InitialFragment(f, section, data, follows));
  }

  /** The first piece never takes more than the limit leaves room for. */
  lemma FirstPieceRoom(f: Frame, limit: int)
    requires Constructed(f) && f.kind.IsFragmentable() && Fits(f, limit) && |Serialize(f)| > limit
    ensures var metadata, data := |BytesOf(f.metadata)|, |BytesOf(f.data)|;
            var m, d := MetadataShare(metadata, limit - Overhead(f.kind, true)), FirstData(f, limit);
            && (m < metadata || d < data) && (d > 0 ==> m == metadata)
            && Overhead(f.kind, HasMetadata(f)) + m + d <= limit
  {
    EstimateIsExact(f);
  }

  /** Whatever is sent for a frame fits the limit, is properly chained and keeps metadata first. */
  lemma OutboundWellFormed(f: Frame, limit: int)
    requires Constructed(f) && !f.flags.follows && Outbound(f, limit).Some?
    ensures var frames := Outbound(f, limit).value;
            && Fitting(frames, limit) && Chained(frames) && MetadataFirst(frames)
            && (|frames| > 1 <==> |Serialize(f)| > limit)
  {
    if |Serialize(f)| > limit {
      FirstPieceRoom(f, limit);
      FragmentsWellFormed(f, limit);
    }
  }

  lemma FragmentsWellFormed(f: Frame, limit: int)
    requires Constructed(f) && f.kind.IsFragmentable() && Fits(f, limit) && |Serialize(f)| > limit
    ensures var frames := Fragments(f, limit);
            Fitting(frames, limit) && Chained(frames) && MetadataFirst(frames) && |frames| > 1
  {
    hide Serialize, Fitting, Chained, MetadataFirst, Continuations, InitialFragment, MetadataShare, FirstData;
    FirstPieceRoom(f, limit);
    var metadata, data := BytesOf(f.metadata), BytesOf(f.data);
    var m := MetadataShare(|metadata|, limit - Overhead(f.kind, true));
    var d := FirstData(f, limit);
    var section := if metadata != [] || HasMetadata(f) then Some(metadata[..m]) else None;
    ContinuationsWellFormed(f, metadata[m..], data[d..], limit);
    InitialFits(f, section, data[..d], true, limit);
    SectionsOf(f, section, data[..d]);
    Prepend(InitialFragment(f, section, data[..d], true),
            Continuations(f, metadata[m..], data[d..], limit), limit);
  }

  lemma SectionsOf(f: Frame, section: Option<Bytes>, data: Bytes)
    ensures Constructed(InitialFragment(f, section, data, true))
    ensures BytesOf(InitialFragment(f, section, data, true).data) != [] ==> data != []
  {}
}
