/** The two reassemblers an endpoint keeps, one map entry for each stream in the middle of a sequence. */
module FragmentStores {
  import opened Common
  import opened Frames
  import opened Reassembly

  datatype PayloadState = PayloadState(parts: Parts, flags: Flags)

  datatype RequestState = RequestState(initial: Frame, parts: Parts)

  /** Totals match the chunks, and no chunk is empty. */
  ghost predicate Accumulated(p: Parts)
  {
    PartsOk(p) && [] !in p.metadataChunks && [] !in p.dataChunks
  }

  /** Pushes the sections of one fragment, unless metadata would follow data. */
  method AppendFragmentParts(state: Parts, frame: Frame) returns (ok: bool, next: Parts)
    requires Accumulated(state)
    ensures ok == AppendParts(state, frame).Some?
    ensures ok ==> AppendParts(state, frame) == Some(next) && Accumulated(next)
    ensures !ok ==> next == state
  {
    next := state;
    ok := !(state.dataLength > 0 && HasMetadata(frame));
    if ok {
      AppendPartsExtends(state, frame);
      var metadata, data := BytesOf(frame.metadata), BytesOf(frame.data);
      if |metadata| > 0 {
        next := next.(metadataChunks := next.metadataChunks + [metadata],
                      metadataLength := next.metadataLength + |metadata|);
      }
      if |data| > 0 {
        next := next.(dataChunks := next.dataChunks + [data], dataLength := next.dataLength + |data|);
      }
      if HasMetadata(frame) {
        next := next.(hasMetadata := true);
      }
    }
  }

  /** The joined sections of a complete sequence. */
  method Join(p: Parts) returns (metadata: Option<Bytes>, data: Bytes)
    requires Accumulated(p)
    ensures metadata == JoinedMetadata(p) && data == Flatten(p.dataChunks)
  {
    metadata := None;
    if p.hasMetadata {
      var bytes := ConcatFragmentBytes(p.metadataChunks, p.metadataLength);
      metadata := Some(bytes);
    }
    data := ConcatFragmentBytes(p.dataChunks, p.dataLength);
  }

  /** PAYLOAD sequences, by stream. */
  class PayloadFragments {
    var fragments: map<nat, PayloadState>

    ghost predicate Valid()
      reads this
    {
      forall id :: id in fragments ==> Accumulated(fragments[id].parts)
    }

    ghost function StateOf(id: nat): StreamState
      reads this
    {
      if id in fragments then PayloadParts(fragments[id].parts, fragments[id].flags) else Whole
    }

    constructor ()
      ensures Valid() && fragments == map[]
    {
      fragments := map[];
    }

    method Delete(id: nat)
      requires Valid()
      modifies this
      ensures Valid() && fragments == old(fragments) - {id}
    {
      fragments := fragments - {id};
    }

    /** Takes one fragment of a sequence, or passes a whole PAYLOAD through. */
    method ReassemblePayloadFrame(frame: Frame) returns (outcome: Outcome)
      requires Valid()
      modifies this
      ensures Valid()
      ensures Progress(StateOf(frame.streamId), outcome) == ReassemblePayload(old(StateOf(frame.streamId)), frame)
      ensures fragments - {frame.streamId} == old(fragments) - {frame.streamId}
    {
      hide AppendParts, Accumulated;
      var id := frame.streamId;
      outcome := Rejected;
      if !frame.flags.next && !frame.flags.complete && !frame.flags.follows {
        Delete(id);
      } else {
        var follows := frame.flags.follows && !frame.flags.complete;
        if !follows && id !in fragments && !frame.flags.follows {
          outcome := Delivered(frame);
        } else {
          var state := if id in fragments then fragments[id].parts else NO_PARTS;
          NoPartsAccumulate();
          var ok, parts := AppendFragmentParts(state, frame);
          if !ok {
            Delete(id);
          } else if follows {
            fragments := fragments[id := PayloadState(parts, LogicalFlags(frame.flags))];
            outcome := Pending;
          } else {
            outcome := Complete(parts, id, LogicalFlags(frame.flags));
            Delete(id);
          }
        }
      }
    }

    /** The logical PAYLOAD of a complete sequence. */
    static method Complete(parts: Parts, id: nat, flags: Flags) returns (outcome: Outcome)
      requires Accumulated(parts)
      ensures outcome == Delivered(Make(Payload, id, flags, 0, JoinedMetadata(parts),
                                        if parts.dataLength > 0 || flags.next then Some(Flatten(parts.dataChunks))
                                            else None))
    {
      var metadata, data := Join(parts);
      outcome := Delivered(Make(Payload, id, flags, 0, metadata,
                                if parts.dataLength > 0 || flags.next then Some(data) else None));
    }
  }

  lemma NoPartsAccumulate()
    ensures Accumulated(NO_PARTS)
  {}

  /** Initial request sequences, by stream. */
  class RequestFragmentAssembler {
    var fragments: map<nat, RequestState>

    ghost predicate Valid()
      reads this
    {
      forall id :: id in fragments ==> Accumulated(fragments[id].parts)
    }

    ghost function StateOf(id: nat): StreamState
      reads this
    {
      if id in fragments then RequestParts(fragments[id].initial, fragments[id].parts) else Whole
    }

    constructor ()
      ensures Valid() && fragments == map[]
    {
      fragments := map[];
    }

    method Delete(id: nat)
      requires Valid()
      modifies this
      ensures Valid() && fragments == old(fragments) - {id}
    {
      fragments := fragments - {id};
    }

    /** Starts a sequence; one already in progress on the stream is an error. */
    method Start(frame: Frame) returns (outcome: Outcome)
      requires Valid() && frame.flags.follows
      modifies this
      ensures Valid()
      ensures Progress(StateOf(frame.streamId), outcome) == ReceiveInitial(old(StateOf(frame.streamId)), frame)
      ensures fragments - {frame.streamId} == old(fragments) - {frame.streamId}
    {
      if frame.streamId in fragments {
        outcome := Rejected;
      } else {
        NoPartsAccumulate();
        var _, parts := AppendFragmentParts(NO_PARTS, frame);
        fragments := fragments[frame.streamId := RequestState(frame, parts)];
        outcome := Pending;
      }
    }

    /** Adds a continuation; the last one yields the request as it was before it was split. */
    method Continue(frame: Frame) returns (outcome: Outcome)
      requires Valid() && frame.streamId in fragments
      modifies this
      ensures Valid()
      ensures Progress(StateOf(frame.streamId), outcome) == ContinueRequest(old(StateOf(frame.streamId)), frame)
      ensures fragments - {frame.streamId} == old(fragments) - {frame.streamId}
    {
      hide AppendParts, Accumulated;
      var id := frame.streamId;
      outcome := Rejected;
      if !frame.flags.next && !frame.flags.complete && !frame.flags.follows {
        Delete(id);
      } else {
        var initial := fragments[id].initial;
        var ok, parts := AppendFragmentParts(fragments[id].parts, frame);
        if !ok {
          Delete(id);
        } else if frame.flags.follows && !frame.flags.complete {
          fragments := fragments[id := RequestState(initial, parts)];
          outcome := Pending;
        } else {
          outcome := Rebuild(initial, parts, frame);
          Delete(id);
        }
      }
    }

    /** The original request, with a channel's COMPLETE taken from the last fragment. */
    static method Rebuild(initial: Frame, parts: Parts, last: Frame) returns (outcome: Outcome)
      requires Accumulated(parts)
      ensures outcome == Delivered(RebuildRequest(initial, parts, last))
    {
      var metadata, data := Join(parts);
      var flags := LogicalFlags(initial.flags);
      if initial.kind.RequestChannel? && last.flags.complete {
        flags := flags.(complete := true);
      }
      outcome := Delivered(Make(initial.kind, initial.streamId, flags, initial.requestN, metadata, Some(data)));
    }
  }
}
