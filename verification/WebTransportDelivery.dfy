/**
  The whole mapping at once: frames are routed to lanes, encoded, cut into chunks and possibly cut
  off, decoded lane by lane, mixed with datagrams in any order, and put back into order.
 */
module WebTransportDelivery {
  import opened Common
  import Records
  import opened OrderedReceiver
  import opened WebTransportMapping

  /** A queued record as it is encoded. */
  function OnWire(q: Queued): Records.Record
  {
    match q.record
    case FrameRecord(frame, _) => Records.FrameRecord(q.ordinal, frame.bytes)
    case SkipRecord(streamId, _) => Records.SkipRecord(q.ordinal, streamId)
  }

  /** A record on the wire of a reliable lane stands for a write on that lane, or for a datagram. */
  predicate Faithful(issues: seq<Issue>, lane: Lane, r: Records.Record)
  {
    && r.ordinal < |issues|
    && match r
       case FrameRecord(k, bytes) => issues[k].lane == lane && issues[k].frame.bytes == bytes
       case SkipRecord(k, streamId) =>
         lane == Control && issues[k].lane == Datagram && issues[k].frame.streamId == streamId
  }

  /** What the mapping queues on its lanes is faithful to what was written. */
  lemma QueuedIsFaithful(log: seq<Entry>, lane: Lane, q: Queued)
    requires WellMarked(log) && q in OnLane(log, lane)
    ensures Faithful(Writes(log), lane, OnWire(q))
  {
    QueuedStandsFor(log, lane, q);
  }

  /** What the receiver makes of a decoded record; `header` reads the fields of a raw frame. */
  function Seen(header: Bytes -> Frame, lane: Lane, r: Records.Record): Record
  {
    match r
    case FrameRecord(_, bytes) => FrameRecord(header(bytes), lane)
    case SkipRecord(_, streamId) => SkipRecord(streamId, lane)
  }

  /** Records decoded from the chunks that arrived on one lane. */
  function Decoded(chunks: seq<Bytes>, maxFrameLength: nat): seq<Records.Record>
  {
    Records.ParseChunks(Records.Parsed([], [], false), chunks, maxFrameLength).records
  }

  /**
    One native stream of a lane: the records written to it, taken from the queue of its lane, and the
    chunks of its bytes that arrived. A lane may use several streams, one after the other or one for
    each interaction.
   */
  datatype Stream = Stream(lane: Lane, written: seq<Queued>, chunks: seq<Bytes>)

  /** The records written to a stream, encoded. */
  function Wire(written: seq<Queued>): (records: seq<Records.Record>)
    ensures |records| == |written|
    ensures forall i :: 0 <= i < |written| ==> records[i] == OnWire(written[i])
  {
    seq(|written|, i requires 0 <= i < |written| => OnWire(written[i]))
  }

  /** A stream carries only what was queued for its lane, and the receiver sees the beginning of its bytes. */
  ghost predicate CarriedBy(log: seq<Entry>, s: Stream, maxFrameLength: nat)
  {
    && s.lane != Datagram
    && (forall q :: q in s.written ==> q in OnLane(log, s.lane))
    && (forall r :: r in Wire(s.written) ==> Records.Encodable(r, maxFrameLength))
    && Flatten(s.chunks) <= Records.EncodeAll(Wire(s.written), maxFrameLength)
  }

  /** An arrival is something decoded on one of the streams, or a datagram. */
  ghost predicate Arrives(log: seq<Entry>, streams: seq<Stream>, header: Bytes -> Frame, maxFrameLength: nat,
                          a: Arrival<Record>)
  {
    || (a.ordinal < |Writes(log)| && Writes(log)[a.ordinal].lane == Datagram
        && a.value == FrameRecord(Writes(log)[a.ordinal].frame, Datagram))
    || exists i, r :: 0 <= i < |streams| && r in Decoded(streams[i].chunks, maxFrameLength)
                      && a.ordinal == r.ordinal && a.value == Seen(header, streams[i].lane, r)
  }

  /** `header` reads the frames that were written from their bytes. */
  ghost predicate Readable(log: seq<Entry>, header: Bytes -> Frame)
  {
    forall i :: 0 <= i < |Writes(log)| ==> header(Writes(log)[i].frame.bytes) == Writes(log)[i].frame
  }

  /** What is decoded on a stream is what the mapping queued for its lane under that ordinal. */
  lemma DecodedIsLegit(log: seq<Entry>, s: Stream, header: Bytes -> Frame, maxFrameLength: nat, r: Records.Record)
    requires maxFrameLength <= Records.DEFAULT_MAX_FRAME_LENGTH && WellMarked(log) && Readable(log, header)
    requires CarriedBy(log, s, maxFrameLength) && r in Decoded(s.chunks, maxFrameLength)
    ensures Legit(Writes(log))(r.ordinal, Seen(header, s.lane, r))
  {
    Records.PrefixIsDecoded(Wire(s.written), s.chunks, maxFrameLength);
    assert r in Wire(s.written);
    var i :| 0 <= i < |s.written| && OnWire(s.written[i]) == r;
    QueuedIsFaithful(log, s.lane, s.written[i]);
  }

  lemma ArrivalsAreLegit(log: seq<Entry>, streams: seq<Stream>, arrivals: seq<Arrival<Record>>,
                         header: Bytes -> Frame, maxFrameLength: nat)
    requires maxFrameLength <= Records.DEFAULT_MAX_FRAME_LENGTH && WellMarked(log) && Readable(log, header)
    requires forall i :: 0 <= i < |streams| ==> CarriedBy(log, streams[i], maxFrameLength)
    requires forall a :: a in arrivals ==> Arrives(log, streams, header, maxFrameLength, a)
    ensures forall a :: a in arrivals ==> Legit(Writes(log))(a.ordinal, a.value)
  {
    forall a | a in arrivals ensures Legit(Writes(log))(a.ordinal, a.value) {
      if i, r :| 0 <= i < |streams| && r in Decoded(streams[i].chunks, maxFrameLength)
                 && a.ordinal == r.ordinal && a.value == Seen(header, streams[i].lane, r) {
        DecodedIsLegit(log, streams[i], header, maxFrameLength, r);
      }
    }
  }

  /**
    From write to delivery over bytes: for any cutting of the streams' bytes into chunks, any end of
    each stream, any interleaving of streams and any loss, duplication and reordering of datagrams,
    the receiver emits the sender's frames in the order of writing, one record an ordinal, accepts
    each on its lane, and leaves out only fire-and-forget requests sent as datagrams.
   */
  lemma BytesArriveInOrder(log: seq<Entry>, streams: seq<Stream>, arrivals: seq<Arrival<Record>>,
                           header: Bytes -> Frame, maxFrameLength: nat, cap: nat, unreliable: bool)
    requires maxFrameLength <= Records.DEFAULT_MAX_FRAME_LENGTH && Readable(log, header)
    requires WellMarked(log) && Routed(Writes(log), unreliable)
    requires forall i :: 0 <= i < |streams| ==> CarriedBy(log, streams[i], maxFrameLength)
    requires forall a :: a in arrivals ==> Arrives(log, streams, header, maxFrameLength, a)
    ensures var s := AcceptAll(Reorder(map[], 0), arrivals, cap);
            var issues := Writes(log);
            && |s.emitted| == s.state.next <= |issues|
            && ValidateAll({}, s.emitted, unreliable) == Some(TrackedAfter(issues[..|s.emitted|]))
            && forall k :: 0 <= k < |s.emitted| ==>
                 && Carries(issues[k], s.emitted[k])
                 && (s.emitted[k].SkipRecord? ==> issues[k].lane == Datagram && issues[k].frame.kind.RequestFnf?)
  {
    ArrivalsAreLegit(log, streams, arrivals, header, maxFrameLength);
    hide Arrives, CarriedBy, Decoded, Seen, Readable;
    DeliveredInOrder(Writes(log), arrivals, cap, unreliable);
  }

  /** A stream of which all bytes arrived, and all its records were handed to the receiver. */
  ghost predicate Drained(s: Stream, arrivals: seq<Arrival<Record>>, maxFrameLength: nat)
    requires forall r :: r in Wire(s.written) ==> Records.Encodable(r, maxFrameLength)
  {
    && Flatten(s.chunks) == Records.EncodeAll(Wire(s.written), maxFrameLength)
    && forall r :: r in Decoded(s.chunks, maxFrameLength) ==> Arrived(arrivals, r.ordinal)
  }

  lemma DrainedArrives(s: Stream, q: Queued, arrivals: seq<Arrival<Record>>, maxFrameLength: nat)
    requires maxFrameLength <= Records.DEFAULT_MAX_FRAME_LENGTH && q in s.written
    requires forall r :: r in Wire(s.written) ==> Records.Encodable(r, maxFrameLength)
    requires Drained(s, arrivals, maxFrameLength)
    ensures Arrived(arrivals, q.ordinal)
  {
    Records.SentIsDecoded(Wire(s.written), s.chunks, maxFrameLength);
    var i :| 0 <= i < |s.written| && s.written[i] == q;
    assert Wire(s.written)[i] in Decoded(s.chunks, maxFrameLength);
  }

  /** The same down to the last byte: when every stream has drained and every datagram is marked, all is delivered. */
  lemma AllBytesAllDelivered(log: seq<Entry>, streams: seq<Stream>, arrivals: seq<Arrival<Record>>,
                             header: Bytes -> Frame, maxFrameLength: nat, cap: nat)
    requires maxFrameLength <= Records.DEFAULT_MAX_FRAME_LENGTH && Readable(log, header) && WellMarked(log)
    requires forall i :: 0 <= i < |streams| ==>
               CarriedBy(log, streams[i], maxFrameLength) && Drained(streams[i], arrivals, maxFrameLength)
    requires forall lane, q :: lane != Datagram && q in OnLane(log, lane) ==>
               exists i :: 0 <= i < |streams| && q in streams[i].written
    requires forall a :: a in arrivals ==> Arrives(log, streams, header, maxFrameLength, a)
    requires forall k :: 0 <= k < |Writes(log)| && Writes(log)[k].lane == Datagram ==> IsMarked(log, k)
    ensures var s := AcceptAll(Reorder(map[], 0), arrivals, cap);
            !s.overflow ==> |s.emitted| == |Writes(log)| && s.state.pending == map[]
  {
    ArrivalsAreLegit(log, streams, arrivals, header, maxFrameLength);
    forall lane, q | lane != Datagram && q in OnLane(log, lane) ensures Arrived(arrivals, q.ordinal) {
      var i :| 0 <= i < |streams| && q in streams[i].written;
      DrainedArrives(streams[i], q, arrivals, maxFrameLength);
    }
    hide Arrives, CarriedBy, Decoded, Seen, Readable, Drained;
    AllArrivedAllDelivered(log, arrivals, cap);
  }
}
