/** Routing frames to lanes, and checking on arrival that each came on a lane that owns it. */
module WebTransportMapping {
  import opened Common
  import opened OrderedReceiver

  datatype FrameType =
    | Setup | Lease | Keepalive | RequestResponse | RequestFnf | RequestStream | RequestChannel
    | RequestN | Cancel | Payload | Error | MetadataPush | Resume | ResumeOk | Ext
    | Unassigned(code: nat)

  datatype Frame = Frame(kind: FrameType, streamId: nat, follows: bool, complete: bool, bytes: Bytes)

  datatype Lane = Control | Interaction | Reliable | Datagram

  predicate IsControlFrame(f: Frame)
  {
    f.streamId == 0 && (f.kind.Setup? || f.kind.Keepalive? || f.kind.Lease? || f.kind.Resume?
                        || f.kind.ResumeOk? || f.kind.Error? || f.kind.Ext?)
  }

  predicate IsInteractionFrame(f: Frame)
  {
    f.streamId != 0 && (f.kind.RequestResponse? || f.kind.RequestStream? || f.kind.RequestChannel?
                        || f.kind.RequestN? || f.kind.Cancel? || f.kind.Payload? || f.kind.Error? || f.kind.Ext?)
  }

  /** Which types travel with stream id 0, which with any other, and which with both. */
  lemma TypesByStream(f: Frame)
    ensures IsControlFrame(f) ==> f.streamId == 0
    ensures IsInteractionFrame(f) ==> f.streamId != 0
    ensures IsControlFrame(f) || IsInteractionFrame(f)
            <==> match f.kind
                 case Setup | Keepalive | Lease | Resume | ResumeOk => f.streamId == 0
                 case RequestResponse | RequestStream | RequestChannel | RequestN | Cancel | Payload => f.streamId != 0
                 case Error | Ext => true
                 case RequestFnf | MetadataPush | Unassigned(_) => false
  {}

  /** The lane a frame is written to, or None where the write throws. */
  function Route(fragmented: set<nat>, f: Frame, unreliable: bool, fits: bool): Option<Lane>
  {
    if f.kind.RequestFnf? then
      if f.streamId == 0 then None
      else if !f.follows && unreliable && fits then Some(Datagram)
      else Some(Reliable)
    else if f.kind.MetadataPush? then (if f.streamId != 0 then None else Some(Reliable))
    else if f.kind.Payload? && f.streamId in fragmented then Some(Reliable)
    else if IsControlFrame(f) then Some(Control)
    else if IsInteractionFrame(f) then Some(Interaction)
    else None
  }

  /** Stream ids of fire-and-forget requests still being fragmented. */
  function Tracked(fragmented: set<nat>, lane: Lane, f: Frame): set<nat>
  {
    if lane != Reliable then fragmented
    else if f.kind.RequestFnf? && f.follows then fragmented + {f.streamId}
    else if f.kind.Payload? && !f.follows then fragmented - {f.streamId}
    else fragmented
  }

  /** One frame handed to a lane; its ordinal is its index in the order of writing. */
  datatype Issue = Issue(frame: Frame, lane: Lane)

  function TrackedAfter(issues: seq<Issue>): set<nat>
  {
    if issues == [] then {}
    else
      var last := issues[|issues| - 1];
      Tracked(TrackedAfter(issues[..|issues| - 1]), last.lane, last.frame)
  }

  /** A record as the other end sees it: a frame on some lane, or a marker for a lost datagram. */
  datatype Record = FrameRecord(frame: Frame, lane: Lane) | SkipRecord(streamId: nat, lane: Lane)

  /** What may arrive under an ordinal: the frame, and for a datagram also its skip marker. */
  predicate Carries(issue: Issue, r: Record)
  {
    || r == FrameRecord(issue.frame, issue.lane)
    || (issue.lane == Datagram && r == SkipRecord(issue.frame.streamId, Control))
  }

  // What the sender queues

  /** A frame was written, or the marker for the datagram with this ordinal was. */
  datatype Entry = Wrote(issue: Issue) | Marked(ordinal: nat, streamId: nat)

  /** A record in the queue of a lane. */
  datatype Queued = Queued(ordinal: nat, record: Record)

  /** The frames written, in order; the ordinal of each is its index. */
  function Writes(log: seq<Entry>): seq<Issue>
  {
    if log == [] then []
    else
      var rest := Writes(log[..|log| - 1]);
      if log[|log| - 1].Wrote? then rest + [log[|log| - 1].issue] else rest
  }

  /** The records of one lane, in the order they were queued; markers travel on the control lane. */
  function OnLane(log: seq<Entry>, lane: Lane): seq<Queued>
  {
    if log == [] then []
    else
      var front := log[..|log| - 1];
      OnLane(front, lane) + match log[|log| - 1]
        case Wrote(issue) =>
          if issue.lane == lane then [Queued(|Writes(front)|, FrameRecord(issue.frame, lane))] else []
        case Marked(ordinal, streamId) =>
          if lane == Control then [Queued(ordinal, SkipRecord(streamId, Control))] else []
  }

  /** A marker names a fire-and-forget request that was sent as a datagram before it. */
  ghost predicate WellMarked(log: seq<Entry>)
  {
    forall p :: 0 <= p < |log| && log[p].Marked? ==> MarksDatagram(Writes(log[..p]), log[p])
  }

  predicate MarksDatagram(issues: seq<Issue>, entry: Entry)
    requires entry.Marked?
  {
    && entry.ordinal < |issues| && issues[entry.ordinal].lane == Datagram
    && issues[entry.ordinal].frame.streamId == entry.streamId
  }

  lemma LogGrows(log: seq<Entry>, entry: Entry)
    ensures Writes(log + [entry]) == Writes(log) + if entry.Wrote? then [entry.issue] else []
    ensures entry.Wrote? ==> forall lane ::
              OnLane(log + [entry], lane)
              == OnLane(log, lane) + if entry.issue.lane == lane
                                     then [Queued(|Writes(log)|, FrameRecord(entry.issue.frame, lane))] else []
    ensures entry.Marked? ==> forall lane ::
              OnLane(log + [entry], lane)
              == OnLane(log, lane) + if lane == Control
                                     then [Queued(entry.ordinal, SkipRecord(entry.streamId, Control))] else []
  {
    assert (log + [entry])[..|log|] == log;
  }

  /** Queueing a frame on its lane keeps every lane what the log says it is. */
  lemma LanesGrow(lanes: map<Lane, seq<Queued>>, log: seq<Entry>, issue: Issue)
    requires issue.lane in lanes && forall l :: l in lanes ==> lanes[l] == OnLane(log, l)
    ensures Writes(log + [Wrote(issue)]) == Writes(log) + [issue]
    ensures var q := Queued(|Writes(log)|, FrameRecord(issue.frame, issue.lane));
            var grown := lanes[issue.lane := lanes[issue.lane] + [q]];
            forall l :: l in grown ==> grown[l] == OnLane(log + [Wrote(issue)], l)
  {
    LogGrows(log, Wrote(issue));
    hide OnLane, Writes;
  }

  lemma WellMarkedGrows(log: seq<Entry>, entry: Entry)
    requires WellMarked(log) && (entry.Marked? ==> MarksDatagram(Writes(log), entry))
    ensures WellMarked(log + [entry])
  {
    var grown := log + [entry];
    forall p | 0 <= p < |grown| && grown[p].Marked? ensures MarksDatagram(Writes(grown[..p]), grown[p]) {
      assert p < |log| ==> grown[..p] == log[..p];
      assert p == |log| ==> grown[..p] == log;
    }
  }

  /** What a queued record stands for. */
  predicate StandsFor(issues: seq<Issue>, lane: Lane, q: Queued)
  {
    && q.ordinal < |issues|
    && (|| (issues[q.ordinal].lane == lane && q.record == FrameRecord(issues[q.ordinal].frame, lane))
        || (lane == Control && issues[q.ordinal].lane == Datagram
            && q.record == SkipRecord(issues[q.ordinal].frame.streamId, Control)))
  }

  /** Every record on a lane is a frame routed to it, under its own ordinal, or the marker of a datagram. */
  lemma {:induction false} QueuedStandsFor(log: seq<Entry>, lane: Lane, q: Queued)
    requires WellMarked(log) && q in OnLane(log, lane)
    ensures StandsFor(Writes(log), lane, q)
    decreases log
  {
    if log != [] {
      var front, last := log[..|log| - 1], log[|log| - 1];
      FrontIsWellMarked(log);
      if q in OnLane(front, lane) {
        QueuedStandsFor(front, lane, q);
      } else if last.Marked? {
        assert MarksDatagram(Writes(front), last);
      }
    }
  }

  lemma FrontIsWellMarked(log: seq<Entry>)
    requires WellMarked(log) && log != []
    ensures WellMarked(log[..|log| - 1])
  {
    var front := log[..|log| - 1];
    forall p | 0 <= p < |front| && front[p].Marked? ensures MarksDatagram(Writes(front[..p]), front[p]) {
      assert front[..p] == log[..p];
    }
  }

  /** Every frame written is queued on its lane, and every marker on the control lane. */
  lemma {:induction false} AllIsQueued(log: seq<Entry>)
    ensures forall k :: 0 <= k < |Writes(log)| ==>
              var issue := Writes(log)[k];
              Queued(k, FrameRecord(issue.frame, issue.lane)) in OnLane(log, issue.lane)
    ensures forall p :: 0 <= p < |log| && log[p].Marked? ==>
              Queued(log[p].ordinal, SkipRecord(log[p].streamId, Control)) in OnLane(log, Control)
    decreases log
  {
    if log != [] {
      AllIsQueued(log[..|log| - 1]);
    }
  }

  ghost function Legit(issues: seq<Issue>): (nat, Record) -> bool
  {
    (k: nat, r: Record) => k < |issues| && Carries(issues[k], r)
  }

  /** Accepts one record in global order; None where the receiver reports a mapping violation. */
  function Validate(inbound: set<nat>, r: Record, unreliable: bool): Option<set<nat>>
  {
    match r
    case SkipRecord(_, lane) => if lane == Control && unreliable then Some(inbound) else None
    case FrameRecord(f, lane) =>
      match lane
      case Datagram =>
        if !f.kind.RequestFnf? || f.streamId == 0 || f.follows then None else Some(inbound)
      case Control => if IsControlFrame(f) then Some(inbound) else None
      case Reliable =>
        if f.kind.MetadataPush? && f.streamId == 0 then Some(inbound)
        else if f.kind.RequestFnf? && f.streamId != 0 then
          Some(if f.follows then inbound + {f.streamId} else inbound)
        else if f.kind.Payload? && f.streamId in inbound then
          Some(if !f.follows then inbound - {f.streamId} else inbound)
        else None
      case Interaction => if IsInteractionFrame(f) then Some(inbound) else None
  }

  function ValidateAll(inbound: set<nat>, records: seq<Record>, unreliable: bool): Option<set<nat>>
  {
    if records == [] then Some(inbound)
    else match ValidateAll(inbound, records[..|records| - 1], unreliable)
      case None => None
      case Some(set') => Validate(set', records[|records| - 1], unreliable)
  }

  /** The sending and the receiving half of one endpoint's mapping. */
  class MappingConnection {
    const unreliable: bool
    const maxFrameLength: nat
    var outboundFragmentedFnf: set<nat>
    var inboundFragmentedFnf: set<nat>
    var nextOutboundOrdinal: nat
    var lanes: map<Lane, seq<Queued>>
    ghost var log: seq<Entry>

    /** Every frame is queued once, on the lane it was routed to, under its own ordinal, and markers after it. */
    ghost predicate Valid()
      reads this
    {
      && Queues()
      && (forall lane: Lane :: lane in lanes)
      && outboundFragmentedFnf == TrackedAfter(Writes(log))
    }

    /** What the lanes hold is what the log says was queued on them. */
    ghost predicate Queues()
      reads `nextOutboundOrdinal, `lanes, `log
    {
      && nextOutboundOrdinal == |Writes(log)|
      && Routed(Writes(log), unreliable)
      && WellMarked(log)
      && forall lane :: lane in lanes ==> lanes[lane] == OnLane(log, lane)
    }

    constructor (unreliable: bool, maxFrameLength: nat)
      ensures Valid() && log == [] && inboundFragmentedFnf == {}
      ensures this.unreliable == unreliable && this.maxFrameLength == maxFrameLength
    {
      this.unreliable, this.maxFrameLength := unreliable, maxFrameLength;
      outboundFragmentedFnf, inboundFragmentedFnf, nextOutboundOrdinal := {}, {}, 0;
      lanes := map[Control := [], Interaction := [], Reliable := [], Datagram := []];
      log := [];
      new;
      forall lane: Lane ensures lane in lanes {
        match lane
        case Control | Interaction | Reliable | Datagram =>
      }
    }

    /**
      Which frames are accepted, by type and stream id, and the lane each is queued on; `fits` says
      whether a datagram of its size can be sent at the moment. A refused frame changes nothing.
     */
    method Write(f: Frame, fits: bool) returns (ok: bool)
      requires Valid()
      modifies this
      ensures Valid() && inboundFragmentedFnf == old(inboundFragmentedFnf)
      ensures ok <==> && |f.bytes| <= maxFrameLength
                      && match f.kind
                         case Setup | Keepalive | Lease | Resume | ResumeOk | MetadataPush => f.streamId == 0
                         case RequestResponse | RequestFnf | RequestStream | RequestChannel => f.streamId != 0
                         case RequestN | Cancel | Payload => f.streamId != 0
                         case Error | Ext => true
                         case Unassigned(_) => false
      ensures ok ==> var lane := if f.kind.RequestFnf? && !f.follows && unreliable && fits then Datagram
                                 else if f.kind.RequestFnf? || f.kind.MetadataPush? then Reliable
                                 else if f.kind.Payload? && f.streamId in old(outboundFragmentedFnf) then Reliable
                                 else if f.streamId == 0 then Control
                                 else Interaction;
                     && log == old(log) + [Wrote(Issue(f, lane))]
                     && lanes == old(lanes)[lane := old(lanes)[lane]
                                                    + [Queued(old(nextOutboundOrdinal), FrameRecord(f, lane))]]
      ensures ok ==> && nextOutboundOrdinal == old(nextOutboundOrdinal) + 1
                     && outboundFragmentedFnf
                        == if f.kind.RequestFnf? && f.follows then old(outboundFragmentedFnf) + {f.streamId}
                           else if f.kind.Payload? && !f.follows then old(outboundFragmentedFnf) - {f.streamId}
                           else old(outboundFragmentedFnf)
      ensures !ok ==> unchanged(this)
    {
      TrackedAreStreams(Writes(log), unreliable);
      TypesByStream(f);
      hide Queues, Writes, TrackedAfter, IsControlFrame, IsInteractionFrame;
      ok := |f.bytes| <= maxFrameLength;
      if ok {
        if f.kind.RequestFnf? {
          ok := WriteFireAndForget(f, fits);
        } else if f.kind.MetadataPush? {
          ok := f.streamId == 0;
          if ok {
            Enqueue(f, Reliable, fits);
          }
        } else if f.kind.Payload? && f.streamId in outboundFragmentedFnf {
          WriteContinuation(f, fits);
        } else {
          ok := WriteByStream(f, fits);
        }
      }
    }

    /** A fragment of a fire-and-forget request follows the first one, and the last ends the tracking. */
    method WriteContinuation(f: Frame, fits: bool)
      requires Valid() && f.kind.Payload? && f.streamId in outboundFragmentedFnf
      modifies `outboundFragmentedFnf, `nextOutboundOrdinal, `lanes, `log
      ensures Valid() && log == old(log) + [Wrote(Issue(f, Reliable))]
      ensures nextOutboundOrdinal == old(nextOutboundOrdinal) + 1
      ensures lanes == old(lanes)[Reliable := old(lanes)[Reliable]
                                              + [Queued(old(nextOutboundOrdinal), FrameRecord(f, Reliable))]]
      ensures outboundFragmentedFnf == old(outboundFragmentedFnf) - if f.follows then {} else {f.streamId}
    {
      hide Queues, Writes, TrackedAfter;
      if !f.follows {
        outboundFragmentedFnf := outboundFragmentedFnf - {f.streamId};
      }
      Enqueue(f, Reliable, fits);
    }

    /** Connection frames travel on the control stream, those of an interaction on its own. */
    method WriteByStream(f: Frame, fits: bool) returns (ok: bool)
      requires Valid() && !f.kind.RequestFnf? && !f.kind.MetadataPush?
      requires f.kind.Payload? ==> f.streamId !in outboundFragmentedFnf
      modifies `nextOutboundOrdinal, `lanes, `log
      ensures Valid() && (ok <==> IsControlFrame(f) || IsInteractionFrame(f))
      ensures var lane := if f.streamId == 0 then Control else Interaction;
              ok ==>
                && log == old(log) + [Wrote(Issue(f, lane))]
                && nextOutboundOrdinal == old(nextOutboundOrdinal) + 1
                && lanes == old(lanes)[lane := old(lanes)[lane]
                                               + [Queued(old(nextOutboundOrdinal), FrameRecord(f, lane))]]
      ensures !ok ==> unchanged(this)
    {
      TypesByStream(f);
      hide Queues, Writes, TrackedAfter, IsControlFrame, IsInteractionFrame;
      ok := true;
      if IsControlFrame(f) {
        Enqueue(f, Control, fits);
      } else if IsInteractionFrame(f) {
        Enqueue(f, Interaction, fits);
      } else {
        ok := false;
      }
    }

    /** Only a whole fire-and-forget request that fits travels as a datagram. */
    method WriteFireAndForget(f: Frame, fits: bool) returns (ok: bool)
      requires Valid() && f.kind.RequestFnf?
      modifies this
      ensures Valid() && ok == (f.streamId != 0) && inboundFragmentedFnf == old(inboundFragmentedFnf)
      ensures ok ==> var lane := if !f.follows && unreliable && fits then Datagram else Reliable;
                     && log == old(log) + [Wrote(Issue(f, lane))]
                     && nextOutboundOrdinal == old(nextOutboundOrdinal) + 1
                     && lanes == old(lanes)[lane := old(lanes)[lane]
                                                    + [Queued(old(nextOutboundOrdinal), FrameRecord(f, lane))]]
      ensures outboundFragmentedFnf == old(outboundFragmentedFnf) + if ok && f.follows then {f.streamId} else {}
      ensures !ok ==> unchanged(this)
    {
      hide Queues, Writes, TrackedAfter;
      if f.streamId == 0 {
        return false;
      }
      if f.follows {
        outboundFragmentedFnf := outboundFragmentedFnf + {f.streamId};
        Enqueue(f, Reliable, fits);
      } else if !unreliable || !fits {
        Enqueue(f, Reliable, fits);
      } else {
        Enqueue(f, Datagram, fits);
      }
      return true;
    }

    /** Takes the next ordinal and queues the record on its lane. */
    method Enqueue(f: Frame, lane: Lane, fits: bool)
      requires Queues() && (forall lane: Lane :: lane in lanes)
      requires outboundFragmentedFnf == Tracked(TrackedAfter(Writes(log)), lane, f)
      requires Route(TrackedAfter(Writes(log)), f, unreliable, fits) == Some(lane)
      modifies `nextOutboundOrdinal, `lanes, `log
      ensures Valid() && log == old(log) + [Wrote(Issue(f, lane))]
      ensures nextOutboundOrdinal == old(nextOutboundOrdinal) + 1
      ensures lanes == old(lanes)[lane := old(lanes)[lane]
                                          + [Queued(old(nextOutboundOrdinal), FrameRecord(f, lane))]]
    {
      RoutedAppend(Writes(log), Issue(f, lane), unreliable, fits);
      LanesGrow(lanes, log, Issue(f, lane));
      WellMarkedGrows(log, Wrote(Issue(f, lane)));
      TrackedAppend(Writes(log), Issue(f, lane));
      hide Writes, OnLane, WellMarked, Routed, TrackedAfter, Tracked, Route;
      var ordinal := nextOutboundOrdinal;
      nextOutboundOrdinal := nextOutboundOrdinal + 1;
      log := log + [Wrote(Issue(f, lane))];
      lanes := lanes[lane := lanes[lane] + [Queued(ordinal, FrameRecord(f, lane))]];
    }

    /**
      The completion callback of one datagram, whether it was sent or discarded: queues the marker
      under the ordinal of the datagram, unless the session is closing or its control lane is gone.
     */
    method WriteSkipMarker(ordinal: nat, streamId: nat, open: bool)
      requires Valid() && MarksDatagram(Writes(log), Marked(ordinal, streamId))
      modifies `lanes, `log
      ensures Valid() && log == old(log) + if open then [Marked(ordinal, streamId)] else []
      ensures lanes == if open then
                         old(lanes)[Control := old(lanes)[Control] + [Queued(ordinal, SkipRecord(streamId, Control))]]
                       else old(lanes)
    {
      LogGrows(log, Marked(ordinal, streamId));
      WellMarkedGrows(log, Marked(ordinal, streamId));
      hide Writes, OnLane, WellMarked, Routed, TrackedAfter, MarksDatagram;
      if open {
        log := log + [Marked(ordinal, streamId)];
        lanes := lanes[Control := lanes[Control] + [Queued(ordinal, SkipRecord(streamId, Control))]];
      }
    }

    /** Checks one record restored to global order. */
    method EmitOrderedRecord(r: Record) returns (ok: bool)
      modifies `inboundFragmentedFnf
      ensures ok <==> match r
                      case SkipRecord(_, lane) => lane == Control && unreliable
                      case FrameRecord(f, Datagram) => f.kind.RequestFnf? && f.streamId != 0 && !f.follows
                      case FrameRecord(f, Reliable) =>
                        || (f.kind.MetadataPush? && f.streamId == 0)
                        || (f.kind.RequestFnf? && f.streamId != 0)
                        || (f.kind.Payload? && f.streamId in old(inboundFragmentedFnf))
                      case FrameRecord(f, Control) =>
                        && f.streamId == 0
                        && f.kind in {Setup, Keepalive, Lease, Resume, ResumeOk, FrameType.Error, Ext}
                      case FrameRecord(f, Interaction) =>
                        && f.streamId != 0
                        && f.kind in {RequestResponse, RequestStream, RequestChannel, RequestN, Cancel, Payload,
                                      FrameType.Error, Ext}
      ensures inboundFragmentedFnf
              == match r
                 case FrameRecord(f, Reliable) =>
                   if f.kind.RequestFnf? && f.streamId != 0 && f.follows then
                     old(inboundFragmentedFnf) + {f.streamId}
                   else if f.kind.Payload? && !f.follows then old(inboundFragmentedFnf) - {f.streamId}
                   else old(inboundFragmentedFnf)
                 case _ => old(inboundFragmentedFnf)
      ensures match old(Validate(inboundFragmentedFnf, r, unreliable))
              case None => !ok && inboundFragmentedFnf == old(inboundFragmentedFnf)
              case Some(inbound) => ok && inboundFragmentedFnf == inbound
    {
      if r.SkipRecord? {
        return r.lane == Control && unreliable;
      }
      var f := r.frame;
      match r.lane
      case Datagram => return f.kind.RequestFnf? && f.streamId != 0 && !f.follows;
      case Control => return IsControlFrame(f);
      case Interaction => return IsInteractionFrame(f);
      case Reliable =>
        if f.kind.MetadataPush? && f.streamId == 0 {
          return true;
        }
        if f.kind.RequestFnf? && f.streamId != 0 {
          if f.follows {
            inboundFragmentedFnf := inboundFragmentedFnf + {f.streamId};
          }
          return true;
        }
        if f.kind.Payload? && f.streamId in inboundFragmentedFnf {
          if !f.follows {
            inboundFragmentedFnf := inboundFragmentedFnf - {f.streamId};
          }
          return true;
        }
        return false;
    }
  }

  lemma TrackedAppend(issues: seq<Issue>, issue: Issue)
    ensures TrackedAfter(issues + [issue]) == Tracked(TrackedAfter(issues), issue.lane, issue.frame)
  {
    assert (issues + [issue])[..|issues|] == issues;
  }

  /** Every frame went where the routing rules sent it at the time. */
  ghost predicate Routed(issues: seq<Issue>, unreliable: bool)
  {
    forall k :: 0 <= k < |issues| ==> RoutedAt(issues, k, unreliable)
  }

  ghost predicate RoutedAt(issues: seq<Issue>, k: nat, unreliable: bool)
    requires k < |issues|
  {
    var fragmented := TrackedAfter(issues[..k]);
    || Route(fragmented, issues[k].frame, unreliable, true) == Some(issues[k].lane)
    || Route(fragmented, issues[k].frame, unreliable, false) == Some(issues[k].lane)
  }

  /** Only stream ids other than 0 are ever tracked. */
  lemma {:induction false} TrackedAreStreams(issues: seq<Issue>, unreliable: bool)
    requires Routed(issues, unreliable)
    ensures 0 !in TrackedAfter(issues)
    decreases |issues|
  {
    if issues != [] {
      var k := |issues| - 1;
      assert RoutedAt(issues, k, unreliable);
      forall i | 0 <= i < k ensures RoutedAt(issues[..k], i, unreliable) {
        assert RoutedAt(issues, i, unreliable);
        assert issues[..k][..i] == issues[..i];
      }
      TrackedAreStreams(issues[..k], unreliable);
    }
  }

  lemma RoutedAppend(issues: seq<Issue>, issue: Issue, unreliable: bool, fits: bool)
    requires Routed(issues, unreliable)
    requires Route(TrackedAfter(issues), issue.frame, unreliable, fits) == Some(issue.lane)
    ensures Routed(issues + [issue], unreliable)
  {
    var grown := issues + [issue];
    forall k | 0 <= k < |grown| ensures RoutedAt(grown, k, unreliable) {
      if k < |issues| {
        assert RoutedAt(issues, k, unreliable);
        assert grown[..k] == issues[..k];
      } else {
        assert grown[..k] == issues;
      }
    }
  }

  /** A frame that was routed somewhere is accepted there by a peer in step with the sender. */
  lemma RoutedIsAccepted(fragmented: set<nat>, issue: Issue, r: Record, unreliable: bool, fits: bool)
    requires Route(fragmented, issue.frame, unreliable, fits) == Some(issue.lane)
    requires Carries(issue, r)
    ensures Validate(fragmented, r, unreliable) == Some(Tracked(fragmented, issue.lane, issue.frame))
    ensures r.SkipRecord? ==> issue.frame.kind.RequestFnf? && !issue.frame.follows && unreliable
  {}

  /**
    Conversely a frame is accepted on a lane exactly if a sender in step could have routed it there,
    but for two it never routes so: a whole fire-and-forget request in a datagram where none were
    negotiated, and the continuation of a fragmented one on an interaction stream.
   */
  lemma AcceptedWhereRouted(fragmented: set<nat>, f: Frame, lane: Lane, unreliable: bool)
    requires 0 !in fragmented
    ensures Validate(fragmented, FrameRecord(f, lane), unreliable).Some? <==>
            || Route(fragmented, f, unreliable, true) == Some(lane)
            || Route(fragmented, f, unreliable, false) == Some(lane)
            || (lane == Datagram && f.kind.RequestFnf? && f.streamId != 0 && !f.follows && !unreliable)
            || (lane == Interaction && f.kind.Payload? && f.streamId in fragmented)
  {}

  /**
    Records in the sender's order are all accepted, and both ends agree at every ordinal on which
    fire-and-forget requests are being fragmented.
   */
  lemma {:induction false} EndsAgree(issues: seq<Issue>, records: seq<Record>, unreliable: bool)
    requires Routed(issues, unreliable) && |records| <= |issues|
    requires forall k :: 0 <= k < |records| ==> Carries(issues[k], records[k])
    ensures ValidateAll({}, records, unreliable) == Some(TrackedAfter(issues[..|records|]))
    decreases |records|
  {
    if records != [] {
      var k := |records| - 1;
      EndsAgree(issues, records[..k], unreliable);
      assert RoutedAt(issues, k, unreliable);
      var fits := Route(TrackedAfter(issues[..k]), issues[k].frame, unreliable, true) == Some(issues[k].lane);
      RoutedIsAccepted(TrackedAfter(issues[..k]), issues[k], records[k], unreliable, fits);
      assert issues[..k + 1][..k] == issues[..k];
    }
  }

  /**
    From write to delivery: whatever the lanes and datagrams do, the receiver emits one record per
    ordinal in the order of writing, accepts each of them, and skips only datagram requests.
   */
  lemma DeliveredInOrder(issues: seq<Issue>, arrivals: seq<Arrival<Record>>, cap: nat, unreliable: bool)
    requires Routed(issues, unreliable)
    requires forall a :: a in arrivals ==> Legit(issues)(a.ordinal, a.value)
    ensures var s := AcceptAll(Reorder(map[], 0), arrivals, cap);
            && |s.emitted| == s.state.next <= |issues|
            && ValidateAll({}, s.emitted, unreliable) == Some(TrackedAfter(issues[..|s.emitted|]))
            && forall k :: 0 <= k < |s.emitted| ==>
                 && Carries(issues[k], s.emitted[k])
                 && (s.emitted[k].SkipRecord? ==> issues[k].lane == Datagram && issues[k].frame.kind.RequestFnf?)
  {
    OrderIsRestored(Reorder(map[], 0), arrivals, cap, Legit(issues));
    var emitted := AcceptAll(Reorder(map[], 0), arrivals, cap).emitted;
    hide AcceptAll, Validate, Tracked, Carries, InOrder;
    EmittedCarry(issues, emitted);
    EndsAgree(issues, emitted, unreliable);
    forall k | 0 <= k < |emitted| && emitted[k].SkipRecord?
      ensures issues[k].lane == Datagram && issues[k].frame.kind.RequestFnf?
    {
      SkippedWasDatagram(issues, k, emitted[k], unreliable);
    }
  }

  lemma EmittedCarry(issues: seq<Issue>, emitted: seq<Record>)
    requires InOrder(emitted, 0, Legit(issues))
    ensures |emitted| <= |issues|
    ensures forall k :: 0 <= k < |emitted| ==> Carries(issues[k], emitted[k])
  {
    var legit := Legit(issues);
    forall k | 0 <= k < |emitted| ensures k < |issues| && Carries(issues[k], emitted[k]) {
      assert legit(0 + k, emitted[k]);
    }
    if emitted != [] {
      assert legit(0 + (|emitted| - 1), emitted[|emitted| - 1]);
    }
  }

  lemma SkippedWasDatagram(issues: seq<Issue>, k: nat, r: Record, unreliable: bool)
    requires Routed(issues, unreliable) && k < |issues| && Carries(issues[k], r) && r.SkipRecord?
    ensures issues[k].lane == Datagram && issues[k].frame.kind.RequestFnf?
  {
    assert RoutedAt(issues, k, unreliable);
  }

  /** The marker of a datagram has been queued. */
  ghost predicate IsMarked(log: seq<Entry>, ordinal: nat)
  {
    exists p :: 0 <= p < |log| && log[p].Marked? && log[p].ordinal == ordinal
  }

  /**
    Once every record queued on a reliable lane has arrived, whatever became of the datagrams, and the
    completion callbacks of the datagrams have run, all that was written has been delivered and
    nothing is left waiting.
   */
  lemma AllArrivedAllDelivered(log: seq<Entry>, arrivals: seq<Arrival<Record>>, cap: nat)
    requires WellMarked(log)
    requires forall a :: a in arrivals ==> Legit(Writes(log))(a.ordinal, a.value)
    requires forall lane, q :: lane != Datagram && q in OnLane(log, lane) ==> Arrived(arrivals, q.ordinal)
    requires forall k :: 0 <= k < |Writes(log)| && Writes(log)[k].lane == Datagram ==> IsMarked(log, k)
    ensures var s := AcceptAll(Reorder(map[], 0), arrivals, cap);
            !s.overflow ==> |s.emitted| == |Writes(log)| && s.state.pending == map[]
                            && Charged(s.state.pending) == 0
  {
    var issues := Writes(log);
    AllIsQueued(log);
    forall k | 0 <= k < |issues| ensures Arrived(arrivals, k) {
      if issues[k].lane == Datagram {
        var p :| 0 <= p < |log| && log[p].Marked? && log[p].ordinal == k;
        assert Queued(k, SkipRecord(log[p].streamId, Control)) in OnLane(log, Control);
      } else {
        assert Queued(k, FrameRecord(issues[k].frame, issues[k].lane)) in OnLane(log, issues[k].lane);
      }
    }
    NothingStaysBuffered(arrivals, cap, |issues|, Legit(issues));
  }
}
