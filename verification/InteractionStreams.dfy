/**
  Bidirectional interaction streams between two endpoints: which stream each RSocket stream id
  uses, in both directions, over its whole life.
 */
module InteractionStreams {
  import opened Common
  import opened WebTransportMapping

  datatype Side = Requester | Responder

  function Other(side: Side): Side
  {
    if side.Requester? then Responder else Requester
  }

  /** Lifecycle of one logical interaction at one endpoint, and the stream it prefers. */
  datatype InteractionState = InteractionState(
    stream: nat, kind: Option<FrameType>, localComplete: bool, remoteComplete: bool)

  /**
    One native stream. `owner` is the id its creator opened it for; `known` is the id the
    accepting endpoint learnt from the first record.
   */
  datatype Bidi = Bidi(
    creator: Side, owner: nat, known: Option<nat>, toRequester: seq<Frame>, toResponder: seq<Frame>)

  type Lanes = map<nat, InteractionState>

  /** `violated` records that an endpoint found two stream ids, or a foreign frame, on one stream. */
  datatype Session = Session(requester: Lanes, responder: Lanes, streams: seq<Bidi>, violated: bool)

  function LanesOf(s: Session, side: Side): Lanes
  {
    if side.Requester? then s.requester else s.responder
  }

  function WithLanes(s: Session, side: Side, lanes: Lanes): Session
  {
    if side.Requester? then s.(requester := lanes) else s.(responder := lanes)
  }

  function Queue(b: Bidi, to: Side): seq<Frame>
  {
    if to.Requester? then b.toRequester else b.toResponder
  }

  function WithQueue(b: Bidi, to: Side, queue: seq<Frame>): Bidi
  {
    if to.Requester? then b.(toRequester := queue) else b.(toResponder := queue)
  }

  function InitialType(kind: FrameType): Option<FrameType>
  {
    if kind.RequestResponse? || kind.RequestStream? || kind.RequestChannel? then Some(kind) else None
  }

  /** The interaction after one frame, or None once it is over. */
  function Track(state: InteractionState, f: Frame, local: bool): Option<InteractionState>
  {
    var typed := if state.kind.None? then state.(kind := InitialType(f.kind)) else state;
    if f.kind.Cancel? || f.kind.Error? then None
    else if !(f.complete && (f.kind.Payload? || f.kind.RequestChannel?)) then Some(typed)
    else if typed.kind != Some(RequestChannel) then None
    else
      var done := if local then typed.(localComplete := true) else typed.(remoteComplete := true);
      if done.localComplete && done.remoteComplete then None else Some(done)
  }

  function TrackLane(lanes: Lanes, f: Frame, local: bool): Lanes
  {
    if f.streamId !in lanes then lanes
    else match Track(lanes[f.streamId], f, local)
      case None => lanes - {f.streamId}
      case Some(state) => lanes[f.streamId := state]
  }

  /** The stream of an id that has no interaction yet: a new one. */
  function Opened(s: Session, side: Side, f: Frame): Session
  {
    if f.streamId in LanesOf(s, side) then s
    else
      var state := InteractionState(|s.streams|, InitialType(f.kind), false, false);
      WithLanes(s.(streams := s.streams + [Bidi(side, f.streamId, None, [], [])]),
                side, LanesOf(s, side)[f.streamId := state])
  }

  /** Writes on the stream of the id, creating one if there is none. */
  function Writes(s: Session, side: Side, f: Frame): Session
  {
    if !IsInteractionFrame(f) then s
    else
      var o := Opened(s, side, f);
      var x := LanesOf(o, side)[f.streamId].stream;
      if x >= |o.streams| then s
      else
        var b := o.streams[x];
        var to := Other(side);
        WithLanes(o.(streams := o.streams[x := WithQueue(b, to, Queue(b, to) + [f])]),
                  side, TrackLane(LanesOf(o, side), f, true))
  }

  /** Takes the next record off a stream, checks the id it belongs to, and tracks the lifecycle. */
  function Receives(s: Session, side: Side, x: nat): Session
  {
    if x >= |s.streams| || Queue(s.streams[x], side) == [] then s
    else
      var f := Queue(s.streams[x], side)[0];
      var popped := WithQueue(s.streams[x], side, Queue(s.streams[x], side)[1..]);
      var lanes := LanesOf(s, side);
      var mine := s.streams[x].creator == side;
      var expected := if mine then Some(s.streams[x].owner) else s.streams[x].known;
      if !IsInteractionFrame(f) || (expected.Some? && expected.value != f.streamId) then s.(violated := true)
      else
        var entered := if expected.None? && f.streamId !in lanes
                      then lanes[f.streamId := InteractionState(x, InitialType(f.kind), false, false)]
                      else lanes;
        var learnt := if mine then popped else popped.(known := Some(f.streamId));
        WithLanes(s.(streams := s.streams[x := learnt]), side, TrackLane(entered, f, false))
  }

  datatype Event = Write(side: Side, frame: Frame) | Receive(side: Side, stream: nat)

  function Step(s: Session, e: Event): Session
  {
    match e
    case Write(side, f) => Writes(s, side, f)
    case Receive(side, x) => Receives(s, side, x)
  }

  /** Each endpoint uses a stream only for the id it was opened for. */
  ghost predicate Owned(lanes: Lanes, streams: seq<Bidi>)
  {
    forall id :: id in lanes ==> lanes[id].stream < |streams| && streams[lanes[id].stream].owner == id
  }

  /** A stream carries frames of its owner only, in either direction. */
  ghost predicate Dedicated(b: Bidi)
  {
    && (b.known.Some? ==> b.known.value == b.owner)
    && (forall f :: f in b.toRequester || f in b.toResponder ==> f.streamId == b.owner && IsInteractionFrame(f))
  }

  ghost predicate Inv(s: Session)
  {
    && !s.violated
    && Owned(s.requester, s.streams)
    && Owned(s.responder, s.streams)
    && (forall x :: 0 <= x < |s.streams| ==> Dedicated(s.streams[x]))
  }

  lemma StepKeeps(s: Session, e: Event)
    requires Inv(s)
    ensures Inv(Step(s, e))
  {
    match e
    case Write(side, f) => WritesKeeps(s, side, f);
    case Receive(side, x) => ReceivesKeeps(s, side, x);
  }

  /** Tracking the lifecycle never moves an interaction to another stream. */
  lemma TrackKeepsOwned(lanes: Lanes, streams: seq<Bidi>, f: Frame, local: bool)
    requires Owned(lanes, streams)
    ensures Owned(TrackLane(lanes, f, local), streams)
  {}

  /** Streams may gain frames and followers, and new streams may appear. */
  ghost predicate Extends(streams: seq<Bidi>, next: seq<Bidi>)
  {
    |streams| <= |next| && forall x :: 0 <= x < |streams| ==> next[x].owner == streams[x].owner
  }

  lemma ExtendsKeepsOwned(lanes: Lanes, streams: seq<Bidi>, next: seq<Bidi>)
    requires Owned(lanes, streams) && Extends(streams, next)
    ensures Owned(lanes, next)
  {}

  /** Replacing one stream by a dedicated one with the same owner. */
  lemma ReplaceKeeps(s: Session, x: nat, b: Bidi)
    requires Inv(s) && x < |s.streams| && b.owner == s.streams[x].owner && Dedicated(b)
    ensures Inv(s.(streams := s.streams[x := b]))
  {
    ExtendsKeepsOwned(s.requester, s.streams, s.streams[x := b]);
    ExtendsKeepsOwned(s.responder, s.streams, s.streams[x := b]);
  }

  lemma LanesKeeps(s: Session, side: Side, lanes: Lanes)
    requires Inv(s) && Owned(lanes, s.streams)
    ensures Inv(WithLanes(s, side, lanes))
  {}

  /** A new empty stream is dedicated to its owner, and disturbs no other. */
  lemma AppendKeeps(s: Session, b: Bidi)
    requires Inv(s) && Dedicated(b)
    ensures Inv(s.(streams := s.streams + [b]))
  {
    hide Dedicated;
    ExtendsKeepsOwned(s.requester, s.streams, s.streams + [b]);
    ExtendsKeepsOwned(s.responder, s.streams, s.streams + [b]);
  }

  lemma OpenedKeeps(s: Session, side: Side, f: Frame)
    requires Inv(s)
    ensures Inv(Opened(s, side, f))
    ensures f.streamId in LanesOf(Opened(s, side, f), side)
  {
    hide IsInteractionFrame, InitialType;
    if f.streamId !in LanesOf(s, side) {
      var b := Bidi(side, f.streamId, None, [], []);
      AppendKeeps(s, b);
      var grown := s.(streams := s.streams + [b]);
      var lanes := LanesOf(s, side)[f.streamId := InteractionState(|s.streams|, InitialType(f.kind), false, false)];
      assert Owned(lanes, grown.streams);
      LanesKeeps(grown, side, lanes);
    }
  }

  lemma WritesKeeps(s: Session, side: Side, f: Frame)
    requires Inv(s)
    ensures Inv(Writes(s, side, f))
  {
    if IsInteractionFrame(f) {
      OpenedKeeps(s, side, f);
      var o := Opened(s, side, f);
      var x := LanesOf(o, side)[f.streamId].stream;
      var b := WithQueue(o.streams[x], Other(side), Queue(o.streams[x], Other(side)) + [f]);
      assert Dedicated(o.streams[x]) && o.streams[x].owner == f.streamId;
      assert Dedicated(b);
      hide Opened, IsInteractionFrame;
      ReplaceKeeps(o, x, b);
      var replaced := o.(streams := o.streams[x := b]);
      TrackKeepsOwned(LanesOf(o, side), replaced.streams, f, true);
      LanesKeeps(replaced, side, TrackLane(LanesOf(o, side), f, true));
    }
  }

  lemma ReceivesKeeps(s: Session, side: Side, x: nat)
    requires Inv(s)
    ensures Inv(Receives(s, side, x))
  {
    if x < |s.streams| && Queue(s.streams[x], side) != [] {
      var f := Queue(s.streams[x], side)[0];
      assert Dedicated(s.streams[x]) && f in Queue(s.streams[x], side);
      var mine := s.streams[x].creator == side;
      var popped := WithQueue(s.streams[x], side, Queue(s.streams[x], side)[1..]);
      var learnt := if mine then popped else popped.(known := Some(f.streamId));
      assert Dedicated(learnt);
      hide IsInteractionFrame, Dedicated;
      ReplaceKeeps(s, x, learnt);
      var lanes := LanesOf(s, side);
      var entered := if !mine && s.streams[x].known.None? && f.streamId !in lanes
                     then lanes[f.streamId := InteractionState(x, InitialType(f.kind), false, false)]
                     else lanes;
      var replaced := s.(streams := s.streams[x := learnt]);
      assert Owned(lanes, replaced.streams) && Owned(entered, replaced.streams);
      TrackKeepsOwned(entered, replaced.streams, f, false);
      LanesKeeps(replaced, side, TrackLane(entered, f, false));
    }
  }

  function Run(s: Session, events: seq<Event>): Session
    decreases events
  {
    if events == [] then s else Run(Step(s, events[0]), events[1..])
  }

  lemma {:induction false} RunKeeps(s: Session, events: seq<Event>)
    requires Inv(s)
    ensures Inv(Run(s, events))
    decreases events
  {
    if events != [] {
      StepKeeps(s, events[0]);
      RunKeeps(Step(s, events[0]), events[1..]);
    }
  }

  const NO_STREAMS := Session(map[], map[], [], false)

  /**
    In every run of both endpoints no stream ever carries two stream ids, no endpoint reports one
    that does, and endpoints that share a stream use it for the same id.
   */
  lemma NoStreamIsShared(events: seq<Event>)
    ensures var t := Run(NO_STREAMS, events);
            && !t.violated
            && (forall x, f :: 0 <= x < |t.streams| && (f in t.streams[x].toRequester || f in t.streams[x].toResponder)
                               ==> f.streamId == t.streams[x].owner)
            && (forall i, j :: i in t.requester && j in t.responder && t.requester[i].stream == t.responder[j].stream
                               ==> i == j)
  {
    RunKeeps(NO_STREAMS, events);
    var t := Run(NO_STREAMS, events);
    forall x, f | 0 <= x < |t.streams| && (f in t.streams[x].toRequester || f in t.streams[x].toResponder)
      ensures f.streamId == t.streams[x].owner
    {
      assert Dedicated(t.streams[x]);
    }
  }

  // What is written is read, in order

  /** The stream a frame of an id is written on: the one the writer uses for it, or a new one. */
  function StreamFor(s: Session, side: Side, id: nat): nat
  {
    if id in LanesOf(s, side) then LanesOf(s, side)[id].stream else |s.streams|
  }

  /** The frame an event puts on a stream towards one endpoint. */
  function PutOn(s: Session, e: Event, x: nat, to: Side): seq<Frame>
  {
    if e.Write? && e.side == Other(to) && IsInteractionFrame(e.frame) && StreamFor(s, e.side, e.frame.streamId) == x
    then [e.frame]
    else []
  }

  function Waiting(s: Session, x: nat, to: Side): seq<Frame>
  {
    if x < |s.streams| then Queue(s.streams[x], to) else []
  }

  /** The frame an event takes off a stream. */
  function TakenOff(s: Session, e: Event, x: nat, to: Side): seq<Frame>
  {
    if e == Receive(to, x) && Waiting(s, x, to) != [] then [Waiting(s, x, to)[0]] else []
  }

  function Written(s: Session, events: seq<Event>, x: nat, to: Side): seq<Frame>
    decreases events
  {
    if events == [] then [] else PutOn(s, events[0], x, to) + Written(Step(s, events[0]), events[1..], x, to)
  }

  function Read(s: Session, events: seq<Event>, x: nat, to: Side): seq<Frame>
    decreases events
  {
    if events == [] then [] else TakenOff(s, events[0], x, to) + Read(Step(s, events[0]), events[1..], x, to)
  }

  /** One event: what waited and was put on a stream is what was taken off it and waits. */
  lemma StepConserves(s: Session, e: Event, x: nat, to: Side)
    requires Inv(s)
    ensures Waiting(s, x, to) + PutOn(s, e, x, to) == TakenOff(s, e, x, to) + Waiting(Step(s, e), x, to)
  {
    hide Inv, Writes, Receives, Queue, IsInteractionFrame;
    match e
    case Write(side, f) => WriteConserves(s, side, f, x, to);
    case Receive(side, y) => ReceiveConserves(s, side, y, x, to);
  }

  lemma WriteConserves(s: Session, side: Side, f: Frame, x: nat, to: Side)
    requires Inv(s)
    ensures Waiting(s, x, to) + PutOn(s, Write(side, f), x, to) == Waiting(Writes(s, side, f), x, to)
  {
    if IsInteractionFrame(f) {
      OpenedKeeps(s, side, f);
      hide TrackLane, IsInteractionFrame;
    }
  }

  lemma ReceiveConserves(s: Session, side: Side, y: nat, x: nat, to: Side)
    requires Inv(s)
    ensures Waiting(s, x, to) == TakenOff(s, Receive(side, y), x, to) + Waiting(Receives(s, side, y), x, to)
  {
    ReceivesKeeps(s, side, y);
    hide TrackLane, Dedicated, IsInteractionFrame;
  }

  lemma {:induction false} RunConserves(s: Session, events: seq<Event>, x: nat, to: Side)
    requires Inv(s)
    ensures Waiting(s, x, to) + Written(s, events, x, to)
            == Read(s, events, x, to) + Waiting(Run(s, events), x, to)
    decreases events
  {
    hide Inv, Step, PutOn, TakenOff, Waiting;
    if events != [] {
      var e, t := events[0], Step(s, events[0]);
      StepKeeps(s, e);
      StepConserves(s, e, x, to);
      RunConserves(t, events[1..], x, to);
      Regroup(Waiting(s, x, to), PutOn(s, e, x, to), Written(t, events[1..], x, to),
              TakenOff(s, e, x, to), Waiting(t, x, to), Read(t, events[1..], x, to),
              Waiting(Run(t, events[1..]), x, to));
    }
  }

  lemma Regroup<T>(a: seq<T>, b: seq<T>, c: seq<T>, d: seq<T>, e: seq<T>, f: seq<T>, g: seq<T>)
    requires a + b == d + e && e + c == f + g
    ensures a + (b + c) == d + f + g
  {
    assert a + (b + c) == (a + b) + c;
    assert (d + e) + c == d + (e + c);
    assert d + (f + g) == d + f + g;
  }

  /**
    Over every run and for every stream and direction: the frames read are the first of those written,
    in order, and the others still wait.
   */
  lemma ReadsWhatWasWritten(events: seq<Event>, x: nat, to: Side)
    ensures Written(NO_STREAMS, events, x, to)
            == Read(NO_STREAMS, events, x, to) + Waiting(Run(NO_STREAMS, events), x, to)
  {
    RunConserves(NO_STREAMS, events, x, to);
  }

  // When an interaction is over

  /**
    CANCEL and ERROR end an interaction; COMPLETE of a payload or channel request ends it unless the
    interaction is a channel whose other half goes on.
   */
  lemma ReleasedExactly(state: InteractionState, f: Frame, local: bool)
    ensures var channel := state.kind == Some(RequestChannel) || (state.kind.None? && f.kind.RequestChannel?);
            var done := f.complete && (f.kind.Payload? || f.kind.RequestChannel?);
            var over := f.kind.Cancel? || f.kind.Error?
                        || (done && (channel ==> if local then state.remoteComplete else state.localComplete));
            var t := Track(state, f, local);
            && (t.None? <==> over)
            && (t.Some? ==>
                  && t.value.stream == state.stream
                  && t.value.localComplete == (state.localComplete || (local && done))
                  && t.value.remoteComplete == (state.remoteComplete || (!local && done)))
  {}

  /** Tracking a frame concerns the interaction of its id alone. */
  lemma LaneTracked(lanes: Lanes, f: Frame, local: bool)
    requires f.streamId in lanes
    ensures var after := TrackLane(lanes, f, local);
            var t := Track(lanes[f.streamId], f, local);
            && (f.streamId in after <==> t.Some?)
            && (t.Some? ==> after[f.streamId] == t.value)
            && after - {f.streamId} == lanes - {f.streamId}
  {
    hide Track;
  }

  lemma OpenedTells(s: Session, side: Side, f: Frame)
    requires Inv(s)
    ensures var lanes, grown := LanesOf(s, side), LanesOf(Opened(s, side, f), side);
            var id := f.streamId;
            && id in grown
            && grown[id] == (if id in lanes then lanes[id]
                              else InteractionState(|s.streams|, InitialType(f.kind), false, false))
            && grown[id].stream < |Opened(s, side, f).streams|
            && grown - {id} == lanes - {id}
            && LanesOf(Opened(s, side, f), Other(side)) == LanesOf(s, Other(side))
  {
    hide InitialType, Dedicated;
  }

  /** A written frame leaves its interaction with the writer exactly if it does not end it, and no other changes. */
  lemma WriteTracks(s: Session, side: Side, f: Frame)
    requires Inv(s) && IsInteractionFrame(f)
    ensures var lanes, after := LanesOf(s, side), LanesOf(Writes(s, side, f), side);
            var id := f.streamId;
            var state := if id in lanes then lanes[id]
                         else InteractionState(|s.streams|, InitialType(f.kind), false, false);
            && (id in after <==> Track(state, f, true).Some?)
            && (id in after ==> after[id] == Track(state, f, true).value)
            && after - {id} == lanes - {id}
            && LanesOf(Writes(s, side, f), Other(side)) == LanesOf(s, Other(side))
  {
    hide Inv, Track, TrackLane, IsInteractionFrame, Opened, Queue, WithQueue, InitialType;
    OpenedTells(s, side, f);
    LaneTracked(LanesOf(Opened(s, side, f), side), f, true);
  }

  /** The same of a frame read: with the reader, an interaction it did not know of begins. */
  lemma ReadTracks(s: Session, side: Side, x: nat)
    requires Inv(s) && Waiting(s, x, side) != []
    ensures var lanes, after := LanesOf(s, side), LanesOf(Receives(s, side, x), side);
            var f := Waiting(s, x, side)[0];
            var id := f.streamId;
            && after - {id} == lanes - {id}
            && LanesOf(Receives(s, side, x), Other(side)) == LanesOf(s, Other(side))
            && (id in lanes ==>
                  && (id in after <==> Track(lanes[id], f, false).Some?)
                  && (id in after ==> after[id] == Track(lanes[id], f, false).value))
            && (id !in lanes && id in after ==> s.streams[x].creator != side && after[id].stream == x)
  {
    var f := Queue(s.streams[x], side)[0];
    assert Dedicated(s.streams[x]) && f in Queue(s.streams[x], side);
    var lanes := LanesOf(s, side);
    hide Inv, Track, TrackLane, IsInteractionFrame, Dedicated, InitialType;
    if f.streamId in lanes {
      LaneTracked(lanes, f, false);
    } else {
      var entered: Lanes := lanes[f.streamId := InteractionState(x, InitialType(f.kind), false, false)];
      LaneTracked(entered, f, false);
      assert entered - {f.streamId} == lanes - {f.streamId};
      assert TrackLane(lanes, f, false) == lanes by { NotTracked(lanes, f); }
      TrackStays(entered[f.streamId], f);
    }
  }

  lemma NotTracked(lanes: Lanes, f: Frame)
    requires f.streamId !in lanes
    ensures TrackLane(lanes, f, false) == lanes
  {}

  lemma TrackStays(state: InteractionState, f: Frame)
    ensures Track(state, f, false).Some? ==> Track(state, f, false).value.stream == state.stream
  {}
}
