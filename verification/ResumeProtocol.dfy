/**
  The two-party Resume protocol: a client session, a server session and every physical
  transport ever opened between them. A transport is a pair of FIFO queues of which only a
  prefix need be read before either end gives it up.
 */
module ResumeProtocol {
  import opened Common
  import opened ReplayWindow

  /** A raw frame carries at least its 6-byte header. */
  type Frame = f: Bytes | 6 <= |f| witness [0, 0, 0, 0, 0, 0]

  datatype Message =
    | Positional(frame: Bytes)
    | Keepalive(position: int)
    | Resume(lastReceived: int, firstAvailable: int)
    | ResumeOk(lastReceived: int)

  datatype Link = Link(c2s: seq<Message>, s2c: seq<Message>)

  datatype Phase = Connected | Suspended | Awaiting | Resuming(peerPosition: int) | Terminated

  /** `sent` and `received` are the client's implied positions of both directions. */
  datatype Client = Client(
    phase: Phase, conn: nat, sent: int, received: int, window: Window,
    pending: seq<Frame>, incoming: seq<Message>)

  /** `Replaying` holds the frames produced before the replay has been written. */
  datatype Mode = Bound(id: nat) | Replaying(id: nat, outbound: seq<Bytes>) | Idle | Closed

  datatype Server = Server(mode: Mode, sent: int, received: int, window: Window)

  /**
    `byClient` and `byServer` are all frames each side ever recorded, `atServer` and `atClient`
    all frames the other side accepted. `violated` records that a position check failed, or that
    a handshake message came out of place, between two conforming peers.
   */
  datatype System = System(
    client: Client, server: Server, links: seq<Link>,
    byClient: seq<Bytes>, atServer: seq<Bytes>, byServer: seq<Bytes>, atClient: seq<Bytes>,
    clientCap: nat, serverCap: nat, violated: bool)

  function Init(clientCap: nat, serverCap: nat): System
  {
    System(Client(Connected, 0, 0, 0, EMPTY, [], []), Server(Bound(0), 0, 0, EMPTY), [Link([], [])],
           [], [], [], [], clientCap, serverCap, false)
  }

  /** What the transport does with one write. */
  datatype WriteOutcome = Written | WriteFailed | NotOpen

  datatype Action =
    | ClientSend(frame: Frame, outcome: WriteOutcome)
    | ClientFlush(outcome: WriteOutcome)
    | ClientKeepalive(written: bool)
    | ClientLose
    | ClientDial
    | ClientReceive
    | ClientFinishResume
    | ClientDispatch
    | ClientEnds
    | ServerSend(frame: Frame, written: bool)
    | ServerKeepalive(written: bool)
    | ServerLose
    | ServerReceive
    | ServerAccept(id: nat)
    | ServerFlush
    | ServerEnds

  // ----- client steps

  function ToServer(s: System, id: nat, messages: seq<Message>): seq<Link>
    requires id < |s.links|
  {
    s.links[id := s.links[id].(c2s := s.links[id].c2s + messages)]
  }

  function ToClient(s: System, id: nat, messages: seq<Message>): seq<Link>
    requires id < |s.links|
  {
    s.links[id := s.links[id].(s2c := s.links[id].s2c + messages)]
  }

  function LoseClient(c: Client): Client
  {
    c.(phase := Suspended, incoming := [])
  }

  /** A session that ends for good, by a failure, an abandoned Resume or an expired one, releases what it retained. */
  function EndClient(c: Client): Client
  {
    c.(phase := Terminated, window := EMPTY)
  }

  function EndServer(v: Server): Server
  {
    v.(mode := Closed, window := EMPTY)
  }

  /** Records and writes one frame; `unsent` is what stays queued if the transport is not open. */
  function ClientWrite(s: System, frame: Frame, unsent: seq<Frame>, outcome: WriteOutcome): System
    requires s.client.conn < |s.links|
  {
    if outcome == NotOpen then s.(client := LoseClient(s.client).(pending := unsent))
    else match Record(s.client.window, s.client.sent, frame, Some(s.clientCap))
      case RecordFailed(_) => s.(client := EndClient(s.client))
      case Recorded(w) =>
        var c := s.client.(window := w, sent := s.client.sent + |frame|);
        if outcome == Written then
          s.(client := c, byClient := s.byClient + [frame],
             links := ToServer(s, c.conn, [Positional(frame)]))
        else s.(client := LoseClient(c), byClient := s.byClient + [frame])
  }

  function ClientSends(s: System, frame: Frame, outcome: WriteOutcome): System
    requires s.client.conn < |s.links|
  {
    match s.client.phase
    case Connected => ClientWrite(s, frame, s.client.pending + [frame], outcome)
    case Terminated => s
    case _ => s.(client := s.client.(pending := s.client.pending + [frame]))
  }

  function ClientFlushes(s: System, outcome: WriteOutcome): System
    requires s.client.conn < |s.links|
  {
    if s.client.phase != Connected || s.client.pending == [] then s
    else
      var rest := s.(client := s.client.(pending := s.client.pending[1..]));
      ClientWrite(rest, s.client.pending[0], s.client.pending, outcome)
  }

  function ClientHandles(s: System, m: Message): System
  {
    match m
    case Positional(frame) =>
      s.(client := s.client.(received := s.client.received + |frame|), atClient := s.atClient + [frame])
    case Keepalive(position) =>
      (match Acknowledge(s.client.window, position, s.client.sent)
       case Acked(w) => s.(client := s.client.(window := w))
       case AckImpossible => s.(violated := true))
    case _ => s.(violated := true)
  }

  function ClientReceives(s: System): System
    requires s.client.conn < |s.links|
  {
    var c := s.client;
    var queue := s.links[c.conn].s2c;
    if queue == [] then s
    else
      var rest := s.(links := s.links[c.conn := s.links[c.conn].(s2c := queue[1..])]);
      match c.phase
      case Connected => if c.incoming == [] then ClientHandles(rest, queue[0]) else s
      case Resuming(_) => rest.(client := c.(incoming := c.incoming + [queue[0]]))
      case Awaiting =>
        if queue[0].ResumeOk? && queue[0].lastReceived <= c.sent
        then rest.(client := c.(phase := Resuming(queue[0].lastReceived)))
        else rest.(violated := true)
      case _ => s
  }

  /** Replays everything the server has not received and returns to normal operation. */
  function ClientFinishes(s: System): System
    requires s.client.conn < |s.links|
  {
    if !s.client.phase.Resuming? then s
    else match Replay(s.client.window, s.client.phase.peerPosition, s.client.sent)
      case Replayed(w, emitted) =>
        s.(client := s.client.(phase := Connected, window := w),
           links := ToServer(s, s.client.conn, Wrap(emitted)))
      case _ => s.(violated := true)
  }

  function ClientDials(s: System): System
  {
    if s.client.phase != Suspended then s
    else
      var resume := Resume(s.client.received, FirstAvailable(s.client.window, s.client.sent));
      s.(client := s.client.(phase := Awaiting, conn := |s.links|, incoming := []),
         links := s.links + [Link([resume], [])])
  }

  // ----- server steps

  function ServerSends(s: System, frame: Frame, written: bool): System
    requires s.server.mode.Bound? ==> s.server.mode.id < |s.links|
  {
    if s.server.mode.Closed? then s
    else match Record(s.server.window, s.server.sent, frame, Some(s.serverCap))
      case RecordFailed(_) => s.(server := EndServer(s.server))
      case Recorded(w) =>
        var v := s.server.(window := w, sent := s.server.sent + |frame|);
        var t := s.(server := v, byServer := s.byServer + [frame]);
        match v.mode
        case Bound(id) =>
          if written then t.(links := ToClient(s, id, [Positional(frame)]))
          else t.(server := v.(mode := Idle))
        case Replaying(id, outbound) => t.(server := v.(mode := Replaying(id, outbound + [frame])))
        case _ => t
  }

  function ServerHandles(s: System, m: Message): System
  {
    match m
    case Positional(frame) =>
      s.(server := s.server.(received := s.server.received + |frame|), atServer := s.atServer + [frame])
    case Keepalive(position) =>
      (match Acknowledge(s.server.window, position, s.server.sent)
       case Acked(w) => s.(server := s.server.(window := w))
       case AckImpossible => s.(violated := true))
    case _ => s.(violated := true)
  }

  function ServerReceives(s: System): System
    requires s.server.mode.Bound? ==> s.server.mode.id < |s.links|
  {
    if !s.server.mode.Bound? || s.links[s.server.mode.id].c2s == [] then s
    else
      var id := s.server.mode.id;
      var queue := s.links[id].c2s;
      ServerHandles(s.(links := s.links[id := s.links[id].(c2s := queue[1..])]), queue[0])
  }

  /** A RESUME found at the front of any transport: checked, acknowledged and replayed. */
  function ServerAccepts(s: System, id: nat): System
  {
    if id >= |s.links| || s.links[id].c2s == [] || !s.links[id].c2s[0].Resume? then s
    else
      var resume := s.links[id].c2s[0];
      var rest := s.(links := s.links[id := s.links[id].(c2s := s.links[id].c2s[1..])]);
      if s.server.mode != Idle then rest
      else if resume.firstAvailable > s.server.received
           || !CanReplay(s.server.window, resume.lastReceived, s.server.sent)
      then rest.(violated := s.violated || (id == s.client.conn && s.client.phase == Awaiting))
      else match Replay(s.server.window, resume.lastReceived, s.server.sent)
        case Replayed(w, emitted) =>
          rest.(server := s.server.(mode := Replaying(id, []), window := w),
                links := ToClient(rest, id, [ResumeOk(s.server.received)] + Wrap(emitted)))
        case _ => rest.(violated := true)
  }

  function ServerFlushes(s: System): System
    requires s.server.mode.Replaying? ==> s.server.mode.id < |s.links|
  {
    if !s.server.mode.Replaying? then s
    else s.(server := s.server.(mode := Bound(s.server.mode.id)),
            links := ToClient(s, s.server.mode.id, Wrap(s.server.mode.outbound)))
  }

  ghost predicate WellFormed(s: System)
  {
    && s.client.conn < |s.links|
    && (s.server.mode.Bound? || s.server.mode.Replaying? ==> s.server.mode.id < |s.links|)
  }

  predicate OfClient(a: Action)
  {
    || a.ClientSend? || a.ClientFlush? || a.ClientKeepalive? || a.ClientLose? || a.ClientDial? || a.ClientReceive?
    || a.ClientFinishResume? || a.ClientDispatch? || a.ClientEnds?
  }

  function ClientStep(s: System, a: Action): (t: System)
    requires WellFormed(s) && OfClient(a)
    ensures WellFormed(t)
  {
    match a
    case ClientSend(frame, outcome) => ClientSends(s, frame, outcome)
    case ClientFlush(outcome) => ClientFlushes(s, outcome)
    case ClientKeepalive(written) =>
      if s.client.phase != Connected then s
      else if written then s.(links := ToServer(s, s.client.conn, [Keepalive(s.client.received)]))
      else s.(client := LoseClient(s.client))
    case ClientLose =>
      if s.client.phase in {Suspended, Terminated} then s else s.(client := LoseClient(s.client))
    case ClientDial => ClientDials(s)
    case ClientReceive => ClientReceives(s)
    case ClientFinishResume => ClientFinishes(s)
    case ClientDispatch =>
      if s.client.phase != Connected || s.client.incoming == [] then s
      else ClientHandles(s.(client := s.client.(incoming := s.client.incoming[1..])), s.client.incoming[0])
    case ClientEnds => s.(client := EndClient(s.client))
  }

  function ServerStep(s: System, a: Action): (t: System)
    requires WellFormed(s) && !OfClient(a)
    ensures WellFormed(t)
  {
    match a
    case ServerSend(frame, written) => ServerSends(s, frame, written)
    case ServerKeepalive(written) =>
      if !s.server.mode.Bound? then s
      else if written then s.(links := ToClient(s, s.server.mode.id, [Keepalive(s.server.received)]))
      else s.(server := s.server.(mode := Idle))
    case ServerLose =>
      if s.server.mode == Closed then s else s.(server := s.server.(mode := Idle))
    case ServerReceive => ServerReceives(s)
    case ServerAccept(id) => ServerAccepts(s, id)
    case ServerFlush => ServerFlushes(s)
    case ServerEnds => s.(server := EndServer(s.server))
  }

  function Step(s: System, a: Action): (t: System)
    requires WellFormed(s)
    ensures WellFormed(t)
  {
    if OfClient(a) then ClientStep(s, a) else ServerStep(s, a)
  }

  // ----- messages

  function Wrap(frames: seq<Bytes>): (messages: seq<Message>)
    ensures |messages| == |frames|
    ensures forall i :: 0 <= i < |frames| ==> messages[i] == Positional(frames[i])
  {
    seq(|frames|, i requires 0 <= i < |frames| => Positional(frames[i]))
  }

  /** The positional frames in a message queue. */
  function Frames(messages: seq<Message>): seq<Bytes>
  {
    if messages == [] then []
    else (if messages[0].Positional? then [messages[0].frame] else []) + Frames(messages[1..])
  }

  lemma {:induction false} FramesConcat(a: seq<Message>, b: seq<Message>)
    ensures Frames(a + b) == Frames(a) + Frames(b)
  {
    if a == [] {
      assert a + b == b;
    } else {
      assert (a + b)[1..] == a[1..] + b;
      FramesConcat(a[1..], b);
    }
  }

  lemma {:induction false} FramesWrap(frames: seq<Bytes>)
    ensures Frames(Wrap(frames)) == frames
  {
    if frames != [] {
      assert Wrap(frames)[1..] == Wrap(frames[1..]);
      FramesWrap(frames[1..]);
    }
  }

  // ----- the invariant

  /** A position that names a boundary the receiver has reached. */
  ghost predicate Reached(position: int, accepted: seq<Bytes>)
  {
    exists j :: 0 <= j <= |accepted| && position == Span(accepted[..j])
  }

  ghost predicate Plain(messages: seq<Message>, accepted: seq<Bytes>)
  {
    forall m :: m in messages ==> m.Positional? || (m.Keepalive? && Reached(m.position, accepted))
  }

  /** How many frames of its history a sender has already forgotten. */
  ghost function Forgotten(recorded: seq<Bytes>, w: Window): int
  {
    |recorded| - |w.frames|
  }

  /** A sender retains exactly a suffix of what it recorded, all of what was not acknowledged. */
  ghost predicate Retains(recorded: seq<Bytes>, w: Window, sent: int, accepted: seq<Bytes>)
  {
    var a := Forgotten(recorded, w);
    && 0 <= a <= |accepted|
    && accepted <= recorded
    && w == Window(Span(recorded[..a]), recorded[a..], Span(recorded[..a]))
    && sent == Span(recorded)
    && (forall f :: f in recorded ==> f != [])
  }

  /** What is on its way continues what was accepted; `synced` means nothing else is missing. */
  ghost predicate Flows(recorded: seq<Bytes>, accepted: seq<Bytes>, messages: seq<Message>,
                        held: seq<Bytes>, synced: bool)
  {
    && accepted + Frames(messages) <= recorded
    && (synced ==> accepted + Frames(messages) + held == recorded)
  }

  ghost function BoundTo(v: Server): Option<nat>
  {
    match v.mode
    case Bound(id) => Some(id)
    case Replaying(id, _) => Some(id)
    case _ => None
  }

  ghost function Held(v: Server): seq<Bytes>
  {
    if v.mode.Replaying? then v.mode.outbound else []
  }

  ghost predicate Core(s: System)
  {
    && !s.violated
    && WellFormed(s)
    && s.atServer <= s.byClient
    && s.atClient <= s.byServer
    && s.server.received == Span(s.atServer)
    && s.client.received == Span(s.atClient)
    && (s.client.phase != Terminated ==>
          Retains(s.byClient, s.client.window, s.client.sent, s.atServer))
    && (s.server.mode != Closed ==>
          Retains(s.byServer, s.server.window, s.server.sent, s.atClient))
  }

  /** The transport the server reads from. */
  ghost predicate ServerReads(s: System)
    requires WellFormed(s)
  {
    BoundTo(s.server).Some? ==>
      var id := BoundTo(s.server).value;
      && Plain(s.links[id].c2s, s.atClient)
      && Flows(s.byClient, s.atServer, s.links[id].c2s, [],
               s.client.conn == id && s.client.phase == Connected)
      && (s.client.conn == id && (s.client.phase == Awaiting || s.client.phase.Resuming?) ==>
            s.links[id].c2s == [])
  }

  /** No client frame can reach the server: RESUME_OK still tells the truth. */
  ghost predicate Quiet(s: System)
    requires WellFormed(s)
  {
    BoundTo(s.server).Some? ==> s.links[BoundTo(s.server).value].c2s == []
  }

  ghost predicate ClientQueue(s: System, queue: seq<Message>)
  {
    && Plain(queue, s.atServer)
    && Flows(s.byServer, s.atClient, queue, Held(s.server), BoundTo(s.server) == Some(s.client.conn))
  }

  /** The transport the client reads from. */
  ghost predicate ClientReads(s: System)
    requires WellFormed(s)
  {
    var queue := s.links[s.client.conn].s2c;
    match s.client.phase
    case Connected => ClientQueue(s, s.client.incoming + queue)
    case Resuming(position) =>
      position == Span(s.atServer) && Quiet(s) && ClientQueue(s, s.client.incoming + queue)
    case Awaiting =>
      && s.client.incoming == []
      && (queue == [] ==> BoundTo(s.server) != Some(s.client.conn))
      && (queue != [] ==>
            && queue[0] == ResumeOk(Span(s.atServer))
            && Quiet(s)
            && ClientQueue(s, queue[1..]))
    case _ => true
  }

  /** A transport on which RESUME has not been answered yet, possibly long abandoned. */
  ghost predicate Dialed(s: System, i: nat)
    requires i < |s.links| && WellFormed(s)
  {
    var link := s.links[i];
    link.c2s != [] && link.c2s[0].Resume? ==>
      && |link.c2s| == 1
      && link.s2c == []
      && BoundTo(s.server) != Some(i)
      && Reached(link.c2s[0].lastReceived, s.atClient)
      && (i == s.client.conn ==> s.client.phase != Connected && !s.client.phase.Resuming?)
      && (i == s.client.conn && s.client.phase == Awaiting ==>
            && link.c2s[0] == Resume(s.client.received, FirstAvailable(s.client.window, s.client.sent)))
  }

  ghost predicate Inv(s: System)
  {
    && Core(s)
    && ServerReads(s)
    && ClientReads(s)
    && (forall i :: 0 <= i < |s.links| ==> Dialed(s, i))
  }

  // ----- one direction at a time

  lemma PrefixSpan(a: seq<Bytes>, b: seq<Bytes>)
    requires a <= b
    ensures Span(a) <= Span(b)
    ensures forall j :: 0 <= j <= |a| ==> a[..j] == b[..j]
  {
    SpanSplit(b, |a|);
    PrefixTakes(a, b);
  }

  lemma ReachedGrows(position: int, a: seq<Bytes>, b: seq<Bytes>)
    requires a <= b && Reached(position, a)
    ensures Reached(position, b)
  {
    PrefixSpan(a, b);
    var j :| 0 <= j <= |a| && position == Span(a[..j]);
    assert b[..j] == a[..j];
  }

  lemma ReachedNow(accepted: seq<Bytes>)
    ensures Reached(Span(accepted), accepted)
  {
    assert accepted[..|accepted|] == accepted;
  }

  lemma PlainGrows(messages: seq<Message>, a: seq<Bytes>, b: seq<Bytes>)
    requires a <= b && Plain(messages, a)
    ensures Plain(messages, b)
  {
    forall m | m in messages && m.Keepalive? ensures Reached(m.position, b) {
      ReachedGrows(m.position, a, b);
    }
  }

  lemma RetainsRecord(recorded: seq<Bytes>, w: Window, sent: int, accepted: seq<Bytes>, frame: Bytes, cap: nat)
    requires Retains(recorded, w, sent, accepted) && frame != []
    ensures var r := Record(w, sent, frame, Some(cap));
            r.Recorded? ==> Retains(recorded + [frame], r.window, sent + |frame|, accepted)
  {
    var a := Forgotten(recorded, w);
    SpanSplit(recorded, a);
    assert w.frames[..|w.frames|] == w.frames;
    RecordKeepsThreaded(w, sent, frame, Some(cap));
    SpanConcat(recorded, [frame]);
    assert (recorded + [frame])[..a] == recorded[..a];
    assert (recorded + [frame])[a..] == recorded[a..] + [frame];
  }

  /** Forgetting up to a boundary the receiver reached. */
  lemma RetainsDrop(recorded: seq<Bytes>, w: Window, sent: int, accepted: seq<Bytes>, j: nat)
    requires Retains(recorded, w, sent, accepted) && Forgotten(recorded, w) <= j <= |accepted|
    ensures Threaded(w, sent) && (forall f :: f in w.frames ==> f != [])
    ensures var k := j - Forgotten(recorded, w);
            var p := Span(recorded[..j]);
            && k <= |w.frames| && PositionOf(w.base, w.frames, k) == p
            && Retains(recorded, Window(p, w.frames[k..], p), sent, accepted)
            && w.frames[k..] == recorded[j..]
  {
    var a := Forgotten(recorded, w);
    SpanSplit(recorded, a);
    assert w.frames[..|w.frames|] == w.frames;
    assert recorded[..j][..a] == recorded[..a] && recorded[..j][a..] == w.frames[..j - a];
    SpanSplit(recorded[..j], a);
    forall f | f in w.frames ensures f != [] {
      assert f in recorded;
    }
  }

  /** No acknowledgement of a conforming peer is ever refused. */
  lemma RetainsAcknowledge(recorded: seq<Bytes>, w: Window, sent: int, accepted: seq<Bytes>, position: int)
    requires Retains(recorded, w, sent, accepted) && Reached(position, accepted)
    ensures var r := Acknowledge(w, position, sent);
            r.Acked? && Retains(recorded, r.window, sent, accepted)
  {
    if position > w.acked {
      PrefixSpan(accepted, recorded);
      var j :| 0 <= j <= |accepted| && position == Span(accepted[..j]);
      var a := Forgotten(recorded, w);
      if j < a {
        PrefixSpan(recorded[..j], recorded[..a]);
      } else {
        RetainsDrop(recorded, w, sent, accepted, j);
        LocateBoundary(w, sent, j - a);
        DropKeepsThreaded(w, j - a, sent);
      }
    }
  }

  /**
    A replay position the receiver reached is either refused because it was acknowledged past, or
    replays exactly what was recorded after it; the receiver's latest position is never refused.
   */
  lemma RetainsReplay(recorded: seq<Bytes>, w: Window, sent: int, accepted: seq<Bytes>, position: int)
      returns (j: nat)
    requires Retains(recorded, w, sent, accepted) && Reached(position, accepted)
    ensures j <= |accepted| && position == Span(recorded[..j])
    ensures position == Span(accepted) ==> CanReplay(w, position, sent) && j == |accepted|
    ensures CanReplay(w, position, sent) ==>
              var r := Replay(w, position, sent);
              && r.Replayed? && r.emitted == recorded[j..]
              && Retains(recorded, r.window, sent, accepted)
  {
    PrefixSpan(accepted, recorded);
    j :| 0 <= j <= |accepted| && position == Span(accepted[..j]);
    assert accepted[..|accepted|] == accepted;
    if position == Span(accepted) {
      j := |accepted|;
    }
    var a := Forgotten(recorded, w);
    if j < a {
      PrefixSpan(recorded[..j], recorded[..a]);
      SpanNext(recorded, j);
      PrefixSpan(recorded[..j + 1], recorded[..a]);
      assert recorded[j] in recorded;
      SpanSplit(recorded, a);
    } else {
      RetainsDrop(recorded, w, sent, accepted, j);
      ReplayIsSuffix(w, position, sent);
    }
  }

  /** A peer that names its first retained frame names one the receiver has seen the start of. */
  lemma RetainsFirst(recorded: seq<Bytes>, w: Window, sent: int, accepted: seq<Bytes>)
    requires Retains(recorded, w, sent, accepted)
    ensures FirstAvailable(w, sent) <= Span(accepted)
  {
    var a := Forgotten(recorded, w);
    PrefixSpan(accepted, recorded);
    assert recorded[..a] == accepted[..a];
    PrefixSpan(accepted[..a], accepted);
    if w.frames == [] {
      assert recorded[..a] == recorded;
    }
  }

  lemma RetainsAccept(recorded: seq<Bytes>, w: Window, sent: int, accepted: seq<Bytes>, next: seq<Bytes>)
    requires Retains(recorded, w, sent, accepted) && accepted <= next <= recorded
    ensures Retains(recorded, w, sent, next)
  {}

  lemma FlowsSend(recorded: seq<Bytes>, accepted: seq<Bytes>, messages: seq<Message>, frames: seq<Bytes>,
      rest: seq<Bytes>, synced: bool)
    requires Flows(recorded, accepted, messages, frames + rest, synced)
    requires synced || accepted + Frames(messages) + frames <= recorded
    ensures Flows(recorded, accepted, messages + Wrap(frames), rest, synced)
  {
    FramesConcat(messages, Wrap(frames));
    FramesWrap(frames);
    hide Frames;
    ConcatAssociates(accepted, Frames(messages), frames);
    ConcatAssociates(accepted + Frames(messages), frames, rest);
  }

  lemma FlowsRecord(recorded: seq<Bytes>, accepted: seq<Bytes>, messages: seq<Message>, held: seq<Bytes>,
      frame: Bytes, synced: bool)
    requires Flows(recorded, accepted, messages, held, synced)
    ensures Flows(recorded + [frame], accepted, messages, held + [frame], synced)
  {
    if synced {
      assert accepted + Frames(messages) + (held + [frame]) == recorded + [frame];
    }
  }

  lemma FlowsNote(recorded: seq<Bytes>, accepted: seq<Bytes>, messages: seq<Message>, held: seq<Bytes>,
      synced: bool, position: int)
    requires Flows(recorded, accepted, messages, held, synced)
    ensures Flows(recorded, accepted, messages + [Keepalive(position)], held, synced)
  {
    FramesConcat(messages, [Keepalive(position)]);
    assert Frames([Keepalive(position)]) == [];
    assert Frames(messages) + [] == Frames(messages);
  }

  /** Taking the first message off a queue. */
  lemma FlowsReceive(recorded: seq<Bytes>, accepted: seq<Bytes>, messages: seq<Message>, held: seq<Bytes>, synced: bool)
    requires Flows(recorded, accepted, messages, held, synced) && messages != []
    ensures var next := if messages[0].Positional? then accepted + [messages[0].frame] else accepted;
            && accepted <= next <= recorded
            && Flows(recorded, next, messages[1..], held, synced)
  {
    if messages[0].Positional? {
      var next := accepted + [messages[0].frame];
      assert accepted + Frames(messages) == next + Frames(messages[1..]);
    }
  }

  // ----- every step keeps the invariant

  lemma PendingIsLocal(s: System, pending: seq<Frame>)
    requires Inv(s)
    ensures Inv(s.(client := s.client.(pending := pending)))
  {
    var t := s.(client := s.client.(pending := pending));
    forall i | 0 <= i < |t.links| ensures Dialed(t, i) {
      assert Dialed(s, i);
    }
  }

  /** Losing, or giving up on, the client's transport. */
  lemma LoseClientKeeps(s: System)
    requires Inv(s) && s.client.phase != Terminated
    ensures Inv(s.(client := LoseClient(s.client)))
  {
    var t := s.(client := LoseClient(s.client));
    forall i | 0 <= i < |t.links| ensures Dialed(t, i) {
      assert Dialed(s, i);
    }
  }

  lemma RecordClientKeeps(s: System, frame: Bytes)
    requires Inv(s) && s.client.phase == Connected && frame != []
    requires Record(s.client.window, s.client.sent, frame, Some(s.clientCap)).Recorded?
    ensures var w := Record(s.client.window, s.client.sent, frame, Some(s.clientCap)).window;
            var c := s.client.(window := w, sent := s.client.sent + |frame|);
            && Inv(s.(client := LoseClient(c), byClient := s.byClient + [frame]))
            && Inv(s.(client := c, byClient := s.byClient + [frame],
                      links := ToServer(s, c.conn, [Positional(frame)])))
  {
    var w := Record(s.client.window, s.client.sent, frame, Some(s.clientCap)).window;
    var c := s.client.(window := w, sent := s.client.sent + |frame|);
    RetainsRecord(s.byClient, s.client.window, s.client.sent, s.atServer, frame, s.clientCap);
    var lost := s.(client := LoseClient(c), byClient := s.byClient + [frame]);
    var t := s.(client := c, byClient := s.byClient + [frame],
                links := ToServer(s, c.conn, [Positional(frame)]));
    forall i | 0 <= i < |s.links| ensures Dialed(t, i) && Dialed(lost, i) {
      assert Dialed(s, i);
    }
    if BoundTo(s.server).Some? {
      var id := BoundTo(s.server).value;
      var synced := s.client.conn == id;
      FlowsRecord(s.byClient, s.atServer, s.links[id].c2s, [], frame, synced);
      if synced {
        assert [frame] + [] == [frame];
        FlowsSend(t.byClient, s.atServer, s.links[id].c2s, [frame], [], true);
        assert Wrap([frame]) == [Positional(frame)];
        assert [] + [frame] == [frame];
      }
    }
  }

  lemma ClientWriteKeeps(s: System, frame: Frame, unsent: seq<Frame>, outcome: WriteOutcome)
    requires Inv(s) && s.client.phase == Connected
    ensures Inv(ClientWrite(s, frame, unsent, outcome))
  {
    if outcome == NotOpen {
      LoseClientKeeps(s);
      PendingIsLocal(s.(client := LoseClient(s.client)), unsent);
    } else if Record(s.client.window, s.client.sent, frame, Some(s.clientCap)).Recorded? {
      RecordClientKeeps(s, frame);
    } else {
      ClientEndsKeeps(s);
    }
  }

  /** Nothing is promised about what an ended session retains. */
  lemma ClientEndsKeeps(s: System)
    requires Inv(s)
    ensures Inv(s.(client := EndClient(s.client)))
  {
    hide Frames, Span;
    var t := s.(client := EndClient(s.client));
    forall i | 0 <= i < |t.links| ensures Dialed(t, i) {
      assert Dialed(s, i);
    }
  }

  lemma ClientKeepaliveKeeps(s: System)
    requires Inv(s) && s.client.phase == Connected
    ensures Inv(s.(links := ToServer(s, s.client.conn, [Keepalive(s.client.received)])))
  {
    var t := s.(links := ToServer(s, s.client.conn, [Keepalive(s.client.received)]));
    ReachedNow(s.atClient);
    forall i | 0 <= i < |s.links| ensures Dialed(t, i) {
      assert Dialed(s, i);
    }
    if BoundTo(s.server) == Some(s.client.conn) {
      FlowsNote(s.byClient, s.atServer, s.links[s.client.conn].c2s, [], true, s.client.received);
    }
  }

  lemma ClientDialsKeeps(s: System)
    requires Inv(s) && s.client.phase == Suspended
    ensures Inv(ClientDials(s))
  {
    var t := ClientDials(s);
    ReachedNow(s.atClient);
    forall i | 0 <= i < |t.links| ensures Dialed(t, i) {
      if i < |s.links| {
        assert Dialed(s, i);
      }
    }
  }

  /** Accepting or acting on one message already taken off the queue. */
  lemma ClientHandlesKeeps(s: System, t: System, m: Message)
    requires Inv(s) && s.client.phase == Connected
    requires WellFormed(t) && t == s.(client := t.client, links := t.links)
    requires t.client == s.client.(incoming := t.client.incoming) && |t.links| == |s.links|
    requires forall i :: 0 <= i < |s.links| ==> t.links[i].c2s == s.links[i].c2s
    requires forall i :: 0 <= i < |s.links| && i != s.client.conn ==> t.links[i] == s.links[i]
    requires var queue := s.client.incoming + s.links[s.client.conn].s2c;
             queue != [] && queue[0] == m
             && t.client.incoming + t.links[s.client.conn].s2c == queue[1..]
    ensures Inv(ClientHandles(t, m))
  {
    var queue := s.client.incoming + s.links[s.client.conn].s2c;
    FlowsReceive(s.byServer, s.atClient, queue, Held(s.server), BoundTo(s.server) == Some(s.client.conn));
    assert m in queue;
    var u := ClientHandles(t, m);
    if m.Positional? {
      SpanConcat(s.atClient, [m.frame]);
      if s.server.mode != Closed {
        RetainsAccept(s.byServer, s.server.window, s.server.sent, s.atClient, u.atClient);
      }
    } else {
      RetainsAcknowledge(s.byClient, s.client.window, s.client.sent, s.atServer, m.position);
    }
    if BoundTo(s.server).Some? {
      PlainGrows(s.links[BoundTo(s.server).value].c2s, s.atClient, u.atClient);
    }
    forall i | 0 <= i < |s.links| ensures Dialed(u, i) {
      assert Dialed(s, i);
      if s.links[i].c2s != [] && s.links[i].c2s[0].Resume? {
        ReachedGrows(s.links[i].c2s[0].lastReceived, s.atClient, u.atClient);
      }
    }
  }

  /** A message that arrives during the replay is kept for later. */
  lemma ClientBuffersKeeps(s: System)
    requires Inv(s) && s.client.phase.Resuming? && s.links[s.client.conn].s2c != []
    ensures Inv(ClientReceives(s))
  {
    hide Span, Frames;
    var c, queue, t := s.client, s.links[s.client.conn].s2c, ClientReceives(s);
    assert (c.incoming + [queue[0]]) + queue[1..] == c.incoming + queue;
    forall i | 0 <= i < |s.links| ensures Dialed(t, i) {
      assert Dialed(s, i);
    }
  }

  /** RESUME_OK is the first message of a new transport, and possible. */
  lemma ClientAcknowledgedKeeps(s: System)
    requires Inv(s) && s.client.phase == Awaiting && s.links[s.client.conn].s2c != []
    ensures Inv(ClientReceives(s))
  {
    PrefixSpan(s.atServer, s.byClient);
    hide Span, Frames;
    var queue, t := s.links[s.client.conn].s2c, ClientReceives(s);
    assert [] + queue[1..] == queue[1..];
    forall i | 0 <= i < |s.links| ensures Dialed(t, i) {
      assert Dialed(s, i);
    }
  }

  lemma ClientReceivesKeeps(s: System)
    requires Inv(s)
    ensures Inv(ClientReceives(s))
  {
    var c := s.client;
    var queue := s.links[c.conn].s2c;
    if queue != [] {
      match c.phase
      case Connected =>
        if c.incoming == [] {
          assert c.incoming + queue == queue && [] + queue[1..] == queue[1..];
          ClientHandlesKeeps(s, s.(links := s.links[c.conn := s.links[c.conn].(s2c := queue[1..])]), queue[0]);
        }
      case Resuming(_) => ClientBuffersKeeps(s);
      case Awaiting => ClientAcknowledgedKeeps(s);
      case _ =>
    }
  }

  lemma ClientDispatchKeeps(s: System)
    requires Inv(s) && s.client.phase == Connected && s.client.incoming != []
    ensures Inv(ClientHandles(s.(client := s.client.(incoming := s.client.incoming[1..])), s.client.incoming[0]))
  {
    var t := s.(client := s.client.(incoming := s.client.incoming[1..]));
    var queue := s.client.incoming + s.links[s.client.conn].s2c;
    assert t.client.incoming + t.links[s.client.conn].s2c == queue[1..];
    ClientHandlesKeeps(s, t, s.client.incoming[0]);
  }

  lemma ClientFinishesKeeps(s: System)
    requires Inv(s) && s.client.phase.Resuming?
    ensures Inv(ClientFinishes(s))
  {
    hide Replay, CanReplay, Frames, Span;
    ReachedNow(s.atServer);
    var j := RetainsReplay(s.byClient, s.client.window, s.client.sent, s.atServer, s.client.phase.peerPosition);
    var t := ClientFinishes(s);
    var missing := s.byClient[|s.atServer|..];
    assert t.links == ToServer(s, s.client.conn, Wrap(missing));
    forall i | 0 <= i < |s.links| ensures Dialed(t, i) {
      assert Dialed(s, i);
    }
    if BoundTo(s.server) == Some(s.client.conn) {
      FramesWrap(missing);
      assert s.byClient == s.atServer + missing;
      assert s.atServer + missing + [] == s.byClient;
      assert [] + Wrap(missing) == Wrap(missing);
    }
  }

  // ----- server steps

  /** A server step that leaves every link and every accepted frame alone. */
  lemma ServerLocalKeeps(s: System, t: System)
    requires Inv(s) && WellFormed(t)
    requires t == s.(server := t.server, byServer := t.byServer) && t.server.received == s.server.received
    requires s.byServer <= t.byServer
    requires t.server.mode != Closed ==> Retains(t.byServer, t.server.window, t.server.sent, s.atClient)
    requires BoundTo(t.server) == None || BoundTo(t.server) == BoundTo(s.server)
    requires BoundTo(t.server) == Some(s.client.conn) ==>
               exists frames :: t.byServer == s.byServer + frames && Held(t.server) == Held(s.server) + frames
    ensures Inv(t)
  {
    hide Frames, Span, Retains;
    forall i | 0 <= i < |s.links| ensures Dialed(t, i) {
      assert Dialed(s, i);
    }
    if BoundTo(t.server) == Some(s.client.conn) {
      var frames :| t.byServer == s.byServer + frames && Held(t.server) == Held(s.server) + frames;
      forall queue | Flows(s.byServer, s.atClient, queue, Held(s.server), true)
        ensures Flows(t.byServer, s.atClient, queue, Held(t.server), true)
      {
        ConcatAssociates(s.atClient + Frames(queue), Held(s.server), frames);
      }
    }
  }

  lemma QueueWrite(s: System, t: System, queue: seq<Message>, frames: seq<Bytes>, messages: seq<Message>)
    requires Core(s) && ClientQueue(s, queue) && BoundTo(s.server) == Some(s.client.conn)
    requires t == s.(server := t.server, links := t.links) && BoundTo(t.server) == BoundTo(s.server)
    requires Held(s.server) == frames + Held(t.server)
    requires messages == Wrap(frames)
             || (frames == [] && messages == [Keepalive(s.server.received)])
    ensures ClientQueue(t, queue + messages)
  {
    hide Frames, Span, Retains;
    ReachedNow(s.atServer);
    if messages == Wrap(frames) {
      FlowsSend(s.byServer, s.atClient, queue, frames, Held(t.server), true);
    } else {
      assert Held(t.server) == [] + Held(t.server);
      FlowsNote(s.byServer, s.atClient, queue, Held(s.server), true, s.server.received);
    }
  }

  /** A server step that only writes messages to the transport it is bound to. */
  lemma ServerWriteKeeps(s: System, t: System, frames: seq<Bytes>, messages: seq<Message>)
    requires Inv(s) && WellFormed(t) && BoundTo(s.server).Some?
    requires t == s.(server := t.server, links := ToClient(s, BoundTo(s.server).value, messages))
    requires t.server == s.server.(mode := t.server.mode) && BoundTo(t.server) == BoundTo(s.server)
    requires Held(s.server) == frames + Held(t.server)
    requires messages == Wrap(frames)
             || (frames == [] && messages == [Keepalive(s.server.received)])
    ensures Inv(t)
  {
    hide Frames, Span, Retains;
    var id := BoundTo(s.server).value;
    forall i | 0 <= i < |s.links| ensures Dialed(t, i) {
      assert Dialed(s, i);
    }
    if id == s.client.conn {
      var queue := s.links[id].s2c;
      match s.client.phase
      case Awaiting =>
        assert (queue + messages)[1..] == queue[1..] + messages;
        QueueWrite(s, t, queue[1..], frames, messages);
      case Connected =>
        ConcatAssociates(s.client.incoming, queue, messages);
        QueueWrite(s, t, s.client.incoming + queue, frames, messages);
      case Resuming(_) =>
        ConcatAssociates(s.client.incoming, queue, messages);
        QueueWrite(s, t, s.client.incoming + queue, frames, messages);
      case _ =>
    }
  }

  lemma ServerSendsKeeps(s: System, frame: Frame, written: bool)
    requires Inv(s)
    ensures Inv(ServerSends(s, frame, written))
  {
    var t := ServerSends(s, frame, written);
    if s.server.mode != Closed {
      match Record(s.server.window, s.server.sent, frame, Some(s.serverCap))
      case RecordFailed(_) => ServerLocalKeeps(s, t);
      case Recorded(w) =>
        RetainsRecord(s.byServer, s.server.window, s.server.sent, s.atClient, frame, s.serverCap);
        hide Record, Retains;
        var v := s.server.(window := w, sent := s.server.sent + |frame|);
        match s.server.mode
        case Bound(id) =>
          if written {
            // As if held back first and flushed at once.
            var held := s.(server := v.(mode := Replaying(id, [frame])), byServer := s.byServer + [frame]);
            assert Held(s.server) + [frame] == [frame];
            ServerLocalKeeps(s, held);
            assert Wrap([frame]) == [Positional(frame)];
            assert Held(held.server) == [frame] + Held(t.server);
            ServerWriteKeeps(held, t, [frame], [Positional(frame)]);
          } else {
            ServerLocalKeeps(s, t);
          }
        case Replaying(id, held) => ServerLocalKeeps(s, t);
        case _ => ServerLocalKeeps(s, t);
    }
  }

  /** The server takes one message off its transport, having updated its own state. */
  lemma ServerAdvanceKeeps(s: System, t: System, id: nat)
    requires Inv(s) && s.server.mode == Bound(id) && s.links[id].c2s != []
    requires t == s.(server := s.server.(received := t.server.received, window := t.server.window),
                     atServer := t.atServer,
                     links := s.links[id := s.links[id].(c2s := s.links[id].c2s[1..])])
    requires s.atServer <= t.atServer <= s.byClient && t.server.received == Span(t.atServer)
    requires Retains(s.byServer, t.server.window, s.server.sent, s.atClient)
    requires Flows(s.byClient, t.atServer, s.links[id].c2s[1..], [],
                   s.client.conn == id && s.client.phase == Connected)
    ensures Inv(t)
  {
    hide Span, Frames, Flows, Reached;
    if s.client.phase != Terminated {
      RetainsAccept(s.byClient, s.client.window, s.client.sent, s.atServer, t.atServer);
    }
    if s.client.phase == Connected {
      PlainGrows(s.client.incoming + s.links[s.client.conn].s2c, s.atServer, t.atServer);
    }
    forall i | 0 <= i < |s.links| ensures Dialed(t, i) {
      assert Dialed(s, i);
      if i == id && |s.links[id].c2s| > 1 {
        assert s.links[id].c2s[1] in s.links[id].c2s;
      }
    }
  }

  lemma ServerReceivesKeeps(s: System)
    requires Inv(s) && s.server.mode.Bound? && s.links[s.server.mode.id].c2s != []
    ensures Inv(ServerReceives(s))
  {
    var id := s.server.mode.id;
    var queue := s.links[id].c2s;
    var m := queue[0];
    FlowsReceive(s.byClient, s.atServer, queue, [], s.client.conn == id && s.client.phase == Connected);
    assert m in queue;
    if m.Positional? {
      SpanConcat(s.atServer, [m.frame]);
    } else {
      RetainsAcknowledge(s.byServer, s.server.window, s.server.sent, s.atClient, m.position);
    }
    hide Inv, Retains, Flows, Reached, Frames, Acknowledge;
    ServerAdvanceKeeps(s, ServerReceives(s), id);
  }

  /** A RESUME is read and refused, or ignored because the server is not suspended. */
  lemma ServerDropsKeeps(s: System, id: nat)
    requires Inv(s) && id < |s.links| && s.links[id].c2s != [] && s.links[id].c2s[0].Resume?
    ensures Inv(s.(links := s.links[id := s.links[id].(c2s := s.links[id].c2s[1..])]))
  {
    hide Frames, Span, Retains;
    assert Dialed(s, id);
    var t := s.(links := s.links[id := s.links[id].(c2s := s.links[id].c2s[1..])]);
    forall i | 0 <= i < |s.links| ensures Dialed(t, i) {
      assert Dialed(s, i);
    }
  }

  /** The latest attempt of a conforming client passes every check and is told the truth. */
  lemma AcceptIsCurrent(s: System, id: nat)
    requires Inv(s) && id == s.client.conn && s.client.phase == Awaiting && s.server.mode == Idle
    requires s.links[id].c2s != [] && s.links[id].c2s[0].Resume?
    ensures var resume := s.links[id].c2s[0];
            && resume.firstAvailable <= s.server.received
            && CanReplay(s.server.window, resume.lastReceived, s.server.sent)
            && Replay(s.server.window, resume.lastReceived, s.server.sent).emitted
               == s.byServer[|s.atClient|..]
  {
    assert Dialed(s, id);
    var j := RetainsReplay(s.byServer, s.server.window, s.server.sent, s.atClient,
                           s.links[id].c2s[0].lastReceived);
    RetainsFirst(s.byClient, s.client.window, s.client.sent, s.atServer);
  }

  /** The state after RESUME_OK and the replay of everything from frame j on. */
  lemma AcceptedKeeps(s: System, t: System, id: nat, w: Window, j: nat)
    requires Inv(s) && id < |s.links| && s.server.mode == Idle && j <= |s.byServer|
    requires s.links[id].c2s != [] && s.links[id].c2s[0].Resume?
    requires Retains(s.byServer, w, s.server.sent, s.atClient)
    requires id == s.client.conn && s.client.phase == Awaiting ==> j == |s.atClient|
    requires t == s.(server := s.server.(mode := Replaying(id, []), window := w),
                     links := s.links[id := Link([], [ResumeOk(s.server.received)] + Wrap(s.byServer[j..]))])
    ensures Inv(t)
  {
    hide Span, Reached;
    assert Dialed(s, id);
    var missing := s.byServer[|s.atClient|..];
    assert s.byServer == s.atClient + missing;
    assert s.atClient + missing + [] == s.byServer;
    FramesWrap(missing);
    assert t.links[id].s2c[1..] == Wrap(s.byServer[j..]);
    forall i | 0 <= i < |s.links| ensures Dialed(t, i) {
      assert Dialed(s, i);
    }
  }

  /** What checking a RESUME establishes, whoever sent it. */
  lemma CheckResume(s: System, id: nat) returns (j: nat)
    requires Inv(s) && id < |s.links| && s.links[id].c2s != [] && s.links[id].c2s[0].Resume?
    requires s.server.mode == Idle
    ensures !s.violated && |s.links[id].c2s| == 1 && s.links[id].s2c == [] && j <= |s.byServer|
    ensures var resume := s.links[id].c2s[0];
            var current := id == s.client.conn && s.client.phase == Awaiting;
            && (current ==> resume.firstAvailable <= s.server.received && j == |s.atClient|
                            && CanReplay(s.server.window, resume.lastReceived, s.server.sent))
            && (CanReplay(s.server.window, resume.lastReceived, s.server.sent) ==>
                  var r := Replay(s.server.window, resume.lastReceived, s.server.sent);
                  && r.Replayed? && r.emitted == s.byServer[j..]
                  && Retains(s.byServer, r.window, s.server.sent, s.atClient))
  {
    assert Dialed(s, id);
    if id == s.client.conn && s.client.phase == Awaiting {
      AcceptIsCurrent(s, id);
    }
    hide Replay, CanReplay, FirstAvailable;
    j := RetainsReplay(s.byServer, s.server.window, s.server.sent, s.atClient,
                       s.links[id].c2s[0].lastReceived);
  }

  lemma ServerAcceptsKeeps(s: System, id: nat)
    requires Inv(s) && id < |s.links| && s.links[id].c2s != [] && s.links[id].c2s[0].Resume?
    ensures Inv(ServerAccepts(s, id))
  {
    hide Inv, Retains, Replay, CanReplay;
    ServerDropsKeeps(s, id);
    if s.server.mode == Idle {
      var j := CheckResume(s, id);
      var t := ServerAccepts(s, id);
      if t.server.mode.Replaying? {
        var answer := [ResumeOk(s.server.received)] + Wrap(s.byServer[j..]);
        assert s.links[id].c2s[1..] == [] && [] + answer == answer;
        assert t.links == s.links[id := Link([], answer)];
        AcceptedKeeps(s, t, id, t.server.window, j);
      }
    }
  }

  lemma ServerKeepaliveKeeps(s: System, written: bool)
    requires Inv(s)
    ensures Inv(Step(s, ServerKeepalive(written)))
  {
    if s.server.mode.Bound? {
      var t := Step(s, ServerKeepalive(written));
      if written {
        assert [] + Held(t.server) == [];
        ServerWriteKeeps(s, t, [], [Keepalive(s.server.received)]);
      } else {
        ServerLocalKeeps(s, t);
      }
    }
  }

  lemma ServerLosesKeeps(s: System)
    requires Inv(s)
    ensures Inv(Step(s, ServerLose))
  {
    if s.server.mode != Closed {
      ServerLocalKeeps(s, Step(s, ServerLose));
    }
  }

  lemma ServerFlushesKeeps(s: System)
    requires Inv(s)
    ensures Inv(ServerFlushes(s))
  {
    if s.server.mode.Replaying? {
      var t := ServerFlushes(s);
      assert Held(s.server) + Held(t.server) == Held(s.server);
      ServerWriteKeeps(s, t, Held(s.server), Wrap(Held(s.server)));
    }
  }

  lemma ClientStepKeeps(s: System, a: Action)
    requires Inv(s) && OfClient(a)
    ensures Inv(ClientStep(s, a))
  {
    assert WellFormed(s);
    hide Inv, ClientWrite, ClientHandles;
    match a
    case ClientSend(frame, outcome) =>
      if s.client.phase == Connected {
        ClientWriteKeeps(s, frame, s.client.pending + [frame], outcome);
      } else {
        PendingIsLocal(s, s.client.pending + [frame]);
      }
    case ClientFlush(outcome) =>
      if s.client.phase == Connected && s.client.pending != [] {
        PendingIsLocal(s, s.client.pending[1..]);
        ClientWriteKeeps(s.(client := s.client.(pending := s.client.pending[1..])),
                         s.client.pending[0], s.client.pending, outcome);
      }
    case ClientKeepalive(written) =>
      if s.client.phase == Connected {
        if written { ClientKeepaliveKeeps(s); } else { LoseClientKeeps(s); }
      }
    case ClientLose =>
      if s.client.phase != Suspended && s.client.phase != Terminated { LoseClientKeeps(s); }
    case ClientDial => if s.client.phase == Suspended { ClientDialsKeeps(s); }
    case ClientReceive => ClientReceivesKeeps(s);
    case ClientFinishResume => if s.client.phase.Resuming? { ClientFinishesKeeps(s); }
    case ClientDispatch =>
      if s.client.phase == Connected && s.client.incoming != [] { ClientDispatchKeeps(s); }
    case ClientEnds => ClientEndsKeeps(s);
  }

  lemma ServerStepKeeps(s: System, a: Action)
    requires Inv(s) && !OfClient(a)
    ensures Inv(ServerStep(s, a))
  {
    assert WellFormed(s);
    hide Inv, ServerHandles;
    match a
    case ServerSend(frame, written) => ServerSendsKeeps(s, frame, written);
    case ServerKeepalive(written) => ServerKeepaliveKeeps(s, written);
    case ServerLose => ServerLosesKeeps(s);
    case ServerReceive =>
      if s.server.mode.Bound? && s.links[s.server.mode.id].c2s != [] { ServerReceivesKeeps(s); }
    case ServerAccept(id) =>
      if id < |s.links| && s.links[id].c2s != [] && s.links[id].c2s[0].Resume? { ServerAcceptsKeeps(s, id); }
    case ServerFlush => ServerFlushesKeeps(s);
    case ServerEnds => ServerLocalKeeps(s, s.(server := EndServer(s.server)));
  }

  /** The invariant survives every step of either side and of the network. */
  lemma StepKeeps(s: System, a: Action)
    requires Inv(s)
    ensures Inv(Step(s, a))
  {
    assert WellFormed(s);
    hide Inv, ClientStep, ServerStep;
    if OfClient(a) {
      ClientStepKeeps(s, a);
    } else {
      ServerStepKeeps(s, a);
    }
  }

  // ----- runs

  /** Any interleaving of sends, losses, reconnections, deliveries, acknowledgements, and of either session ending. */
  function Run(s: System, actions: seq<Action>): (t: System)
    requires WellFormed(s)
    ensures WellFormed(t)
    decreases actions
  {
    if actions == [] then s else Run(Step(s, actions[0]), actions[1..])
  }

  lemma {:induction false} RunKeeps(s: System, actions: seq<Action>)
    requires Inv(s)
    ensures Inv(Run(s, actions))
    decreases actions
  {
    if actions != [] {
      StepKeeps(s, actions[0]);
      hide Inv, Step;
      RunKeeps(Step(s, actions[0]), actions[1..]);
    }
  }

  /**
    Exactly once, in every run: no position check fails between conforming peers, each side has
    accepted a prefix of what the other recorded, and a live side still retains every frame the
    other has not accepted.
   */
  lemma ExactlyOnce(clientCap: nat, serverCap: nat, actions: seq<Action>)
    ensures var s := Run(Init(clientCap, serverCap), actions);
            && !s.violated
            && s.atServer <= s.byClient
            && s.atClient <= s.byServer
            && (s.client.phase != Terminated ==>
                  exists a :: 0 <= a <= |s.atServer| && s.client.window.frames == s.byClient[a..])
            && (s.server.mode != Closed ==>
                  exists a :: 0 <= a <= |s.atClient| && s.server.window.frames == s.byServer[a..])
  {
    RunKeeps(Init(clientCap, serverCap), actions);
  }

  /** Nothing is lost: once both ends share a transport and it has drained, all was accepted. */
  lemma NothingLostAtRest(clientCap: nat, serverCap: nat, actions: seq<Action>)
    ensures var s := Run(Init(clientCap, serverCap), actions);
            && s.client.phase == Connected
            && s.server.mode == Bound(s.client.conn)
            && s.client.incoming == []
            && s.links[s.client.conn] == Link([], [])
            ==> s.atServer == s.byClient && s.atClient == s.byServer
  {
    RunKeeps(Init(clientCap, serverCap), actions);
    hide Run, Init, Span, Retains, Plain, Reached;
  }

  /**
    Resume always succeeds: whenever both sides are suspended, an attempt that is not itself cut
    short reconnects them, and exactly the missing frames are then on their way.
   */
  lemma ResumeSucceeds(clientCap: nat, serverCap: nat, actions: seq<Action>)
    ensures var s := Run(Init(clientCap, serverCap), actions);
            s.client.phase == Suspended && s.server.mode == Idle ==>
              var t := Reconnect(s);
              && t.client.phase == Connected && t.server.mode == Bound(t.client.conn)
              && t.byClient == s.byClient && t.byServer == s.byServer
              && s.byClient == s.atServer + Frames(t.links[t.client.conn].c2s)
              && s.byServer == s.atClient + Frames(t.links[t.client.conn].s2c)
  {
    RunKeeps(Init(clientCap, serverCap), actions);
    var s := Run(Init(clientCap, serverCap), actions);
    hide Inv, Run, Init, Reconnect, Frames;
    if s.client.phase == Suspended && s.server.mode == Idle {
      ReconnectDelivers(s);
    }
  }

  /** One uninterrupted Resume attempt on a fresh transport. */
  function Reconnect(s: System): (t: System)
    requires WellFormed(s)
    ensures WellFormed(t)
  {
    var dialed := Step(s, ClientDial);
    var accepted := Step(dialed, ServerAccept(|s.links|));
    Step(Step(Step(accepted, ServerFlush), ClientReceive), ClientFinishResume)
  }

  lemma DialThenAccept(s: System)
    requires Inv(s) && s.client.phase == Suspended && s.server.mode == Idle
    ensures var t := Step(Step(s, ClientDial), ServerAccept(|s.links|));
            && Inv(t)
            && t.client == s.client.(phase := Awaiting, conn := |s.links|, incoming := [])
            && t.server.mode == Replaying(|s.links|, [])
            && t.byClient == s.byClient && t.byServer == s.byServer
            && t.atClient == s.atClient && t.atServer == s.atServer
  {
    var dialed := Step(s, ClientDial);
    StepKeeps(s, ClientDial);
    AcceptIsCurrent(dialed, |s.links|);
    StepKeeps(dialed, ServerAccept(|s.links|));
    hide Inv, CanReplay, Replay, FirstAvailable;
  }

  lemma InvIsWellFormed(s: System)
    requires Inv(s)
    ensures WellFormed(s)
  {}

  /** The client finds RESUME_OK on its new transport. */
  lemma ReceivesResumeOk(s: System)
    requires Inv(s) && s.client.phase == Awaiting && s.server.mode == Bound(s.client.conn)
    ensures var t := Step(s, ClientReceive);
            && Inv(t) && t.client.phase == Resuming(Span(s.atServer)) && t.client.conn == s.client.conn
            && t.client.incoming == []
            && t.server == s.server && t.byClient == s.byClient && t.byServer == s.byServer
            && t.atClient == s.atClient && t.atServer == s.atServer
  {
    PrefixSpan(s.atServer, s.byClient);
    StepKeeps(s, ClientReceive);
    hide Frames, Span;
  }

  /** The replay never fails. */
  lemma FinishesConnected(s: System)
    requires Inv(s) && s.client.phase.Resuming?
    ensures var t := Step(s, ClientFinishResume);
            && Inv(t) && t.client.phase == Connected && t.client.conn == s.client.conn
                && t.client.incoming == s.client.incoming
            && t.server == s.server && t.byClient == s.byClient && t.byServer == s.byServer
            && t.atClient == s.atClient && t.atServer == s.atServer
  {
    StepKeeps(s, ClientFinishResume);
    hide Frames, Span, Replay, Retains, Plain;
  }

  /** Nothing recorded is missing from a transport both ends use. */
  lemma ConnectedCarriesAll(s: System)
    requires Inv(s) && s.client.phase == Connected && s.server.mode == Bound(s.client.conn)
    ensures s.byClient == s.atServer + Frames(s.links[s.client.conn].c2s)
    ensures s.byServer == s.atClient + Frames(s.client.incoming + s.links[s.client.conn].s2c)
  {
    hide Frames, Span, Retains, Plain;
    assert s.atServer + Frames(s.links[s.client.conn].c2s) + [] == s.atServer + Frames(s.links[s.client.conn].c2s);
    var queue := s.client.incoming + s.links[s.client.conn].s2c;
    assert s.atClient + Frames(queue) + [] == s.atClient + Frames(queue);
  }

  lemma ReceiveThenFinish(s: System)
    requires Inv(s) && s.client.phase == Awaiting && s.server.mode == Bound(s.client.conn)
    ensures Inv(Step(s, ClientReceive))
    ensures var t := Step(Step(s, ClientReceive), ClientFinishResume);
            && t.client.phase == Connected && t.client.conn == s.client.conn && t.server == s.server
            && t.byClient == s.byClient && t.byServer == s.byServer
            && s.byClient == s.atServer + Frames(t.links[s.client.conn].c2s)
            && s.byServer == s.atClient + Frames(t.links[s.client.conn].s2c)
  {
    hide Inv, Step, Frames, Span;
    InvIsWellFormed(s);
    ReceivesResumeOk(s);
    var received := Step(s, ClientReceive);
    FinishesConnected(received);
    var t := Step(received, ClientFinishResume);
    ConnectedCarriesAll(t);
    assert [] + t.links[s.client.conn].s2c == t.links[s.client.conn].s2c;
  }

  lemma ReconnectDelivers(s: System)
    requires Inv(s) && s.client.phase == Suspended && s.server.mode == Idle
    ensures var t := Reconnect(s);
            && t.client.phase == Connected && t.server.mode == Bound(t.client.conn)
            && t.byClient == s.byClient && t.byServer == s.byServer
            && s.byClient == s.atServer + Frames(t.links[t.client.conn].c2s)
            && s.byServer == s.atClient + Frames(t.links[t.client.conn].s2c)
  {
    hide Inv, Frames, Span, Step;
    InvIsWellFormed(s);
    DialThenAccept(s);
    var accepted := Step(Step(s, ClientDial), ServerAccept(|s.links|));
    FlushBinds(accepted);
    ReceiveThenFinish(Step(accepted, ServerFlush));
  }

  lemma FlushBinds(s: System)
    requires Inv(s) && s.server.mode.Replaying?
    ensures var t := Step(s, ServerFlush);
            && Inv(t) && t.server.mode == Bound(s.server.mode.id) && t.client == s.client
            && t.byClient == s.byClient && t.byServer == s.byServer
            && t.atClient == s.atClient && t.atServer == s.atServer
  {
    StepKeeps(s, ServerFlush);
    hide Inv, Frames, Span;
  }
}
