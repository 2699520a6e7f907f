/**
  The Resume side of both session objects. Every method takes, as a ghost, the whole two-party
  system it is part of, and does to its own fields and transport what the protocol step does.
 */
module ResumeSessions {
  import opened Common
  import opened ReplayWindow
  import opened ReplayBuffer
  import opened ResumeProtocol

  /** Writing nothing leaves the transports as they are. */
  lemma WritesNothing(s: System, id: nat)
    requires id < |s.links|
    ensures ToServer(s, id, []) == s.links && ToClient(s, id, []) == s.links
  {
    var l := s.links[id];
    assert l.c2s + [] == l.c2s && l.s2c + [] == l.s2c;
  }

  /** The check before a replay and the replay itself agree. */
  lemma CheckedIsReplayed(w: Window, position: int, current: int)
    ensures CanReplay(w, position, current) <==> Replay(w, position, current).Replayed?
  {}

  /** Of a session that has not ended, every retained frame starts where the one before it ends. */
  lemma InvThreads(s: System)
    requires Inv(s)
    ensures s.client.phase != Terminated ==> Threaded(s.client.window, s.client.sent)
    ensures s.server.mode != Closed ==> Threaded(s.server.window, s.server.sent)
  {
    if s.client.phase != Terminated {
      RetainsDrop(s.byClient, s.client.window, s.client.sent, s.atServer, Forgotten(s.byClient, s.client.window));
    }
    if s.server.mode != Closed {
      RetainsDrop(s.byServer, s.server.window, s.server.sent, s.atClient, Forgotten(s.byServer, s.server.window));
    }
  }

  /**
    An acknowledged position below what was acknowledged changes nothing, one at a later boundary
    leaves exactly the frames after it, and any other is refused.
   */
  ghost predicate Releases(before: Window, after: Window, position: int, ok: bool)
  {
    if position <= before.acked then ok && after == before
    else if exists k :: 0 < k <= |before.frames| && PositionOf(before.base, before.frames, k) == position then
      ok && forall k :: 0 < k <= |before.frames| && PositionOf(before.base, before.frames, k) == position ==>
              after == Window(position, before.frames[k..], position)
    else !ok && after == before
  }

  lemma Acknowledges(w: Window, position: int, current: int)
    requires Threaded(w, current) && forall f :: f in w.frames ==> f != []
    ensures match Acknowledge(w, position, current)
            case Acked(after) => Releases(w, after, position, true)
            case AckImpossible => Releases(w, w, position, false)
  {
    AcknowledgeReleases(w, position, current);
    hide Acknowledge, Threaded, PositionOf;
  }

  /** What one write does to the client and to its transport. */
  lemma ClientWriteIs(s: System, frame: Frame, unsent: seq<Frame>, outcome: WriteOutcome)
    requires s.client.conn < |s.links|
    ensures var t := ClientWrite(s, frame, unsent, outcome);
            var r := ReplayWindow.Record(s.client.window, s.client.sent, frame, Some(s.clientCap));
            && t.links == ToServer(s, s.client.conn,
                                   if outcome == Written && r.Recorded? then [Positional(frame)] else [])
            && t.client == if outcome == NotOpen then LoseClient(s.client).(pending := unsent)
                           else if r.RecordFailed? then EndClient(s.client)
                           else
                             var c := s.client.(window := r.window, sent := s.client.sent + |frame|);
                             if outcome == Written then c else LoseClient(c)
  {
    WritesNothing(s, s.client.conn);
    hide ReplayWindow.Record;
  }

  lemma ClientAcknowledges(s: System, position: int)
    requires Inv(s) && s.client.phase != Terminated
    ensures match Acknowledge(s.client.window, position, s.client.sent)
            case Acked(after) => Releases(s.client.window, after, position, true)
            case AckImpossible => Releases(s.client.window, s.client.window, position, false)
  {
    InvThreads(s);
    NoneIsEmpty(s.byClient, s.client.window, s.client.sent, s.atServer);
    hide Inv, Acknowledge, Releases;
    Acknowledges(s.client.window, position, s.client.sent);
  }

  lemma ServerAcknowledges(s: System, position: int)
    requires Inv(s) && s.server.mode != Closed
    ensures match Acknowledge(s.server.window, position, s.server.sent)
            case Acked(after) => Releases(s.server.window, after, position, true)
            case AckImpossible => Releases(s.server.window, s.server.window, position, false)
  {
    InvThreads(s);
    NoneIsEmpty(s.byServer, s.server.window, s.server.sent, s.atClient);
    hide Inv, Acknowledge, Releases;
    Acknowledges(s.server.window, position, s.server.sent);
  }

  lemma NoneIsEmpty(recorded: seq<Bytes>, w: Window, sent: int, accepted: seq<Bytes>)
    requires Retains(recorded, w, sent, accepted)
    ensures forall f :: f in w.frames ==> f != []
  {
    forall f | f in w.frames ensures f != [] {
      assert f in recorded;
    }
  }

  /** The first message a conforming server sends on a new transport. */
  lemma AnswerIsTrue(s: System)
    requires Inv(s) && s.client.phase == Awaiting && s.links[s.client.conn].s2c != []
    ensures s.links[s.client.conn].s2c[0] == ResumeOk(Span(s.atServer)) && Span(s.atServer) <= s.client.sent
  {
    PrefixSpan(s.atServer, s.byClient);
    hide Span, Frames;
  }

  class RSocketClient {
    const replayBuffer: RSocketReplayBuffer
    var phase: Phase
    var connection: nat
    var clientPosition: int
    var serverPosition: int
    var pendingFrames: seq<Frame>
    var pendingIncomingFrames: seq<Message>

    ghost predicate Valid()
      reads this, replayBuffer
    {
      && replayBuffer.Valid() && replayBuffer.legal
      && replayBuffer.maximumBytes.Some? && replayBuffer.maximumBytes.value <= DEFAULT_RESUME_BUFFER_BYTES
    }

    ghost function State(): Client
      requires Valid()
      reads this, replayBuffer
    {
      Client(phase, connection, clientPosition, serverPosition, replayBuffer.View(), pendingFrames,
          pendingIncomingFrames)
    }

    /** This object is the client of the given system. */
    ghost predicate PartOf(s: System)
      reads this, replayBuffer
    {
      Valid() && WellFormed(s) && s.client == State() && replayBuffer.maximumBytes == Some(s.clientCap)
    }

    constructor ()
      ensures Valid() && State() == Init(DEFAULT_RESUME_BUFFER_BYTES, 0).client
      ensures replayBuffer.maximumBytes == Some(DEFAULT_RESUME_BUFFER_BYTES) && fresh(replayBuffer)
    {
      replayBuffer := new RSocketReplayBuffer(Some(DEFAULT_RESUME_BUFFER_BYTES));
      phase, connection, clientPosition, serverPosition := Connected, 0, 0, 0;
      pendingFrames, pendingIncomingFrames := [], [];
    }

    /** Detaches the transport; what was buffered from it belongs to it. */
    method LoseTransport()
      requires Valid()
      modifies this`phase, this`pendingIncomingFrames
      ensures Valid() && State() == LoseClient(old(State()))
    {
      phase := Suspended;
      pendingIncomingFrames := [];
    }

    /** Records a frame at the client's position, or ends the session because it cannot be retained. */
    method Retain(frame: Frame) returns (kept: bool)
      requires Valid() && LegalLength(frame) && phase == Connected
      modifies this`clientPosition, this`phase, replayBuffer
      ensures Valid()
      ensures var r := ReplayWindow.Record(old(replayBuffer.View()), old(clientPosition), frame,
                                           replayBuffer.maximumBytes);
              && (kept <==> r.Recorded?)
              && (kept ==> replayBuffer.View() == r.window && phase == Connected
                           && clientPosition == old(clientPosition) + |frame|)
              && (!kept ==> phase == Terminated && clientPosition == old(clientPosition)
                            && replayBuffer.View() == EMPTY)
    {
      hide LegalLength, ReplayWindow.Record, RSocketReplayBuffer.Valid, RSocketReplayBuffer.View;
      var error, end := replayBuffer.Record(clientPosition, frame);
      kept := error.None?;
      if kept {
        clientPosition := end;
      } else {
        replayBuffer.Clear();
        phase := Terminated;
      }
    }

    /**
      Records and writes one frame on the active transport, or queues it if the transport is gone. What
      is recorded is retained and counts in the position, written or not; the session ends only, and
      between conforming peers exactly, if the frame does not fit the cap.
     */
    method WriteFrame(ghost s: System, frame: Frame, unsent: seq<Frame>, outcome: WriteOutcome)
      returns (written: seq<Message>)
      requires PartOf(s) && LegalLength(frame) && phase == Connected
      modifies this, replayBuffer
      ensures Valid()
      ensures var t := ClientWrite(s, frame, unsent, outcome);
              t.client == State() && t.links == ToServer(s, s.client.conn, written)
      ensures outcome == NotOpen ==>
                phase == Suspended && pendingFrames == unsent && written == []
                && clientPosition == old(clientPosition) && replayBuffer.View() == old(replayBuffer.View())
      ensures outcome != NotOpen && phase != Terminated ==>
                && clientPosition == old(clientPosition) + |frame| && pendingFrames == old(pendingFrames)
                && replayBuffer.View().frames == old(replayBuffer.View().frames) + [frame]
                && (if outcome == Written then phase == Connected && written == [Positional(frame)]
                    else phase == Suspended && written == [])
      ensures phase == Terminated ==> written == []
      ensures Inv(s) ==>
                (phase == Terminated
                 <==> outcome != NotOpen && Span(old(replayBuffer.View().frames)) + |frame| > s.clientCap)
    {
      RecordAppends(replayBuffer.View(), clientPosition, frame, s.clientCap);
      if Inv(s) {
        InvThreads(s);
      }
      ClientWriteIs(s, frame, unsent, outcome);
      hide LegalLength, ReplayWindow.Record, RSocketReplayBuffer.Valid, RSocketReplayBuffer.View, Inv, Threaded, Span;
      hide ClientWrite, ToServer;
      written := [];
      if outcome == NotOpen {
        LoseTransport();
        pendingFrames := unsent;
      } else {
        var kept := Retain(frame);
        if kept {
          if outcome == Written {
            written := [Positional(frame)];
          } else {
            LoseTransport();
          }
        }
      }
    }

    /** A frame sent while suspended is the last one queued; after the session has ended it is dropped. */
    method SendFrame(ghost s: System, frame: Frame, outcome: WriteOutcome) returns (written: seq<Message>)
      requires PartOf(s) && LegalLength(frame)
      modifies this, replayBuffer
      ensures Valid()
      ensures var t := Step(s, ClientSend(frame, outcome));
              t.client == State() && t.links == ToServer(s, s.client.conn, written)
      ensures old(phase) !in {Connected, Terminated} ==>
                phase == old(phase) && pendingFrames == old(pendingFrames) + [frame] && written == []
      ensures old(phase) == Connected && outcome == NotOpen ==>
                phase == Suspended && pendingFrames == old(pendingFrames) + [frame] && written == []
      ensures old(phase) == Connected && outcome != NotOpen && phase != Terminated ==>
                && pendingFrames == old(pendingFrames) && clientPosition == old(clientPosition) + |frame|
                && replayBuffer.View().frames == old(replayBuffer.View().frames) + [frame]
                && written == if outcome == Written then [Positional(frame)] else []
      ensures old(phase) == Terminated ==> State() == old(State()) && written == []
    {
      hide ClientWrite, LegalLength, RSocketReplayBuffer.Valid, RSocketReplayBuffer.View, Inv, Span;
      WritesNothing(s, s.client.conn);
      written := [];
      if phase == Connected {
        written := WriteFrame(s, frame, pendingFrames + [frame], outcome);
      } else if phase != Terminated {
        pendingFrames := pendingFrames + [frame];
      }
    }

    /** Announces the received position and the earliest frame still retained on a new transport. */
    method BeginResume(ghost s: System, newConnection: nat) returns (resume: Message)
      requires PartOf(s) && phase == Suspended && newConnection == |s.links|
      modifies this
      ensures Valid()
      ensures var t := Step(s, ClientDial);
              t.client == State() && t.links == s.links + [Link([resume], [])]
    {
      var first := replayBuffer.FirstAvailablePosition(clientPosition);
      resume := Resume(serverPosition, first);
      phase := Awaiting;
      connection := newConnection;
      pendingIncomingFrames := [];
    }

    /**
      Takes the answer to RESUME off the transport, or refuses an impossible one. Of a conforming
      server it is never refused, and names exactly what the server has accepted.
     */
    method ReceiveResumeOk(ghost s: System, message: Message) returns (ok: bool)
      requires PartOf(s) && phase == Awaiting
      requires s.links[connection].s2c != [] && s.links[connection].s2c[0] == message
      modifies this`phase
      ensures Valid()
      ensures var t := Step(s, ClientReceive);
              && (s.violated || ok == !t.violated)
              && t.client == State()
              && t.links == s.links[connection := s.links[connection].(s2c := s.links[connection].s2c[1..])]
      ensures Inv(s) ==> ok && phase == Resuming(Span(s.atServer))
    {
      if Inv(s) {
        AnswerIsTrue(s);
      }
      hide RSocketReplayBuffer.Valid, RSocketReplayBuffer.View, Inv, Span;
      ok := message.ResumeOk? && message.lastReceived <= clientPosition;
      if ok {
        phase := Resuming(message.lastReceived);
      }
    }

    /** Replays everything the server has not received. */
    method ResumeWith(ghost s: System) returns (ok: bool, written: seq<Message>)
      requires PartOf(s) && phase.Resuming?
      modifies this, replayBuffer
      ensures Valid()
      ensures var t := Step(s, ClientFinishResume);
              && (s.violated || ok == !t.violated)
              && t.client == State() && t.links == ToServer(s, s.client.conn, written)
    {
      hide Replay, CanReplay, RSocketReplayBuffer.Valid, RSocketReplayBuffer.View;
      WritesNothing(s, s.client.conn);
      var emitted, refused;
      ghost var recorded;
      CheckedIsReplayed(replayBuffer.View(), phase.peerPosition, clientPosition);
      ok, emitted, recorded, refused := replayBuffer.ReplayFrom(phase.peerPosition, clientPosition, []);
      written := [];
      if ok {
        assert replayBuffer.View().frames + [] == replayBuffer.View().frames;
        written := Wrap(emitted);
        phase := Connected;
      }
    }

    /** Advances the implied position, or releases what the peer acknowledged and no more. */
    method HandleIncoming(ghost s: System, message: Message) returns (ok: bool)
      requires PartOf(s)
      modifies this`serverPosition, replayBuffer
      ensures Valid()
      ensures message.Positional? ==>
                ok && serverPosition == old(serverPosition) + |message.frame|
                && replayBuffer.View() == old(replayBuffer.View())
      ensures !message.Positional? ==> serverPosition == old(serverPosition)
      ensures Inv(s) && phase != Terminated && message.Keepalive? ==>
                Releases(old(replayBuffer.View()), replayBuffer.View(), message.position, ok)
      ensures !message.Positional? && !message.Keepalive? ==> !ok
      ensures var t := ClientHandles(s, message);
              t.client == State() && t.links == s.links && (s.violated || ok == !t.violated)
    {
      if Inv(s) && phase != Terminated && message.Keepalive? {
        ClientAcknowledges(s, message.position);
      }
      hide Inv, Releases, RSocketReplayBuffer.Valid, RSocketReplayBuffer.View, Acknowledge;
      ok := true;
      match message
      case Positional(frame) =>
        serverPosition := serverPosition + |frame|;
      case Keepalive(position) =>
        ok := replayBuffer.Acknowledge(position, clientPosition);
      case _ =>
        ok := false;
    }
  }

  /** What one send does to the server's end and its transport. */
  lemma ServerSendIs(s: System, frame: Frame, canWrite: bool)
    requires WellFormed(s)
    ensures var v, r := s.server, ReplayWindow.Record(s.server.window, s.server.sent, frame, Some(s.serverCap));
            var t := Step(s, ServerSend(frame, canWrite));
            if v.mode == Closed then t == s
            else if r.RecordFailed? then t.server == EndServer(v) && t.links == s.links
            else
              && t.server == v.(window := r.window, sent := v.sent + |frame|,
                                mode := match v.mode
                                        case Bound(_) => if canWrite then v.mode else Idle
                                        case Replaying(id, outbound) => Replaying(id, outbound + [frame])
                                        case _ => v.mode)
              && t.links == if v.mode.Bound? && canWrite then ToClient(s, v.mode.id, [Positional(frame)]) else s.links
    ensures Step(s, ServerEnds).server == EndServer(s.server) && Step(s, ServerEnds).links == s.links
  {
    hide ReplayWindow.Record;
  }

  lemma ServerFits(s: System, frame: Frame)
    ensures var v, r := s.server, ReplayWindow.Record(s.server.window, s.server.sent, frame, Some(s.serverCap));
            && (r.Recorded? ==> r.window.frames == v.window.frames + [frame])
            && (Inv(s) && v.mode != Closed ==> (r.RecordFailed? <==> Span(v.window.frames) + |frame| > s.serverCap))
  {
    RecordAppends(s.server.window, s.server.sent, frame, s.serverCap);
    if Inv(s) {
      InvThreads(s);
    }
    hide Inv, Span;
  }

  class RSocketServerSession {
    const replayBuffer: RSocketReplayBuffer
    var mode: Mode
    var serverPosition: int
    var clientPosition: int

    ghost predicate Valid()
      reads this, replayBuffer
    {
      && replayBuffer.Valid() && replayBuffer.legal
      && replayBuffer.maximumBytes.Some?
    }

    ghost function State(): Server
      requires Valid()
      reads this, replayBuffer
    {
      Server(mode, serverPosition, clientPosition, replayBuffer.View())
    }

    ghost predicate PartOf(s: System)
      reads this, replayBuffer
    {
      Valid() && WellFormed(s) && s.server == State() && replayBuffer.maximumBytes == Some(s.serverCap)
    }

    constructor (maximumBytes: nat)
      ensures Valid() && State() == Init(0, maximumBytes).server
      ensures replayBuffer.maximumBytes == Some(maximumBytes) && fresh(replayBuffer)
    {
      replayBuffer := new RSocketReplayBuffer(Some(maximumBytes));
      mode, serverPosition, clientPosition := Bound(0), 0, 0;
    }

    /** Records a frame at the session's position, or ends the session because it cannot be retained. */
    method Retain(frame: Frame) returns (kept: bool, exhausted: bool)
      requires Valid() && LegalLength(frame) && mode != Closed
      modifies this, replayBuffer
      ensures Valid() && clientPosition == old(clientPosition)
      ensures var r := ReplayWindow.Record(old(replayBuffer.View()), old(serverPosition), frame,
                                           replayBuffer.maximumBytes);
              && (kept ==> r == Recorded(replayBuffer.View()) && mode == old(mode)
                           && serverPosition == old(serverPosition) + |frame|)
              && (!kept ==> mode == Closed && serverPosition == old(serverPosition) && replayBuffer.View() == EMPTY)
              && (kept || exhausted <==> r.Recorded?)
      ensures exhausted ==> !kept && replayBuffer.maximumBytes.value > DEFAULT_RESUME_BUFFER_BYTES
    {
      hide LegalLength, ReplayWindow.Record, RSocketReplayBuffer.Valid, RSocketReplayBuffer.View;
      var error, end := replayBuffer.Record(serverPosition, frame);
      kept, exhausted := error.None?, false;
      if error.Some? {
        replayBuffer.Clear();
        mode := Closed;
        exhausted := error.value == SpanExceeded;
      } else {
        serverPosition := end;
      }
    }

    /**
      Records a frame, whether the client is there or not, then writes it, holds it back during a
      replay, or only retains it. A frame that cannot be retained ends the session; with a cap above the
      default this may also be because the offset table of the buffer is exhausted.
     */
    method SendSerialized(ghost s: System, frame: Frame, canWrite: bool)
      returns (written: seq<Message>, exhausted: bool)
      requires PartOf(s) && LegalLength(frame)
      modifies this, replayBuffer
      ensures Valid()
      ensures var t := Step(s, if exhausted then ServerEnds else ServerSend(frame, canWrite));
              t.server == State()
              && t.links == if s.server.mode.Bound? then ToClient(s, s.server.mode.id, written) else s.links
      ensures exhausted ==> s.serverCap > DEFAULT_RESUME_BUFFER_BYTES && mode == Closed
      ensures mode != Closed ==>
                && serverPosition == old(serverPosition) + |frame|
                && replayBuffer.View().frames == old(replayBuffer.View().frames) + [frame]
      ensures mode == Closed ==> written == []
      ensures match old(mode)
              case Bound(id) =>
                mode == Closed || (if canWrite then mode == Bound(id) && written == [Positional(frame)]
                                   else mode == Idle && written == [])
              case Replaying(id, outbound) =>
                mode == Closed || (mode == Replaying(id, outbound + [frame]) && written == [])
              case Idle => mode == Closed || (mode == Idle && written == [])
              case Closed => State() == old(State())
      ensures Inv(s) && old(mode) != Closed ==>
                (mode == Closed <==> exhausted || Span(old(replayBuffer.View().frames)) + |frame| > s.serverCap)
    {
      ServerSendIs(s, frame, canWrite);
      ServerFits(s, frame);
      hide LegalLength, ReplayWindow.Record, RSocketReplayBuffer.Valid, RSocketReplayBuffer.View, Inv, Span, Step;
      written, exhausted := [], false;
      if mode.Bound? {
        WritesNothing(s, mode.id);
      }
      if !mode.Closed? {
        var kept;
        kept, exhausted := Retain(frame);
        if kept {
          match mode {
            case Bound(_) =>
              if canWrite {
                written := [Positional(frame)];
              } else {
                mode := Idle;
              }
            case Replaying(id, outbound) =>
              mode := Replaying(id, outbound + [frame]);
            case _ =>
          }
        }
      }
    }

    /** Whether the positions of a RESUME can be honoured. */
    method AcceptsResume(resume: Message) returns (accepts: bool)
      requires Valid() && resume.Resume?
      ensures accepts == (mode == Idle && resume.firstAvailable <= clientPosition
                          && CanReplay(replayBuffer.View(), resume.lastReceived, serverPosition))
    {
      accepts := mode == Idle && resume.firstAvailable <= clientPosition;
      if accepts {
        accepts := replayBuffer.CanReplayFrom(resume.lastReceived, serverPosition);
      }
    }

    /** Acknowledges an acceptable RESUME and replays what the client is missing. */
    method AcceptResume(ghost s: System, id: nat, resume: Message) returns (accepted: bool, written: seq<Message>)
      requires PartOf(s) && id < |s.links| && s.links[id].c2s != [] && s.links[id].c2s[0] == resume && resume.Resume?
      modifies this, replayBuffer
      ensures Valid()
      ensures var t := Step(s, ServerAccept(id));
              t.server == State()
              && t.links == ToClient(Read(s, id), id, written)
              && (accepted ==> written != [] && written[0] == ResumeOk(clientPosition))
              && (!accepted ==> written == [] && State() == old(State()))
    {
      hide Replay, CanReplay, RSocketReplayBuffer.Valid, RSocketReplayBuffer.View;
      WritesNothing(Read(s, id), id);
      written := [];
      accepted := AcceptsResume(resume);
      if accepted {
        var ok, emitted, refused;
        ghost var recorded;
        ok, emitted, recorded, refused := replayBuffer.ReplayFrom(resume.lastReceived, serverPosition, []);
        written := [ResumeOk(clientPosition)] + Wrap(emitted);
        mode := Replaying(id, []);
      }
    }

    /** Writes what was produced during the replay; positions were assigned when it was recorded. */
    method FlushResumeOutbound(ghost s: System) returns (written: seq<Message>)
      requires PartOf(s) && mode.Replaying?
      modifies this`mode
      ensures Valid()
      ensures var t := Step(s, ServerFlush);
              t.server == State() && t.links == ToClient(s, s.server.mode.id, written)
    {
      written := Wrap(mode.outbound);
      mode := Bound(mode.id);
    }

    method TransportLost(ghost s: System)
      requires PartOf(s)
      modifies this`mode
      ensures Valid() && Step(s, ServerLose).server == State()
    {
      if mode != Closed {
        mode := Idle;
      }
    }

    /** The same at the server's end. */
    method HandleIncoming(ghost s: System, message: Message) returns (ok: bool)
      requires PartOf(s)
      modifies this`clientPosition, replayBuffer
      ensures Valid()
      ensures message.Positional? ==>
                ok && clientPosition == old(clientPosition) + |message.frame|
                && replayBuffer.View() == old(replayBuffer.View())
      ensures !message.Positional? ==> clientPosition == old(clientPosition)
      ensures Inv(s) && mode != Closed && message.Keepalive? ==>
                Releases(old(replayBuffer.View()), replayBuffer.View(), message.position, ok)
      ensures !message.Positional? && !message.Keepalive? ==> !ok
      ensures var t := ServerHandles(s, message);
              t.server == State() && t.links == s.links && (s.violated || ok == !t.violated)
    {
      if Inv(s) && mode != Closed && message.Keepalive? {
        ServerAcknowledges(s, message.position);
      }
      hide Inv, Releases, RSocketReplayBuffer.Valid, RSocketReplayBuffer.View, Acknowledge;
      ok := true;
      match message
      case Positional(frame) =>
        clientPosition := clientPosition + |frame|;
      case Keepalive(position) =>
        ok := replayBuffer.Acknowledge(position, serverPosition);
      case _ =>
        ok := false;
    }
  }

  /** The first message of one transport has been read by the server. */
  function Read(s: System, id: nat): System
    requires id < |s.links| && s.links[id].c2s != []
  {
    s.(links := s.links[id := s.links[id].(c2s := s.links[id].c2s[1..])])
  }
}
