/** What the applications handed to the two sessions, and how all of it arrives. */
module ResumeHistory {
  import opened Common
  import opened ReplayWindow
  import opened ResumeProtocol

  // What was handed over

  function ClientHands(a: Action): seq<Frame>
  {
    if a.ClientSend? then [a.frame] else []
  }

  /** The frames the client's application sent, in order. */
  function ClientSent(actions: seq<Action>): seq<Frame>
  {
    if actions == [] then [] else ClientHands(actions[0]) + ClientSent(actions[1..])
  }

  function ServerHands(a: Action): seq<Frame>
  {
    if a.ServerSend? then [a.frame] else []
  }

  function ServerSent(actions: seq<Action>): seq<Frame>
  {
    if actions == [] then [] else ServerHands(actions[0]) + ServerSent(actions[1..])
  }

  /** Under an endpoint's own positions a frame is recorded exactly if it fits the cap. */
  lemma RecordsIfItFits(recorded: seq<Bytes>, w: Window, sent: int, accepted: seq<Bytes>, frame: Bytes, cap: nat)
    requires Retains(recorded, w, sent, accepted)
    ensures Record(w, sent, frame, Some(cap)).Recorded? <==> Span(w.frames) + |frame| <= cap
  {
    SpanSplit(recorded, Forgotten(recorded, w));
    assert w.frames[..|w.frames|] == w.frames;
  }

  /** A frame that does not fit the cap any more. */
  predicate Overflows(w: Window, frame: Bytes, cap: nat)
  {
    Span(w.frames) + |frame| > cap
  }

  /**
    A frame handed to a server session that has not ended is recorded, whether the client is there or
    not, and counts in its position; the session ends by it exactly if it does not fit the cap.
   */
  lemma ServerTakes(s: System, frame: Frame, written: bool)
    requires Inv(s) && s.server.mode != Closed
    ensures var t := Step(s, ServerSend(frame, written));
            if Overflows(s.server.window, frame, s.serverCap)
            then t.server.mode == Closed && t.byServer == s.byServer
            else t.server.mode != Closed && t.byServer == s.byServer + [frame]
                 && t.server.sent == s.server.sent + |frame|
                 && t.server.window.frames == s.server.window.frames + [frame]
  {
    RecordsIfItFits(s.byServer, s.server.window, s.server.sent, s.atClient, frame, s.serverCap);
    hide Inv, Retains, Span;
  }

  /** Nothing else adds to what the server recorded, and a session that has ended stays so. */
  lemma ServerHistory(s: System, a: Action)
    requires Inv(s)
    ensures var t := Step(s, a);
            && (t.server.mode != Closed ==>
                  s.server.mode != Closed && t.byServer == s.byServer + ServerHands(a))
            && (t.server.mode == Closed ==> t.byServer == s.byServer)
            && (s.server.mode != Closed && t.server.mode == Closed ==>
                  a.ServerEnds? || (a.ServerSend? && Overflows(s.server.window, a.frame, s.serverCap)))
  {
    InvIsWellFormed(s);
    match a
    case ServerSend(frame, written) =>
      if s.server.mode != Closed {
        ServerTakes(s, frame, written);
      }
      hide Inv, Span;
    case _ => OthersAddNothing(s, a);
  }

  lemma OthersAddNothing(s: System, a: Action)
    requires WellFormed(s) && !a.ServerSend?
    ensures var t := Step(s, a);
            && t.byServer == s.byServer && (s.server.mode == Closed ==> t.server.mode == Closed)
            && (s.server.mode != Closed && t.server.mode == Closed ==> a.ServerEnds?)
  {
    hide Record, Replay, CanReplay, Acknowledge, Wrap, WellFormed, FirstAvailable;
  }

  /**
    Over every run a server session that has not ended recorded exactly the frames its application
    sent, in order; one that has ended, a beginning of them.
   */
  lemma {:induction false} ServerRecordsAll(s: System, actions: seq<Action>)
    requires Inv(s)
    ensures var t := Run(s, actions);
            && s.byServer <= t.byServer <= s.byServer + ServerSent(actions)
            && (t.server.mode != Closed ==> t.byServer == s.byServer + ServerSent(actions))
            && (s.server.mode == Closed ==> t.byServer == s.byServer && t.server.mode == Closed)
    decreases actions
  {
    InvIsWellFormed(s);
    hide Inv, Step;
    if actions == [] {
      assert s.byServer + [] == s.byServer;
    } else {
      StepKeeps(s, actions[0]);
      ServerHistory(s, actions[0]);
      ServerRecordsAll(Step(s, actions[0]), actions[1..]);
      ConcatAssociates<Bytes>(s.byServer, ServerHands(actions[0]), ServerSent(actions[1..]));
    }
  }

  // The client, which queues what it cannot send

  /** A send that overtakes frames still queued from a suspension, between two steps of their flush. */
  predicate Overtakes(s: System, a: Action)
  {
    a.ClientSend? && s.client.phase == Connected && s.client.pending != [] && a.outcome != NotOpen
  }

  predicate NoneOvertakes(s: System, actions: seq<Action>)
    requires WellFormed(s)
    decreases actions
  {
    actions != [] ==> !Overtakes(s, actions[0]) && NoneOvertakes(Step(s, actions[0]), actions[1..])
  }

  /** Everything the client's application handed over and the client has not given up: recorded, then queued. */
  function Handed(s: System): seq<Bytes>
  {
    s.byClient + s.client.pending
  }

  /** A write that is attempted records the frame, or ends the session exactly if it does not fit the cap. */
  lemma ClientWriteTakes(s: System, frame: Frame, unsent: seq<Frame>, outcome: WriteOutcome)
    requires Inv(s) && s.client.phase == Connected
    ensures var t := ClientWrite(s, frame, unsent, outcome);
            if outcome == NotOpen
            then t.client.phase == Suspended && t.client.pending == unsent && t.byClient == s.byClient
            else if Overflows(s.client.window, frame, s.clientCap)
            then t.client.phase == Terminated && t.byClient == s.byClient
            else t.client.phase != Terminated && t.byClient == s.byClient + [frame]
                 && t.client.pending == s.client.pending && t.client.sent == s.client.sent + |frame|
                 && t.client.window.frames == s.client.window.frames + [frame]
  {
    RecordsIfItFits(s.byClient, s.client.window, s.client.sent, s.atServer, frame, s.clientCap);
    hide Inv, Retains, Span;
  }

  lemma ClientSendHistory(s: System, frame: Frame, outcome: WriteOutcome)
    requires Inv(s)
    ensures var t := Step(s, ClientSend(frame, outcome));
            t.client.phase != Terminated ==>
              && s.client.phase != Terminated
              && multiset(Handed(t)) == multiset(Handed(s)) + multiset{frame}
              && (!Overtakes(s, ClientSend(frame, outcome)) ==> Handed(t) == Handed(s) + [frame])
  {
    InvIsWellFormed(s);
    AddsFrame(s.byClient, s.client.pending, frame);
    if s.client.phase == Connected {
      ClientWriteTakes(s, frame, s.client.pending + [frame], outcome);
      assert Step(s, ClientSend(frame, outcome)) == ClientWrite(s, frame, s.client.pending + [frame], outcome);
    }
    hide Inv, ClientWrite, Overflows;
  }

  /** Recording a frame, or queueing it. */
  lemma AddsFrame(recorded: seq<Bytes>, pending: seq<Bytes>, frame: Bytes)
    ensures multiset(recorded + [frame] + pending) == multiset(recorded + pending) + multiset{frame}
    ensures pending == [] ==> recorded + [frame] + pending == recorded + pending + [frame]
    ensures recorded + (pending + [frame]) == recorded + pending + [frame]
    ensures multiset(recorded + pending + [frame]) == multiset(recorded + pending) + multiset{frame}
  {}

  lemma ClientFlushHistory(s: System, outcome: WriteOutcome)
    requires Inv(s)
    ensures var t := Step(s, ClientFlush(outcome));
            t.client.phase != Terminated ==> s.client.phase != Terminated && Handed(t) == Handed(s)
  {
    InvIsWellFormed(s);
    if s.client.phase == Connected && s.client.pending != [] {
      PendingIsLocal(s, s.client.pending[1..]);
      var rest := s.(client := s.client.(pending := s.client.pending[1..]));
      ClientWriteTakes(rest, s.client.pending[0], s.client.pending, outcome);
      hide Inv, ClientWrite;
      ConcatAssociates<Bytes>(s.byClient, [s.client.pending[0]], s.client.pending[1..]);
      assert s.client.pending == [s.client.pending[0]] + s.client.pending[1..];
    }
  }

  lemma OthersKeepHanded(s: System, a: Action)
    requires WellFormed(s) && !a.ClientSend? && !a.ClientFlush?
    ensures var t := Step(s, a);
            && t.client.pending == s.client.pending
            && (t.client.phase != Terminated ==> s.client.phase != Terminated && Handed(t) == Handed(s))
  {
    hide Record, Replay, CanReplay, Acknowledge, Wrap, WellFormed, FirstAvailable;
  }

  lemma ClientHistory(s: System, a: Action)
    requires Inv(s)
    ensures var t := Step(s, a);
            t.client.phase != Terminated ==>
              && s.client.phase != Terminated
              && multiset(Handed(t)) == multiset(Handed(s)) + multiset(ClientHands(a))
              && (!Overtakes(s, a) ==> Handed(t) == Handed(s) + ClientHands(a))
  {
    InvIsWellFormed(s);
    match a
    case ClientSend(frame, outcome) => ClientSendHistory(s, frame, outcome);
    case ClientFlush(outcome) => ClientFlushHistory(s, outcome);
    case _ => OthersKeepHanded(s, a);
    hide Inv, Step, Handed;
  }

  /**
    Over every run a client session that has not ended has recorded or queued every frame its
    application sent, each once, and in the order they were sent unless a send overtook the flush.
   */
  lemma {:induction false} ClientKeepsAll(s: System, actions: seq<Action>)
    requires Inv(s)
    ensures var t := Run(s, actions);
            t.client.phase != Terminated ==>
              && s.client.phase != Terminated
              && multiset(Handed(t)) == multiset(Handed(s)) + multiset(ClientSent(actions))
              && (NoneOvertakes(s, actions) ==> Handed(t) == Handed(s) + ClientSent(actions))
    decreases actions
  {
    InvIsWellFormed(s);
    hide Inv, Step, Handed, Overtakes;
    if actions == [] {
      assert Handed(s) + [] == Handed(s);
    } else {
      StepKeeps(s, actions[0]);
      ClientHistory(s, actions[0]);
      ClientKeepsAll(Step(s, actions[0]), actions[1..]);
      ConcatAssociates<Bytes>(Handed(s), ClientHands(actions[0]), ClientSent(actions[1..]));
    }
  }

  // How it all arrives

  function Repeat(s: System, a: Action, n: nat): (t: System)
    requires WellFormed(s)
    ensures WellFormed(t)
    decreases n
  {
    if n == 0 then s else Repeat(Step(s, a), a, n - 1)
  }

  /** Two ends that share a transport and are past their handshake. */
  ghost predicate Joined(s: System)
  {
    Inv(s) && s.client.phase == Connected && s.server.mode == Bound(s.client.conn) && s.client.incoming == []
  }

  /** What reading at one end leaves alone. */
  predicate SameBut(s: System, t: System)
  {
    && t.byClient == s.byClient && t.byServer == s.byServer
    && t.client.phase == s.client.phase && t.client.conn == s.client.conn && t.client.incoming == s.client.incoming
    && t.client.pending == s.client.pending && t.server.mode == s.server.mode
  }

  lemma SameRefl(s: System)
    ensures SameBut(s, s)
  {}

  lemma SameTwice(a: System, b: System, c: System)
    requires SameBut(a, b) && SameBut(b, c)
    ensures SameBut(a, c)
  {}

  /** A message at the server's end is taken off, and its frame accepted. */
  lemma ServerReadsOne(s: System)
    requires Joined(s) && s.links[s.client.conn].c2s != []
    ensures var t := Step(s, ServerReceive);
            && Joined(t) && SameBut(s, t) && t.client.conn == s.client.conn && t.atClient == s.atClient
            && t.links == s.links[s.client.conn := s.links[s.client.conn].(c2s := s.links[s.client.conn].c2s[1..])]
  {
    hide Inv, Acknowledge, Step;
    InvIsWellFormed(s);
    StepKeeps(s, ServerReceive);
    NoHandshake(s);
    ServerReceiveIs(s);
  }

  lemma ServerReceiveIs(s: System)
    requires WellFormed(s) && s.server.mode == Bound(s.client.conn) && s.links[s.client.conn].c2s != []
    ensures var queue := s.links[s.client.conn].c2s;
            var rest := s.(links := s.links[s.client.conn := s.links[s.client.conn].(c2s := queue[1..])]);
            Step(s, ServerReceive) == ServerHandles(rest, queue[0])
  {
    hide ServerHandles;
  }

  /** Between joined ends only frames and keepalives travel. */
  lemma NoHandshake(s: System)
    requires Joined(s)
    ensures forall m :: m in s.links[s.client.conn].c2s || m in s.links[s.client.conn].s2c ==>
              m.Positional? || m.Keepalive?
  {
    assert forall m :: m in s.links[s.client.conn].s2c ==> m in s.client.incoming + s.links[s.client.conn].s2c;
    hide Frames, Span, Retains, Flows, Reached;
  }

  lemma NothingUnderWay(s: System)
    requires Joined(s)
    ensures WellFormed(s)
    ensures s.server.mode == Bound(s.client.conn)
    ensures s.links[s.client.conn].s2c == [] ==> s.atClient == s.byServer
    ensures s.links[s.client.conn].c2s == [] ==> s.atServer == s.byClient
  {
    ConnectedCarriesAll(s);
    assert [] + s.links[s.client.conn].s2c == s.links[s.client.conn].s2c;
    assert s.atClient + [] == s.atClient && s.atServer + [] == s.atServer;
    InvIsWellFormed(s);
    hide Inv;
  }

  lemma {:induction false} ServerDrains(s: System)
    requires Joined(s)
    ensures WellFormed(s)
    ensures var t := Repeat(s, ServerReceive, |s.links[s.client.conn].c2s|);
            && Joined(t) && SameBut(s, t) && t.atClient == s.atClient
            && t.links[s.client.conn] == s.links[s.client.conn].(c2s := [])
            && t.atServer == t.byClient
    decreases |s.links[s.client.conn].c2s|
  {
    hide Joined, Step, SameBut;
    NothingUnderWay(s);
    if s.links[s.client.conn].c2s == [] {
      SameRefl(s);
    } else {
      ServerReadsOne(s);
      var t := Step(s, ServerReceive);
      ServerDrains(t);
      SameTwice(s, t, Repeat(t, ServerReceive, |t.links[t.client.conn].c2s|));
    }
  }

  lemma ClientReadsOne(s: System)
    requires Joined(s) && s.links[s.client.conn].s2c != []
    ensures var t := Step(s, ClientReceive);
            && Joined(t) && SameBut(s, t) && t.client.conn == s.client.conn && t.atServer == s.atServer
            && t.links == s.links[s.client.conn := s.links[s.client.conn].(s2c := s.links[s.client.conn].s2c[1..])]
  {
    hide Inv, Acknowledge, Step;
    InvIsWellFormed(s);
    StepKeeps(s, ClientReceive);
    NoHandshake(s);
    ClientReceiveIs(s);
  }

  lemma ClientReceiveIs(s: System)
    requires WellFormed(s) && s.client.phase == Connected && s.client.incoming == []
    requires s.links[s.client.conn].s2c != []
    ensures var queue := s.links[s.client.conn].s2c;
            var rest := s.(links := s.links[s.client.conn := s.links[s.client.conn].(s2c := queue[1..])]);
            Step(s, ClientReceive) == ClientHandles(rest, queue[0])
  {
    hide ClientHandles;
  }

  lemma {:induction false} ClientDrains(s: System)
    requires Joined(s)
    ensures WellFormed(s)
    ensures var t := Repeat(s, ClientReceive, |s.links[s.client.conn].s2c|);
            && Joined(t) && SameBut(s, t) && t.atServer == s.atServer && t.atClient == t.byServer
    decreases |s.links[s.client.conn].s2c|
  {
    hide Joined, Step, SameBut;
    NothingUnderWay(s);
    if s.links[s.client.conn].s2c == [] {
      SameRefl(s);
    } else {
      ClientReadsOne(s);
      var t := Step(s, ClientReceive);
      ClientDrains(t);
      SameTwice(s, t, Repeat(t, ClientReceive, |t.links[t.client.conn].s2c|));
    }
  }

  /** One Resume attempt, and then each end reads what is on its way. */
  function Recovered(s: System): (t: System)
    requires WellFormed(s)
    ensures WellFormed(t)
  {
    var joined := Reconnect(s);
    var read := Repeat(joined, ServerReceive, |joined.links[joined.client.conn].c2s|);
    Repeat(read, ClientReceive, |read.links[read.client.conn].s2c|)
  }

  /**
    Whatever happened before, once both sides are suspended one undisturbed attempt and reading what
    it brings gets across everything: the client has accepted every frame the server's application
    sent, and the server every frame the client's application sent and the client does not still queue.
   */
  lemma EverythingArrives(clientCap: nat, serverCap: nat, actions: seq<Action>)
    ensures var s := Run(Init(clientCap, serverCap), actions);
            s.client.phase == Suspended && s.server.mode == Idle ==>
              var t := Recovered(s);
              && t.atClient == ServerSent(actions)
              && multiset(t.atServer + t.client.pending) == multiset(ClientSent(actions))
              && (NoneOvertakes(Init(clientCap, serverCap), actions) ==>
                    t.atServer + t.client.pending == ClientSent(actions))
  {
    var start := Init(clientCap, serverCap);
    InitIsJoined(clientCap, serverCap);
    RunKeeps(start, actions);
    ServerRecordsAll(start, actions);
    ClientKeepsAll(start, actions);
    var s := Run(start, actions);
    hide Inv, Run, Init, Reconnect, Repeat, ServerSent, ClientSent;
    if s.client.phase == Suspended && s.server.mode == Idle {
      RecoversAll(s);
    }
  }

  lemma InitIsJoined(clientCap: nat, serverCap: nat)
    ensures var s := Init(clientCap, serverCap); Joined(s) && s.byServer == [] && Handed(s) == []
  {}

  lemma ReconnectJoins(s: System)
    requires Inv(s) && s.client.phase == Suspended && s.server.mode == Idle
    ensures WellFormed(s)
    ensures var t := Reconnect(s);
            Joined(t) && t.byClient == s.byClient && t.byServer == s.byServer && t.client.pending == s.client.pending
  {
    InvIsWellFormed(s);
    hide Inv, Step;
    DialThenAccept(s);
    var dialed := Step(s, ClientDial);
    var accepted := Step(dialed, ServerAccept(|s.links|));
    OthersKeepHanded(s, ClientDial);
    OthersKeepHanded(dialed, ServerAccept(|s.links|));
    FlushBinds(accepted);
    var flushed := Step(accepted, ServerFlush);
    ReceivesResumeOk(flushed);
    var received := Step(flushed, ClientReceive);
    OthersKeepHanded(flushed, ClientReceive);
    FinishesConnected(received);
    OthersKeepHanded(received, ClientFinishResume);
  }

  lemma RecoversAll(s: System)
    requires Inv(s) && s.client.phase == Suspended && s.server.mode == Idle
    ensures WellFormed(s)
    ensures var t := Recovered(s);
            && t.atClient == s.byServer && t.atServer == s.byClient && t.client.pending == s.client.pending
  {
    InvIsWellFormed(s);
    ReconnectJoins(s);
    hide Inv, Reconnect, Repeat, Joined;
    var joined := Reconnect(s);
    ServerDrains(joined);
    var read := Repeat(joined, ServerReceive, |joined.links[joined.client.conn].c2s|);
    ClientDrains(read);
  }

  // Releasing what has arrived

  /** An acknowledgement of everything recorded leaves nothing retained. */
  lemma AcknowledgeAll(recorded: seq<Bytes>, w: Window, sent: int, accepted: seq<Bytes>)
    requires Retains(recorded, w, sent, accepted)
    ensures var r := Acknowledge(w, sent, sent); r.Acked? && r.window.frames == []
  {
    var a := Forgotten(recorded, w);
    SpanSplit(recorded, a);
    if recorded[a..] != [] {
      assert recorded[a] in recorded && recorded[a..][0] == recorded[a];
    }
  }

  /** Both ends have accepted all there is, and each stands at the position the other has reached. */
  lemma AtRest(s: System)
    requires Joined(s) && s.links[s.client.conn] == Link([], [])
    ensures s.client.sent == s.server.received && s.server.sent == s.client.received
    ensures Retains(s.byClient, s.client.window, s.client.sent, s.atServer)
    ensures Retains(s.byServer, s.server.window, s.server.sent, s.atClient)
  {
    NothingUnderWay(s);
    hide Span;
  }

  /**
    Between joined ends with nothing under way, a keepalive of either end releases all that the other
    one retains: its position is that of everything accepted.
   */
  lemma KeepaliveReleases(s: System)
    requires Joined(s) && s.links[s.client.conn] == Link([], [])
    ensures WellFormed(s)
    ensures Step(Step(s, ServerKeepalive(true)), ClientReceive).client.window.frames == []
    ensures Step(Step(s, ClientKeepalive(true)), ServerReceive).server.window.frames == []
  {
    InvIsWellFormed(s);
    AtRest(s);
    AcknowledgeAll(s.byClient, s.client.window, s.client.sent, s.atServer);
    AcknowledgeAll(s.byServer, s.server.window, s.server.sent, s.atClient);
    hide Inv, Retains, Acknowledge;
  }
}
