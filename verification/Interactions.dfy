/** Stream ids a server session holds: active streams, incomplete requests and payloads, and ignored sequences. */
module Interactions {
  import opened Common
  import opened StreamIds

  /**
    What handling a complete request leaves behind. `sent` says whether the ERROR for it could be
    sent; a refusal that could not be sent is reported once more as an invalid request.
   */
  datatype Outcome =
    | Registers
    | Responded
    | Refused(sent: bool, errorSent: bool)
    | Faulted(ended: bool, sent: bool)

  /**
    What one frame or signal does to an active stream: it goes on, it ends and unregisters through
    the session, or it has already ended itself when it reports a stream error.
   */
  datatype Fate = Stays | Ends | Fails(sent: bool)

  datatype Dispatcher = Dispatcher(
    streams: set<int>,
    payloadFragments: set<int>,
    requestFragments: set<int>,
    ignored: set<int>,
    nextStreamId: int,
    graceful: bool,
    terminated: bool)

  const EMPTY := Dispatcher({}, {}, {}, {}, 1, false, false)

  /** Ids that may not be used for a new request. */
  function Known(s: Dispatcher): set<int>
  {
    s.streams + s.requestFragments + s.payloadFragments + s.ignored
  }

  predicate Idle(s: Dispatcher)
  {
    s.streams == {} && s.requestFragments == {}
  }

  function Unregistered(s: Dispatcher, id: int): Dispatcher
  {
    s.(streams := s.streams - {id}, payloadFragments := s.payloadFragments - {id},
       requestFragments := s.requestFragments - {id}, ignored := s.ignored - {id})
  }

  function Closed(s: Dispatcher): Dispatcher
  {
    s.(streams := {}, payloadFragments := {}, requestFragments := {}, ignored := {}, terminated := true)
  }

  /** A gracefully closing session ends with its last interaction. */
  function ClosedIfIdle(s: Dispatcher): Dispatcher
  {
    if s.graceful && Idle(s) then Closed(s) else s
  }

  function SessionUnregistered(s: Dispatcher, id: int): Dispatcher
  {
    ClosedIfIdle(Unregistered(s, id))
  }

  /**
    A stream error unregisters through the session only when it has to end a live stream itself. If
    the ERROR frame cannot be sent, the whole session ends.
   */
  function StreamFailed(s: Dispatcher, id: int, ended: bool, sent: bool): Dispatcher
  {
    var t := if id in s.streams && !ended then SessionUnregistered(s, id) else Unregistered(s, id);
    if sent then t else Closed(t)
  }

  function Fated(s: Dispatcher, id: int, fate: Fate): Dispatcher
  {
    match fate
    case Stays => s
    case Ends => SessionUnregistered(s, id)
    case Fails(sent) => StreamFailed(s, id, true, sent)
  }

  function Dispatched(s: Dispatcher, id: int, outcome: Outcome): Dispatcher
  {
    var t := s.(streams := s.streams + {id});
    match outcome
    case Registers => t
    case Responded => SessionUnregistered(t, id)
    case Refused(sent, errorSent) => if sent then SessionUnregistered(s, id) else StreamFailed(s, id, false, errorSent)
    case Faulted(ended, sent) => StreamFailed(t, id, ended, sent)
  }

  /** How a new id compares with the expected one. */
  datatype Verdict = Accepted | Duplicate | Violation

  function Judge(s: Dispatcher, id: int): Verdict
  {
    if id <= 0 || id % 2 == 0 then Violation
    else if id in s.streams || id in s.requestFragments then Duplicate
    else if id != s.nextStreamId then Violation
    else Accepted
  }

  /** Advances the expected id past every id still in use. */
  ghost function Advanced(s: Dispatcher): Dispatcher
    requires Legal(s.nextStreamId, CLIENT_STREAM_ID) && |Known(s)| < Count(CLIENT_STREAM_ID)
  {
    s.(nextStreamId := FreeId(s.nextStreamId, Known(s), CLIENT_STREAM_ID))
  }

  /** Takes the id of a request, whatever follows: the new state, and whether the request is handled. */
  ghost function Admitted(s: Dispatcher, id: int): Dispatcher
    requires Legal(s.nextStreamId, CLIENT_STREAM_ID) && |Known(s)| < Count(CLIENT_STREAM_ID)
  {
    var t := Advanced(s);
    match Judge(t, id)
    case Accepted => t.(nextStreamId := NextId(id, CLIENT_STREAM_ID))
    case Duplicate => t
    case Violation => Closed(t)
  }

  /** Frames and signals, with what the parts outside the dispatcher decide about them. */
  datatype Event =
    | InitialRequest(id: int, follows: bool, admitted: bool, rejectionSent: bool, outcome: Outcome)
    | Payload(id: int, next: bool, complete: bool, follows: bool, accepted: bool, broken: bool, fnf: bool,
              errorSent: bool, outcome: Outcome, fate: Fate)
    | CancelOrError(id: int, fate: Fate)
    | StreamSignal(id: int, fate: Fate)
    | InvalidInitial(id: int, more: bool)
    | InvalidPayload(id: int, more: bool)
    | SkippedFireAndForget(id: int)
    | PeerCloses
    | SessionCloses

  predicate More(follows: bool, complete: bool)
  {
    follows && !complete
  }

  function IgnoredUpdate(ignored: set<int>, id: int, more: bool): set<int>
  {
    if more then ignored + {id} else ignored - {id}
  }

  /** A PAYLOAD for an incomplete initial request. */
  function RequestContinued(s: Dispatcher, e: Event): Dispatcher
    requires e.Payload?
  {
    var t := s.(requestFragments := s.requestFragments - {e.id});
    if e.broken then if e.fnf then SessionUnregistered(t, e.id) else StreamFailed(t, e.id, false, e.errorSent)
    else if More(e.follows, e.complete) then s
    else Dispatched(t, e.id, e.outcome)
  }

  /** A PAYLOAD for an active stream. */
  function PayloadContinued(s: Dispatcher, e: Event): Dispatcher
    requires e.Payload?
  {
    var t := s.(payloadFragments := s.payloadFragments - {e.id});
    if !e.accepted then t
    else if e.broken then StreamFailed(t, e.id, false, e.errorSent)
    else if More(e.follows, e.complete) then s.(payloadFragments := s.payloadFragments + {e.id})
    else if !e.next && !e.complete then StreamFailed(t, e.id, false, e.errorSent)
    else Fated(t, e.id, e.fate)
  }

  function PayloadHandled(s: Dispatcher, e: Event): Dispatcher
    requires e.Payload?
  {
    if e.id !in Known(s) then s
    else if e.id in s.ignored then
      if More(e.follows, e.complete) then s else s.(ignored := s.ignored - {e.id})
    else if e.id in s.requestFragments then RequestContinued(s, e)
    else if e.id !in s.streams then s.(payloadFragments := s.payloadFragments - {e.id})
    else PayloadContinued(s, e)
  }

  ghost function Step(s: Dispatcher, e: Event): Dispatcher
    requires Legal(s.nextStreamId, CLIENT_STREAM_ID)
  {
    if s.terminated || |Known(s)| >= Count(CLIENT_STREAM_ID) then s
    else match e
      case InitialRequest(id, follows, admitted, rejectionSent, outcome) =>
        var t := Admitted(s, id);
        if Judge(Advanced(s), id) != Accepted then t
        else if !admitted || s.graceful then if rejectionSent then SessionUnregistered(t, id) else Closed(t)
        else if follows then t.(requestFragments := t.requestFragments + {id})
        else Dispatched(t, id, outcome)
      case Payload(_, _, _, _, _, _, _, _, _, _) => PayloadHandled(s, e)
      case CancelOrError(id, fate) =>
        if id in s.requestFragments then SessionUnregistered(s, id)
        else if id in s.streams then Fated(s, id, fate)
        else s
      case StreamSignal(id, fate) => if id in s.streams then Fated(s, id, fate) else s
      case InvalidInitial(id, more) =>
        var t := Admitted(s, id);
        if Judge(Advanced(s), id) != Accepted then t else t.(ignored := IgnoredUpdate(t.ignored, id, more))
      case InvalidPayload(id, more) =>
        if id !in Known(s) || id in s.ignored then s
        else if id in s.requestFragments then SessionUnregistered(s, id)
        else s.(payloadFragments := s.payloadFragments - {id}, ignored := IgnoredUpdate(s.ignored, id, more))
      case SkippedFireAndForget(id) => Admitted(s, id)
      case PeerCloses => ClosedIfIdle(s.(graceful := true))
      case SessionCloses => Closed(s)
  }

  /** The bookkeeping never confuses an incomplete request with an active stream. */
  ghost predicate Inv(s: Dispatcher)
  {
    && Legal(s.nextStreamId, CLIENT_STREAM_ID)
    && s.streams !! s.requestFragments
    && s.payloadFragments <= s.streams
    && s.ignored !! s.requestFragments
    && (forall id :: id in Known(s) ==> Legal(id, CLIENT_STREAM_ID))
    && (s.terminated ==> Known(s) == {})
  }

  lemma RemovalKeeps(s: Dispatcher, id: int)
    requires Inv(s)
    ensures Inv(Unregistered(s, id)) && Inv(SessionUnregistered(s, id)) && Inv(Closed(s)) && Inv(ClosedIfIdle(s))
  {}

  lemma FailureKeeps(s: Dispatcher, id: int, ended: bool, sent: bool)
    requires Inv(s)
    ensures Inv(StreamFailed(s, id, ended, sent))
  {
    RemovalKeeps(s, id);
    RemovalKeeps(Unregistered(s, id), id);
    RemovalKeeps(SessionUnregistered(s, id), id);
    hide Inv;
  }

  lemma FatedKeeps(s: Dispatcher, id: int, fate: Fate)
    requires Inv(s)
    ensures Inv(Fated(s, id, fate))
  {
    RemovalKeeps(s, id);
    if fate.Fails? {
      FailureKeeps(s, id, true, fate.sent);
    }
  }

  lemma DispatchedKeeps(s: Dispatcher, id: int, outcome: Outcome)
    requires Inv(s) && !s.terminated && id !in s.requestFragments && Legal(id, CLIENT_STREAM_ID)
    ensures Inv(Dispatched(s, id, outcome))
  {
    var t := s.(streams := s.streams + {id});
    assert Inv(t);
    hide Inv, StreamFailed;
    RemovalKeeps(s, id);
    RemovalKeeps(t, id);
    match outcome
    case Refused(sent, errorSent) => FailureKeeps(s, id, false, errorSent);
    case Faulted(ended, sent) => FailureKeeps(t, id, ended, sent);
    case _ =>
  }

  lemma AdmittedKeeps(s: Dispatcher, id: int)
    requires Inv(s) && |Known(s)| < Count(CLIENT_STREAM_ID)
    ensures Inv(Admitted(s, id))
    ensures Judge(Advanced(s), id) == Accepted ==> id !in Known(s) && Legal(id, CLIENT_STREAM_ID)
  {
    hide FreeId;
    var t := Advanced(s);
    FirstFreeIsLegal(s.nextStreamId, Known(s), t.nextStreamId, CLIENT_STREAM_ID);
    var d: nat :| FirstFreeAt(s.nextStreamId, Known(s), t.nextStreamId, d, CLIENT_STREAM_ID);
    NextIsLegal(t.nextStreamId, CLIENT_STREAM_ID);
    assert Inv(t);
    RemovalKeeps(t, id);
  }

  lemma PayloadKeeps(s: Dispatcher, e: Event)
    requires Inv(s) && e.Payload? && !s.terminated
    ensures Inv(PayloadHandled(s, e))
  {
    var r := s.(requestFragments := s.requestFragments - {e.id});
    var p := s.(payloadFragments := s.payloadFragments - {e.id});
    assert Inv(r) && Inv(p) && Inv(s.(ignored := s.ignored - {e.id}));
    RemovalKeeps(r, e.id);
    FailureKeeps(r, e.id, false, e.errorSent);
    FailureKeeps(p, e.id, false, e.errorSent);
    FatedKeeps(p, e.id, e.fate);
    if e.id in Known(s) {
      DispatchedKeeps(r, e.id, e.outcome);
    }
    assert e.id in s.streams ==> Inv(s.(payloadFragments := s.payloadFragments + {e.id}));
    hide Inv;
  }

  lemma StepKeeps(s: Dispatcher, e: Event)
    requires Inv(s)
    ensures Inv(Step(s, e))
  {
    if !s.terminated && |Known(s)| < Count(CLIENT_STREAM_ID) {
      match e
      case InitialRequest(id, _, _, _, _) => InitialKeeps(s, e);
      case Payload(_, _, _, _, _, _, _, _, _, _) => PayloadKeeps(s, e);
      case CancelOrError(id, fate) => RemovalKeeps(s, id); FatedKeeps(s, id, fate);
      case StreamSignal(id, fate) => FatedKeeps(s, id, fate);
      case InvalidInitial(id, more) => AdmittedKeeps(s, id);
      case InvalidPayload(id, more) => RemovalKeeps(s, id);
      case SkippedFireAndForget(id) => AdmittedKeeps(s, id);
      case PeerCloses => RemovalKeeps(s.(graceful := true), 0);
      case SessionCloses => RemovalKeeps(s, 0);
    }
  }

  lemma InitialKeeps(s: Dispatcher, e: Event)
    requires Inv(s) && !s.terminated && |Known(s)| < Count(CLIENT_STREAM_ID) && e.InitialRequest?
    ensures Inv(Step(s, e))
  {
    AdmittedKeeps(s, e.id);
    if Judge(Advanced(s), e.id) == Accepted {
      var t := Admitted(s, e.id);
      RemovalKeeps(t, e.id);
      DispatchedKeeps(t, e.id, e.outcome);
      assert Inv(t.(requestFragments := t.requestFragments + {e.id}));
    }
  }

  ghost function Run(s: Dispatcher, events: seq<Event>): Dispatcher
    requires Inv(s)
    decreases events
  {
    if events == [] then s
    else
      StepKeeps(s, events[0]);
      Run(Step(s, events[0]), events[1..])
  }

  lemma {:induction false} RunKeeps(s: Dispatcher, events: seq<Event>)
    requires Inv(s)
    ensures Inv(Run(s, events))
    decreases events
  {
    hide Step;
    if events != [] {
      StepKeeps(s, events[0]);
      RunKeeps(Step(s, events[0]), events[1..]);
    }
  }

  /**
    In every run an id is never both an active stream and an incomplete request, payload fragments
    are kept for active streams only, an idle session keeps none, and a terminated one nothing.
   */
  lemma RolesStaySeparate(events: seq<Event>)
    ensures var s := Run(EMPTY, events);
            && s.streams !! s.requestFragments
            && s.payloadFragments <= s.streams
            && (Idle(s) ==> s.payloadFragments == {})
            && (s.terminated ==> Known(s) == {})
  {
    RunKeeps(EMPTY, events);
  }

  /** In every state a session reaches, the one id a request may use is the first free one, and nothing holds it. */
  lemma AcceptsExactlyTheFirstFree(events: seq<Event>, id: int)
    ensures var s := Run(EMPTY, events);
            Legal(s.nextStreamId, CLIENT_STREAM_ID) && |Known(s)| < Count(CLIENT_STREAM_ID) ==>
              && (Judge(Advanced(s), id) == Accepted <==> id == FreeId(s.nextStreamId, Known(s), CLIENT_STREAM_ID))
              && (Judge(Advanced(s), id) == Accepted ==> id !in Known(s))
              && (Judge(Advanced(s), id) == Duplicate ==> id in Known(s))
  {
    RunKeeps(EMPTY, events);
    var s := Run(EMPTY, events);
    hide Run;
    if |Known(s)| < Count(CLIENT_STREAM_ID) {
      AdmittedKeeps(s, id);
      var expected := FreeId(s.nextStreamId, Known(s), CLIENT_STREAM_ID);
      FirstFreeIsLegal(s.nextStreamId, Known(s), expected, CLIENT_STREAM_ID);
      var d: nat :| FirstFreeAt(s.nextStreamId, Known(s), expected, d, CLIENT_STREAM_ID);
      assert expected !in Known(s);
    }
  }

  // Graceful close

  /** An error whose ERROR frame is sent, about an interaction that is no longer, or not yet, a live stream. */
  predicate FailsQuietly(outcome: Outcome)
  {
    (outcome.Refused? && !outcome.sent && outcome.errorSent) || outcome == Faulted(true, true)
  }

  /** An event that removes an interaction by an error the stream reports about itself. */
  predicate RemovesByError(s: Dispatcher, e: Event)
  {
    match e
    case Payload(id, next, complete, follows, accepted, broken, fnf, errorSent, outcome, fate) =>
      && id !in s.ignored
      && if id in s.requestFragments then
           if broken then !fnf && errorSent else !More(follows, complete) && FailsQuietly(outcome)
         else
           && id in s.streams && accepted && !broken && !More(follows, complete) && (next || complete)
           && fate == Fails(true)
    case CancelOrError(id, fate) => id !in s.requestFragments && id in s.streams && fate == Fails(true)
    case StreamSignal(id, fate) => id in s.streams && fate == Fails(true)
    case _ => false
  }

  /** Nothing but the interaction with this id is left. */
  predicate IsLast(s: Dispatcher, id: int)
  {
    s.streams + s.requestFragments == {id}
  }

  /** The peer asked for a graceful close, nothing is left, and yet the session is still there. */
  predicate Lingers(s: Dispatcher)
  {
    s.graceful && Idle(s) && !s.terminated
  }

  /** Going through the session never leaves it lingering. */
  lemma SessionPathCloses(s: Dispatcher, id: int)
    ensures !Lingers(SessionUnregistered(s, id)) && !Lingers(ClosedIfIdle(s)) && !Lingers(Closed(s))
  {}

  /** Ids of streams and incomplete requests, and whether the session is closing, decide about lingering. */
  lemma SameWork(s: Dispatcher, t: Dispatcher)
    requires s.streams == t.streams && s.requestFragments == t.requestFragments
    requires s.graceful == t.graceful && s.terminated == t.terminated
    ensures Lingers(s) == Lingers(t) && Idle(s) == Idle(t)
  {}

  /** A stream error that does not go through the session leaves it as idle as it then is. */
  lemma FailureLingers(s: Dispatcher, id: int, ended: bool, sent: bool)
    requires !s.terminated
    ensures Lingers(StreamFailed(s, id, ended, sent))
            <==> s.graceful && sent && (ended || id !in s.streams) && Idle(Unregistered(s, id))
  {
    SessionPathCloses(s, id);
    SessionPathCloses(Unregistered(s, id), id);
    SessionPathCloses(SessionUnregistered(s, id), id);
    hide SessionUnregistered;
  }

  lemma DispatchLingers(s: Dispatcher, id: int, outcome: Outcome)
    requires !s.terminated && id !in s.streams && id !in s.requestFragments
    ensures Lingers(Dispatched(s, id, outcome)) <==> s.graceful && FailsQuietly(outcome) && Idle(s)
  {
    var registered := s.(streams := s.streams + {id});
    SessionPathCloses(s, id);
    SessionPathCloses(registered, id);
    assert Idle(Unregistered(registered, id)) <==> Idle(s);
    assert Idle(Unregistered(s, id)) <==> Idle(s);
    hide SessionUnregistered, StreamFailed;
    match outcome
    case Refused(sent, errorSent) => FailureLingers(s, id, false, errorSent);
    case Faulted(ended, sent) => FailureLingers(registered, id, ended, sent);
    case _ =>
  }

  lemma FateLingers(s: Dispatcher, id: int, fate: Fate)
    requires !s.terminated && id in s.streams
    ensures Lingers(Fated(s, id, fate)) <==> s.graceful && fate == Fails(true) && Idle(Unregistered(s, id))
  {
    SessionPathCloses(s, id);
    hide SessionUnregistered, StreamFailed;
    if fate.Fails? {
      FailureLingers(s, id, true, fate.sent);
    }
  }

  /** Removing the last interaction, and no other, leaves a session idle. */
  lemma LastLeaves(s: Dispatcher, id: int)
    requires id in s.streams || id in s.requestFragments
    ensures Idle(Unregistered(s, id)) <==> IsLast(s, id)
  {
    OnlyOne(s.streams, s.requestFragments, id);
  }

  lemma OnlyOne(a: set<int>, b: set<int>, id: int)
    requires id in a || id in b
    ensures a - {id} == {} && b - {id} == {} <==> a + b == {id}
  {
    if a - {id} == {} && b - {id} == {} {
      forall x | x in a + b ensures x == id {
        assert x !in a - {id} && x !in b - {id};
      }
    }
  }

  lemma PayloadLingers(s: Dispatcher, e: Event)
    requires Inv(s) && !s.terminated && !Lingers(s) && e.Payload?
    ensures Lingers(PayloadHandled(s, e)) <==> s.graceful && RemovesByError(s, e) && IsLast(s, e.id)
  {
    if e.id in s.requestFragments {
      RequestPayloadLingers(s, e);
    } else if e.id in s.streams {
      StreamPayloadLingers(s, e);
    } else {
      SameWork(s, s.(payloadFragments := s.payloadFragments - {e.id}));
      SameWork(s, s.(ignored := s.ignored - {e.id}));
      hide Lingers, Idle;
    }
  }

  lemma RequestPayloadLingers(s: Dispatcher, e: Event)
    requires Inv(s) && !s.terminated && !Lingers(s) && e.Payload? && e.id in s.requestFragments
    ensures Lingers(PayloadHandled(s, e)) <==> s.graceful && RemovesByError(s, e) && IsLast(s, e.id)
  {
    var r := s.(requestFragments := s.requestFragments - {e.id});
    assert e.id !in s.streams && e.id !in s.ignored;
    assert Idle(r) == Idle(Unregistered(r, e.id)) == Idle(Unregistered(s, e.id));
    LastLeaves(s, e.id);
    SessionPathCloses(r, e.id);
    FailureLingers(r, e.id, false, e.errorSent);
    DispatchLingers(r, e.id, e.outcome);
    hide Lingers, Idle, IsLast, SessionUnregistered, StreamFailed, Dispatched, Inv, FailsQuietly;
  }

  lemma StreamPayloadLingers(s: Dispatcher, e: Event)
    requires Inv(s) && !s.terminated && !Lingers(s) && e.Payload? && e.id in s.streams
    ensures Lingers(PayloadHandled(s, e)) <==> s.graceful && RemovesByError(s, e) && IsLast(s, e.id)
  {
    var p := s.(payloadFragments := s.payloadFragments - {e.id});
    assert e.id !in s.requestFragments;
    assert Idle(Unregistered(p, e.id)) == Idle(Unregistered(s, e.id));
    LastLeaves(s, e.id);
    SameWork(s, p);
    SameWork(s, s.(payloadFragments := s.payloadFragments + {e.id}));
    SameWork(s, s.(ignored := s.ignored - {e.id}));
    FailureLingers(p, e.id, false, e.errorSent);
    FateLingers(p, e.id, e.fate);
    hide Lingers, Idle, IsLast, StreamFailed, Fated, Inv;
  }

  /** A closing session refuses requests, and so never starts to linger over one. */
  lemma RequestLingers(s: Dispatcher, e: Event)
    requires Inv(s) && !s.terminated && !Lingers(s) && |Known(s)| < Count(CLIENT_STREAM_ID) && e.InitialRequest?
    ensures !Lingers(Step(s, e))
  {
    hide FreeId;
    var t := Admitted(s, e.id);
    SessionPathCloses(t, e.id);
    if Judge(Advanced(s), e.id) != Violation {
      SameWork(s, t);
    }
    if !s.graceful {
      NotGraceful(t, e.id, e.outcome);
    }
    hide SessionUnregistered, Dispatched;
  }

  lemma NotGraceful(s: Dispatcher, id: int, outcome: Outcome)
    requires !s.graceful
    ensures !Lingers(Dispatched(s, id, outcome)) && !Lingers(s.(requestFragments := s.requestFragments + {id}))
  {}

  /**
    A gracefully closing session ends with its last interaction, except exactly when that one is
    removed by an error that does not end a live stream and whose ERROR frame is sent: nobody then
    looks whether the session is idle.
   */
  lemma LingersExactly(s: Dispatcher, e: Event)
    requires Inv(s) && !s.terminated && !Lingers(s) && |Known(s)| < Count(CLIENT_STREAM_ID)
    ensures Lingers(Step(s, e)) <==> s.graceful && RemovesByError(s, e) && IsLast(s, e.id)
  {
    hide FreeId, PayloadHandled, IsLast;
    match e
    case InitialRequest(_, _, _, _, _) => RequestLingers(s, e);
    case Payload(_, _, _, _, _, _, _, _, _, _) => PayloadLingers(s, e);
    case InvalidInitial(id, more) => AdmittedKeeps(s, id);
    case SkippedFireAndForget(id) => AdmittedKeeps(s, id);
    case CancelOrError(id, fate) => SignalLingers(s, id, fate);
    case StreamSignal(id, fate) => SignalLingers(s, id, fate);
    case _ =>
  }

  lemma SignalLingers(s: Dispatcher, id: int, fate: Fate)
    requires Inv(s) && !s.terminated && !Lingers(s)
    ensures id in s.streams ==> (Lingers(Fated(s, id, fate)) <==> s.graceful && fate == Fails(true) && IsLast(s, id))
    ensures !Lingers(SessionUnregistered(s, id))
  {
    SessionPathCloses(s, id);
    if id in s.streams {
      FateLingers(s, id, fate);
      LastLeaves(s, id);
    }
  }

  /** A session with one active stream whose peer asked for a graceful close. */
  const CLOSING := EMPTY.(streams := {1}, nextStreamId := 3, graceful := true)

  lemma ReachesClosing()
    ensures Run(EMPTY, [InitialRequest(1, false, true, true, Registers), PeerCloses]) == CLOSING
  {
    var request := InitialRequest(1, false, true, true, Registers);
    NothingToSkip(1, {});
    assert Known(EMPTY) == {};
    hide FreeId;
    var one := EMPTY.(streams := {1}, nextStreamId := 3);
    assert Step(EMPTY, request) == one;
    assert Known(one) == {1};
    assert Step(one, PeerCloses) == CLOSING;
    assert [request, PeerCloses][1..] == [PeerCloses] && [PeerCloses][1..] == [];
    StepKeeps(EMPTY, request);
    StepKeeps(one, PeerCloses);
    assert Run(CLOSING, []) == CLOSING;
    assert Run(one, [PeerCloses]) == CLOSING;
  }

  /** When its stream fails, it lingers if the ERROR can be sent, and ends if it cannot. */
  lemma FailedLastStreamLingers()
    ensures Run(EMPTY, [InitialRequest(1, false, true, true, Registers), PeerCloses]) == CLOSING && Inv(CLOSING)
    ensures Lingers(Step(CLOSING, StreamSignal(1, Fails(true))))
    ensures Step(CLOSING, StreamSignal(1, Fails(false))).terminated
  {
    ReachesClosing();
    assert Known(CLOSING) == {1};
  }

  predicate Holds(s: Dispatcher, id: int)
  {
    !s.terminated && (id in s.streams || id in s.requestFragments)
  }

  /** An ERROR frame for a request that cannot be sent. */
  predicate Unsendable(outcome: Outcome)
  {
    (outcome.Refused? && !outcome.sent && !outcome.errorSent) || (outcome.Faulted? && !outcome.sent)
  }

  /** Removing one interaction leaves every other. */
  lemma OthersStay(s: Dispatcher, id: int, other: int, fate: Fate, outcome: Outcome)
    requires Holds(s, other) && other != id
    ensures Holds(SessionUnregistered(s, id), other)
    ensures fate != Fails(false) ==> Holds(Fated(s, id, fate), other)
    ensures Holds(StreamFailed(s, id, true, true), other) && Holds(StreamFailed(s, id, false, true), other)
    ensures !Unsendable(outcome) ==> Holds(Dispatched(s, id, outcome), other)
  {}

  lemma PayloadSparesOthers(s: Dispatcher, e: Event, other: int)
    requires Holds(s, other) && e.Payload? && e.id != other && !Unsent(e)
    ensures Holds(PayloadHandled(s, e), other)
  {
    OthersStay(s.(requestFragments := s.requestFragments - {e.id}), e.id, other, e.fate, e.outcome);
    OthersStay(s.(payloadFragments := s.payloadFragments - {e.id}), e.id, other, e.fate, e.outcome);
    hide SessionUnregistered, StreamFailed, Fated, Dispatched, Unsendable;
  }

  /** An ERROR frame about an interaction cannot be sent, which ends the session. */
  predicate Unsent(e: Event)
  {
    match e
    case InitialRequest(_, _, _, rejectionSent, outcome) => !rejectionSent || Unsendable(outcome)
    case Payload(_, _, _, _, _, _, _, errorSent, outcome, fate) =>
      !errorSent || Unsendable(outcome) || fate == Fails(false)
    case CancelOrError(_, fate) => fate == Fails(false)
    case StreamSignal(_, fate) => fate == Fails(false)
    case _ => false
  }

  /** What an event other than the end of the session may be about. */
  ghost predicate Concerns(s: Dispatcher, e: Event, other: int)
    requires Legal(s.nextStreamId, CLIENT_STREAM_ID) && |Known(s)| < Count(CLIENT_STREAM_ID)
  {
    match e
    case InitialRequest(id, _, _, _, _) => Judge(Advanced(s), id) == Violation
    case InvalidInitial(id, _) => Judge(Advanced(s), id) == Violation
    case SkippedFireAndForget(id) => Judge(Advanced(s), id) == Violation
    case Payload(id, _, _, _, _, _, _, _, _, _) => id == other
    case CancelOrError(id, _) => id == other
    case StreamSignal(id, _) => id == other
    case InvalidPayload(id, _) => id == other
    case PeerCloses => false
    case SessionCloses => true
  }

  lemma RequestSparesOthers(s: Dispatcher, e: Event, other: int)
    requires Inv(s) && |Known(s)| < Count(CLIENT_STREAM_ID) && Holds(s, other)
    requires e.InitialRequest? && Judge(Advanced(s), e.id) != Violation && !Unsent(e)
    ensures Holds(Step(s, e), other)
  {
    AdmittedKeeps(s, e.id);
    var t := Admitted(s, e.id);
    assert other in Known(s);
    hide FreeId, Inv, SessionUnregistered, Dispatched, Known;
    if Judge(Advanced(s), e.id) == Accepted {
      OthersStay(t, e.id, other, Stays, e.outcome);
    }
  }

  /**
    No interaction ends through an event about another one, graceful close included, as long as the
    ERROR frames about that one can be sent.
   */
  lemma OtherInteractionsGoOn(s: Dispatcher, e: Event, other: int)
    requires Inv(s) && |Known(s)| < Count(CLIENT_STREAM_ID) && Holds(s, other) && !Concerns(s, e, other) && !Unsent(e)
    ensures Holds(Step(s, e), other)
  {
    hide FreeId, PayloadHandled, SessionUnregistered, Fated;
    match e
    case InitialRequest(_, _, _, _, _) => RequestSparesOthers(s, e, other);
    case Payload(_, _, _, _, _, _, _, _, _, _) => PayloadSparesOthers(s, e, other);
    case CancelOrError(id, fate) => OthersStay(s, id, other, fate, Registers);
    case StreamSignal(id, fate) => OthersStay(s, id, other, fate, Registers);
    case InvalidPayload(id, more) => OthersStay(s, id, other, Stays, Registers);
    case _ =>
  }
}
