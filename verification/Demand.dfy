/** Response demand of one requester stream, and the credit it grants the responder. */
module Demand {
  import opened Common

  // Reactive Streams demand

  /** Demand still unfulfilled. */
  datatype Demand = Finite(n: nat) | Infinite

  /** An argument of `request`; `Other` is a fraction, NaN or negative infinity. */
  datatype Argument = Integer(n: int) | PositiveInfinity | Other

  /** Positive safe integers and positive infinity are demand; anything else is a RangeError. */
  function NormalizeReactiveDemand(argument: Argument): Option<Demand>
  {
    match argument
    case PositiveInfinity => Some(Infinite)
    case Integer(n) => if 0 < n <= MAX_SAFE_INTEGER then Some(Finite(n)) else None
    case Other => None
  }

  function AddReactiveDemand(current: Demand, added: Demand): Demand
  {
    if current.Infinite? || added.Infinite? then Infinite
    else if added.n >= MAX_SAFE_INTEGER - current.n then Finite(MAX_SAFE_INTEGER)
    else Finite(current.n + added.n)
  }

  /** Representable exactly as a JavaScript number. */
  predicate Exact(d: Demand)
  {
    d.Finite? ==> d.n <= MAX_SAFE_INTEGER
  }

  /** The most credit the protocol lets one stream hold, given its demand. */
  function Window(d: Demand): (w: nat)
    ensures w <= MAX_REQUEST_N
  {
    if d.Infinite? then MAX_REQUEST_N else Min(d.n, MAX_REQUEST_N)
  }

  /** One element delivered. */
  function Spend(d: Demand): Demand
  {
    if d == Infinite || d == Finite(0) then d else Finite(d.n - 1)
  }

  /** Adding demand is a saturating sum: commutative, never losing demand, capped but never wrapping. */
  lemma AdditionSaturates(a: Demand, b: Demand)
    requires Exact(a) && Exact(b)
    ensures Exact(AddReactiveDemand(a, b))
    ensures AddReactiveDemand(a, b) == AddReactiveDemand(b, a)
    ensures Window(AddReactiveDemand(a, b)) >= Window(a)
    ensures Window(AddReactiveDemand(a, b)) == Min(Window(a) + Window(b), MAX_REQUEST_N)
    ensures a.Finite? && b.Finite? ==> AddReactiveDemand(a, b) == Finite(Min(a.n + b.n, MAX_SAFE_INTEGER))
  {}

  // The subscription

  /** Frames the requester sends on this stream. */
  datatype Sent = Request(n: nat) | RequestN(n: nat) | Cancel | Error

  /** Signals the subscriber receives. */
  datatype Signal = OnNext(value: Bytes) | OnComplete | OnError

  /** A PAYLOAD frame after reassembly. */
  datatype Payload = Payload(next: bool, complete: bool, follows: bool, value: Bytes)

  /** What the subscriber does inside `onNext`. */
  datatype Call = CallRequest(argument: Argument) | CallCancel

  /** All fields of a subscription, with what it sent and signalled so far. */
  datatype Subscription = Subscription(
    channel: bool,
    started: bool,
    requestStarted: bool,
    cancelled: bool,
    responseTerminated: bool,
    completing: bool,
    outboundTerminated: bool,
    disposed: bool,
    requested: Demand,
    wireRequested: nat,
    initialRequestN: nat,
    reported: bool,
    asked: nat,
    sent: seq<Sent>,
    signals: seq<Signal>)

  function Initial(channel: bool): Subscription
  {
    Subscription(channel, false, false, false, false, false, !channel, false, Finite(0), 0, 0, false, 0, [], [])
  }

  /** Still exchanging responses. */
  predicate Live(s: Subscription)
  {
    !s.cancelled && !s.responseTerminated
  }

  function Sends(s: Subscription, frame: Sent): Subscription
  {
    s.(sent := s.sent + [frame])
  }

  function Signals(s: Subscription, signal: Signal): Subscription
  {
    s.(signals := s.signals + [signal])
  }

  /** Local failure: the subscriber hears of it unless its responses already ended. */
  function Fail(s: Subscription): Subscription
  {
    if s.cancelled then s
    else
      var t := s.(cancelled := true, disposed := true);
      if s.responseTerminated then t else Signals(t, OnError)
  }

  function FailAndCancel(s: Subscription, open: bool): Subscription
  {
    Fail(if s.requestStarted && open then Sends(s, Cancel) else s)
  }

  function FailOutbound(s: Subscription, notifyPeer: bool, open: bool): Subscription
  {
    if s.cancelled then s
    else
      var t := Fail(s).(outboundTerminated := true);
      if notifyPeer && s.requestStarted && open then Sends(t, Error) else t
  }

  function Cancelled(s: Subscription, open: bool): Subscription
  {
    if s.cancelled || (s.responseTerminated && s.outboundTerminated) then s
    else
      var t := s.(cancelled := true, disposed := true);
      if s.requestStarted && open then Sends(t, Cancel) else t
  }

  predicate CanGrant(s: Subscription)
  {
    !s.disposed && s.wireRequested < Window(s.requested)
  }

  /** Fills the window with one REQUEST_N. */
  function Granted(s: Subscription): Subscription
    requires CanGrant(s)
  {
    Sends(s.(wireRequested := Window(s.requested)), RequestN(Window(s.requested) - s.wireRequested))
  }

  /** Sends the initial request, then grants what accumulated since it was prepared. */
  function Begun(s: Subscription, open: bool): Subscription
  {
    if !open then if s.channel then FailOutbound(s, false, open) else Fail(s)
    else
      var t := Sends(s.(requestStarted := true), Request(s.initialRequestN));
      if CanGrant(t) then Granted(t) else t
  }

  /** The first demand fixes the initial request count; a channel sends it when its first item is ready. */
  function Started(s: Subscription, open: bool): Subscription
  {
    var t := s.(started := true, wireRequested := Window(s.requested), initialRequestN := Window(s.requested));
    if s.channel then t else Begun(t, open)
  }

  function Requested(s: Subscription, argument: Argument, open: bool): Subscription
  {
    if !Live(s) || s.completing then s
    else match NormalizeReactiveDemand(argument)
      case None => FailAndCancel(s, open)
      case Some(d) =>
        var t := s.(requested := AddReactiveDemand(s.requested, d),
                    asked := s.asked + if d.Finite? then d.n else 0);
        if !t.started then Started(t, open)
        else if !t.requestStarted || !CanGrant(t) then t
        else if open then Granted(t)
        else FailAndCancel(t, open)
  }

  function Calls(s: Subscription, calls: seq<Call>, open: bool): Subscription
    decreases calls
  {
    if calls == [] then s
    else
      var t := match calls[0]
        case CallRequest(argument) => Requested(s, argument, open)
        case CallCancel => Cancelled(s, open);
      Calls(t, calls[1..], open)
  }

  function Completed(s: Subscription): Subscription
  {
    if s.responseTerminated then s
    else Signals(s.(responseTerminated := true, disposed := s.disposed || s.outboundTerminated), OnComplete)
  }

  /** Refills the window once at most half of it is left. */
  function Replenished(s: Subscription, open: bool): Subscription
  {
    if s.wireRequested > MAX_REQUEST_N / 2 || !CanGrant(s) then s
    else if open then Granted(s)
    else Fail(s)
  }

  /** Takes one credit and hands the element to the subscriber. */
  function Consumed(s: Subscription, value: Bytes): Subscription
    requires s.wireRequested > 0
  {
    Signals(s.(requested := Spend(s.requested), wireRequested := s.wireRequested - 1), OnNext(value))
  }

  function AfterNext(s: Subscription, complete: bool, throws: bool, open: bool): Subscription
  {
    if throws then Signals(Cancelled(s, open), OnError)
    else if !Live(s) then s
    else if complete then Completed(s.(completing := false))
    else Replenished(s, open)
  }

  /** `calls` and `throws` say what the subscriber does inside `onNext`. */
  function PayloadHandled(s: Subscription, p: Payload, calls: seq<Call>, throws: bool, open: bool): Subscription
  {
    if !Live(s) then s
    else if p.follows || (!p.next && !p.complete) then FailAndCancel(s, open)
    else if !p.next then Completed(s.(completing := false))
    else if s.requested == Finite(0) || s.wireRequested == 0 then s.(completing := p.complete, reported := true)
    else AfterNext(Calls(Consumed(s.(completing := p.complete), p.value), calls, open), p.complete, throws, open)
  }

  /** The first fragment of a payload needs the credit the whole payload will take. */
  predicate FragmentAccepted(s: Subscription, next: bool, follows: bool, continuation: bool)
  {
    Live(s) && (continuation || (!next && !follows) || (s.requested != Finite(0) && s.wireRequested > 0))
  }

  function OutboundCompleted(s: Subscription): Subscription
  {
    s.(outboundTerminated := true, disposed := s.disposed || s.responseTerminated)
  }

  // Credit

  /** Credit carried by a list of frames. */
  function Credit(frames: seq<Sent>): (n: nat)
  {
    if frames == [] then 0
    else Credit(frames[..|frames| - 1]) + CreditOf(frames[|frames| - 1])
  }

  function CreditOf(frame: Sent): nat
  {
    if frame.Request? || frame.RequestN? then frame.n else 0
  }

  /** Elements delivered by a list of signals. */
  function Delivered(signals: seq<Signal>): (n: nat)
  {
    if signals == [] then 0
    else Delivered(signals[..|signals| - 1]) + if signals[|signals| - 1].OnNext? then 1 else 0
  }

  lemma CreditAppend(frames: seq<Sent>, frame: Sent)
    ensures Credit(frames + [frame]) == Credit(frames) + CreditOf(frame)
  {
    assert (frames + [frame])[..|frames|] == frames;
  }

  lemma DeliveredAppend(signals: seq<Signal>, signal: Signal)
    ensures Delivered(signals + [signal]) == Delivered(signals) + if signal.OnNext? then 1 else 0
  {
    assert (signals + [signal])[..|signals|] == signals;
  }

  lemma {:induction false} CreditGrows(frames: seq<Sent>, taken: nat)
    requires taken <= |frames|
    ensures Credit(frames[..taken]) <= Credit(frames)
    decreases |frames|
  {
    if taken == |frames| {
      assert frames[..taken] == frames;
    } else {
      var front := frames[..|frames| - 1];
      CreditGrows(front, taken);
      assert front[..taken] == frames[..taken];
    }
  }

  /** Every grant is a protocol REQUEST_N; the stream opens with its request and nothing follows CANCEL. */
  predicate WellFormed(frames: seq<Sent>)
  {
    && (forall i :: 0 <= i < |frames| ==> (frames[i].Request? <==> i == 0))
    && (forall i :: 0 <= i < |frames| && frames[i] in {Cancel, Error} ==> i == |frames| - 1)
    && (forall i :: 0 <= i < |frames| && (frames[i].Request? || frames[i].RequestN?)
                    ==> 0 < frames[i].n <= MAX_REQUEST_N)
  }

  /** What holds of a subscription before and after every one of its operations. */
  ghost predicate Consistent(s: Subscription)
  {
    && Exact(s.requested)
    && s.wireRequested <= Window(s.requested)
    && WellFormed(s.sent)
    && (s.sent != [] && s.sent[|s.sent| - 1] in {Cancel, Error} ==> s.cancelled)
    && (s.requestStarted <==> s.sent != [])
    && (!s.started ==> !s.requestStarted && s.requested == Finite(0) && s.initialRequestN == 0)
    && (s.started ==> 0 < s.initialRequestN <= MAX_REQUEST_N)
    && (!s.requestStarted ==> s.wireRequested == s.initialRequestN && Delivered(s.signals) == 0)
    && (s.requestStarted ==> Credit(s.sent) == s.wireRequested + Delivered(s.signals))
    && s.disposed == (s.cancelled || (s.responseTerminated && s.outboundTerminated))
    && (s.requested.Finite? ==> Delivered(s.signals) + s.requested.n <= s.asked)
  }

  /** Between operations, unfulfilled demand of a running stream always has credit at the responder. */
  predicate Fed(s: Subscription)
  {
    Live(s) && s.requestStarted && s.requested != Finite(0) ==> s.wireRequested > 0
  }

  /** From `s` to `t` no element was delivered and no protocol error was reported. */
  ghost predicate Quietly(s: Subscription, t: Subscription)
  {
    && s.sent <= t.sent
    && s.signals <= t.signals
    && t.reported == s.reported
    && Delivered(t.signals) == Delivered(s.signals)
    && (Live(t) ==> Live(s) && t.signals == s.signals)
    && t.channel == s.channel
    && (s.started ==> t.started)
    && (s.requestStarted ==> t.requestStarted)
  }

  /** Appending a frame to a stream that has begun and was not cancelled. */
  lemma SendsWellFormed(frames: seq<Sent>, frame: Sent)
    requires WellFormed(frames) && frames != [] && frames[|frames| - 1] !in {Cancel, Error}
    requires frame in {Cancel, Error} || (frame.RequestN? && 0 < frame.n <= MAX_REQUEST_N)
    ensures WellFormed(frames + [frame])
    ensures Credit(frames + [frame]) == Credit(frames) + CreditOf(frame)
  {
    CreditAppend(frames, frame);
  }

  lemma GrantedKeeps(s: Subscription)
    requires Consistent(s) && s.requestStarted && CanGrant(s)
    ensures Consistent(Granted(s)) && Quietly(s, Granted(s)) && Fed(Granted(s))
    ensures Live(s) ==> Live(Granted(s))
  {
    SendsWellFormed(s.sent, RequestN(Window(s.requested) - s.wireRequested));
  }

  lemma FailKeeps(s: Subscription)
    requires Consistent(s)
    ensures Consistent(Fail(s)) && Quietly(s, Fail(s)) && !Live(Fail(s))
  {
    DeliveredAppend(s.signals, OnError);
  }

  lemma FailAndCancelKeeps(s: Subscription, open: bool)
    requires Consistent(s) && Live(s)
    ensures var t := FailAndCancel(s, open); Consistent(t) && Quietly(s, t) && !Live(t)
  {
    DeliveredAppend(s.signals, OnError);
    if s.requestStarted && open {
      SendsWellFormed(s.sent, Cancel);
    }
  }

  /** The last frame of a stream that has just been cancelled. */
  lemma SendsLast(s: Subscription, frame: Sent)
    requires Consistent(s) && s.cancelled && s.requestStarted
    requires s.sent[|s.sent| - 1] !in {Cancel, Error} && frame in {Cancel, Error}
    ensures Consistent(Sends(s, frame)) && Quietly(s, Sends(s, frame))
  {
    SendsWellFormed(s.sent, frame);
  }

  lemma FailOutboundKeeps(s: Subscription, notifyPeer: bool, open: bool)
    requires Consistent(s)
    ensures var t := FailOutbound(s, notifyPeer, open); Consistent(t) && Quietly(s, t) && !Live(t)
  {
    if !s.cancelled {
      FailKeeps(s);
      var t := Fail(s).(outboundTerminated := true);
      assert Consistent(t) && Quietly(s, t) && t.sent == s.sent && t.requestStarted == s.requestStarted;
      if notifyPeer && s.requestStarted && open {
        assert s.sent[|s.sent| - 1] !in {Cancel, Error};
        hide Consistent, Fail;
        SendsLast(t, Error);
      }
    }
  }

  lemma CancelledKeeps(s: Subscription, open: bool)
    requires Consistent(s)
    ensures var t := Cancelled(s, open); Consistent(t) && Quietly(s, t) && !Live(t)
  {
    if !s.cancelled {
      var t := s.(cancelled := true, disposed := true);
      assert Consistent(t) && Quietly(s, t);
      if s.requestStarted && open {
        assert s.sent[|s.sent| - 1] !in {Cancel, Error};
        hide Consistent;
        SendsLast(t, Cancel);
      }
    }
  }

  /** Sending the initial request. */
  lemma RequestSent(s: Subscription)
    requires Consistent(s) && s.started && !s.requestStarted
    ensures var t := Sends(s.(requestStarted := true), Request(s.initialRequestN));
            Consistent(t) && Quietly(s, t)
  {
    CreditAppend([], Request(s.initialRequestN));
    assert [] + [Request(s.initialRequestN)] == [Request(s.initialRequestN)];
  }

  lemma QuietlyTwice(a: Subscription, b: Subscription, c: Subscription)
    requires Quietly(a, b) && Quietly(b, c)
    ensures Quietly(a, c)
  {}

  /** A stream that cannot be granted more has its whole window. */
  lemma FullWindowIsFed(s: Subscription)
    requires Consistent(s) && !CanGrant(s)
    ensures Fed(s)
  {}

  lemma OpenedKeeps(s: Subscription)
    requires Consistent(s) && Live(s) && s.started && !s.requestStarted
    ensures var t := Begun(s, true); Consistent(t) && Quietly(s, t) && Fed(t)
  {
    hide Consistent, Quietly, Fed, Live, CanGrant, Window;
    RequestSent(s);
    var t := Sends(s.(requestStarted := true), Request(s.initialRequestN));
    if CanGrant(t) {
      GrantedKeeps(t);
      QuietlyTwice(s, t, Granted(t));
    } else {
      FullWindowIsFed(t);
    }
  }

  lemma BegunKeeps(s: Subscription, open: bool)
    requires Consistent(s) && Live(s) && s.started && !s.requestStarted
    ensures var t := Begun(s, open); Consistent(t) && Quietly(s, t) && Fed(t)
  {
    hide Consistent, Quietly, Fail, FailOutbound, CanGrant;
    if open {
      OpenedKeeps(s);
    } else if s.channel {
      FailOutboundKeeps(s, false, open);
      DeadIsFed(FailOutbound(s, false, open));
    } else {
      FailKeeps(s);
      DeadIsFed(Fail(s));
    }
  }

  lemma StartedKeeps(s: Subscription, open: bool)
    requires Exact(s.requested) && Consistent(s.(requested := Finite(0))) && Live(s) && !s.started
    requires s.requested != Finite(0) && (s.requested.Finite? ==> s.requested.n <= s.asked)
    ensures var t := Started(s, open); Consistent(t) && Quietly(s, t) && Fed(t)
  {
    var t := s.(started := true, wireRequested := Window(s.requested), initialRequestN := Window(s.requested));
    assert Consistent(t);
    hide Consistent, Begun;
    if !s.channel {
      BegunKeeps(t, open);
    }
  }

  /** Demand is recorded exactly, and the window never shrinks under it. */
  lemma AddedKeeps(s: Subscription, d: Demand)
    requires Consistent(s) && s.started && Exact(d)
    ensures Consistent(s.(requested := AddReactiveDemand(s.requested, d), asked := s.asked + if d.Finite? then d.n
        else 0))
  {
    AdditionSaturates(s.requested, d);
  }

  /** The very first demand. */
  lemma FirstRequestKeeps(s: Subscription, d: Demand, open: bool)
    requires Consistent(s) && Live(s) && !s.started && Exact(d) && d != Finite(0)
    ensures var t := Started(s.(requested := AddReactiveDemand(s.requested, d),
                                asked := s.asked + if d.Finite? then d.n else 0), open);
            Consistent(t) && Quietly(s, t) && Fed(t)
  {
    var t := s.(requested := AddReactiveDemand(s.requested, d), asked := s.asked + if d.Finite? then d.n else 0);
    assert Consistent(t.(requested := Finite(0))) && t.requested == d;
    StartedKeeps(t, open);
  }

  /** Any later demand. */
  lemma MoreRequestKeeps(s: Subscription, open: bool)
    requires Consistent(s) && Live(s) && s.started
    ensures var t := if !s.requestStarted || !CanGrant(s) then s else if open then Granted(s) else FailAndCancel(s,
        open);
            Consistent(t) && Quietly(s, t) && Fed(t)
  {
    if s.requestStarted && CanGrant(s) {
      GrantedKeeps(s);
      FailAndCancelKeeps(s, open);
    }
  }

  lemma RequestedKeeps(s: Subscription, argument: Argument, open: bool)
    requires Consistent(s)
    ensures var t := Requested(s, argument, open);
            Consistent(t) && Quietly(s, t) && (!s.completing && Live(s) ==> Fed(t))
  {
    hide Consistent, Started, FailAndCancel, Granted, Fed, CanGrant, WellFormed;
    if Live(s) && !s.completing {
      match NormalizeReactiveDemand(argument)
      case None => FailAndCancelKeeps(s, open); DeadIsFed(FailAndCancel(s, open));
      case Some(d) =>
        if !s.started {
          FirstRequestKeeps(s, d, open);
        } else {
          AddedKeeps(s, d);
          MoreRequestKeeps(s.(requested := AddReactiveDemand(s.requested, d),
                              asked := s.asked + if d.Finite? then d.n else 0), open);
        }
    }
  }

  lemma DeadIsFed(s: Subscription)
    requires !Live(s)
    ensures Fed(s)
  {}

  lemma {:induction false} CallsKeep(s: Subscription, calls: seq<Call>, open: bool)
    requires Consistent(s)
    ensures Consistent(Calls(s, calls, open)) && Quietly(s, Calls(s, calls, open))
    decreases calls
  {
    hide Consistent, Requested, Cancelled;
    if calls != [] {
      match calls[0]
      case CallRequest(argument) =>
        RequestedKeeps(s, argument, open);
        CallsKeep(Requested(s, argument, open), calls[1..], open);
      case CallCancel =>
        CancelledKeeps(s, open);
        CallsKeep(Cancelled(s, open), calls[1..], open);
    }
  }

  lemma CompletedKeeps(s: Subscription)
    requires Consistent(s) && s.requestStarted
    ensures var t := Completed(s); Consistent(t) && Quietly(s, t) && !Live(t)
  {
    DeliveredAppend(s.signals, OnComplete);
  }

  lemma ReplenishedKeeps(s: Subscription, open: bool)
    requires Consistent(s) && s.requestStarted && Live(s)
    ensures var t := Replenished(s, open); Consistent(t) && Quietly(s, t) && Fed(t)
  {
    if s.wireRequested <= MAX_REQUEST_N / 2 && CanGrant(s) {
      GrantedKeeps(s);
      FailKeeps(s);
    }
  }

  lemma ConsumedKeeps(s: Subscription, value: Bytes)
    requires Consistent(s) && s.requestStarted && s.requested != Finite(0) && s.wireRequested > 0
    ensures Consistent(Consumed(s, value))
    ensures Delivered(Consumed(s, value).signals) == Delivered(s.signals) + 1
  {
    DeliveredAppend(s.signals, OnNext(value));
  }

  /** A subscriber that throws is cancelled and told so. */
  lemma ThrownKeeps(s: Subscription, open: bool)
    requires Consistent(s)
    ensures var t := Signals(Cancelled(s, open), OnError);
            Consistent(t) && !Live(t) && s.sent <= t.sent && t.reported == s.reported && (s.started ==> t.started)
  {
    CancelledKeeps(s, open);
    var c := Cancelled(s, open);
    hide Cancelled;
    DeliveredAppend(c.signals, OnError);
  }

  lemma AfterNextKeeps(s: Subscription, complete: bool, throws: bool, open: bool)
    requires Consistent(s) && s.requestStarted
    ensures var t := AfterNext(s, complete, throws, open);
            && Consistent(t) && Fed(t)
            && s.sent <= t.sent && t.reported == s.reported
            && (Live(t) ==> Live(s) && Delivered(t.signals) == Delivered(s.signals))
  {
    assert Consistent(s.(completing := false));
    hide Consistent, Cancelled, Completed, Replenished;
    if throws {
      ThrownKeeps(s, open);
    } else if Live(s) {
      if complete {
        CompletedKeeps(s.(completing := false));
      } else {
        ReplenishedKeeps(s, open);
      }
    }
  }

  /** After the credit was taken: what the subscriber calls, then completion or replenishment. */
  lemma ElementKeeps(s: Subscription, p: Payload, calls: seq<Call>, throws: bool, open: bool)
    requires Consistent(s) && s.requestStarted
    ensures var t := AfterNext(Calls(s, calls, open), p.complete, throws, open);
            && Consistent(t) && Fed(t) && s.sent <= t.sent && t.reported == s.reported
            && (Live(t) ==> Live(s) && Delivered(t.signals) == Delivered(s.signals) && !p.complete)
  {
    hide Consistent;
    CallsKeep(s, calls, open);
    var c := Calls(s, calls, open);
    hide Calls;
    AfterNextKeeps(c, p.complete, throws, open);
  }

  /** An element for which there is credit. */
  lemma CreditedKeeps(s: Subscription, p: Payload, calls: seq<Call>, throws: bool, open: bool)
    requires Consistent(s) && s.requestStarted && s.requested != Finite(0) && s.wireRequested > 0 && Live(s)
    ensures var t := AfterNext(Calls(Consumed(s.(completing := p.complete), p.value), calls, open), p.complete,
        throws, open);
            && Consistent(t) && Fed(t) && s.sent <= t.sent && t.reported == s.reported
            && (Live(t) ==> Delivered(t.signals) == Delivered(s.signals) + 1 && !p.complete)
  {
    var begun := s.(completing := p.complete);
    assert Consistent(begun);
    ConsumedKeeps(begun, p.value);
    var taken := Consumed(begun, p.value);
    assert taken.sent == s.sent && taken.reported == s.reported && taken.requestStarted;
    hide Consumed, Consistent, Calls, AfterNext, Fed;
    ElementKeeps(taken, p, calls, throws, open);
  }

  predicate WellFormedPayload(p: Payload)
  {
    !p.follows && (p.next || p.complete)
  }

  /** One payload, whatever the subscriber does inside `onNext`. */
  lemma PayloadKeeps(s: Subscription, p: Payload, calls: seq<Call>, throws: bool, open: bool)
    requires Consistent(s) && Fed(s) && s.requestStarted
    ensures var t := PayloadHandled(s, p, calls, throws, open);
            && Consistent(t) && Fed(t) && s.sent <= t.sent
            && (t.reported ==> s.reported || (p.next && s.wireRequested == 0))
            && (Live(t) ==> Live(s))
            && (Live(t) && !t.reported ==> Delivered(t.signals) == Delivered(s.signals) + if p.next then 1 else 0)
            && (Live(t) && !t.reported ==> !p.complete)
  {
    if Live(s) {
      if !WellFormedPayload(p) {
        hide Consistent, FailAndCancel;
        FailAndCancelKeeps(s, open);
      } else if !p.next {
        var begun := s.(completing := false);
        assert Consistent(begun);
        hide Consistent, Completed;
        CompletedKeeps(begun);
      } else if s.requested == Finite(0) || s.wireRequested == 0 {
        assert Consistent(s.(completing := p.complete, reported := true));
      } else {
        hide Consistent, Fed, AfterNext, Consumed, Calls;
        CreditedKeeps(s, p, calls, throws, open);
      }
    }
  }

  lemma OutboundCompletedKeeps(s: Subscription)
    requires Consistent(s)
    ensures Consistent(OutboundCompleted(s)) && Quietly(s, OutboundCompleted(s))
  {}

  // Elements delivered

  /** The elements among the signals, in the order they were delivered. */
  function Values(signals: seq<Signal>): (values: seq<Bytes>)
  {
    if signals == [] then []
    else
      var last := signals[|signals| - 1];
      Values(signals[..|signals| - 1]) + if last.OnNext? then [last.value] else []
  }

  lemma ValuesAppend(signals: seq<Signal>, signal: Signal)
    ensures Values(signals + [signal]) == Values(signals) + if signal.OnNext? then [signal.value] else []
  {
    assert (signals + [signal])[..|signals|] == signals;
  }

  lemma {:induction false} DeliveredGrows(signals: seq<Signal>, more: seq<Signal>)
    requires signals <= more
    ensures Delivered(signals) <= Delivered(more)
    decreases |more|
  {
    if |signals| < |more| {
      DeliveredGrows(signals, more[..|more| - 1]);
    } else {
      assert signals == more;
    }
  }

  /** Signals that deliver no element leave the elements as they were. */
  lemma {:induction false} ValuesStay(signals: seq<Signal>, more: seq<Signal>)
    requires signals <= more && Delivered(signals) == Delivered(more)
    ensures Values(signals) == Values(more)
    decreases |more|
  {
    if |signals| < |more| {
      DeliveredGrows(signals, more[..|more| - 1]);
      ValuesStay(signals, more[..|more| - 1]);
    } else {
      assert signals == more;
    }
  }

  lemma AfterNextValues(s: Subscription, complete: bool, throws: bool, open: bool)
    requires Consistent(s) && s.requestStarted
    ensures var t := AfterNext(s, complete, throws, open);
            Values(t.signals) == Values(s.signals) && s.signals <= t.signals
  {
    hide Consistent, Values, Cancelled, Replenished;
    if throws {
      CancelSignalsNothing(s, open);
      ValuesAppend(s.signals, OnError);
    } else if Live(s) {
      if complete {
        ValuesAppend(s.signals, OnComplete);
      } else {
        ReplenishedKeeps(s, open);
        ValuesStay(s.signals, Replenished(s, open).signals);
      }
    }
  }

  lemma CallsValues(s: Subscription, calls: seq<Call>, open: bool)
    requires Consistent(s)
    ensures var t := Calls(s, calls, open);
            Values(t.signals) == Values(s.signals) && s.signals <= t.signals
  {
    CallsKeep(s, calls, open);
    hide Consistent, Calls, Values;
    ValuesStay(s.signals, Calls(s, calls, open).signals);
  }

  /** A payload delivers its own element and no other, and only to a live stream with credit. */
  lemma PayloadValues(s: Subscription, p: Payload, calls: seq<Call>, throws: bool, open: bool)
    requires Consistent(s) && s.requestStarted
    ensures Values(PayloadHandled(s, p, calls, throws, open).signals)
            == Values(s.signals)
               + if Live(s) && !p.follows && p.next && s.wireRequested > 0 then [p.value] else []
  {
    if Live(s) {
      if !WellFormedPayload(p) {
        FailAndCancelKeeps(s, open);
        hide Consistent, FailAndCancel, Values;
        ValuesStay(s.signals, FailAndCancel(s, open).signals);
      } else if !p.next {
        ValuesAppend(s.signals, OnComplete);
      } else if s.wireRequested > 0 {
        TakenValues(s, p, calls, throws, open);
        hide Calls, AfterNext, Consumed, Values;
        assert s.requested != Finite(0);
      }
    }
  }

  lemma TakenValues(s: Subscription, p: Payload, calls: seq<Call>, throws: bool, open: bool)
    requires Consistent(s) && s.requestStarted && s.wireRequested > 0
    ensures var taken := Consumed(s.(completing := p.complete), p.value);
            var t := AfterNext(Calls(taken, calls, open), p.complete, throws, open);
            && Values(t.signals) == Values(s.signals) + [p.value]
            && s.signals + [OnNext(p.value)] <= t.signals
  {
    var begun := s.(completing := p.complete);
    assert Consistent(begun) && s.requested != Finite(0);
    ConsumedKeeps(begun, p.value);
    var taken := Consumed(begun, p.value);
    ValuesAppend(s.signals, OnNext(p.value));
    hide Consistent, Calls, AfterNext, Values;
    CallsKeep(taken, calls, open);
    CallsValues(taken, calls, open);
    AfterNextValues(Calls(taken, calls, open), p.complete, throws, open);
  }

  // Terminal signals

  function Terminals(signals: seq<Signal>): nat
  {
    if signals == [] then 0
    else Terminals(signals[..|signals| - 1]) + if signals[|signals| - 1].OnNext? then 0 else 1
  }

  lemma TerminalsAppend(signals: seq<Signal>, signal: Signal)
    ensures Terminals(signals + [signal]) == Terminals(signals) + if signal.OnNext? then 0 else 1
  {
    assert (signals + [signal])[..|signals|] == signals;
  }

  /** A request that fails the stream: an invalid amount, or a grant a closed session cannot carry. */
  predicate FailsNow(s: Subscription, argument: Argument, open: bool)
  {
    && Live(s) && !s.completing
    && match NormalizeReactiveDemand(argument)
       case None => true
       case Some(d) => !open && CanGrant(s.(requested := AddReactiveDemand(s.requested, d)))
  }

  lemma RequestTerminates(s: Subscription, argument: Argument, open: bool)
    requires Consistent(s) && s.requestStarted
    ensures Terminals(Requested(s, argument, open).signals)
            == Terminals(s.signals) + if FailsNow(s, argument, open) then 1 else 0
  {
    hide Terminals, WellFormed, Credit, Delivered;
    TerminalsAppend(s.signals, OnError);
  }

  /** The subscriber makes such a request inside `onNext`. */
  predicate FailsInside(s: Subscription, calls: seq<Call>, open: bool)
    decreases calls
  {
    calls != [] && match calls[0]
    case CallCancel => FailsInside(Cancelled(s, open), calls[1..], open)
    case CallRequest(argument) =>
      FailsNow(s, argument, open) || FailsInside(Requested(s, argument, open), calls[1..], open)
  }

  lemma {:induction false} DeadCallsAreQuiet(s: Subscription, calls: seq<Call>, open: bool)
    requires Consistent(s) && !Live(s)
    ensures !FailsInside(s, calls, open)
    ensures Calls(s, calls, open).signals == s.signals
    decreases calls
  {
    if calls != [] {
      match calls[0]
      case CallRequest(argument) =>
        DeadCallsAreQuiet(s, calls[1..], open);
      case CallCancel =>
        CancelledKeeps(s, open);
        var t := Cancelled(s, open);
        assert t.signals == s.signals;
        hide Consistent, Cancelled;
        DeadCallsAreQuiet(t, calls[1..], open);
    }
  }

  lemma {:induction false} CallsTerminate(s: Subscription, calls: seq<Call>, open: bool)
    requires Consistent(s) && s.requestStarted
    ensures Terminals(Calls(s, calls, open).signals)
            == Terminals(s.signals) + if FailsInside(s, calls, open) then 1 else 0
    decreases calls
  {
    if calls != [] {
      match calls[0]
      case CallRequest(argument) =>
        RequestTerminates(s, argument, open);
        RequestedKeeps(s, argument, open);
        var t := Requested(s, argument, open);
        if FailsNow(s, argument, open) {
          FailedRequestIsDead(s, argument, open);
          DeadCallsAreQuiet(t, calls[1..], open);
        } else {
          hide Consistent, Requested, FailsNow;
          CallsTerminate(t, calls[1..], open);
        }
      case CallCancel =>
        CancelledKeeps(s, open);
        hide Consistent;
        CallsTerminate(Cancelled(s, open), calls[1..], open);
    }
  }

  lemma FailedRequestIsDead(s: Subscription, argument: Argument, open: bool)
    requires Consistent(s) && s.requestStarted && FailsNow(s, argument, open)
    ensures !Live(Requested(s, argument, open))
  {}

  /**
    One element may bring at most one terminal signal, except for a subscriber that throws from
    `onNext` after a request of its own failed the stream there: it is told of an error twice.
   */
  lemma TerminatesOnceUnless(s: Subscription, p: Payload, calls: seq<Call>, throws: bool, open: bool)
    requires Consistent(s) && s.requestStarted && Live(s) && Terminals(s.signals) == 0
    requires p.next && !p.follows && s.wireRequested > 0
    ensures var t := PayloadHandled(s, p, calls, throws, open);
            var inside := FailsInside(Consumed(s.(completing := p.complete), p.value), calls, open);
            Terminals(t.signals) <= 1 <==> !(throws && inside)
  {
    var begun := s.(completing := p.complete);
    assert Consistent(begun);
    ConsumedKeeps(begun, p.value);
    TerminalsAppend(s.signals, OnNext(p.value));
    var taken := Consumed(begun, p.value);
    CallsKeep(taken, calls, open);
    CallsTerminate(taken, calls, open);
    var c := Calls(taken, calls, open);
    hide Consistent, Calls, FailsInside, Consumed;
    AfterNextTerminates(c, p.complete, throws, open);
    if FailsInside(taken, calls, open) {
      FailedInsideIsDead(taken, calls, open);
    }
  }

  lemma {:induction false} FailedInsideIsDead(s: Subscription, calls: seq<Call>, open: bool)
    requires Consistent(s) && s.requestStarted && FailsInside(s, calls, open)
    ensures !Live(Calls(s, calls, open))
    decreases calls
  {
    match calls[0]
    case CallRequest(argument) =>
      RequestedKeeps(s, argument, open);
      var t := Requested(s, argument, open);
      if FailsNow(s, argument, open) {
        FailedRequestIsDead(s, argument, open);
      }
      hide Consistent, Requested, FailsNow;
      CallsKeep(t, calls[1..], open);
      if Live(t) {
        FailedInsideIsDead(t, calls[1..], open);
      }
    case CallCancel =>
      CancelledKeeps(s, open);
      hide Consistent;
      CallsKeep(Cancelled(s, open), calls[1..], open);
  }

  lemma CompletedTerminates(s: Subscription)
    ensures Terminals(Completed(s).signals) <= Terminals(s.signals) + 1
  {
    TerminalsAppend(s.signals, OnComplete);
  }

  lemma ReplenishedTerminates(s: Subscription, open: bool)
    ensures Terminals(Replenished(s, open).signals) <= Terminals(s.signals) + 1
  {
    TerminalsAppend(s.signals, OnError);
  }

  lemma AfterNextTerminates(s: Subscription, complete: bool, throws: bool, open: bool)
    ensures var t := AfterNext(s, complete, throws, open);
            && (throws ==> Terminals(t.signals) == Terminals(s.signals) + 1)
            && (!throws && !Live(s) ==> t.signals == s.signals)
            && (!throws ==> Terminals(t.signals) <= Terminals(s.signals) + 1)
  {
    hide Terminals, Replenished, Completed, Cancelled, CanGrant;
    if throws {
      CancelSignalsNothing(s, open);
      TerminalsAppend(s.signals, OnError);
    } else if Live(s) {
      CompletedTerminates(s.(completing := false));
      ReplenishedTerminates(s, open);
    }
  }

  lemma CancelSignalsNothing(s: Subscription, open: bool)
    ensures Cancelled(s, open).signals == s.signals
  {}

  /** A stream that asked for one element, and the same stream when it has just received it. */
  const ASKED := Initial(false).(started := true, requestStarted := true, requested := Finite(1), wireRequested := 1,
                                 initialRequestN := 1, asked := 1, sent := [Request(1)])
  const RECEIVED := ASKED.(requested := Finite(0), wireRequested := 0, signals := [OnNext([])])

  /** What a negative request inside `onNext` leaves of it. */
  const FAILED := RECEIVED.(cancelled := true, disposed := true, sent := [Request(1), Cancel],
                            signals := [OnNext([]), OnError])

  lemma AsksForOne()
    ensures Requested(Initial(false), Integer(1), true) == ASKED
  {
    hide Granted, FailAndCancel, FailOutbound, Fail;
    var t := Initial(false).(requested := Finite(1), asked := 1);
    assert Started(t, true) == ASKED by {
      assert [] + [Request(1)] == [Request(1)];
    }
    hide Started;
    assert NormalizeReactiveDemand(Integer(1)) == Some(Finite(1));
  }

  lemma ReceivesOne()
    ensures Live(ASKED) && !ASKED.completing && Consumed(ASKED, []) == RECEIVED
  {
    assert [] + [OnNext([])] == [OnNext([])];
  }

  lemma NegativeRequestFails()
    ensures Requested(RECEIVED, Integer(-1), true) == FAILED
  {
    assert [Request(1)] + [Cancel] == [Request(1), Cancel];
    assert [OnNext([])] + [OnError] == [OnNext([]), OnError];
  }

  lemma OneCall(s: Subscription, argument: Argument, open: bool)
    ensures Calls(s, [CallRequest(argument)], open) == Requested(s, argument, open)
  {
    hide Requested;
    assert [CallRequest(argument)][1..] == [];
  }

  lemma ThrowsAfterFailing()
    ensures AfterNext(FAILED, false, true, true).signals == [OnNext([]), OnError, OnError]
  {
    assert [OnNext([]), OnError] + [OnError] == [OnNext([]), OnError, OnError];
  }

  /** A subscriber that requests a negative amount and then throws. */
  lemma ToldTwice()
    ensures var s := Requested(Initial(false), Integer(1), true);
            var p := Payload(true, false, false, []);
            Live(s) && PayloadHandled(s, p, [CallRequest(Integer(-1))], true, true).signals == [OnNext([]), OnError,
                OnError]
  {
    AsksForOne();
    ReceivesOne();
    assert PayloadHandled(ASKED, Payload(true, false, false, []), [CallRequest(Integer(-1))], true, true)
           == AfterNext(Calls(RECEIVED, [CallRequest(Integer(-1))], true), false, true, true) by {
      hide Requested, Consumed, Calls, AfterNext, RECEIVED, FAILED;
      assert ASKED.(completing := false) == ASKED;
    }
    hide Requested, Consumed, Calls, AfterNext, RECEIVED, FAILED, ASKED, PayloadHandled;
    OneCall(RECEIVED, Integer(-1), true);
    NegativeRequestFails();
    ThrowsAfterFailing();
  }
}
