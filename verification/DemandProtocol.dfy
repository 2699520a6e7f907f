/** Flow control between one requester subscription and a responder that obeys its credit. */
module DemandProtocol {
  import opened Common
  import opened Demand

  datatype Reply = PayloadReply(payload: Payload, fragmented: bool) | ErrorReply

  /**
    Both ends of one stream. Frames and replies travel in order: the responder has taken the first
    `taken` frames the requester sent, and the requester has handled the first `handled` replies.
    `begun` records that the first fragment of the next reply has arrived.
   */
  datatype Stream = Stream(sub: Subscription, taken: nat, ended: bool, replies: seq<Reply>, handled: nat, begun: bool)

  datatype Event =
    | AsksFor(argument: Argument, open: bool)
    | Cancels(open: bool)
    | FirstItemReady(open: bool)
    | OutboundEnds
    | OutboundFails(open: bool)
    | ResponderTakes
    | ResponderSends(reply: Reply)
    | FirstFragmentArrives
    | RequesterHandles(calls: seq<Call>, throws: bool, open: bool)

  function Elements(replies: seq<Reply>): (n: nat)
  {
    if replies == [] then 0
    else Elements(replies[..|replies| - 1]) + ElementsIn(replies[|replies| - 1])
  }

  function ElementsIn(reply: Reply): nat
  {
    if reply.PayloadReply? && reply.payload.next then 1 else 0
  }

  predicate Terminal(reply: Reply)
  {
    reply.PayloadReply? ==> reply.payload.complete
  }

  predicate Fragmented(reply: Reply)
  {
    reply.PayloadReply? && reply.fragmented
  }

  /** A responder that knows the request sends well-formed payloads, each element against one credit. */
  predicate Obeys(s: Stream, reply: Reply)
  {
    && 0 < s.taken <= |s.sub.sent| && !s.ended
    && (reply.PayloadReply? ==> WellFormedPayload(reply.payload))
    && Elements(s.replies) + ElementsIn(reply) <= Credit(s.sub.sent[..s.taken])
  }

  /** A payload in one frame, or the last fragment of a longer one: its credit is looked at before it is handled. */
  function Handled(sub: Subscription, reply: Reply, calls: seq<Call>, throws: bool, open: bool): Subscription
  {
    match reply
    case PayloadReply(p, fragmented) =>
      if Live(sub) && !FragmentAccepted(sub, p.next, false, fragmented) then sub.(reported := true)
      else PayloadHandled(sub, p, calls, throws, open)
    case ErrorReply => Fail(sub)
  }

  predicate Pending(s: Stream)
  {
    s.handled < |s.replies| && s.sub.requestStarted
  }

  /** The first of several fragments carries FOLLOWS, and NEXT if the payload has it, but never COMPLETE. */
  function Arrived(s: Stream): Stream
    requires Pending(s) && Fragmented(s.replies[s.handled])
  {
    if Live(s.sub) && !FragmentAccepted(s.sub, s.replies[s.handled].payload.next, true, false)
    then s.(sub := s.sub.(reported := true))
    else s.(begun := true)
  }

  /** What the requester's own side may do; each case is one uninterrupted piece of the code. */
  function RequesterStep(sub: Subscription, e: Event): Subscription
  {
    match e
    case AsksFor(argument, open) => Requested(sub, argument, open)
    case Cancels(open) => Cancelled(sub, open)
    case FirstItemReady(open) =>
      if sub.channel && Live(sub) && sub.started && !sub.requestStarted then Begun(sub, open) else sub
    case OutboundEnds => if sub.channel && !sub.cancelled && sub.requestStarted then OutboundCompleted(sub) else sub
    case OutboundFails(open) => if sub.channel && sub.started then FailOutbound(sub, sub.requestStarted, open) else sub
    case _ => sub
  }

  /** Reporting undemanded payload ends the connection, and with it the run. */
  function Step(s: Stream, e: Event): Stream
  {
    if s.sub.reported then s
    else match e
      case ResponderTakes =>
        if s.taken < |s.sub.sent|
        then s.(taken := s.taken + 1, ended := s.ended || s.sub.sent[s.taken] in {Cancel, Error})
        else s
      case ResponderSends(reply) =>
        if Obeys(s, reply) then s.(replies := s.replies + [reply], ended := Terminal(reply)) else s
      case FirstFragmentArrives =>
        if Pending(s) && Fragmented(s.replies[s.handled]) && !s.begun then Arrived(s) else s
      case RequesterHandles(calls, throws, open) =>
        if Pending(s) && (Fragmented(s.replies[s.handled]) ==> s.begun)
        then s.(sub := Handled(s.sub, s.replies[s.handled], calls, throws, open), handled := s.handled + 1,
                begun := false)
        else s
      case _ => s.(sub := RequesterStep(s.sub, e))
  }

  /** The requester has seen every element it was sent so far, as long as it still listens. */
  ghost predicate Counted(s: Stream)
    requires s.handled <= |s.replies|
  {
    Live(s.sub) ==> Delivered(s.sub.signals) == Elements(s.replies[..s.handled])
  }

  ghost predicate RepliesFit(s: Stream)
  {
    && (forall i :: 0 <= i < |s.replies| && s.replies[i].PayloadReply? ==> WellFormedPayload(s.replies[i].payload))
    && (forall i :: 0 <= i < |s.replies| && Terminal(s.replies[i]) ==> i == |s.replies| - 1)
    && (s.ended && Live(s.sub) ==> s.handled < |s.replies| && Terminal(s.replies[|s.replies| - 1]))
    && (!s.ended && s.replies != [] ==> !Terminal(s.replies[|s.replies| - 1]))
  }

  ghost predicate Inv(s: Stream)
  {
    && Consistent(s.sub) && Fed(s.sub)
    && s.taken <= |s.sub.sent| && s.handled <= |s.replies|
    && Elements(s.replies) <= Credit(s.sub.sent[..s.taken])
    && (s.replies != [] ==> s.sub.requestStarted)
    && RepliesFit(s)
    && Counted(s)
    && (s.sub.reported ==> Overruns(s))
  }

  /** A live stream without credit, and next in line a fragmented payload that only completes it. */
  predicate Overruns(s: Stream)
  {
    && Live(s.sub) && s.sub.wireRequested == 0 && !s.begun
    && Pending(s) && Fragmented(s.replies[s.handled]) && !s.replies[s.handled].payload.next
  }

  // Counting

  lemma ElementsAppend(replies: seq<Reply>, reply: Reply)
    ensures Elements(replies + [reply]) == Elements(replies) + ElementsIn(reply)
  {
    assert (replies + [reply])[..|replies|] == replies;
  }

  lemma {:induction false} ElementsGrow(replies: seq<Reply>, k: nat)
    requires k <= |replies|
    ensures Elements(replies[..k]) <= Elements(replies)
    decreases |replies|
  {
    if k == |replies| {
      assert replies[..k] == replies;
    } else {
      var front := replies[..|replies| - 1];
      ElementsGrow(front, k);
      assert front[..k] == replies[..k];
    }
  }

  /** The next element in line is covered by a credit the requester still counts as unspent. */
  lemma NextIsCredited(s: Stream)
    requires Inv(s) && Live(s.sub) && s.handled < |s.replies|
    ensures s.sub.requestStarted
    ensures ElementsIn(s.replies[s.handled]) <= s.sub.wireRequested
  {
    CreditGrows(s.sub.sent, s.taken);
    ElementsGrow(s.replies, s.handled + 1);
    assert s.replies[..s.handled + 1] == s.replies[..s.handled] + [s.replies[s.handled]];
    ElementsAppend(s.replies[..s.handled], s.replies[s.handled]);
  }

  /** The requester's side changed on its own, without handling a reply. */
  lemma QuietKeeps(s: Stream, sub: Subscription)
    requires Inv(s) && !s.sub.reported && Consistent(sub) && Fed(sub) && Quietly(s.sub, sub)
    ensures Inv(s.(sub := sub))
  {
    assert sub.sent[..s.taken] == s.sub.sent[..s.taken];
  }

  lemma RequesterStepKeeps(sub: Subscription, e: Event)
    requires Consistent(sub) && Fed(sub)
    ensures Consistent(RequesterStep(sub, e)) && Fed(RequesterStep(sub, e)) && Quietly(sub, RequesterStep(sub, e))
  {
    hide Requested, Cancelled, Begun, FailOutbound, Consistent, Fed, Quietly;
    QuietlyRefl(sub);
    match e
    case AsksFor(argument, open) =>
      RequestedKeeps(sub, argument, open);
      RequestedFed(sub, argument, open);
    case Cancels(open) =>
      CancelledKeeps(sub, open);
      DeadIsFed(Cancelled(sub, open));
    case FirstItemReady(open) =>
      if sub.channel && Live(sub) && sub.started && !sub.requestStarted {
        BegunKeeps(sub, open);
      }
    case OutboundEnds =>
      OutboundCompletedKeeps(sub);
      assert Fed(OutboundCompleted(sub)) by { FedSurvives(sub); }
    case OutboundFails(open) =>
      FailOutboundKeeps(sub, sub.requestStarted, open);
      DeadIsFed(FailOutbound(sub, sub.requestStarted, open));
    case _ =>
  }

  lemma QuietlyRefl(sub: Subscription)
    ensures Quietly(sub, sub)
  {}

  lemma FedSurvives(sub: Subscription)
    requires Fed(sub)
    ensures Fed(OutboundCompleted(sub))
  {}

  lemma RequestedFed(sub: Subscription, argument: Argument, open: bool)
    requires Consistent(sub) && Fed(sub)
    ensures Fed(Requested(sub, argument, open))
  {
    RequestedKeeps(sub, argument, open);
    hide Consistent;
  }

  lemma TakesKeeps(s: Stream)
    requires Inv(s) && !s.sub.reported && s.taken < |s.sub.sent|
    ensures Inv(Step(s, ResponderTakes))
  {
    var frame := s.sub.sent[s.taken];
    assert s.sub.sent[..s.taken + 1] == s.sub.sent[..s.taken] + [frame];
    CreditAppend(s.sub.sent[..s.taken], frame);
    assert frame in {Cancel, Error} ==> s.sub.cancelled;
  }

  lemma SendsKeeps(s: Stream, reply: Reply)
    requires Inv(s) && !s.sub.reported && Obeys(s, reply)
    ensures Inv(Step(s, ResponderSends(reply)))
  {
    ElementsAppend(s.replies, reply);
    assert (s.replies + [reply])[..s.handled] == s.replies[..s.handled];
  }

  /** One reply of a responder that obeys its credit never finds the requester without demand. */
  lemma HandledKeeps(sub: Subscription, reply: Reply, calls: seq<Call>, throws: bool, open: bool)
    requires Consistent(sub) && Fed(sub) && sub.requestStarted && !sub.reported
    requires Live(sub) ==> ElementsIn(reply) <= sub.wireRequested
    ensures var t := Handled(sub, reply, calls, throws, open);
            && Consistent(t) && Fed(t) && !t.reported && sub.sent <= t.sent && t.requestStarted
            && (Live(t) ==> Live(sub) && !Terminal(reply)
                            && Delivered(t.signals) == Delivered(sub.signals) + ElementsIn(reply))
  {
    if Live(sub) {
      match reply
      case PayloadReply(p, _) =>
        PayloadKeeps(sub, p, calls, throws, open);
        StartedStays(sub, PayloadHandled(sub, p, calls, throws, open));
      case ErrorReply =>
        FailKeeps(sub);
    }
  }

  lemma StartedStays(sub: Subscription, t: Subscription)
    requires Consistent(sub) && Consistent(t) && sub.requestStarted && sub.sent <= t.sent
    ensures t.requestStarted
  {}

  /** One reply handled, whatever the requester became. */
  lemma ReplyKeeps(s: Stream, t: Subscription)
    requires Inv(s) && Pending(s)
    requires Consistent(t) && Fed(t) && !t.reported && s.sub.sent <= t.sent && t.requestStarted
    requires var reply := s.replies[s.handled];
             Live(t) ==> Live(s.sub) && !Terminal(reply)
                         && Delivered(t.signals) == Delivered(s.sub.signals) + ElementsIn(reply)
    ensures Inv(s.(sub := t, handled := s.handled + 1, begun := false))
  {
    hide Consistent, Fed, Terminal, WellFormedPayload, Credit, Delivered, Elements;
    var reply := s.replies[s.handled];
    assert s.replies[..s.handled + 1] == s.replies[..s.handled] + [reply];
    ElementsAppend(s.replies[..s.handled], reply);
    assert t.sent[..s.taken] == s.sub.sent[..s.taken];
  }

  lemma HandlesKeeps(s: Stream, calls: seq<Call>, throws: bool, open: bool)
    requires Inv(s) && !s.sub.reported && Pending(s) && (Fragmented(s.replies[s.handled]) ==> s.begun)
    ensures Inv(Step(s, RequesterHandles(calls, throws, open)))
    ensures !Step(s, RequesterHandles(calls, throws, open)).sub.reported
  {
    var reply := s.replies[s.handled];
    var t := Handled(s.sub, reply, calls, throws, open);
    assert Step(s, RequesterHandles(calls, throws, open)) == s.(sub := t, handled := s.handled + 1, begun := false) by {
      hide Handled;
    }
    PendingIsHandled(s, calls, throws, open);
    hide Handled, Consistent, Fed, Terminal, Inv, Step;
    ReplyKeeps(s, t);
  }

  lemma PendingIsHandled(s: Stream, calls: seq<Call>, throws: bool, open: bool)
    requires Inv(s) && !s.sub.reported && Pending(s)
    ensures var reply := s.replies[s.handled];
            var t := Handled(s.sub, reply, calls, throws, open);
            && Consistent(t) && Fed(t) && !t.reported && s.sub.sent <= t.sent && t.requestStarted
            && (Live(t) ==> Live(s.sub) && !Terminal(reply)
                            && Delivered(t.signals) == Delivered(s.sub.signals) + ElementsIn(reply))
  {
    if Live(s.sub) {
      NextIsCredited(s);
    }
    hide Handled, Elements, Credit, Delivered, WellFormed;
    HandledKeeps(s.sub, s.replies[s.handled], calls, throws, open);
  }

  lemma StepKeeps(s: Stream, e: Event)
    requires Inv(s)
    ensures Inv(Step(s, e))
  {
    hide Inv, RequesterStep, Fragmented;
    if !s.sub.reported {
      match e
      case ResponderTakes =>
        if s.taken < |s.sub.sent| { TakesKeeps(s); }
      case ResponderSends(reply) =>
        if Obeys(s, reply) { SendsKeeps(s, reply); }
      case FirstFragmentArrives =>
        if Pending(s) && Fragmented(s.replies[s.handled]) && !s.begun { ArrivedKeeps(s); }
      case RequesterHandles(calls, throws, open) =>
        if Pending(s) && (Fragmented(s.replies[s.handled]) ==> s.begun) { HandlesKeeps(s, calls, throws, open); }
      case _ =>
        OwnStepKeeps(s, e);
    }
  }

  /** A first fragment is refused exactly when the payload only completes the stream and no credit is left. */
  lemma ArrivedKeeps(s: Stream)
    requires Inv(s) && !s.sub.reported && Pending(s) && Fragmented(s.replies[s.handled]) && !s.begun
    ensures Inv(Arrived(s))
    ensures Arrived(s).sub.reported <==> Overruns(s)
  {
    if Live(s.sub) {
      NextIsCredited(s);
    }
    hide Elements, Credit, Delivered, WellFormed;
  }

  lemma OwnStepKeeps(s: Stream, e: Event)
    requires Inv(s) && !s.sub.reported
    ensures Inv(s.(sub := RequesterStep(s.sub, e)))
  {
    RequesterStepKeeps(s.sub, e);
    hide RequesterStep;
    QuietKeeps(s, RequesterStep(s.sub, e));
  }

  function Run(s: Stream, events: seq<Event>): Stream
    decreases events
  {
    if events == [] then s else Run(Step(s, events[0]), events[1..])
  }

  lemma {:induction false} RunKeeps(s: Stream, events: seq<Event>)
    requires Inv(s)
    ensures Inv(Run(s, events))
    decreases events
  {
    hide Inv, Step;
    if events != [] {
      StepKeeps(s, events[0]);
      RunKeeps(Step(s, events[0]), events[1..]);
    }
  }

  function Opening(channel: bool): Stream
  {
    Stream(Initial(channel), 0, false, [], 0, false)
  }

  lemma OpeningInv(channel: bool)
    ensures Inv(Opening(channel))
  {}

  // Main results

  lemma {:induction false} CreditConcat(a: seq<Sent>, b: seq<Sent>)
    ensures Credit(a + b) == Credit(a) + Credit(b)
    decreases |b|
  {
    if b == [] {
      assert a + b == a;
    } else {
      assert (a + b)[..|a + b| - 1] == a + b[..|b| - 1];
      CreditConcat(a, b[..|b| - 1]);
    }
  }

  lemma {:induction false} ElementsConcat(a: seq<Reply>, b: seq<Reply>)
    ensures Elements(a + b) == Elements(a) + Elements(b)
    decreases |b|
  {
    if b == [] {
      assert a + b == a;
    } else {
      assert (a + b)[..|a + b| - 1] == a + b[..|b| - 1];
      ElementsConcat(a, b[..|b| - 1]);
    }
  }

  /**
    Over every run: while the requester listens, the responder's unspent credit, the credit still
    travelling to it and the elements still travelling back always add up to `wireRequested`,
    which never exceeds the subscriber's demand nor the protocol maximum.
   */
  lemma CreditIsConserved(channel: bool, events: seq<Event>)
    ensures var s := Run(Opening(channel), events);
            && s.taken <= |s.sub.sent| && s.handled <= |s.replies|
            && Elements(s.replies) <= Credit(s.sub.sent[..s.taken])
            && s.sub.wireRequested <= Window(s.sub.requested)
            && (Live(s.sub) && s.sub.requestStarted ==>
                  s.sub.wireRequested == (Credit(s.sub.sent[..s.taken]) - Elements(s.replies))
                                         + Credit(s.sub.sent[s.taken..]) + Elements(s.replies[s.handled..]))
  {
    OpeningInv(channel);
    RunKeeps(Opening(channel), events);
    var s := Run(Opening(channel), events);
    hide Run, Opening;
    TakeThenDrop(s.sub.sent, s.taken);
    CreditConcat(s.sub.sent[..s.taken], s.sub.sent[s.taken..]);
    TakeThenDrop(s.replies, s.handled);
    ElementsConcat(s.replies[..s.handled], s.replies[s.handled..]);
  }

  /**
    When the requester reports undemanded payload although the responder obeys its credit: exactly
    when the first fragment of a payload that only completes the stream arrives while no credit is
    left. No other reply, fragmented or not, is ever reported.
   */
  lemma ReportedExactly(channel: bool, events: seq<Event>, e: Event)
    ensures var s := Run(Opening(channel), events);
            && (s.sub.reported ==> Overruns(s))
            && (!s.sub.reported ==> (Step(s, e).sub.reported <==> e.FirstFragmentArrives? && Overruns(s)))
  {
    OpeningInv(channel);
    RunKeeps(Opening(channel), events);
    var s := Run(Opening(channel), events);
    hide Run, Opening;
    if !s.sub.reported {
      match e
      case FirstFragmentArrives =>
        if Pending(s) && Fragmented(s.replies[s.handled]) && !s.begun { ArrivedKeeps(s); }
      case RequesterHandles(calls, throws, open) =>
        if Pending(s) && (Fragmented(s.replies[s.handled]) ==> s.begun) { HandlesKeeps(s, calls, throws, open); }
      case _ =>
        RequesterStepKeeps(s.sub, e);
    }
  }

  /** So a responder that never splits a payload without NEXT is never reported. */
  lemma NeverOverrun(channel: bool, events: seq<Event>)
    ensures var s := Run(Opening(channel), events);
            (forall reply :: reply in s.replies && Fragmented(reply) ==> reply.payload.next) ==> !s.sub.reported
  {
    ReportedExactly(channel, events, ResponderTakes);
  }

  const ITEM := PayloadReply(Payload(true, false, false, []), false)
  const LONG_END := PayloadReply(Payload(false, true, false, []), true)

  lemma ServedOne()
    ensures Handled(ASKED, ITEM, [], false, true) == RECEIVED
  {
    ReceivesOne();
    hide Consumed;
    assert Calls(RECEIVED, [], true) == RECEIVED;
    assert Replenished(RECEIVED, true) == RECEIVED;
  }

  lemma ServesOne()
    ensures Run(Opening(false), [AsksFor(Integer(1), true), ResponderTakes, ResponderSends(ITEM),
                                 RequesterHandles([], false, true)])
            == Stream(RECEIVED, 1, false, [ITEM], 1, false)
  {
    AsksForOne();
    ServedOne();
    hide Handled, Requested, ASKED, RECEIVED;
    var a := Step(Opening(false), AsksFor(Integer(1), true));
    assert a == Stream(ASKED, 0, false, [], 0, false);
    assert ASKED.sent == [Request(1)] && !ASKED.reported && ASKED.requestStarted by { AskedIs(); }
    var b := Step(a, ResponderTakes);
    assert b == a.(taken := 1);
    assert ASKED.sent[..1] == [Request(1)] && Credit([Request(1)]) == 1 by { CreditAppend([], Request(1)); }
    var c := Step(b, ResponderSends(ITEM));
    assert c == b.(replies := [ITEM]);
    assert Step(c, RequesterHandles([], false, true)) == Stream(RECEIVED, 1, false, [ITEM], 1, false);
    Unfold(Opening(false), AsksFor(Integer(1), true), ResponderTakes, ResponderSends(ITEM),
           RequesterHandles([], false, true));
  }

  lemma AskedIs()
    ensures ASKED.sent == [Request(1)] && !ASKED.reported && ASKED.requestStarted
  {}

  lemma Unfold(s: Stream, a: Event, b: Event, c: Event, d: Event)
    ensures Run(s, [a, b, c, d]) == Step(Step(Step(Step(s, a), b), c), d)
  {
    hide Step;
    assert [a, b, c, d][1..] == [b, c, d] && [b, c, d][1..] == [c, d] && [c, d][1..] == [d];
    assert Run(Step(Step(s, a), b), [c, d]) == Step(Step(Step(Step(s, a), b), c), d) by {
      assert Run(Step(Step(Step(s, a), b), c), [d]) == Step(Step(Step(Step(s, a), b), c), d);
    }
  }

  lemma {:induction false} RunConcat(s: Stream, a: seq<Event>, b: seq<Event>)
    ensures Run(s, a + b) == Run(Run(s, a), b)
    decreases a
  {
    hide Step;
    if a == [] {
      assert a + b == b;
    } else {
      assert (a + b)[1..] == a[1..] + b;
      RunConcat(Step(s, a[0]), a[1..], b);
    }
  }

  /** The responder has used up its credit, and goes on to complete the stream with a long payload. */
  lemma LongEndFollows()
    ensures var s := Stream(RECEIVED, 1, false, [ITEM], 1, false);
            Step(s, ResponderSends(LONG_END)) == s.(replies := [ITEM, LONG_END], ended := true)
  {
    assert RECEIVED.sent[..1] == [] + [Request(1)];
    CreditAppend([], Request(1));
    ElementsAppend([], ITEM);
    assert [] + [ITEM] == [ITEM];
    hide Elements, Credit;
    assert Obeys(Stream(RECEIVED, 1, false, [ITEM], 1, false), LONG_END);
    hide Obeys;
    assert [ITEM] + [LONG_END] == [ITEM, LONG_END];
  }

  lemma RunOfTwo(s: Stream, a: Event, b: Event)
    ensures Run(s, [a, b]) == Step(Step(s, a), b)
  {
    hide Step;
    assert [a, b][1..] == [b];
    assert Run(Step(s, a), [b]) == Step(Step(s, a), b);
  }

  /** A responder with credit for one element sends it, and then a long COMPLETE in fragments. */
  lemma FragmentedCompletionIsReported()
    ensures var events := [AsksFor(Integer(1), true), ResponderTakes, ResponderSends(ITEM),
                           RequesterHandles([], false, true)] + [ResponderSends(LONG_END), FirstFragmentArrives];
            Run(Opening(false), events).sub.reported
  {
    var s := Stream(RECEIVED, 1, false, [ITEM], 1, false);
    var t := s.(replies := [ITEM, LONG_END], ended := true);
    assert Step(t, FirstFragmentArrives).sub.reported;
    LongEndFollows();
    hide Step, RECEIVED, ITEM, LONG_END, Opening;
    ServesOne();
    RunOfTwo(s, ResponderSends(LONG_END), FirstFragmentArrives);
    hide Run;
    RunConcat(Opening(false), [AsksFor(Integer(1), true), ResponderTakes, ResponderSends(ITEM),
                               RequesterHandles([], false, true)], [ResponderSends(LONG_END), FirstFragmentArrives]);
  }

  /**
    At rest, a stream with unfulfilled demand that is still live has a responder that is still
    sending and holds unspent credit: exactly `wireRequested` of it.
   */
  lemma NeverStarves(channel: bool, events: seq<Event>)
    ensures var s := Run(Opening(channel), events);
            Live(s.sub) && s.sub.requestStarted && s.sub.requested != Finite(0)
            && s.taken == |s.sub.sent| && s.handled == |s.replies|
            ==> !s.ended && 0 < s.sub.wireRequested == Credit(s.sub.sent) - Elements(s.replies)
  {
    OpeningInv(channel);
    RunKeeps(Opening(channel), events);
    var s := Run(Opening(channel), events);
    if s.handled == |s.replies| {
      assert s.replies[..s.handled] == s.replies;
    }
  }

  /**
    The subscriber never receives more elements than it asked for, and everything it grants is one
    request followed by REQUEST_N frames of 1 to 2^31-1, with nothing after CANCEL or ERROR.
   */
  lemma DeliversOnlyDemand(channel: bool, events: seq<Event>)
    ensures var sub := Run(Opening(channel), events).sub;
            && (sub.requested.Finite? ==> Delivered(sub.signals) + sub.requested.n <= sub.asked)
            && WellFormed(sub.sent)
            && (sub.requestStarted ==> Credit(sub.sent) == sub.wireRequested + Delivered(sub.signals))
  {
    OpeningInv(channel);
    RunKeeps(Opening(channel), events);
  }

  // Which elements are delivered

  /** The elements of some replies, in order. */
  function NextValues(replies: seq<Reply>): (values: seq<Bytes>)
  {
    if replies == [] then []
    else NextValues(replies[..|replies| - 1]) + ValueOf(replies[|replies| - 1])
  }

  function ValueOf(reply: Reply): seq<Bytes>
  {
    if reply.PayloadReply? && reply.payload.next then [reply.payload.value] else []
  }

  /** The element an event hands to a subscriber that still listens. */
  function Handed(s: Stream, e: Event): seq<Bytes>
  {
    if e.RequesterHandles? && Pending(s) && (Fragmented(s.replies[s.handled]) ==> s.begun) && Live(s.sub)
       && !s.sub.reported
    then ValueOf(s.replies[s.handled])
    else []
  }

  /** The elements of all replies that reach a run's requester while it listens. */
  function HandedOver(s: Stream, events: seq<Event>): seq<Bytes>
    decreases events
  {
    if events == [] then [] else Handed(s, events[0]) + HandedOver(Step(s, events[0]), events[1..])
  }

  /** Each event delivers exactly the element it hands over. */
  lemma StepDelivers(s: Stream, e: Event)
    requires Inv(s)
    ensures Values(Step(s, e).sub.signals) == Values(s.sub.signals) + Handed(s, e)
  {
    hide Inv, Values, RequesterStep, Handled, Obeys, ValueOf;
    if !s.sub.reported {
      match e
      case ResponderTakes =>
      case ResponderSends(_) =>
      case FirstFragmentArrives =>
      case RequesterHandles(calls, throws, open) =>
        if Pending(s) && (Fragmented(s.replies[s.handled]) ==> s.begun) { HandleDelivers(s, calls, throws, open); }
      case _ => OwnStepDelivers(s, e);
    }
  }

  lemma OwnStepDelivers(s: Stream, e: Event)
    requires Inv(s)
    ensures Values(RequesterStep(s.sub, e).signals) == Values(s.sub.signals)
  {
    RequesterStepKeeps(s.sub, e);
    hide RequesterStep, Values;
    ValuesStay(s.sub.signals, RequesterStep(s.sub, e).signals);
  }

  lemma NextIsWanted(s: Stream)
    requires Inv(s) && Pending(s)
    ensures Consistent(s.sub) && (s.sub.wireRequested > 0 ==> s.sub.requested != Finite(0))
    ensures var reply := s.replies[s.handled];
            && (reply.PayloadReply? ==> WellFormedPayload(reply.payload))
            && (Live(s.sub) ==> ElementsIn(reply) <= s.sub.wireRequested)
  {
    if Live(s.sub) {
      NextIsCredited(s);
    }
    hide Elements, Credit, Consistent;
  }

  lemma HandleDelivers(s: Stream, calls: seq<Call>, throws: bool, open: bool)
    requires Inv(s) && !s.sub.reported && Pending(s) && (Fragmented(s.replies[s.handled]) ==> s.begun)
    ensures var reply := s.replies[s.handled];
            Values(Handled(s.sub, reply, calls, throws, open).signals)
            == Values(s.sub.signals) + if Live(s.sub) then ValueOf(reply) else []
  {
    hide PayloadHandled, Values, Inv, Consistent;
    var reply := s.replies[s.handled];
    NextIsWanted(s);
    match reply
    case PayloadReply(p, fragmented) => PayloadValues(s.sub, p, calls, throws, open);
    case ErrorReply =>
      FailKeeps(s.sub);
      ValuesStay(s.sub.signals, Fail(s.sub).signals);
  }

  lemma NextValuesTake(replies: seq<Reply>, k: nat)
    requires k < |replies|
    ensures NextValues(replies[..k + 1]) == NextValues(replies[..k]) + ValueOf(replies[k])
  {
    assert replies[..k + 1][..k] == replies[..k];
  }

  lemma {:induction false} NextValuesGrow(replies: seq<Reply>, k: nat)
    requires k <= |replies|
    ensures NextValues(replies[..k]) <= NextValues(replies)
    decreases |replies|
  {
    if k == |replies| {
      assert replies[..k] == replies;
    } else {
      var front := replies[..|replies| - 1];
      NextValuesGrow(front, k);
      assert front[..k] == replies[..k];
    }
  }

  /** Elements delivered so far are the first ones sent, and all that were handled while the requester listens. */
  ghost predicate InOrder(s: Stream)
  {
    && s.handled <= |s.replies|
    && Values(s.sub.signals) <= NextValues(s.replies[..s.handled])
    && (Live(s.sub) ==> Values(s.sub.signals) == NextValues(s.replies[..s.handled]))
  }

  lemma StepInOrder(s: Stream, e: Event)
    requires Inv(s) && InOrder(s)
    ensures InOrder(Step(s, e))
  {
    hide Inv, Step, Values, NextValues, ValueOf, Live, Fragmented;
    StepDelivers(s, e);
    LivesOnlyIf(s, e);
    HandledGrows(s, e);
    var t := Step(s, e);
    assert s.replies[..s.handled] == t.replies[..s.handled];
    if t.handled > s.handled {
      NextValuesTake(t.replies, s.handled);
    }
  }

  /** Replies are handled one at a time, and a subscriber never starts to listen again. */
  lemma HandledGrows(s: Stream, e: Event)
    requires Inv(s)
    ensures var t := Step(s, e);
            && s.replies <= t.replies && t.handled <= |t.replies|
            && t.handled == s.handled
                            + if e.RequesterHandles? && Pending(s) && (Fragmented(s.replies[s.handled]) ==> s.begun)
                                 && !s.sub.reported
                              then 1 else 0
  {
    hide Handled, RequesterStep, Obeys, Consistent, Fed, RepliesFit, Counted, Elements, Credit;
  }

  lemma LivesOnlyIf(s: Stream, e: Event)
    requires Inv(s)
    ensures Live(Step(s, e).sub) ==> Live(s.sub)
  {
    if !s.sub.reported {
      match e
      case RequesterHandles(calls, throws, open) =>
        if Pending(s) && (Fragmented(s.replies[s.handled]) ==> s.begun) { PendingIsHandled(s, calls, throws, open); }
      case ResponderTakes =>
      case ResponderSends(_) =>
      case FirstFragmentArrives =>
      case _ =>
        RequesterStepKeeps(s.sub, e);
        hide RequesterStep;
    }
  }

  lemma {:induction false} RunDelivers(s: Stream, events: seq<Event>)
    requires Inv(s) && InOrder(s)
    ensures var t := Run(s, events);
            && Inv(t) && InOrder(t)
            && Values(t.sub.signals) == Values(s.sub.signals) + HandedOver(s, events)
    decreases events
  {
    hide Inv, Step, Values, Handed, InOrder;
    if events != [] {
      StepKeeps(s, events[0]);
      StepInOrder(s, events[0]);
      StepDelivers(s, events[0]);
      RunDelivers(Step(s, events[0]), events[1..]);
    }
  }

  /**
    Over every run the subscriber receives, in order and unchanged, exactly the elements of the replies
    handled while it listens: a first part of those the responder sent, and all handled so far while
    it still listens.
   */
  lemma DeliversWhatWasSent(channel: bool, events: seq<Event>)
    ensures var s := Run(Opening(channel), events);
            && Values(s.sub.signals) == HandedOver(Opening(channel), events)
            && Values(s.sub.signals) <= NextValues(s.replies)
            && (Live(s.sub) && s.handled == |s.replies| ==> Values(s.sub.signals) == NextValues(s.replies))
  {
    OpeningInv(channel);
    RunDelivers(Opening(channel), events);
    var s := Run(Opening(channel), events);
    NextValuesGrow(s.replies, s.handled);
    assert s.replies[..|s.replies|] == s.replies;
  }
}
