/** The subscription object itself, each signal refining its specification on values. */
module StreamSubscription {
  import opened Common
  import opened Spec = Demand

  /**
    `open` says whether the session still accepts frames; `asked`, `sent` and `signals` record
    what the subscriber asked for, what left on the session, and what the subscriber was told.
   */
  class RSocketStreamSubscription {
    const channel: bool
    var started: bool
    var requestStarted: bool
    var cancelled: bool
    var responseTerminated: bool
    var completing: bool
    var outboundTerminated: bool
    var disposed: bool
    var requested: Demand
    var wireRequested: nat
    var initialRequestN: nat
    var reported: bool
    ghost var asked: nat
    var sent: seq<Sent>
    var signals: seq<Signal>

    ghost function State(): Subscription
      reads this
    {
      Subscription(channel, started, requestStarted, cancelled, responseTerminated, completing, outboundTerminated,
                   disposed, requested, wireRequested, initialRequestN, reported, asked, sent, signals)
    }

    /** Demand, credit, frames and signals add up; between signals the responder is also kept supplied (`Fed`). */
    ghost predicate Valid()
      reads this
    {
      Consistent(State())
    }

    constructor (channel: bool)
      ensures Valid() && Fed(State()) && State() == Initial(channel)
    {
      this.channel := channel;
      started, requestStarted, cancelled, responseTerminated, completing := false, false, false, false, false;
      outboundTerminated, disposed, reported := !channel, false, false;
      requested, wireRequested, initialRequestN := Finite(0), 0, 0;
      asked, sent, signals := 0, [], [];
    }

    /** Fills the window with one frame; a failed send takes the credit back. */
    method GrantAvailableDemand(open: bool) returns (ok: bool)
      requires Valid() && requestStarted
      modifies this`wireRequested, this`sent
      ensures Valid() && ok == (open || !CanGrant(old(State())))
      ensures State() == if open && CanGrant(old(State())) then Granted(old(State())) else old(State())
      ensures ok && !disposed ==> wireRequested == Window(requested)
      ensures sent == old(sent) + if wireRequested == old(wireRequested) then []
                                  else [RequestN(wireRequested - old(wireRequested))]
    {
      hide Consistent;
      ok := true;
      if !disposed {
        assert wireRequested <= Window(requested) by { WindowHolds(State()); }
        var grant := Window(requested) - wireRequested;
        if grant > 0 {
          wireRequested := wireRequested + grant;
          if open {
            sent := sent + [RequestN(grant)];
          } else {
            wireRequested := wireRequested - grant;
            ok := false;
          }
        }
      }
      assert State() == if open && CanGrant(old(State())) then Granted(old(State())) else old(State());
      assert Valid() by {
        if open && CanGrant(old(State())) { GrantedKeeps(old(State())); }
      }
    }

    /** Refills the window only from half of it down, and so never leaves a live stream with demand unsupplied. */
    method ReplenishDemand(open: bool) returns (ok: bool)
      requires Valid() && requestStarted && Live(State())
      modifies this`wireRequested, this`sent
      ensures Valid()
      ensures ok ==> State() == Replenished(old(State()), open) && Fed(State())
      ensures !ok ==> State() == old(State()) && Replenished(State(), open) == Spec.Fail(State())
      ensures old(wireRequested) > MAX_REQUEST_N / 2 ==> sent == old(sent)
      ensures old(wireRequested) <= MAX_REQUEST_N / 2 && open && !disposed ==>
                ok && wireRequested == Window(requested)
    {
      ReplenishedKeeps(State(), open);
      hide Consistent, Quietly, Spec.Fail;
      ok := true;
      if wireRequested <= MAX_REQUEST_N / 2 {
        ok := GrantAvailableDemand(open);
      }
    }

    method TellFailure()
      modifies this`cancelled, this`disposed, this`signals
      ensures State() == Spec.Fail(old(State()))
    {
      if !cancelled {
        var shouldSignal := !responseTerminated;
        cancelled, disposed := true, true;
        if shouldSignal {
          signals := signals + [OnError];
        }
      }
    }

    /** The stream is over for the subscriber, who hears of it unless its responses had ended. */
    method Fail()
      requires Valid()
      modifies this`cancelled, this`disposed, this`signals
      ensures Valid() && State() == Spec.Fail(old(State()))
      ensures Ends(old(State()), State())
      ensures cancelled && (!old(cancelled) ==> disposed)
      ensures signals == old(signals) + if old(Live(State())) then [OnError] else []
    {
      hide Consistent, Quietly;
      TellFailure();
      assert Valid() && Ends(old(State()), State()) by { FailKeeps(old(State())); }
    }

    /** The same, after a CANCEL if the peer knows the request and can be reached. */
    method FailAndCancel(open: bool)
      requires Valid() && Live(State())
      modifies this`cancelled, this`disposed, this`signals, this`sent
      ensures Valid() && State() == Spec.FailAndCancel(old(State()), open)
      ensures Ends(old(State()), State()) && signals == old(signals) + [OnError]
      ensures cancelled && disposed
      ensures sent == old(sent) + if requestStarted && open then [Sent.Cancel] else []
    {
      hide Consistent, Quietly;
      if requestStarted && open {
        sent := sent + [Sent.Cancel];
      }
      TellFailure();
      assert State() == Spec.FailAndCancel(old(State()), open);
      assert Valid() && Ends(old(State()), State()) by { FailAndCancelKeeps(old(State()), open); }
    }

    /** A failed publisher ends both halves of the stream, telling the peer if asked to and if it knows the request. */
    method FailOutbound(notifyPeer: bool, open: bool)
      requires Valid()
      modifies this`cancelled, this`disposed, this`signals, this`sent, this`outboundTerminated
      ensures Valid() && State() == Spec.FailOutbound(old(State()), notifyPeer, open)
      ensures Ends(old(State()), State()) && disposed && cancelled
      ensures signals == old(signals) + if old(Live(State())) then [OnError] else []
      ensures sent == old(sent) + if !old(cancelled) && notifyPeer && requestStarted && open then [Sent.Error]
                                  else []
    {
      hide Consistent, Quietly;
      if !cancelled {
        var shouldSignal := !responseTerminated;
        cancelled, outboundTerminated, disposed := true, true, true;
        if notifyPeer && requestStarted && open {
          sent := sent + [Sent.Error];
        }
        if shouldSignal {
          signals := signals + [OnError];
        }
      }
      assert State() == Spec.FailOutbound(old(State()), notifyPeer, open);
      assert Valid() && Ends(old(State()), State()) && disposed by {
        FailOutboundKeeps(old(State()), notifyPeer, open);
        DisposedIfOver(State());
      }
    }

    /** Nothing follows a CANCEL, the subscriber is told nothing more, and cancelling again does nothing. */
    method Cancel(open: bool)
      requires Valid()
      modifies this`cancelled, this`disposed, this`sent
      ensures Valid() && State() == Cancelled(old(State()), open)
      ensures Ends(old(State()), State()) && signals == old(signals)
      ensures old(cancelled) || (responseTerminated && outboundTerminated) ==> unchanged(this)
      ensures !old(cancelled) && !(responseTerminated && outboundTerminated) ==>
                && cancelled && disposed
                && sent == old(sent) + if requestStarted && open then [Sent.Cancel] else []
    {
      hide Consistent, Quietly;
      if !(cancelled || (responseTerminated && outboundTerminated)) {
        cancelled := true;
        if requestStarted && open {
          sent := sent + [Sent.Cancel];
        }
        disposed := true;
      }
      assert Valid() && Ends(old(State()), State()) by { CancelledKeeps(old(State()), open); }
    }

    /**
      Sends the initial request of a stream whose first item is ready, with all credit its demand
      allows; if that fails, the stream is over.
     */
    method Begin(open: bool)
      requires Valid() && Live(State()) && started && !requestStarted
      modifies this
      ensures Valid() && State() == Begun(old(State()), open)
      ensures Fed(State()) && Quietly(old(State()), State())
      ensures open ==> && requestStarted && !disposed && wireRequested == Window(requested)
                       && signals == old(signals)
                       && sent == [Sent.Request(initialRequestN)]
                                  + if wireRequested == initialRequestN then []
                                    else [RequestN(wireRequested - initialRequestN)]
      ensures !open ==> cancelled && disposed && sent == [] && signals == old(signals) + [OnError]
    {
      BegunKeeps(State(), open);
      BegunTells(State(), open);
      hide Consistent, Quietly, Fed, Ends, Begun;
      if open {
        SendInitialRequest();
      } else {
        FailStart();
      }
    }

    /** The request, and then what demand has accumulated since it was prepared. */
    method SendInitialRequest()
      requires Valid() && Live(State()) && started && !requestStarted
      modifies this`requestStarted, this`wireRequested, this`sent
      ensures State() == Begun(old(State()), true)
    {
      RequestSent(State());
      hide Consistent, Quietly, Granted, CanGrant;
      requestStarted := true;
      sent := sent + [Sent.Request(initialRequestN)];
      assert State() == Sends(old(State()).(requestStarted := true), Sent.Request(initialRequestN));
      var ok := GrantAvailableDemand(true);
    }

    /** A request that cannot be sent fails the stream, and the publisher's half with it. */
    method FailStart()
      requires Valid()
      modifies this`cancelled, this`disposed, this`signals, this`sent, this`outboundTerminated
      ensures State() == Begun(old(State()), false)
    {
      hide Consistent, Quietly, Spec.Fail, Spec.FailOutbound;
      if channel {
        FailOutbound(false, false);
      } else {
        Fail();
      }
    }

    /**
      The first demand starts the stream and fixes its initial request count, later demand is granted
      once the request is out. `before` is the demand there was without it.
     */
    method RequestDemand(ghost before: Subscription, open: bool) returns (ok: bool)
      requires Consistent(before) && Live(before) && !before.completing
      requires exists d :: Exact(d) && d != Finite(0) && State() == Demanded(before, d)
      modifies this
      ensures var s := old(State());
              && ok == (!s.started || !s.requestStarted || !CanGrant(s) || open)
              && State() == if !s.started then Started(s, open)
                            else if !s.requestStarted || !CanGrant(s) || !open then s
                            else Granted(s)
      ensures Valid()
    {
      ghost var d :| Exact(d) && d != Finite(0) && State() == Demanded(before, d);
      DemandedKeeps(before, d);
      hide Consistent, Quietly, Fed, Begun, Granted;
      ok := true;
      if !started {
        started := true;
        initialRequestN := Window(requested);
        wireRequested := initialRequestN;
        if !channel {
          Begin(open);
        }
      } else if requestStarted {
        ok := GrantAvailableDemand(open);
      }
    }

    /** No element is delivered by a request, and a running stream has all the credit its demand allows. */
    method Request(argument: Argument, open: bool)
      requires Valid()
      modifies this
      ensures Valid() && State() == Requested(old(State()), argument, open)
      ensures Quietly(old(State()), State())
      ensures !old(completing) && old(Live(State())) ==> Fed(State())
      ensures requestStarted ==> started
      ensures old(completing) || !old(Live(State())) ==> State() == old(State())
      ensures !old(completing) && old(Live(State())) ==> Asks(old(State()), State(), argument, open)
    {
      hide Started, Granted, Spec.FailAndCancel, CanGrant, AddReactiveDemand, Consistent, Quietly, Fed, WellFormed;
      if !(cancelled || responseTerminated || completing) {
        match NormalizeReactiveDemand(argument)
        case None =>
          FailAndCancel(open);
        case Some(d) =>
          requested := AddReactiveDemand(requested, d);
          asked := asked + if d.Finite? then d.n else 0;
          assert State() == Demanded(old(State()), d);
          var ok := RequestDemand(old(State()), open);
          if !ok {
            FailAndCancel(open);
          }
      }
      assert State() == Requested(old(State()), argument, open);
      assert Valid() && Quietly(old(State()), State())
             && (!old(completing) && old(Live(State())) ==> Fed(State())) && (requestStarted ==> started) by {
        RequestedKeeps(old(State()), argument, open);
        RunningIsStarted(State());
      }
      if !old(completing) && old(Live(State())) {
        RequestedAsks(old(State()), argument, open);
      }
    }

    /** The responses end once, and with the publisher's half the whole stream. */
    method CompleteResponse()
      requires Valid() && requestStarted
      modifies this`responseTerminated, this`disposed, this`signals
      ensures Valid() && State() == Completed(old(State()))
      ensures Ends(old(State()), State()) && (disposed <==> cancelled || outboundTerminated)
      ensures responseTerminated
      ensures signals == old(signals) + if old(responseTerminated) then [] else [OnComplete]
    {
      hide Consistent, Quietly;
      if !responseTerminated {
        responseTerminated := true;
        signals := signals + [OnComplete];
        if outboundTerminated {
          disposed := true;
        }
      }
      assert Valid() && Ends(old(State()), State()) && (disposed <==> cancelled || outboundTerminated) by {
        CompletedKeeps(old(State()));
        DisposedIfOver(State());
      }
    }

    method MarkOutboundComplete()
      requires Valid()
      modifies this`outboundTerminated, this`disposed
      ensures Valid() && State() == OutboundCompleted(old(State()))
      ensures outboundTerminated && (disposed <==> cancelled || responseTerminated)
    {
      hide Consistent, Quietly;
      outboundTerminated := true;
      if responseTerminated {
        disposed := true;
      }
      assert Valid() && (disposed <==> cancelled || responseTerminated) by {
        OutboundCompletedKeeps(old(State()));
        DisposedIfOver(State());
      }
    }

    /** What the subscriber calls back while an element is delivered: the calls act one after the other. */
    method RunCalls(calls: seq<Call>, open: bool)
      requires Valid() && requestStarted
      modifies this
      ensures Valid() && State() == Calls(old(State()), calls, open)
      ensures requestStarted && Quietly(old(State()), State())
    {
      hide Requested, Cancelled, Consistent, Quietly, Ends;
      var i := 0;
      assert calls[0..] == calls;
      while i < |calls|
        invariant i <= |calls|
        invariant Valid()
        invariant Calls(State(), calls[i..], open) == Calls(old(State()), calls, open)
      {
        assert calls[i..][1..] == calls[i + 1..];
        match calls[i] {
          case CallRequest(argument) => Request(argument, open);
          case CallCancel => Cancel(open);
        }
        i := i + 1;
      }
      assert requestStarted && Quietly(old(State()), State()) by { CallsKeepRunning(old(State()), calls, open); }
    }

    /**
      Takes a fragment into reassembly, or reports a payload for which there is no credit: of a live
      stream that is supplied, only a first fragment without any unspent credit.
     */
    method AcceptPayloadFragment(next: bool, follows: bool, continuation: bool) returns (accepted: bool)
      requires Valid() && Fed(State()) && requestStarted
      modifies this`reported
      ensures Valid() && accepted == FragmentAccepted(old(State()), next, follows, continuation)
      ensures State() == if Live(old(State())) && !accepted then old(State()).(reported := true) else old(State())
      ensures Live(State()) ==> (accepted <==> continuation || (!next && !follows) || wireRequested > 0)
    {
      hide WellFormed, Credit, Delivered;
      accepted := false;
      if !(cancelled || responseTerminated) {
        accepted := continuation || (!next && !follows) || (requested != Finite(0) && wireRequested > 0);
        if !accepted {
          reported := true;
        }
      }
    }

    /** After `onNext` returned or threw: the stream has ended, or is supplied for the elements still wanted. */
    method FinishNext(complete: bool, throws: bool, open: bool)
      requires Valid() && requestStarted
      modifies this
      ensures Valid() && State() == AfterNext(old(State()), complete, throws, open)
      ensures Fed(State()) && (throws || complete ==> !Live(State()))
    {
      hide Consistent, Quietly, Ends, Fed, Replenished, Cancelled, Spec.Fail, Completed;
      if throws {
        Cancel(open);
        signals := signals + [OnError];
      } else if !cancelled && !responseTerminated {
        if complete {
          assert Consistent(State().(completing := false)) by { CompletingIsFree(State(), false); }
          completing := false;
          CompleteResponse();
        } else {
          var ok := ReplenishDemand(open);
          if !ok {
            Fail();
          }
        }
      }
      assert State() == AfterNext(old(State()), complete, throws, open);
      assert Valid() && Fed(State()) && (throws || complete ==> !Live(State())) by {
        AfterNextKeeps(old(State()), complete, throws, open);
        AfterNextEnds(old(State()), complete, throws, open);
      }
    }

    /** Delivers one element, with everything the subscriber does meanwhile. */
    method Deliver(p: Payload, calls: seq<Call>, throws: bool, open: bool)
      requires Valid() && requestStarted && requested != Finite(0) && wireRequested > 0
      modifies this
      ensures State() == AfterNext(Calls(Consumed(old(State()), p.value), calls, open), p.complete, throws, open)
    {
      hide AfterNext, Calls, Consistent, Fed, Quietly, Consumed;
      TakeElement(p);
      RunCalls(calls, open);
      FinishNext(p.complete, throws, open);
    }

    /**
      A payload of a supplied stream: its element is delivered against one credit, and afterwards the
      stream is supplied again, has ended, or the missing credit was reported.
     */
    method HandlePayload(p: Payload, calls: seq<Call>, throws: bool, open: bool)
      requires Valid() && Fed(State()) && requestStarted
      modifies this
      ensures Valid() && State() == PayloadHandled(old(State()), p, calls, throws, open)
      ensures Supplied(old(State()), State(), p)
      ensures if old(Live(State())) then Told(old(State()), State(), p, calls, throws, open)
              else State() == old(State())
      ensures old(Live(State())) && !p.follows && p.next && old(wireRequested) > 0 ==>
                old(signals) + [OnNext(p.value)] <= signals
    {
      hide PayloadHandled, Consistent, Fed, Supplied, Told;
      TakePayload(p, calls, throws, open);
      assert Valid() && Supplied(old(State()), State(), p) by {
        PayloadGives(old(State()), p, calls, throws, open);
      }
      assert if old(Live(State())) then Told(old(State()), State(), p, calls, throws, open)
             else State() == old(State()) by {
        PayloadTells(old(State()), p, calls, throws, open);
      }
      assert old(Live(State())) && !p.follows && p.next && old(wireRequested) > 0 ==>
          old(signals) + [OnNext(p.value)] <= signals by {
        ToldOfElement(old(State()), State(), p, calls, throws, open);
      }
    }

    /** The cases of a payload: malformed, the end alone, without credit, or an element. */
    method TakePayload(p: Payload, calls: seq<Call>, throws: bool, open: bool)
      requires Valid() && requestStarted
      modifies this
      ensures State() == PayloadHandled(old(State()), p, calls, throws, open)
    {
      hide AfterNext, Calls, Consistent, Completed, Spec.FailAndCancel, Fed, Quietly, Consumed;
      if !cancelled && !responseTerminated {
        if p.follows || (!p.next && !p.complete) {
          FailAndCancel(open);
        } else {
          CompletingIsFree(State(), p.complete);
          CompletingIsFree(State(), false);
          completing := p.complete;
          if !p.next {
            completing := false;
            CompleteResponse();
          } else if requested == Finite(0) || wireRequested == 0 {
            reported := true;
          } else {
            Deliver(p, calls, throws, open);
          }
        }
      }
    }

    /** Spends one credit on an element. */
    method TakeElement(p: Payload)
      requires Valid() && requested != Finite(0) && wireRequested > 0 && requestStarted
      modifies this`requested, this`wireRequested, this`signals
      ensures Valid() && State() == Consumed(old(State()), p.value)
    {
      hide Consistent, Spend;
      requested := Spend(requested);
      wireRequested := wireRequested - 1;
      signals := signals + [OnNext(p.value)];
      assert State() == Consumed(old(State()), p.value);
      assert Valid() by { ConsumedKeeps(old(State()), p.value); }
    }
  }

  /** The subscriber gets no further element, and no credit is handed out any more. */
  ghost predicate Ends(s: Subscription, t: Subscription)
  {
    !Live(t) && Quietly(s, t)
  }

  /**
    A request of a subscriber that listens: only a positive safe integer or positive infinity is
    taken, and counted in full up to the largest safe integer; a running stream then holds all the
    credit its demand allows, and anything that cannot be done fails the stream.
   */
  predicate Asks(s: Subscription, t: Subscription, argument: Argument, open: bool)
  {
    if argument.PositiveInfinity? || (argument.Integer? && 0 < argument.n <= MAX_SAFE_INTEGER) then
      && t.started
      && t.asked == s.asked + (if argument.Integer? then argument.n else 0)
      && t.requested == (if s.requested.Infinite? || argument.PositiveInfinity? then Infinite
                         else Finite(Min(s.requested.n + argument.n, MAX_SAFE_INTEGER)))
      && (open ==> !t.disposed && t.signals == s.signals)
      && (open && t.requestStarted ==> t.wireRequested == Window(t.requested))
      && (open && !s.started && !s.channel ==> t.sent == [Sent.Request(Window(t.requested))])
      && (!open && (if s.started then s.requestStarted && s.wireRequested < Window(t.requested) else !s.channel) ==>
            t.cancelled && t.signals == s.signals + [OnError])
    else
      && t.cancelled && t.requested == s.requested && t.signals == s.signals + [OnError]
      && t.sent == s.sent + if s.requestStarted && open then [Sent.Cancel] else []
  }

  lemma RequestedAsks(s: Subscription, argument: Argument, open: bool)
    requires Consistent(s) && Live(s) && !s.completing
    ensures Asks(s, Requested(s, argument, open), argument, open)
  {
    hide Started, Granted, Spec.FailAndCancel, CanGrant, Consistent;
    match NormalizeReactiveDemand(argument)
    case None => RefusedAsks(s, open);
    case Some(d) =>
      if s.started {
        MoreAsks(s, d, open);
      } else {
        FirstAsks(s, d, open);
      }
  }

  lemma RefusedAsks(s: Subscription, open: bool)
    requires Live(s)
    ensures var t := Spec.FailAndCancel(s, open);
            && t.cancelled && t.requested == s.requested && t.signals == s.signals + [OnError]
            && t.sent == s.sent + if s.requestStarted && open then [Sent.Cancel] else []
  {}

  lemma MoreAsks(s: Subscription, d: Demand, open: bool)
    requires Consistent(s) && Live(s) && s.started && Exact(d) && d != Finite(0)
    ensures var u := Demanded(s, d);
            var t := if !u.requestStarted || !CanGrant(u) then u
                     else if open then Granted(u) else Spec.FailAndCancel(u, open);
            && t.requested == u.requested && t.asked == u.asked && t.started
            && (open ==> !t.disposed && t.signals == s.signals)
            && (open && t.requestStarted ==> t.wireRequested == Window(t.requested))
            && (!open && s.requestStarted && s.wireRequested < Window(t.requested) ==>
                  t.cancelled && t.signals == s.signals + [OnError])
  {
    AddedKeeps(s, d);
    hide WellFormed, Credit, Delivered;
  }

  lemma FirstAsks(s: Subscription, d: Demand, open: bool)
    requires Consistent(s) && Live(s) && !s.started && Exact(d) && d != Finite(0)
    ensures var u := Demanded(s, d);
            var t := Started(u, open);
            && t.requested == u.requested && t.asked == u.asked && t.started
            && (open ==> !t.disposed && t.signals == s.signals)
            && (open && t.requestStarted ==> t.wireRequested == Window(t.requested))
            && (open && !s.channel ==> t.sent == [Sent.Request(Window(t.requested))])
            && (!open && !s.channel ==> t.cancelled && t.signals == s.signals + [OnError])
  {
    assert [] + [Sent.Request(Window(d))] == [Sent.Request(Window(d))];
  }

  lemma FailureNeverCompletes(s: Subscription, open: bool)
    ensures Spec.FailAndCancel(s, open).responseTerminated == s.responseTerminated
    ensures Started(s, open).responseTerminated == s.responseTerminated
  {
    hide CanGrant;
  }

  lemma CallNeverCompletes(s: Subscription, argument: Argument, open: bool)
    ensures Requested(s, argument, open).responseTerminated == s.responseTerminated
    ensures Cancelled(s, open).responseTerminated == s.responseTerminated
  {
    hide Spec.FailAndCancel, Started, CanGrant, AddReactiveDemand;
    FailureNeverCompletes(s, open);
    match NormalizeReactiveDemand(argument)
    case None =>
    case Some(d) => FailureNeverCompletes(Demanded(s, d), open);
  }

  lemma {:induction false} CallsNeverComplete(s: Subscription, calls: seq<Call>, open: bool)
    ensures Calls(s, calls, open).responseTerminated == s.responseTerminated
    decreases calls
  {
    hide Requested, Cancelled;
    if calls != [] {
      match calls[0]
      case CallRequest(argument) =>
        CallNeverCompletes(s, argument, open);
        CallsNeverComplete(Requested(s, argument, open), calls[1..], open);
      case CallCancel =>
        CallNeverCompletes(s, PositiveInfinity, open);
        CallsNeverComplete(Cancelled(s, open), calls[1..], open);
    }
  }

  /** What the subscriber and the peer are told of a payload of a live stream. */
  predicate Told(s: Subscription, t: Subscription, p: Payload, calls: seq<Call>, throws: bool, open: bool)
  {
    if p.follows || (!p.next && !p.complete) then
      t.cancelled && t.signals == s.signals + [OnError] && t.sent == s.sent + if open then [Sent.Cancel] else []
    else if !p.next then
      t.responseTerminated && t.signals == s.signals + [OnComplete] && t.sent == s.sent
    else if s.wireRequested == 0 then
      t.reported && t.signals == s.signals && t.sent == s.sent
    else
      && s.signals + [OnNext(p.value)] <= t.signals && t.reported == s.reported
      && (throws ==> t.signals[|t.signals| - 1] == OnError)
      && (p.complete && !t.cancelled ==> t.responseTerminated && t.signals[|t.signals| - 1] == OnComplete)
      && (calls == [] && !throws && open ==>
            t.signals == s.signals + [OnNext(p.value)] + if p.complete then [OnComplete] else [])
  }

  lemma ToldOfElement(s: Subscription, t: Subscription, p: Payload, calls: seq<Call>, throws: bool, open: bool)
    ensures Told(s, t, p, calls, throws, open) && !p.follows && p.next && s.wireRequested > 0 ==>
              s.signals + [OnNext(p.value)] <= t.signals
  {}

  lemma PayloadTells(s: Subscription, p: Payload, calls: seq<Call>, throws: bool, open: bool)
    requires Consistent(s) && s.requestStarted
    ensures var t := PayloadHandled(s, p, calls, throws, open);
            if Live(s) then Told(s, t, p, calls, throws, open) else t == s
  {
    if Live(s) && !p.follows && p.next && s.wireRequested > 0 {
      assert s.requested != Finite(0);
      ElementTells(s, p, calls, throws, open);
      hide Consistent, Calls, AfterNext, Consumed;
    }
  }

  lemma ElementTells(s: Subscription, p: Payload, calls: seq<Call>, throws: bool, open: bool)
    requires Consistent(s) && s.requestStarted && Live(s) && !p.follows && p.next && s.wireRequested > 0
    ensures var taken := Consumed(s.(completing := p.complete), p.value);
            var t := AfterNext(Calls(taken, calls, open), p.complete, throws, open);
            Told(s, t, p, calls, throws, open)
  {
    hide Credit, Delivered, WellFormed, Values;
    assert s.requested != Finite(0);
    TakenValues(s, p, calls, throws, open);
    CreditedKeeps(s, p, calls, throws, open);
    var taken := Consumed(s.(completing := p.complete), p.value);
    CallsNeverComplete(taken, calls, open);
    AfterNextTells(Calls(taken, calls, open), p.complete, throws, open);
    assert calls == [] ==> Calls(taken, calls, open) == taken;
    hide Consistent, Fed, Calls, AfterNext;
  }

  lemma AfterNextTells(s: Subscription, complete: bool, throws: bool, open: bool)
    requires !s.responseTerminated
    ensures var t := AfterNext(s, complete, throws, open);
            && (throws ==> t.signals != [] && t.signals[|t.signals| - 1] == OnError)
            && (complete && !t.cancelled ==>
                  t.signals != [] && t.responseTerminated && t.signals[|t.signals| - 1] == OnComplete)
            && (Live(s) && !throws && open ==> t.signals == s.signals + if complete then [OnComplete] else [])
  {}

  function Demanded(s: Subscription, d: Demand): Subscription
  {
    s.(requested := AddReactiveDemand(s.requested, d), asked := s.asked + if d.Finite? then d.n else 0)
  }

  lemma DemandedKeeps(s: Subscription, d: Demand)
    requires Consistent(s) && Live(s) && !s.completing && Exact(d) && d != Finite(0)
    ensures var t := Demanded(s, d);
            var u := t.(started := true, wireRequested := Window(t.requested), initialRequestN := Window(t.requested));
            if t.started then Consistent(t) else Consistent(u) && Live(u) && !u.requestStarted
  {
    if s.started {
      AddedKeeps(s, d);
    }
  }

  lemma BegunTells(s: Subscription, open: bool)
    requires Consistent(s) && Live(s) && s.started && !s.requestStarted
    ensures var t := Begun(s, open);
            if open then
              && t.requestStarted && !t.disposed && t.wireRequested == Window(t.requested) && t.signals == s.signals
              && t.initialRequestN == s.initialRequestN
              && t.sent == [Sent.Request(t.initialRequestN)]
                           + if t.wireRequested == t.initialRequestN then []
                             else [RequestN(t.wireRequested - t.initialRequestN)]
            else t.cancelled && t.disposed && t.sent == [] && t.signals == s.signals + [OnError]
  {
    assert [] + [Sent.Request(s.initialRequestN)] == [Sent.Request(s.initialRequestN)];
  }

  lemma CallsKeepRunning(s: Subscription, calls: seq<Call>, open: bool)
    requires Consistent(s) && s.requestStarted
    ensures var t := Calls(s, calls, open); t.requestStarted && Quietly(s, t)
  {
    CallsKeep(s, calls, open);
    hide Consistent, Calls;
  }

  lemma WindowHolds(s: Subscription)
    requires Consistent(s)
    ensures s.wireRequested <= Window(s.requested)
  {}

  lemma DisposedIfOver(s: Subscription)
    requires Consistent(s)
    ensures s.disposed <==> s.cancelled || (s.responseTerminated && s.outboundTerminated)
  {}

  lemma AfterNextEnds(s: Subscription, complete: bool, throws: bool, open: bool)
    requires Consistent(s) && s.requestStarted
    ensures throws || complete ==> !Live(AfterNext(s, complete, throws, open))
  {
    hide Replenished, WellFormed, Credit, Delivered;
  }

  /** After a payload: supplied, over, or reported; a live stream was delivered exactly its element. */
  ghost predicate Supplied(s: Subscription, t: Subscription, p: Payload)
  {
    && Fed(t) && s.sent <= t.sent
    && (t.reported ==> s.reported || (p.next && s.wireRequested == 0))
    && (Live(t) && !t.reported ==> p.next && !p.complete && Delivered(t.signals) == Delivered(s.signals) + 1)
  }

  lemma PayloadGives(s: Subscription, p: Payload, calls: seq<Call>, throws: bool, open: bool)
    requires Consistent(s) && Fed(s) && s.requestStarted
    ensures var t := PayloadHandled(s, p, calls, throws, open); Consistent(t) && Supplied(s, t, p)
  {
    PayloadKeeps(s, p, calls, throws, open);
    if Live(s) && !p.next {
      FailAndCancelKeeps(s, open);
    }
    hide Calls, AfterNext, Consumed, Consistent, Delivered, Fed;
  }

  lemma CompletingIsFree(s: Subscription, completing: bool)
    requires Consistent(s)
    ensures Consistent(s.(completing := completing))
  {}

  lemma RunningIsStarted(s: Subscription)
    requires Consistent(s)
    ensures s.requestStarted ==> s.started
  {}
}
