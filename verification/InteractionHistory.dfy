/** Which events make an id an incomplete request or an active stream, and which forget it. */
module InteractionHistory {
  import opened StreamIds
  import opened Interactions

  /** The request uses the one id it may use, and may be served. */
  ghost predicate Admits(s: Dispatcher, e: Event)
    requires Inv(s) && |Known(s)| < Count(CLIENT_STREAM_ID)
  {
    && e.InitialRequest? && e.admitted && !s.graceful
    && e.id == FreeId(s.nextStreamId, Known(s), CLIENT_STREAM_ID)
  }

  lemma NewIdIsLegal(s: Dispatcher)
    requires Inv(s) && |Known(s)| < Count(CLIENT_STREAM_ID)
    ensures var id := FreeId(s.nextStreamId, Known(s), CLIENT_STREAM_ID);
            Legal(id, CLIENT_STREAM_ID) && id !in Known(s)
  {
    var id := FreeId(s.nextStreamId, Known(s), CLIENT_STREAM_ID);
    FirstFreeIsLegal(s.nextStreamId, Known(s), id, CLIENT_STREAM_ID);
    var d: nat :| FirstFreeAt(s.nextStreamId, Known(s), id, d, CLIENT_STREAM_ID);
  }

  /** Dispatching a whole request keeps its id exactly if a controller registers it. */
  lemma DispatchedTells(s: Dispatcher, id: int, outcome: Outcome)
    requires id !in s.streams
    ensures var t := Dispatched(s, id, outcome);
            && (id in t.streams <==> outcome == Registers)
            && t.streams <= s.streams + {id} && t.requestFragments <= s.requestFragments
            && (outcome != Registers ==> id !in t.requestFragments)
            && (outcome == Registers ==> t == s.(streams := s.streams + {id}))
  {}

  /** What a new request does to its own id. */
  lemma InitialTells(s: Dispatcher, e: Event)
    requires Inv(s) && !s.terminated && |Known(s)| < Count(CLIENT_STREAM_ID) && e.InitialRequest?
    ensures var t := Step(s, e);
            var id := e.id;
            if id == FreeId(s.nextStreamId, Known(s), CLIENT_STREAM_ID) then
              var next := NextId(id, CLIENT_STREAM_ID);
              if !e.admitted || s.graceful then id !in Known(t)
              else if e.follows then
                t == s.(requestFragments := s.requestFragments + {id}, nextStreamId := next)
              else if e.outcome == Registers then t == s.(streams := s.streams + {id}, nextStreamId := next)
              else id !in t.streams && id !in t.requestFragments
            else if id > 0 && id % 2 == 1 && (id in s.streams || id in s.requestFragments) then
              t == s.(nextStreamId := t.nextStreamId)
            else t.terminated
    ensures Step(s, e).streams <= s.streams + {e.id}
    ensures Step(s, e).requestFragments <= s.requestFragments + {e.id}
  {
    NewIdIsLegal(s);
    hide FreeId;
    var t := Admitted(s, e.id);
    if Judge(Advanced(s), e.id) == Accepted && e.admitted && !s.graceful && !e.follows {
      DispatchedTells(t, e.id, e.outcome);
      hide Dispatched;
    }
  }

  lemma FailureTells(s: Dispatcher, id: int, ended: bool, sent: bool)
    ensures var t := StreamFailed(s, id, ended, sent);
            id !in Known(t) && t.streams <= s.streams && t.requestFragments <= s.requestFragments
  {}

  /** Only an active stream that its frame or signal leaves running stays known. */
  lemma FateTells(s: Dispatcher, id: int, fate: Fate)
    ensures var t := Fated(s, id, fate);
            && t.streams <= s.streams && t.requestFragments <= s.requestFragments
            && if fate == Stays then t == s else id !in Known(t)
  {
    FailureTells(s, id, true, fate == Fails(true));
    hide StreamFailed;
  }

  /** A continuation adds to its request, ends it, or completes it. */
  lemma ContinuationTells(s: Dispatcher, e: Event)
    requires Inv(s) && !s.terminated && e.Payload? && e.id in s.requestFragments
    ensures var t := RequestContinued(s, e);
            && t.streams <= s.streams + {e.id} && t.requestFragments <= s.requestFragments
            && if e.broken then e.id !in Known(t)
               else if More(e.follows, e.complete) then t == s
               else && e.id !in t.requestFragments
                    && (e.id in t.streams <==> e.outcome == Registers)
                    && (e.outcome == Registers ==>
                          t == s.(streams := s.streams + {e.id}, requestFragments := s.requestFragments - {e.id}))
  {
    var r := s.(requestFragments := s.requestFragments - {e.id});
    FailureTells(r, e.id, false, e.errorSent);
    DispatchedTells(r, e.id, e.outcome);
    hide StreamFailed, Dispatched;
  }

  /** A payload of an active stream, and when the stream goes on. */
  lemma PayloadTells(s: Dispatcher, e: Event)
    requires Inv(s) && !s.terminated && e.Payload? && e.id in s.streams
    ensures var t := PayloadContinued(s, e);
            && t.streams <= s.streams && t.requestFragments <= s.requestFragments
            && (e.id in t.streams
                <==> !e.accepted
                     || (!e.broken && (More(e.follows, e.complete) || ((e.next || e.complete) && e.fate == Stays))))
            && (e.id !in t.streams ==> e.id !in Known(t))
            && (e.id in t.payloadFragments <==> e.accepted && !e.broken && More(e.follows, e.complete))
            && (e.id in t.streams ==>
                  t == s.(payloadFragments := if e.id in t.payloadFragments then s.payloadFragments + {e.id}
                                              else s.payloadFragments - {e.id}))
  {
    var p := s.(payloadFragments := s.payloadFragments - {e.id});
    FailureTells(p, e.id, false, e.errorSent);
    FateTells(p, e.id, e.fate);
    hide StreamFailed, Fated;
  }

  // Where active streams come from

  /** A request whose first frame announces more. */
  predicate StartsIncomplete(e: Event, id: int)
  {
    e.InitialRequest? && e.id == id && e.admitted && e.follows
  }

  /** A request in one frame that a controller registers. */
  predicate StartsWhole(e: Event, id: int)
  {
    e.InitialRequest? && e.id == id && e.admitted && !e.follows && e.outcome == Registers
  }

  /** The last fragment of a request that a controller registers. */
  predicate Completes(e: Event, id: int)
  {
    e.Payload? && e.id == id && !e.broken && !More(e.follows, e.complete) && e.outcome == Registers
  }

  /**
    An id becomes an active stream exactly when a whole request is admitted under it or its incomplete
    request is completed, and an incomplete request exactly when one that announces more is admitted.
   */
  lemma StepOpens(s: Dispatcher, e: Event, id: int)
    requires Inv(s) && !s.terminated && |Known(s)| < Count(CLIENT_STREAM_ID)
    ensures id !in s.streams ==>
              (id in Step(s, e).streams
               <==> (Admits(s, e) && StartsWhole(e, id)) || (id in s.requestFragments && Completes(e, id)))
    ensures id !in s.requestFragments ==>
              (id in Step(s, e).requestFragments <==> Admits(s, e) && StartsIncomplete(e, id))
  {
    hide Inv, FreeId, Fated, PayloadHandled, SessionUnregistered, Known;
    match e
    case InitialRequest(_, _, _, _, _) => InitialOpens(s, e, id);
    case Payload(_, _, _, _, _, _, _, _, _, _) => PayloadOpens(s, e, id);
    case _ =>
      OthersOpenNothing(s, e);
  }

  lemma OthersOpenNothing(s: Dispatcher, e: Event)
    requires Inv(s) && !s.terminated && |Known(s)| < Count(CLIENT_STREAM_ID) && !e.InitialRequest? && !e.Payload?
    ensures Step(s, e).streams <= s.streams && Step(s, e).requestFragments <= s.requestFragments
  {
    hide Inv, FreeId, Fated, PayloadHandled, SessionUnregistered, Known;
    match e
    case CancelOrError(x, fate) => FateTells(s, x, fate); UnregisteredTells(s, x);
    case StreamSignal(x, fate) => FateTells(s, x, fate);
    case InvalidPayload(x, _) => UnregisteredTells(s, x);
    case _ =>
  }

  lemma InitialOpens(s: Dispatcher, e: Event, id: int)
    requires Inv(s) && !s.terminated && |Known(s)| < Count(CLIENT_STREAM_ID) && e.InitialRequest?
    ensures id !in s.streams ==> (id in Step(s, e).streams <==> Admits(s, e) && StartsWhole(e, id))
    ensures id !in s.requestFragments ==>
              (id in Step(s, e).requestFragments <==> Admits(s, e) && StartsIncomplete(e, id))
  {
    NewIdIsLegal(s);
    InitialTells(s, e);
    StepKeeps(s, e);
    hide Step, FreeId;
  }

  lemma PayloadOpens(s: Dispatcher, e: Event, id: int)
    requires Inv(s) && !s.terminated && e.Payload?
    ensures id !in s.streams ==>
              (id in PayloadHandled(s, e).streams <==> id in s.requestFragments && Completes(e, id))
    ensures id !in s.requestFragments ==> id !in PayloadHandled(s, e).requestFragments
  {
    if e.id in s.requestFragments {
      ContinuationTells(s, e);
    } else if e.id in s.streams {
      PayloadTells(s, e);
    }
    hide RequestContinued, PayloadContinued;
  }

  lemma {:induction false} RunLast(s: Dispatcher, events: seq<Event>)
    requires Inv(s) && events != []
    ensures var before := Run(s, events[..|events| - 1]);
            Inv(before) && Run(s, events) == Step(before, events[|events| - 1])
    decreases events
  {
    hide Step;
    StepKeeps(s, events[0]);
    if |events| > 1 {
      RunLast(Step(s, events[0]), events[1..]);
      assert events[1..][..|events| - 2] == events[..|events| - 1][1..];
    } else {
      assert Run(Step(s, events[0]), events[1..]) == Step(s, events[0]);
    }
  }

  /** Some event of the run was the first frame of a request under this id. */
  ghost predicate WasIncomplete(events: seq<Event>, id: int)
  {
    exists j :: 0 <= j < |events| && StartsIncomplete(events[j], id)
  }

  ghost predicate WasWhole(events: seq<Event>, id: int)
  {
    exists k :: 0 <= k < |events| && StartsWhole(events[k], id)
  }

  /** Some event completed a request that an earlier one had begun. */
  ghost predicate WasCompleted(events: seq<Event>, id: int)
  {
    exists k :: 0 <= k < |events| && Completes(events[k], id) && WasIncomplete(events[..k], id)
  }

  /**
    Over every run: a controller never sees part of a request. An active stream began with a request
    in one frame, or with one that announced more and was completed by a later fragment; every
    incomplete request began with one that announced more.
   */
  lemma {:induction false} StreamsWereWhole(events: seq<Event>, id: int)
    ensures id in Run(EMPTY, events).streams ==> WasWhole(events, id) || WasCompleted(events, id)
    ensures id in Run(EMPTY, events).requestFragments ==> WasIncomplete(events, id)
    decreases events
  {
    hide Step, Run, StartsWhole, StartsIncomplete, Completes;
    if events == [] {
      RunOfNothing(EMPTY);
    } else {
      var n := |events| - 1;
      var before := Run(EMPTY, events[..n]);
      RunLast(EMPTY, events);
      StreamsWereWhole(events[..n], id);
      HistoryGrows(events, id);
      if before.terminated || |Known(before)| >= Count(CLIENT_STREAM_ID) {
        FullStays(before, events[n]);
      } else {
        StepOpens(before, events[n], id);
      }
    }
  }

  lemma RunOfNothing(s: Dispatcher)
    requires Inv(s)
    ensures Run(s, []) == s
  {}

  lemma FullStays(s: Dispatcher, e: Event)
    requires Inv(s) && (s.terminated || |Known(s)| >= Count(CLIENT_STREAM_ID))
    ensures Step(s, e) == s
  {}

  lemma HistoryGrows(events: seq<Event>, id: int)
    requires events != []
    ensures var front, last := events[..|events| - 1], events[|events| - 1];
            && (WasWhole(front, id) || StartsWhole(last, id) ==> WasWhole(events, id))
            && (WasIncomplete(front, id) || StartsIncomplete(last, id) ==> WasIncomplete(events, id))
            && (WasCompleted(front, id) || (Completes(last, id) && WasIncomplete(front, id)) ==>
                  WasCompleted(events, id))
  {
    hide StartsWhole, StartsIncomplete, Completes;
    var front := events[..|events| - 1];
    assert forall k :: 0 <= k < |front| ==> front[k] == events[k] && front[..k] == events[..k];
  }

  // Requests the requester gives up

  /** CANCEL or ERROR for an incomplete request forgets it, and for an id that is not in use does nothing. */
  lemma CancelForgets(s: Dispatcher, id: int, fate: Fate)
    requires Inv(s) && !s.terminated && |Known(s)| < Count(CLIENT_STREAM_ID)
    ensures var t := Step(s, CancelOrError(id, fate));
            if id in s.requestFragments then
              && id !in Known(t)
              && (if s.graceful && s.streams == {} && s.requestFragments == {id} then t.terminated
                  else t == s.(requestFragments := s.requestFragments - {id}))
            else if id in s.streams then id in Known(t) <==> fate == Stays
            else t == s
  {
    hide Fated, SessionUnregistered, Known, FreeId, Admitted, PayloadHandled;
    UnregisteredTells(s, id);
    FateTells(s, id, fate);
    assert id in s.streams ==> id in Known(s) by { StreamIsKnown(s, id); }
  }

  lemma StreamIsKnown(s: Dispatcher, id: int)
    ensures id in s.streams ==> id in Known(s)
  {}

  /** Forgetting an incomplete request changes nothing else, unless a closing session ends with it. */
  lemma UnregisteredTells(s: Dispatcher, id: int)
    requires Inv(s) && !s.terminated
    ensures var t := SessionUnregistered(s, id);
            && id !in Known(t) && t.streams <= s.streams && t.requestFragments <= s.requestFragments
            && (id in s.requestFragments ==>
                  if s.graceful && s.streams == {} && s.requestFragments == {id} then t.terminated
                  else t == s.(requestFragments := s.requestFragments - {id}))
  {
    if id in s.requestFragments {
      assert id !in s.streams && id !in s.payloadFragments && id !in s.ignored;
      assert s.requestFragments - {id} == {} <==> s.requestFragments == {id};
      assert s.streams - {id} == s.streams && s.payloadFragments - {id} == s.payloadFragments
             && s.ignored - {id} == s.ignored;
    }
  }
}
