/** The server's dispatcher object, each operation refining its specification on values. */
module InteractionDispatcher {
  import opened Common
  import opened StreamIds
  import opened Spec = Interactions
  import opened InteractionHistory

  class ServerInteractionDispatcher {
    var streams: set<int>
    var payloadFragments: set<int>
    var requestFragments: set<int>
    var ignored: set<int>
    var nextStreamId: int
    var graceful: bool
    var terminated: bool

    ghost function State(): Dispatcher
      reads this
    {
      Dispatcher(streams, payloadFragments, requestFragments, ignored, nextStreamId, graceful, terminated)
    }

    /** The bookkeeping invariant of the session. */
    ghost predicate Valid()
      reads this
    {
      Inv(State())
    }

    constructor ()
      ensures Valid() && State() == EMPTY
    {
      streams, payloadFragments, requestFragments, ignored := {}, {}, {}, {};
      nextStreamId, graceful, terminated := 1, false, false;
    }

    function HasStream(id: int): (known: bool)
      reads this
      ensures known <==> id in Known(State())
    {
      id in streams || id in requestFragments || id in payloadFragments || id in ignored
    }

    /** Nothing is known of the interaction any more, and an idle closing session has ended. */
    method Unregister(id: int)
      requires Valid()
      modifies this
      ensures Valid() && State() == SessionUnregistered(old(State()), id)
      ensures !HasStream(id) && !Lingers(State())
    {
      RemovalKeeps(State(), id);
      hide Inv;
      streams := streams - {id};
      payloadFragments := payloadFragments - {id};
      requestFragments := requestFragments - {id};
      ignored := ignored - {id};
      FinishGracefulCloseIfIdle();
    }

    method FinishGracefulCloseIfIdle()
      requires Valid()
      modifies this
      ensures Valid() && State() == ClosedIfIdle(old(State()))
      ensures !Lingers(State())
    {
      RemovalKeeps(State(), 0);
      hide Inv;
      if graceful && streams == {} && requestFragments == {} {
        Close();
      }
    }

    /** Whatever its state was, a closed session knows no interaction. */
    method Close()
      requires Valid()
      modifies this
      ensures Valid() && State() == Closed(old(State()))
      ensures terminated && forall id :: !HasStream(id)
    {
      RemovalKeeps(State(), 0);
      hide Inv;
      streams, payloadFragments, requestFragments, ignored := {}, {}, {}, {};
      terminated := true;
    }

    /**
      `ended` says whether the stream had already ended itself, so that ending it again does nothing,
      `sent` whether the ERROR frame can be sent. Only without it, or through a live stream, does an
      idle closing session notice that it is idle.
     */
    method StreamError(id: int, ended: bool, sent: bool)
      requires Valid() && !terminated
      modifies this
      ensures Valid() && State() == StreamFailed(old(State()), id, ended, sent)
      ensures !HasStream(id)
      ensures Lingers(State()) <==> graceful && sent && (ended || id !in old(streams)) && Idle(State())
    {
      FailureLingers(State(), id, ended, sent);
      FailureKeeps(State(), id, ended, sent);
      RemovalKeeps(State(), id);
      hide Inv;
      if id in streams && !ended {
        Unregister(id);
      }
      streams := streams - {id};
      payloadFragments := payloadFragments - {id};
      requestFragments := requestFragments - {id};
      ignored := ignored - {id};
      if !terminated && !sent {
        assert State() == if id in old(streams) && !ended then SessionUnregistered(old(State()), id)
                          else Unregistered(old(State()), id);
        RemovalKeeps(old(State()), id);
        Close();
      }
    }

    /** Skips ids in use, then judges the id of a new request. */
    method ValidateNewStreamId(streamId: int) returns (verdict: Verdict)
      requires Valid() && |Known(State())| < Count(CLIENT_STREAM_ID)
      modifies this`nextStreamId
      ensures Valid() && State() == Advanced(old(State()))
      ensures verdict == Judge(State(), streamId)
      ensures verdict == Accepted <==> streamId == FreeId(old(nextStreamId), old(Known(State())), CLIENT_STREAM_ID)
      ensures verdict == Accepted ==> !HasStream(streamId)
      ensures verdict == Duplicate ==> HasStream(streamId)
    {
      ghost var start, open, d := nextStreamId, Known(State()), SkippedBefore(nextStreamId, Known(State()));
      ghost var k: nat := 0;
      while HasStream(nextStreamId)
        invariant k <= d && nextStreamId == Nth(start, k, CLIENT_STREAM_ID)
        invariant AllOpen(start, open, k, CLIENT_STREAM_ID)
        invariant State() == old(State()).(nextStreamId := nextStreamId)
        decreases d - k
      {
        nextStreamId := NextId(nextStreamId, CLIENT_STREAM_ID);
        k := k + 1;
      }
      FoundFree(start, open, k);
      AdvancedKeeps(old(State()), streamId);
      if streamId <= 0 || streamId % 2 == 0 {
        verdict := Violation;
      } else if streamId in streams || streamId in requestFragments {
        verdict := Duplicate;
      } else if streamId != nextStreamId {
        verdict := Violation;
      } else {
        verdict := Accepted;
      }
    }

    /** Admits a request id; a violation ends the session. */
    method Admit(streamId: int) returns (accepted: bool)
      requires Valid() && |Known(State())| < Count(CLIENT_STREAM_ID)
      modifies this
      ensures Valid() && State() == Admitted(old(State()), streamId)
      ensures accepted == (Judge(Advanced(old(State())), streamId) == Accepted)
      ensures accepted ==> !HasStream(streamId) && Legal(streamId, CLIENT_STREAM_ID)
    {
      AdmittedKeeps(State(), streamId);
      AdvancedKeeps(State(), streamId);
      hide FreeId, Inv;
      var verdict := ValidateNewStreamId(streamId);
      accepted := verdict == Accepted;
      match verdict
      case Accepted => nextStreamId := NextId(streamId, CLIENT_STREAM_ID);
      case Duplicate =>
      case Violation => Close();
    }

    method Dispatch(id: int, outcome: Outcome)
      requires Valid() && !terminated && id !in requestFragments && id !in streams && Legal(id, CLIENT_STREAM_ID)
      modifies this
      ensures Valid() && State() == Dispatched(old(State()), id, outcome)
      ensures id in streams <==> outcome == Registers
      ensures Lingers(State()) <==> graceful && FailsQuietly(outcome) && Idle(old(State()))
    {
      DispatchedKeeps(State(), id, outcome);
      DispatchLingers(State(), id, outcome);
      assert Inv(State().(streams := State().streams + {id}));
      hide Inv, Lingers;
      match outcome
      case Registers =>
        streams := streams + {id};
      case Responded =>
        streams := streams + {id};
        Unregister(id);
      case Refused(sent, errorSent) =>
        if sent {
          Unregister(id);
        } else {
          StreamError(id, false, errorSent);
        }
      case Faulted(ended, sent) =>
        streams := streams + {id};
        StreamError(id, ended, sent);
    }

    /**
      A new request is judged, and then refused, buffered or dispatched. If its ERROR frames can be
      sent, no other interaction ends by it unless its id violates the sequence.
     */
    method HandleInitialRequest(e: Spec.Event)
      requires Valid() && !terminated && |Known(State())| < Count(CLIENT_STREAM_ID) && e.InitialRequest?
      modifies this
      ensures Valid() && State() == Spec.Step(old(State()), e)
      ensures var expected := e.id == FreeId(old(nextStreamId), old(Known(State())), CLIENT_STREAM_ID);
              && (expected && (!e.admitted || old(graceful)) ==> !HasStream(e.id))
              && (expected && e.admitted && !old(graceful) && e.follows ==>
                    e.id in requestFragments && e.id !in streams)
              && (expected && e.admitted && !old(graceful) && !e.follows ==>
                    e.id !in requestFragments && (e.id in streams <==> e.outcome == Registers))
              && (!expected ==>
                    if e.id > 0 && e.id % 2 == 1 && (e.id in old(streams) || e.id in old(requestFragments)) then
                      streams == old(streams) && requestFragments == old(requestFragments) && !terminated
                    else terminated)
      ensures !old(Lingers(State())) ==> !Lingers(State())
      ensures Judge(Advanced(old(State())), e.id) != Violation && !Unsent(e) ==>
                forall other :: Holds(old(State()), other) ==> Holds(State(), other)
    {
      InitialKeeps(State(), e);
      InitialTells(State(), e);
      ghost var was := State();
      if !Lingers(was) {
        RequestLingers(was, e);
      }
      if Judge(Advanced(was), e.id) != Violation && !Unsent(e) {
        forall other | Holds(was, other) ensures Holds(Spec.Step(was, e), other) {
          RequestSparesOthers(was, e, other);
        }
      }
      AdmitKeepsGraceful(State(), e.id);
      AdmittedKeeps(State(), e.id);
      hide Admitted, Advanced, SessionUnregistered, Dispatched, Inv, Holds, Lingers, Unsent;
      var accepted := Admit(e.id);
      if accepted {
        if !e.admitted || graceful {
          if e.rejectionSent {
            Unregister(e.id);
          } else {
            Close();
          }
        } else if e.follows {
          requestFragments := requestFragments + {e.id};
        } else {
          Dispatch(e.id, e.outcome);
        }
      }
    }

    /** The id of a lost fire-and-forget request counts as used, and the next one is expected after it. */
    method SkipFireAndForget(id: int)
      requires Valid() && !terminated && |Known(State())| < Count(CLIENT_STREAM_ID)
      modifies this
      ensures Valid() && State() == Spec.Step(old(State()), SkippedFireAndForget(id))
      ensures id == FreeId(old(nextStreamId), old(Known(State())), CLIENT_STREAM_ID) ==>
                nextStreamId == NextId(id, CLIENT_STREAM_ID) && Known(State()) == old(Known(State()))
    {
      AdvancedKeeps(State(), id);
      hide FreeId, Inv;
      var _ := Admit(id);
    }

    /** A stream goes on, ends, or fails. */
    method Settle(id: int, fate: Fate)
      requires Valid() && !terminated && id in streams
      modifies this
      ensures Valid() && State() == Fated(old(State()), id, fate)
      ensures HasStream(id) <==> fate == Stays
      ensures Lingers(State()) ==> old(Lingers(State())) || fate == Fails(true)
    {
      FatedKeeps(State(), id, fate);
      FateLingers(State(), id, fate);
      hide Inv, Lingers;
      match fate
      case Stays =>
      case Ends => Unregister(id);
      case Fails(sent) => StreamError(id, true, sent);
    }

    method ContinueRequest(e: Spec.Event)
      requires Valid() && !terminated && e.Payload? && e.id in requestFragments
      modifies this
      ensures Valid() && State() == RequestContinued(old(State()), e)
      ensures e.id in requestFragments <==> !e.broken && More(e.follows, e.complete)
      ensures e.id in streams <==> !e.broken && !More(e.follows, e.complete) && e.outcome == Registers
      ensures e.broken ==> !HasStream(e.id)
      ensures !e.broken && More(e.follows, e.complete) ==> State() == old(State())
    {
      ContinuationTells(State(), e);
      ghost var r := State().(requestFragments := State().requestFragments - {e.id});
      assert Inv(r) && Legal(e.id, CLIENT_STREAM_ID) && e.id !in streams;
      hide Inv, Dispatched, StreamFailed, SessionUnregistered, Lingers;
      if e.broken {
        requestFragments := requestFragments - {e.id};
        if e.fnf {
          Unregister(e.id);
        } else {
          StreamError(e.id, false, e.errorSent);
        }
      } else if !More(e.follows, e.complete) {
        requestFragments := requestFragments - {e.id};
        Dispatch(e.id, e.outcome);
      }
    }

    method ContinuePayload(e: Spec.Event)
      requires Valid() && !terminated && e.Payload? && e.id in streams
      modifies this
      ensures Valid() && State() == PayloadContinued(old(State()), e)
      ensures e.id in payloadFragments <==> e.accepted && !e.broken && More(e.follows, e.complete)
      ensures e.id in streams
              <==> !e.accepted
                   || (!e.broken && (More(e.follows, e.complete) || ((e.next || e.complete) && e.fate == Stays)))
      ensures e.id !in streams ==> !HasStream(e.id)
    {
      PayloadTells(State(), e);
      ghost var p := State().(payloadFragments := State().payloadFragments - {e.id});
      assert Inv(p) && Inv(State().(payloadFragments := State().payloadFragments + {e.id}));
      assert forall s: Dispatcher :: e.id !in Known(s) ==> e.id !in s.payloadFragments;
      hide Inv, StreamFailed, SessionUnregistered, Lingers;
      if !e.accepted {
        payloadFragments := payloadFragments - {e.id};
      } else if !e.broken && More(e.follows, e.complete) {
        payloadFragments := payloadFragments + {e.id};
      } else {
        payloadFragments := payloadFragments - {e.id};
        if e.broken || (!e.next && !e.complete) {
          StreamError(e.id, false, e.errorSent);
        } else {
          Settle(e.id, e.fate);
        }
      }
    }

    /**
      If its ERROR frames can be sent, a PAYLOAD ends no interaction but its own. A known id that is
      neither ignored nor an incomplete request belongs to an active stream.
     */
    method HandlePayload(e: Spec.Event)
      requires Valid() && !terminated && e.Payload?
      modifies this
      ensures Valid() && State() == Spec.PayloadHandled(old(State()), e)
      ensures !Unsent(e) ==> forall other :: other != e.id && Holds(old(State()), other) ==> Holds(State(), other)
      ensures !old(Lingers(State())) ==>
                (Lingers(State()) <==> old(graceful) && RemovesByError(old(State()), e) && IsLast(old(State()), e.id))
      ensures !old(HasStream(e.id)) ==> State() == old(State())
      ensures e.id in old(ignored) ==>
                State() == old(State()).(ignored := old(ignored) - if More(e.follows, e.complete) then {} else {e.id})
      ensures e.id in old(requestFragments) ==>
                && (e.id in requestFragments <==> !e.broken && More(e.follows, e.complete))
                && (e.id in streams <==> !e.broken && !More(e.follows, e.complete) && e.outcome == Registers)
      ensures e.id in old(streams) && e.id !in old(ignored) ==>
                (e.id in streams
                 <==> !e.accepted
                      || (!e.broken && (More(e.follows, e.complete) || ((e.next || e.complete) && e.fate == Stays))))
    {
      ghost var was := State();
      PayloadKeeps(was, e);
      if !Lingers(was) {
        PayloadLingers(was, e);
      }
      if !Unsent(e) {
        forall other | other != e.id && Holds(was, other) ensures Holds(Spec.PayloadHandled(was, e), other) {
          PayloadSparesOthers(was, e, other);
        }
      }
      assert e.id in requestFragments ==> e.id !in ignored;
      hide RequestContinued, PayloadContinued, Inv, Holds, Lingers, Unsent, RemovesByError, IsLast;
      if HasStream(e.id) {
        if e.id in ignored {
          if !More(e.follows, e.complete) {
            ignored := ignored - {e.id};
          }
        } else if e.id in requestFragments {
          ContinueRequest(e);
        } else if e.id in streams {
          ContinuePayload(e);
        }
      }
    }

    /**
      CANCEL or ERROR from the requester: an incomplete request is forgotten, an active stream decides
      itself, and any other id is nobody's.
     */
    method HandleCancelOrError(id: int, fate: Fate)
      requires Valid() && !terminated
      modifies this
      ensures Valid()
      ensures |old(Known(State()))| < Count(CLIENT_STREAM_ID) ==>
                State() == Spec.Step(old(State()), CancelOrError(id, fate))
      ensures id in old(requestFragments) ==> !HasStream(id)
      ensures id in old(streams) ==> (HasStream(id) <==> fate == Stays)
      ensures id !in old(streams) && id !in old(requestFragments) ==> State() == old(State())
    {
      assert id in streams ==> id !in requestFragments;
      hide FreeId, Inv, Lingers, Fated, SessionUnregistered;
      if id in requestFragments {
        Unregister(id);
      } else if id in streams {
        Settle(id, fate);
      }
    }

    /** A request whose metadata is malformed uses up its id, and the rest of its fragments are ignored. */
    method IgnoreInvalidRequest(id: int, more: bool)
      requires Valid() && !terminated && |Known(State())| < Count(CLIENT_STREAM_ID)
      modifies this
      ensures Valid() && State() == Spec.Step(old(State()), InvalidInitial(id, more))
      ensures id == FreeId(old(nextStreamId), old(Known(State())), CLIENT_STREAM_ID) ==>
                && nextStreamId == NextId(id, CLIENT_STREAM_ID)
                && streams == old(streams) && requestFragments == old(requestFragments)
                && ignored == if more then old(ignored) + {id} else old(ignored)
    {
      StepKeeps(State(), InvalidInitial(id, more));
      AdvancedKeeps(State(), id);
      hide FreeId, Inv;
      var accepted := Admit(id);
      if accepted {
        ignored := if more then ignored + {id} else ignored - {id};
      }
    }

    /**
      A malformed payload drops its incomplete request, or its fragments and all that follow of them.
      Frames of unknown ids and of sequences already ignored do not get here.
     */
    method IgnoreInvalidPayload(id: int, more: bool)
      requires Valid() && !terminated && HasStream(id) && id !in ignored
      modifies this
      ensures Valid()
      ensures |old(Known(State()))| < Count(CLIENT_STREAM_ID) ==>
                State() == Spec.Step(old(State()), InvalidPayload(id, more))
      ensures id in old(requestFragments) ==> !HasStream(id)
      ensures id !in old(requestFragments) ==>
                && streams == old(streams) && requestFragments == old(requestFragments)
                && payloadFragments == old(payloadFragments) - {id}
                && ignored == if more then old(ignored) + {id} else old(ignored) - {id}
    {
      assert id !in requestFragments ==>
          Inv(State().(payloadFragments := payloadFragments - {id}, ignored := IgnoredUpdate(ignored, id, more)));
      if |Known(State())| < Count(CLIENT_STREAM_ID) {
        InvalidPayloadIs(State(), id, more);
      }
      hide Spec.Step, FreeId, Inv, SessionUnregistered;
      if id in requestFragments {
        Unregister(id);
      } else {
        payloadFragments := payloadFragments - {id};
        ignored := if more then ignored + {id} else ignored - {id};
      }
    }
  }

  /** The one id a request may use is the first free one. */
  lemma AdvancedKeeps(s: Dispatcher, id: int)
    requires Inv(s) && |Known(s)| < Count(CLIENT_STREAM_ID)
    ensures Inv(Advanced(s))
    ensures Judge(Advanced(s), id) == Accepted <==> id == FreeId(s.nextStreamId, Known(s), CLIENT_STREAM_ID)
    ensures Judge(Advanced(s), id) == Accepted ==> id !in Known(s)
    ensures Judge(Advanced(s), id) == Duplicate ==> id in Known(s)
  {
    hide FreeId;
    var expected := FreeId(s.nextStreamId, Known(s), CLIENT_STREAM_ID);
    FirstFreeIsLegal(s.nextStreamId, Known(s), expected, CLIENT_STREAM_ID);
    var d: nat :| FirstFreeAt(s.nextStreamId, Known(s), expected, d, CLIENT_STREAM_ID);
    assert expected !in Known(s);
  }

  /** What a malformed payload of a known id does, unless the rest of its sequence is ignored already. */
  lemma InvalidPayloadIs(s: Dispatcher, id: int, more: bool)
    requires Inv(s) && !s.terminated && id in Known(s) && id !in s.ignored && |Known(s)| < Count(CLIENT_STREAM_ID)
    ensures Spec.Step(s, InvalidPayload(id, more))
            == if id in s.requestFragments then SessionUnregistered(s, id)
               else s.(payloadFragments := s.payloadFragments - {id}, ignored := IgnoredUpdate(s.ignored, id, more))
  {}

  lemma AdmitKeepsGraceful(s: Dispatcher, id: int)
    requires Inv(s) && |Known(s)| < Count(CLIENT_STREAM_ID)
    ensures Admitted(s, id).graceful == s.graceful
  {}

  /** How many ids the server skips before it finds a free one. */
  ghost function SkippedBefore(next: int, open: set<int>): (d: nat)
    requires Legal(next, CLIENT_STREAM_ID) && |open| < Count(CLIENT_STREAM_ID)
    ensures Nth(next, d, CLIENT_STREAM_ID) !in open
  {
    SomeIsFree(next, open, CLIENT_STREAM_ID);
    var d: nat :| Nth(next, d, CLIENT_STREAM_ID) !in open;
    d
  }

  /** The first id found free is the one both ends compute. */
  lemma FoundFree(next: int, open: set<int>, k: nat)
    requires Legal(next, CLIENT_STREAM_ID) && |open| < Count(CLIENT_STREAM_ID)
    requires AllOpen(next, open, k, CLIENT_STREAM_ID) && Nth(next, k, CLIENT_STREAM_ID) !in open
    ensures FreeId(next, open, CLIENT_STREAM_ID) == Nth(next, k, CLIENT_STREAM_ID)
  {
    WithinPeriod(next, open, k, CLIENT_STREAM_ID);
    var id := Nth(next, k, CLIENT_STREAM_ID);
    assert FirstFreeAt(next, open, id, k, CLIENT_STREAM_ID);
    FirstFreeIsUnique(next, open, id, FreeId(next, open, CLIENT_STREAM_ID), CLIENT_STREAM_ID);
  }
}
