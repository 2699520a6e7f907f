/** The write lane object, one method for each uninterrupted piece of its code. */
module NativeWriteLane {
  import opened Common
  import opened Spec = WriteLane
  import Runs = WriteLaneRuns

  /** Runs callbacks one by one until one throws. */
  method RunAll(callbacks: seq<nat>, faulty: set<nat>, before: multiset<nat>) returns (ran: multiset<nat>, threw: bool)
    ensures threw <==> Throws(callbacks, faulty)
    ensures ran == before + multiset(callbacks[..Executed(callbacks, faulty)])
  {
    ran, threw := before, false;
    var i := 0;
    while i < |callbacks| && !threw
      invariant 0 <= i <= |callbacks|
      invariant forall j :: 0 <= j < i - 1 ==> callbacks[j] !in faulty
      invariant threw ==> i > 0 && callbacks[i - 1] in faulty
      invariant !threw && i > 0 ==> callbacks[i - 1] !in faulty
      invariant ran == before + multiset(callbacks[..i])
      decreases |callbacks| - i
    {
      assert callbacks[..i + 1] == callbacks[..i] + [callbacks[i]];
      ran := ran + multiset{callbacks[i]};
      threw := callbacks[i] in faulty;
      i := i + 1;
    }
    assert i == Executed(callbacks, faulty);
    assert callbacks[..|callbacks|] == callbacks;
  }

  /** What happened to a lane so far and none of its fields tells. */
  datatype Past = Past(
    accepted: seq<Packet>, started: seq<Packet>, completed: nat, base: nat, lost: set<nat>, discarded: bool, kept: bool)

  class RSocketWebTransportWriteLane {
    var packets: seq<Packet>
    var settled: map<Packet, nat>
    var order: seq<Packet>
    var head: nat
    var writer: bool
    var opening: bool
    var phase: Phase
    var finishing: bool
    var closed: bool
    var owners: seq<Packet>
    var ran: multiset<nat>
    var failures: nat
    const faulty: set<nat>
    ghost var past: Past

    ghost function State(): Lane
      reads this
    {
      Lane(packets, settled, order, head, writer, opening, phase, finishing, closed, past.accepted, past.started,
           past.completed, past.base, owners, ran, past.lost, failures, past.discarded, past.kept, faulty)
    }

    /** The invariant of the lane: its queue, its callbacks, and what was written so far. */
    ghost predicate Valid()
      reads this
    {
      Inv(State())
    }

    constructor (preface: Option<Packet>, faulty: set<nat>)
      ensures Valid() && State() == Opening(preface, faulty)
    {
      packets, settled, order, head := if preface.Some? then [preface.value] else [], map[], [], 0;
      writer, opening, phase, finishing, closed := false, true, Rest, false, false;
      owners, ran, failures := [], multiset{}, 0;
      past := Past(if preface.Some? then [preface.value] else [], [], 0, 0, {}, false, false);
      this.faulty := faulty;
      new;
      OpeningInv(preface, faulty);
    }

    method ClearQueue()
      modifies this`packets, this`settled, this`order, this`head, this`past
      ensures State() == Cleared(old(State()))
    {
      packets, settled, order, head := [], map[], [], 0;
      past := past.(base := |past.accepted|);
    }

    /** Takes the map of waiting callbacks away. */
    method TakeCallbacks() returns (callbacks: seq<nat>)
      modifies this`settled, this`order
      ensures callbacks == Callbacks(old(State()))
      ensures State() == old(State()).(settled := map[], order := [])
    {
      var keys, values := order, settled;
      callbacks := seq(|keys|, i requires 0 <= i < |keys| => CallbackOf(values, keys[i]));
      settled, order := map[], [];
    }

    /** Runs the callbacks of packets that will not be written, until one throws. */
    method FinishCallbacks() returns (threw: bool)
      modifies this`ran, this`settled, this`order, this`past
      ensures State() == CallbacksFinished(old(State()))
      ensures threw <==> Throws(Callbacks(old(State())), faulty)
    {
      hide Callbacks, Throws, Executed, Members;
      var callbacks := TakeCallbacks();
      ran, threw := RunAll(callbacks, faulty, ran);
      past := past.(lost := past.lost + Members(callbacks[Executed(callbacks, faulty)..]));
    }

    /** Closes the lane; a throwing callback leaves the queue behind. */
    method Discard() returns (threw: bool)
      modifies this`closed, this`past, this`ran, this`settled, this`order, this`packets, this`head
      ensures State() == Discarded(old(State()))
      ensures threw <==> Throws(Callbacks(old(State())), faulty)
    {
      hide Cleared, CallbacksFinished, Throws;
      closed := true;
      past := past.(discarded := true);
      assert Callbacks(State()) == Callbacks(old(State()));
      threw := FinishCallbacks();
      if threw {
        past := past.(kept := true);
      } else {
        ClearQueue();
      }
    }

    /**
      Every waiting callback runs, or those up to the first that throws. If none throws the queue is
      dropped and the failure reported. On a closed lane nothing happens.
     */
    method Fail() returns (threw: bool)
      requires Valid()
      modifies this
      ensures Valid() && State() == Failed(old(State()))
      ensures GivenUp(old(State()), State())
      ensures threw <==> !old(closed) && Throws(Callbacks(old(State())), faulty)
    {
      hide Discarded, Inv, Throws, Callbacks, GivenUp;
      threw := false;
      if !closed {
        threw := Discard();
        ghost var discarded := State();
        writer, opening := false, false;
        assert State() == discarded.(writer := false, opening := false);
        if !threw {
          failures := failures + 1;
        }
      }
      assert State() == Failed(old(State()));
      assert Valid() && GivenUp(old(State()), State()) by { FailGives(old(State())); }
    }

    /** No callback waits any more; each has run, or is lost behind one that threw. */
    method Abort() returns (threw: bool)
      requires Valid()
      modifies this
      ensures Valid() && State() == Aborted(old(State()))
      ensures Abandoned(old(State()), State())
      ensures threw <==> !old(closed) && Throws(Callbacks(old(State())), faulty)
    {
      hide Discarded, Inv, Throws, Callbacks, Abandoned;
      threw := false;
      if !closed {
        threw := Discard();
        if !threw {
          writer := false;
        }
      }
      assert State() == Aborted(old(State()));
      assert Valid() && Abandoned(old(State()), State()) by { AbortGives(old(State())); }
    }

    /** From the head of the draining loop to its next `await`, or to its end. */
    method Loop()
      modifies this
      ensures State() == Looped(old(State()))
    {
      if head < |packets| {
        phase := Writing(head, packets[head]);
        past := past.(started := past.started + [packets[head]]);
      } else {
        ClearQueue();
        if finishing {
          closed, writer, phase := true, false, Closing;
        } else {
          phase := Rest;
        }
      }
    }

    method Drain()
      modifies this
      ensures State() == Woken(old(State()))
    {
      if !opening && !closed && phase == Rest {
        Loop();
      }
    }

    method Register(packet: Packet)
      modifies this`settled, this`order, this`owners, this`past
      ensures State() == Registered(old(State()), packet)
    {
      if packet in settled {
        past := past.(lost := past.lost + {settled[packet]});
      } else {
        order := order + [packet];
      }
      settled := settled[packet := |owners|];
      owners := owners + [packet];
    }

    /** An accepted packet is the last in line, and once the lane has its writer the drain is running. */
    method Enqueue(packet: Packet, callback: bool) returns (ok: bool)
      requires Valid()
      modifies this
      ensures Valid() && State() == Enqueued(old(State()), packet, callback)
      ensures ok <==> !old(closed || finishing)
      ensures past.accepted == if ok then old(past.accepted) + [packet] else old(past.accepted)
      ensures ok ==> !closed && (opening || phase != Rest)
      ensures ok && callback ==> Waiting(State(), |old(owners)|)
    {
      EnqueueGives(State(), packet, callback);
      hide Enqueued, Inv, Waiting;
      ok := Append(packet, callback);
    }

    method Append(packet: Packet, callback: bool) returns (ok: bool)
      modifies this
      ensures State() == Enqueued(old(State()), packet, callback)
      ensures ok <==> !old(closed || finishing)
    {
      hide Woken, Registered;
      ok := !closed && !finishing;
      if ok {
        packets := packets + [packet];
        past := past.(accepted := past.accepted + [packet]);
        if callback {
          Register(packet);
        }
        Drain();
      }
    }

    /** A resting lane closes its writer at once, any other when its queue is written. */
    method Finish()
      requires Valid()
      modifies this
      ensures Valid() && State() == Finished(old(State()))
      ensures closed || finishing
      ensures !old(closed || opening || finishing) && old(phase) == Rest ==>
                phase == Closing && past.started == past.accepted
    {
      FinishGives(State());
      hide Inv, Woken;
      if !closed && !finishing {
        finishing := true;
        Drain();
      }
    }

    /** What was queued while the lane was opening is written from now on. */
    method WriterReady()
      requires Valid() && opening
      modifies this
      ensures Valid() && State() == AfterWriterReady(old(State()))
      ensures WritesNext(State())
    {
      ReadyGives(State());
      hide Inv, Woken, WritesNext;
      if !closed {
        writer, opening := true, false;
        Drain();
      }
    }

    /** The awaited native write succeeded, and the callback of its packet runs, if one waits for it. */
    method WriteResolved()
      requires Valid() && phase.Writing?
      modifies this
      ensures Valid() && State() == Resolved(old(State()))
      ensures WrittenNow(old(State()), State())
    {
      hide Inv, CallbackRun, WrittenNow;
      var packet := phase.packet;
      var callback := if packet in settled then Some(settled[packet]) else None;
      head := phase.index + 1;
      past := past.(completed := past.completed + 1);
      phase := Looping(callback);
      RunCallback(packet);
      assert State() == Resolved(old(State()));
      assert Valid() && WrittenNow(old(State()), State()) by { ResolvedGives(old(State())); }
    }

    method RunCallback(packet: Packet)
      modifies this`ran, this`settled, this`order
      ensures State() == CallbackRun(old(State()), packet)
    {
      hide Without;
      if packet in settled {
        ran := ran + multiset{settled[packet]};
        settled := settled - {packet};
        order := Without(order, packet);
      }
    }

    /** The callback of the packet just written returned: the next accepted packet is written, if there is one. */
    method CallbackReturned()
      requires Valid() && phase.Looping? && !Throwing(State())
      modifies this
      ensures Valid() && State() == Continued(old(State()))
      ensures WritesNext(State())
    {
      hide Inv, Looped, Throwing, WritesNext;
      if head >= 64 && head * 2 >= |packets| {
        CompactQueue();
      }
      Loop();
      assert State() == Continued(old(State()));
      assert Valid() && WritesNext(State()) by { ContinuedGives(old(State())); }
    }

    method CompactQueue()
      modifies this`packets, this`head, this`past
      ensures State() == old(State()).(packets := old(packets[Min(head, |packets|)..]), head := 0,
          base := old(past.base + head))
    {
      packets := packets[Min(head, |packets|)..];
      past := past.(base := past.base + head);
      head := 0;
    }

    /** The awaited native write was rejected, or the callback just run threw: the lane is closed, its drain over. */
    method DrainRejected() returns (threw: bool)
      requires Valid() && (phase.Writing? || Throwing(State()))
      modifies this
      ensures Valid() && State() == Failed(old(State())).(phase := Rest)
      ensures GivenUp(old(State()), State())
      ensures threw <==> !old(closed) && Throws(Callbacks(old(State())), faulty)
    {
      hide Failed, Inv, Throws, Callbacks, GivenUp;
      threw := Fail();
      phase := Rest;
      assert State() == Failed(old(State())).(phase := Rest);
      assert Valid() && GivenUp(old(State()), State()) by {
        DrainFailedKeeps(old(State()));
        FailGives(old(State()));
      }
    }

    /** The awaited native close settled: everything accepted was written, unless the lane was aborted. */
    method NativeClosed()
      requires Valid() && phase == Closing
      modifies this
      ensures Valid() && State() == CloseSettled(old(State()))
      ensures closed && phase == Rest && (!past.discarded ==> past.started == past.accepted)
    {
      ClosedGives(State());
      hide Inv;
      phase := Rest;
    }
  }

  // What the invariant gives to the methods

  /** An open lane that has its writer writes the next accepted packet, and rests only if there is none. */
  ghost predicate WritesNext(s: Lane)
  {
    !s.closed ==>
      if s.completed < |s.accepted| then s.phase.Writing? && s.phase.packet == s.accepted[s.completed]
      else s.phase == Rest && !s.finishing
  }

  lemma ClosedIsSettled(s: Lane)
    requires Inv(s) && s.closed
    ensures s.settled == map[]
  {
    if !s.discarded {
      Runs.AtRestIsWritten(s);
    }
  }

  /** Closed, with no callback waiting, and reported unless a callback threw. */
  ghost predicate GivenUp(s: Lane, t: Lane)
  {
    && t.closed && t.settled == map[] && t.failures <= 1
    && (!s.closed ==> (t.failures == 1 <==> !Throws(Callbacks(s), s.faulty)))
  }

  lemma FailGives(s: Lane)
    requires Inv(s)
    ensures Inv(Failed(s)) && GivenUp(s, Failed(s)) && GivenUp(s, Failed(s).(phase := Rest))
  {
    if s.closed {
      ClosedIsSettled(s);
    } else {
      FailKeeps(s);
      DiscardedIs(s);
    }
    hide Discarded, Throws, Callbacks, Accounted, OnTime, Mapped, Stored;
  }

  /** Closed without a report, and each callback that waited has run, unless it was behind one that threw. */
  ghost predicate Abandoned(s: Lane, t: Lane)
  {
    && t.closed && t.settled == map[] && t.failures == s.failures
    && (!s.closed ==> forall k :: Waiting(s, k) ==> (t.ran[k] == 1 <==> !Runs.Behind(s, k)))
  }

  lemma AbortGives(s: Lane)
    requires Inv(s)
    ensures Inv(Aborted(s)) && Abandoned(s, Aborted(s))
  {
    if s.closed {
      ClosedIsSettled(s);
    } else {
      AbortKeeps(s);
      DiscardedIs(s);
      forall k | Waiting(s, k) ensures Aborted(s).ran[k] == 1 <==> !Runs.Behind(s, k) {
        AbortRuns(s, k);
      }
    }
    hide Discarded, Inv, Throws, Callbacks, Waiting, Runs.Behind;
  }

  lemma AbortRuns(s: Lane, k: nat)
    requires Inv(s) && !s.closed && Waiting(s, k)
    ensures Aborted(s).ran[k] == 1 <==> !Runs.Behind(s, k)
  {
    CallbackCount(s, k);
    AbortKeeps(s);
    DiscardedIs(s);
    CallbackCount(Aborted(s), k);
    Runs.DiscardLoses(s, k);
    Runs.FailedHistory(s);
    hide Discarded, Runs.Behind, Callbacks, Throws, Accounted, OnTime, Stored, Mapped;
  }

  lemma WokenRuns(s: Lane)
    requires !s.closed && s.head < |s.packets|
    ensures var t := Woken(s); !t.closed && (t.opening || t.phase != Rest) && SameCallbackMap(s, t)
  {}

  predicate SameCallbackMap(s: Lane, t: Lane)
  {
    t.settled == s.settled && t.owners == s.owners && t.accepted == s.accepted
  }

  lemma EnqueueGives(s: Lane, packet: Packet, callback: bool)
    requires Inv(s)
    ensures var t := Enqueued(s, packet, callback);
            && Inv(t)
            && (!s.closed && !s.finishing ==>
                  && t.accepted == s.accepted + [packet] && !t.closed && (t.opening || t.phase != Rest)
                  && (callback ==> Waiting(t, |s.owners|)))
  {
    EnqueuedKeeps(s, packet, callback);
    var t := s.(packets := s.packets + [packet], accepted := s.accepted + [packet]);
    if !s.closed && !s.finishing {
      WokenRuns(if callback then Registered(t, packet) else t);
    }
    hide Woken, Accounted, OnTime, Mapped, Ordered;
  }

  lemma FinishGives(s: Lane)
    requires Inv(s)
    ensures var t := Finished(s);
            && Inv(t) && (t.closed || t.finishing)
            && (!s.closed && !s.opening && !s.finishing && s.phase == Rest ==>
                  t.phase == Closing && t.started == t.accepted)
  {
    FinishedKeeps(s);
    if !s.closed && !s.opening && s.phase == Rest {
      Runs.AtRestIsWritten(s);
    }
    hide Inv, Accounted, OnTime, Mapped, Ordered;
  }

  /** One turn of the loop of an open lane. */
  lemma LoopWrites(s: Lane)
    requires Stored(s) && !s.phase.Writing?
    ensures WritesNext(Looped(s))
  {
    assert s.head < |s.packets| ==> s.packets[s.head] == s.accepted[s.completed];
    assert s.head < |s.packets| <==> s.completed < |s.accepted|;
  }

  lemma ReadyGives(s: Lane)
    requires Inv(s) && s.opening
    ensures Inv(AfterWriterReady(s)) && WritesNext(AfterWriterReady(s))
  {
    ReadyKeeps(s);
    if !s.closed {
      LoopWrites(s.(writer := true, opening := false));
    }
    hide Inv, Accounted, OnTime, Mapped, Ordered, Looped, WritesNext;
  }

  /** The packet of the pending write counts as written, and every callback that waited for it has run. */
  ghost predicate WrittenNow(s: Lane, t: Lane)
    requires s.phase.Writing?
  {
    && t.completed == s.completed + 1
    && (!s.closed ==> t.completed <= |t.accepted| && t.accepted[s.completed] == s.phase.packet)
    && forall k: nat :: Waiting(s, k) && s.owners[k] == s.phase.packet ==> t.ran[k] == 1
  }

  lemma ResolvedGives(s: Lane)
    requires Inv(s) && s.phase.Writing?
    ensures Inv(Resolved(s)) && WrittenNow(s, Resolved(s))
  {
    ResolvedKeeps(s);
    ResolvedIs(s);
    if !s.closed {
      PendingAdvances(s);
    }
    forall k: nat | Waiting(s, k) && s.owners[k] == s.phase.packet ensures Resolved(s).ran[k] == 1 {
      ResolvedRuns(s, k);
    }
    hide Resolved, Accounted, OnTime, Mapped, Stored, Waiting;
  }

  lemma ResolvedRuns(s: Lane, k: nat)
    requires Accounted(s) && s.phase.Writing? && Waiting(s, k) && s.owners[k] == s.phase.packet
    ensures Resolved(s).ran[k] == 1
  {
    CallbackCount(s, k);
    hide Without, Accounted;
  }

  lemma ContinuedGives(s: Lane)
    requires Inv(s) && s.phase.Looping?
    ensures Inv(Continued(s)) && WritesNext(Continued(s))
  {
    ContinuedKeeps(s);
    if s.discarded {
      StaysClosed(s);
    } else {
      hide Inv, Looped, WritesNext, Accounted, OnTime, Mapped, Ordered;
      TrimmedStored(s);
      LoopWrites(Trimmed(s));
    }
  }

  lemma TrimmedStored(s: Lane)
    requires Inv(s) && s.phase.Looping? && !s.discarded
    ensures Stored(Trimmed(s)) && Trimmed(s).phase.Looping?
  {
    CompactedStored(s);
    hide Accounted, OnTime, Mapped, Ordered, Phased, Stored;
  }

  lemma StaysClosed(s: Lane)
    requires s.closed
    ensures WritesNext(Looped(Trimmed(s)))
  {}

  lemma ClosedGives(s: Lane)
    requires Inv(s) && s.phase == Closing
    ensures var t := CloseSettled(s); Inv(t) && t.closed && (!t.discarded ==> t.started == t.accepted)
  {
    ClosingIsClosed(s);
    if !s.discarded {
      Runs.AtRestIsWritten(s);
    }
    hide Accounted, OnTime, Mapped, Stored;
  }
}
