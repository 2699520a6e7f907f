/** What a write lane promises over every run: order of writes, callbacks, failures and storage. */
module WriteLaneRuns {
  import opened Common
  import opened WriteLane

  /** Fields that only failing, aborting and enqueueing may change. */
  predicate SameHistory(s: Lane, t: Lane)
  {
    t.accepted == s.accepted && t.lost == s.lost && t.kept == s.kept && t.failures == s.failures
  }

  lemma LoopedGrows(s: Lane)
    ensures SameHistory(s, Looped(s))
  {
    assert SameHistory(s, Cleared(s));
    hide Cleared;
  }

  lemma WokenGrows(s: Lane)
    ensures SameHistory(s, Woken(s))
  {
    LoopedGrows(s);
    hide Looped;
  }

  lemma ContinuedGrows(s: Lane)
    ensures SameHistory(s, Continued(s))
  {
    assert SameHistory(s, Trimmed(s));
    LoopedGrows(Trimmed(s));
    hide Looped, Trimmed;
  }

  lemma EnqueuedGrows(s: Lane, packet: Packet, callback: bool)
    ensures var t := Enqueued(s, packet, callback);
            && s.accepted <= t.accepted && t.kept == s.kept && t.failures == s.failures
            && t.lost == if callback && !s.closed && !s.finishing && packet in s.settled
                         then s.lost + {s.settled[packet]} else s.lost
  {
    hide Woken;
    var t := s.(packets := s.packets + [packet], accepted := s.accepted + [packet]);
    WokenGrows(if callback then Registered(t, packet) else t);
  }

  lemma OthersGrow(s: Lane, e: Event)
    requires e.Finish? || e.WriterIsReady? || e.WriteResolves? || e.CloseSettles?
             || (e.CallbackReturns? && !Throwing(s))
    ensures SameHistory(s, Step(s, e))
  {
    hide Woken, Continued, CallbackRun;
    match e
    case Finish => WokenGrows(s.(finishing := true));
    case WriterIsReady => WokenGrows(s.(writer := true, opening := false));
    case WriteResolves => if s.phase.Writing? { CallbackRunIs(Moved(s), s.phase.packet); }
    case CallbackReturns => ContinuedGrows(s);
    case CloseSettles =>
  }

  lemma StepGrows(s: Lane, e: Event)
    ensures s.accepted <= Step(s, e).accepted
  {
    match e
    case Enqueue(packet, callback) => EnqueuedGrows(s, packet, callback);
    case Abort => DiscardedIs(s);
    case WriterFails => DiscardedIs(s);
    case WriteRejects => DiscardedIs(s);
    case CallbackReturns =>
      DiscardedIs(s);
      if !Throwing(s) { OthersGrow(s, e); }
    case _ => OthersGrow(s, e);
  }

  lemma {:induction false} AcceptedGrows(s: Lane, events: seq<Event>)
    ensures s.accepted <= Run(s, events).accepted
    decreases events
  {
    hide Step;
    if events != [] {
      StepGrows(s, events[0]);
      AcceptedGrows(Step(s, events[0]), events[1..]);
    }
  }

  /**
    In every run the native writer is given the preface and then the accepted packets, each in
    order and at most once, and a write starts only after the previous one settled.
   */
  lemma WritesInOrder(preface: Option<Packet>, faulty: set<nat>, events: seq<Event>)
    ensures var s := Run(Opening(preface, faulty), events);
            && s.started <= s.accepted && s.completed <= |s.started| <= s.completed + 1
            && (preface.Some? ==> s.accepted != [] && s.accepted[0] == preface.value)
  {
    Reached(preface, faulty, events);
    if preface.Some? {
      assert Opening(preface, faulty).accepted == [preface.value];
      AcceptedGrows(Opening(preface, faulty), events);
    }
    hide Opening, Run, Accounted, OnTime, Stored, Phased;
  }

  // Lost callbacks

  /** The lane fails by this event: its writer, a write, or the callback of a written packet. */
  predicate Fails(s: Lane, e: Event)
  {
    !s.closed && ((e.WriterFails? && s.opening) || (e.WriteRejects? && s.phase.Writing?)
                  || (e.CallbackReturns? && Throwing(s)))
  }

  predicate Discards(s: Lane, e: Event)
  {
    Fails(s, e) || (e.Abort? && !s.closed)
  }

  /** A waiting callback behind one that throws. */
  ghost predicate Behind(s: Lane, k: nat)
  {
    exists i, j :: 0 <= i < j < |s.order| && Callbacks(s)[i] in s.faulty && Callbacks(s)[j] == k
  }

  /** The event that loses a callback: another one for the same packet object, or discarding behind one that throws. */
  ghost predicate Loses(s: Lane, e: Event, k: nat)
  {
    || (e.Enqueue? && e.callback && !s.closed && !s.finishing && e.packet in s.settled && s.settled[e.packet] == k)
    || (Discards(s, e) && Behind(s, k))
  }

  lemma DiscardLoses(s: Lane, k: nat)
    ensures k in Discarded(s).lost <==> k in s.lost || Behind(s, k)
  {
    BehindIsLate(s, k);
    DiscardedLost(s);
    hide Discarded, Behind, Executed, Callbacks;
  }

  lemma DiscardedLost(s: Lane)
    ensures Discarded(s).lost == s.lost + Members(Callbacks(s)[Executed(Callbacks(s), s.faulty)..])
  {
    assert Callbacks(s.(closed := true, discarded := true)) == Callbacks(s);
    hide Executed, Callbacks, Throws;
  }

  lemma BehindIsLate(s: Lane, k: nat)
    ensures k in Callbacks(s)[Executed(Callbacks(s), s.faulty)..] <==> Behind(s, k)
  {
    var c := Callbacks(s);
    var n := Executed(c, s.faulty);
    hide Executed;
    if k in c[n..] {
      var j :| 0 <= j < |c| - n && c[n..][j] == k;
      assert c[n - 1] in s.faulty && c[n + j] == k;
    }
    if Behind(s, k) {
      var i, j :| 0 <= i < j < |s.order| && c[i] in s.faulty && c[j] == k;
      assert i >= n - 1;
      assert c[n..][j - n] == k;
    }
  }

  lemma FailedHistory(s: Lane)
    ensures Failed(s).lost == if s.closed then s.lost else Discarded(s).lost
    ensures Aborted(s).lost == if s.closed then s.lost else Discarded(s).lost
    ensures Failed(s).kept == (s.kept || (!s.closed && Throws(Callbacks(s), s.faulty))) == Aborted(s).kept
    ensures Failed(s).failures == s.failures + if !s.closed && !Throws(Callbacks(s), s.faulty) then 1 else 0
    ensures Aborted(s).failures == s.failures
  {
    DiscardedIs(s);
    hide Discarded, Throws, Callbacks;
  }

  lemma LostExactly(s: Lane, e: Event, k: nat)
    ensures k in Step(s, e).lost <==> k in s.lost || Loses(s, e, k)
  {
    hide Discarded, Failed, Aborted, Behind, Continued, Enqueued, Resolved, Finished, AfterWriterReady, CloseSettled;
    hide Throwing;
    match e
    case Enqueue(packet, callback) => EnqueuedGrows(s, packet, callback);
    case Abort => FailedHistory(s); DiscardLoses(s, k);
    case WriterFails => FailedHistory(s); DiscardLoses(s, k);
    case WriteRejects => FailedHistory(s); DiscardLoses(s, k);
    case CallbackReturns => FailedHistory(s); DiscardLoses(s, k); ReturnLoses(s, k);
    case _ => OthersGrow(s, e);
  }

  lemma ReturnLoses(s: Lane, k: nat)
    ensures var t := Step(s, CallbackReturns);
            t.lost == (if Throwing(s) && !s.closed then Discarded(s).lost else s.lost)
  {
    FailedHistory(s);
    if !Throwing(s) {
      OthersGrow(s, CallbackReturns);
    }
    hide Failed, Discarded, Continued;
  }

  /** Some event of the run loses the callback. */
  ghost predicate LostIn(s: Lane, events: seq<Event>, k: nat)
    decreases events
  {
    events != [] && (Loses(s, events[0], k) || LostIn(Step(s, events[0]), events[1..], k))
  }

  lemma {:induction false} LostOverRun(s: Lane, events: seq<Event>, k: nat)
    ensures k in Run(s, events).lost <==> k in s.lost || LostIn(s, events, k)
    decreases events
  {
    hide Step, Loses;
    if events != [] {
      LostExactly(s, events[0], k);
      LostOverRun(Step(s, events[0]), events[1..], k);
    }
  }

  lemma AtRestIsWritten(s: Lane)
    requires Inv(s) && !s.discarded && (s.closed || (s.phase == Rest && !s.opening))
    ensures s.settled == map[] && s.completed == |s.accepted| && s.started == s.accepted
  {
    if !s.closed {
      assert |s.accepted[s.base..]| == 0;
    }
    WrittenOutIsSettled(s);
    assert s.accepted[..|s.accepted|] == s.accepted;
  }

  lemma NoneWaits(s: Lane, k: nat)
    requires Inv(s) && (s.closed || (s.phase == Rest && !s.opening))
    ensures !Waiting(s, k)
  {
    if !s.discarded {
      AtRestIsWritten(s);
    }
  }

  /**
    In every run each callback runs at most once, and once the lane is closed or at rest exactly
    once, whether its packet was written, failed or was aborted, unless some event of the run lost
    it: a second callback for the same packet object while it was waiting, or discarding it behind a
    callback that throws.
   */
  lemma CallbacksRunOnce(preface: Option<Packet>, faulty: set<nat>, events: seq<Event>, k: nat)
    ensures var s := Run(Opening(preface, faulty), events);
            && s.ran[k] <= 1
            && (k < |s.owners| && (s.closed || (s.phase == Rest && !s.opening))
                ==> (s.ran[k] == 1 <==> !LostIn(Opening(preface, faulty), events, k)))
  {
    LostOverRun(Opening(preface, faulty), events, k);
    assert Opening(preface, faulty).lost == {};
    hide Opening, Run, Waiting, LostIn;
    Reached(preface, faulty, events);
    var s := Run(Opening(preface, faulty), events);
    CallbackCount(s, k);
    if s.closed || (s.phase == Rest && !s.opening) {
      NoneWaits(s, k);
    }
  }

  /** Unless work was discarded, a callback runs only after its packet was written. */
  lemma CallbacksFollowWrites(preface: Option<Packet>, faulty: set<nat>, events: seq<Event>, k: nat)
    ensures var s := Run(Opening(preface, faulty), events);
            !s.discarded && s.ran[k] > 0
            ==> k < |s.owners| && s.completed <= |s.started| && s.owners[k] in s.started[..s.completed]
  {
    hide Opening, Run, Waiting;
    Reached(preface, faulty, events);
    var s := Run(Opening(preface, faulty), events);
    if !s.discarded && s.ran[k] > 0 {
      CallbackCount(s, k);
      PrefixTakes(s.started, s.accepted);
    }
  }

  /** No wake-up is lost: an open lane rests only when everything accepted was written. */
  lemma RestsOnlyWhenWritten(preface: Option<Packet>, faulty: set<nat>, events: seq<Event>)
    ensures var s := Run(Opening(preface, faulty), events);
            && (s.phase == Rest && !s.opening && !s.closed ==> s.started == s.accepted && !s.finishing)
            && (s.closed && !s.discarded ==> s.started == s.accepted)
            && s.failures <= 1
  {
    hide Opening, Run, Accounted, OnTime, Stored, Ordered;
    Reached(preface, faulty, events);
    var s := Run(Opening(preface, faulty), events);
    if !s.discarded && (s.closed || (s.phase == Rest && !s.opening)) {
      AtRestIsWritten(s);
    }
  }

  // Failures

  /**
    A failure is reported exactly if the lane fails while no waiting callback throws. A throwing one
    also leaves the queue in place, on abort as on failure, and nothing else ever does.
   */
  lemma FailureReportedExactly(s: Lane, e: Event)
    ensures Step(s, e).failures == s.failures + if Fails(s, e) && !Throws(Callbacks(s), s.faulty) then 1 else 0
    ensures Step(s, e).kept <==> s.kept || (Discards(s, e) && Throws(Callbacks(s), s.faulty))
  {
    hide Discarded, Failed, Aborted, Continued, Enqueued, Resolved, Finished, AfterWriterReady, CloseSettled, Throws;
    hide Callbacks;
    match e
    case Enqueue(packet, callback) => EnqueuedGrows(s, packet, callback);
    case Abort => FailedHistory(s);
    case WriterFails => FailedHistory(s);
    case WriteRejects => FailedHistory(s);
    case CallbackReturns =>
      FailedHistory(s);
      if !Throwing(s) { OthersGrow(s, e); }
    case _ => OthersGrow(s, e);
  }

  /**
    A closed lane starts no further write, except exactly when discarding was cut short by a throwing
    callback while the drain was in flight: the drain then goes on with what is queued.
   */
  lemma ClosedWritesExactly(preface: Option<Packet>, faulty: set<nat>, events: seq<Event>, e: Event)
    ensures var s := Run(Opening(preface, faulty), events);
            s.closed ==>
              (Step(s, e).started != s.started
               <==> s.kept && e.CallbackReturns? && s.phase.Looping? && !Throwing(s) && s.head < |s.packets|)
  {
    Reached(preface, faulty, events);
    var s := Run(Opening(preface, faulty), events);
    hide Opening, Run, Accounted, OnTime, Mapped, Ordered, Throwing;
    if s.closed {
      match e
      case CallbackReturns => if s.phase.Looping? { ClosedContinues(s); }
      case WriteResolves => ResolvedStarts(s);
      case _ =>
    }
  }

  lemma ResolvedStarts(s: Lane)
    ensures Resolved(s).started == s.started
  {
    if s.phase.Writing? {
      CallbackRunIs(Moved(s), s.phase.packet);
    }
    hide CallbackRun;
  }

  lemma ClosedContinues(s: Lane)
    requires s.phase.Looping? && (s.kept ==> s.head <= |s.packets|) && (!s.kept ==> s.packets == [])
    ensures Continued(s).started != s.started <==> s.kept && s.head < |s.packets|
  {
    var t := Trimmed(s);
    assert t.started == s.started && (t.head < |t.packets| <==> s.head < |s.packets|);
    hide Trimmed;
  }

  // Storage

  /** A long consumed prefix is dropped before the next packet is written. */
  predicate Slim(s: Lane)
  {
    s.closed || s.phase.Looping? || s.head < 64 || s.head * 2 < |s.packets|
  }

  lemma StepStaysSlim(s: Lane, e: Event)
    requires Slim(s)
    ensures Slim(Step(s, e))
  {
    hide Looped, Woken, Continued, Discarded;
    match e
    case Enqueue(packet, callback) => EnqueuedStaysSlim(s, packet, callback);
    case Finish => WokenStaysSlim(s.(finishing := true));
    case WriterIsReady => WokenStaysSlim(s.(writer := true, opening := false));
    case WriteResolves => if s.phase.Writing? { ResolvedIs(s); }
    case CallbackReturns => DiscardedIs(s); ContinuedStaysSlim(s);
    case CloseSettles =>
    case _ => DiscardedIs(s);
  }

  lemma ContinuedStaysSlim(s: Lane)
    ensures Slim(Continued(s))
  {
    var t := Trimmed(s);
    assert t.head < 64 || t.head * 2 < |t.packets|;
    LoopedStaysSlim(t);
    hide Trimmed, Looped;
  }

  lemma LoopedStaysSlim(s: Lane)
    requires s.head < 64 || s.head * 2 < |s.packets|
    ensures Slim(Looped(s))
  {}

  lemma WokenStaysSlim(s: Lane)
    requires Slim(s)
    ensures Slim(Woken(s))
  {
    if s.phase == Rest && !s.closed {
      LoopedStaysSlim(s);
    }
    hide Looped;
  }

  lemma EnqueuedStaysSlim(s: Lane, packet: Packet, callback: bool)
    requires Slim(s)
    ensures Slim(Enqueued(s, packet, callback))
  {
    var t := s.(packets := s.packets + [packet], accepted := s.accepted + [packet]);
    WokenStaysSlim(t);
    WokenStaysSlim(Registered(t, packet));
    hide Woken;
  }

  lemma {:induction false} RunStaysSlim(s: Lane, events: seq<Event>)
    requires Slim(s)
    ensures Slim(Run(s, events))
    decreases events
  {
    hide Step, Slim;
    if events != [] {
      StepStaysSlim(s, events[0]);
      RunStaysSlim(Step(s, events[0]), events[1..]);
    }
  }

  /** In every run an open writing lane stores fewer than 64 packets beyond twice those still to be written. */
  lemma StorageIsBounded(preface: Option<Packet>, faulty: set<nat>, events: seq<Event>)
    ensures var s := Run(Opening(preface, faulty), events);
            s.phase.Writing? && !s.closed ==> s.head < |s.packets| < 64 + 2 * (|s.packets| - s.head)
  {
    Reached(preface, faulty, events);
    RunStaysSlim(Opening(preface, faulty), events);
    hide Run, Opening, Accounted, OnTime, Mapped;
  }

  // Runs that lose a callback, a failure report, or the close

  lemma RunFrom(s: Lane, e: Event, rest: seq<Event>)
    ensures Run(s, [e] + rest) == Run(Step(s, e), rest)
  {
    hide Step;
    assert ([e] + rest)[1..] == rest;
  }

  function Ready(faulty: set<nat>): Lane
  {
    Opening(None, faulty).(writer := true, opening := false)
  }

  lemma GetsReady(faulty: set<nat>, rest: seq<Event>)
    ensures Run(Opening(None, faulty), [WriterIsReady] + rest) == Run(Ready(faulty), rest)
  {
    RunFrom(Opening(None, faulty), WriterIsReady, rest);
    assert Step(Opening(None, faulty), WriterIsReady) == Ready(faulty);
  }

  /** The same packet object twice, the second time while the first write is pending. */
  function SentTwice(): Lane
  {
    Ready({}).(packets := [1, 1], settled := map[1 := 1], order := [1], accepted := [1, 1], owners := [1, 1],
               lost := {0}, phase := Writing(0, 1), started := [1])
  }

  lemma SendsTwice()
    ensures Step(Step(Ready({}), Enqueue(1, true)), Enqueue(1, true)) == SentTwice()
  {
    var a := Ready({}).(packets := [1], settled := map[1 := 0], order := [1], accepted := [1], owners := [1],
                        phase := Writing(0, 1), started := [1]);
    assert Step(Ready({}), Enqueue(1, true)) == a;
    assert map[1 := 0][1 := 1] == map[1 := 1];
    assert Step(a, Enqueue(1, true)) == SentTwice();
  }

  lemma FirstResolves()
    ensures Step(SentTwice(), WriteResolves)
            == SentTwice().(head := 1, completed := 1, ran := multiset{1}, settled := map[], order := [],
                            phase := Looping(Some(1)))
  {
    assert Without([1], 1) == [];
    assert map[1 := 1] - {1} == map[];
    hide Without;
  }

  /** The first callback of a packet object enqueued twice never runs. */
  lemma DisplacedCallbackIsLost()
    ensures var events := [WriterIsReady] + ([Enqueue(1, true)] + ([Enqueue(1, true)] + ([WriteResolves]
                          + ([CallbackReturns] + ([WriteResolves] + ([CallbackReturns] + []))))));
            var s := Run(Opening(None, {}), events);
            && s.started == [1, 1] && s.phase == Rest && !s.closed && s.ran == multiset{1}
            && LostIn(Opening(None, {}), events, 0)
  {
    var r := SentTwice().(head := 1, completed := 1, ran := multiset{1}, settled := map[], order := [],
                          phase := Looping(Some(1)));
    var w := r.(phase := Writing(1, 1), started := [1, 1]);
    var v := w.(head := 2, completed := 2, phase := Looping(None));
    var end := v.(packets := [], head := 0, base := 2, phase := Rest);
    assert Step(r, CallbackReturns) == w && Step(w, WriteResolves) == v && Step(v, CallbackReturns) == end;
    SendsTwice();
    FirstResolves();
    assert end.lost == {0};
    hide Step, SentTwice, Ready;
    var rest := [WriteResolves] + ([CallbackReturns] + ([WriteResolves] + ([CallbackReturns] + [])));
    GetsReady({}, [Enqueue(1, true)] + ([Enqueue(1, true)] + rest));
    RunFrom(Ready({}), Enqueue(1, true), [Enqueue(1, true)] + rest);
    RunFrom(Step(Ready({}), Enqueue(1, true)), Enqueue(1, true), rest);
    RunFrom(SentTwice(), WriteResolves, [CallbackReturns] + ([WriteResolves] + ([CallbackReturns] + [])));
    RunFrom(r, CallbackReturns, [WriteResolves] + ([CallbackReturns] + []));
    RunFrom(w, WriteResolves, [CallbackReturns] + []);
    RunFrom(v, CallbackReturns, []);
    LostOverRun(Opening(None, {}), [WriterIsReady] + ([Enqueue(1, true)] + ([Enqueue(1, true)] + rest)), 0);
  }

  /** Two packets queued before the writer is there, the callback of the first throws. */
  function TwoQueued(): Lane
  {
    Opening(None, {0}).(packets := [1, 2], settled := map[1 := 0, 2 := 1], order := [1, 2], accepted := [1, 2],
                        owners := [1, 2])
  }

  lemma QueuesTwo()
    ensures Step(Step(Opening(None, {0}), Enqueue(1, true)), Enqueue(2, true)) == TwoQueued()
  {
    var a := Opening(None, {0}).(packets := [1], settled := map[1 := 0], order := [1], accepted := [1], owners := [1]);
    assert Step(Opening(None, {0}), Enqueue(1, true)) == a;
    assert map[1 := 0][2 := 1] == map[1 := 0, 2 := 1];
    assert Step(a, Enqueue(2, true)) == TwoQueued();
  }

  lemma TwoQueuedThrows()
    ensures Callbacks(TwoQueued()) == [0, 1] && Throws([0, 1], {0}) && Executed([0, 1], {0}) == 1
  {
    assert [0, 1][0] in {0};
  }

  lemma DiscardsTwo()
    ensures var t := Discarded(TwoQueued());
            t.ran == multiset{0} && t.lost == {1} && t.packets == [1, 2] && t.kept && t.failures == 0
  {
    TwoQueuedThrows();
    DiscardedIs(TwoQueued());
    DiscardedLost(TwoQueued());
    assert [0, 1][1..] == [1] && [0, 1][..1] == [0];
    var t := TwoQueued().(closed := true, discarded := true);
    assert Callbacks(t) == Callbacks(TwoQueued());
    assert Discarded(TwoQueued()).ran == multiset{} + multiset([0]);
  }

  /** A callback that throws while an aborted queue is discarded takes the later ones with it, and the queue stays. */
  lemma ThrowingCallbackLosesLater()
    ensures var s := Run(Opening(None, {0}), [Enqueue(1, true)] + ([Enqueue(2, true)] + ([Abort] + [])));
            s.closed && s.ran == multiset{0} && s.lost == {1} && s.packets == [1, 2]
  {
    assert Step(TwoQueued(), Abort) == Discarded(TwoQueued()) && Discarded(TwoQueued()).closed by {
      TwoQueuedThrows();
      hide Discarded;
      DiscardedIs(TwoQueued());
    }
    DiscardsTwo();
    TwoQueuedRun(Abort);
    hide Step, TwoQueued, Discarded;
    RunFrom(TwoQueued(), Abort, []);
  }

  lemma TwoQueuedRun(e: Event)
    ensures Run(Opening(None, {0}), [Enqueue(1, true)] + ([Enqueue(2, true)] + ([e] + []))) == Step(TwoQueued(), e)
  {
    QueuesTwo();
    hide Step, TwoQueued;
    var start := Opening(None, {0});
    RunFrom(start, Enqueue(1, true), [Enqueue(2, true)] + ([e] + []));
    RunFrom(Step(start, Enqueue(1, true)), Enqueue(2, true), [e] + []);
    RunFrom(TwoQueued(), e, []);
  }

  /** When the lane fails instead, its failure is not reported either. */
  lemma ThrowingCallbackHidesFailure()
    ensures var s := Run(Opening(None, {0}), [Enqueue(1, true)] + ([Enqueue(2, true)] + ([WriterFails] + [])));
            s.closed && s.ran == multiset{0} && s.lost == {1} && s.failures == 0
  {
    TwoQueuedThrows();
    DiscardsTwo();
    DiscardedIs(TwoQueued());
    assert Step(TwoQueued(), WriterFails) == Discarded(TwoQueued()).(writer := false, opening := false) by {
      hide Discarded;
    }
    TwoQueuedRun(WriterFails);
    hide Step, TwoQueued, Discarded, Run;
  }

  /** One packet being written, another queued whose callback throws. */
  function InFlight(): Lane
  {
    Ready({0}).(packets := [1, 2], settled := map[2 := 0], order := [2], accepted := [1, 2], owners := [2],
                phase := Writing(0, 1), started := [1])
  }

  lemma TakesOff()
    ensures Step(Step(Ready({0}), Enqueue(1, false)), Enqueue(2, true)) == InFlight()
  {
    var a := Ready({0}).(packets := [1], accepted := [1], phase := Writing(0, 1), started := [1]);
    assert Step(Ready({0}), Enqueue(1, false)) == a;
    assert Step(a, Enqueue(2, true)) == InFlight();
  }

  lemma AbortsInFlight()
    ensures var t := Step(InFlight(), Abort);
            t == InFlight().(closed := true, discarded := true, kept := true, settled := map[], order := [],
                             ran := t.ran, lost := t.lost)
  {
    assert Callbacks(InFlight())[0] == 0;
    assert Throws(Callbacks(InFlight()), {0});
    hide Callbacks, Executed;
  }

  /** An aborted lane whose discarding was cut short writes the rest of its queue. */
  lemma AbortedLaneWritesOn()
    ensures var before := [WriterIsReady] + ([Enqueue(1, false)] + ([Enqueue(2, true)] + ([Abort] + [])));
            var s := Run(Opening(None, {0}), before);
            var t := Step(Step(s, WriteResolves), CallbackReturns);
            s.closed && s.started == [1] && t.started == [1, 2] && t.phase == Writing(1, 2)
  {
    TakesOff();
    AbortsInFlight();
    var s := Step(InFlight(), Abort);
    assert s.closed && s.started == [1] && s.phase == Writing(0, 1) && s.packets == [1, 2];
    var u := s.(head := 1, completed := 1, phase := Looping(None));
    assert Step(s, WriteResolves) == u;
    assert Step(u, CallbackReturns) == u.(phase := Writing(1, 2), started := [1, 2]);
    hide Step, InFlight, Ready;
    GetsReady({0}, [Enqueue(1, false)] + ([Enqueue(2, true)] + ([Abort] + [])));
    RunFrom(Ready({0}), Enqueue(1, false), [Enqueue(2, true)] + ([Abort] + []));
    RunFrom(Step(Ready({0}), Enqueue(1, false)), Enqueue(2, true), [Abort] + []);
    RunFrom(InFlight(), Abort, []);
  }
}
