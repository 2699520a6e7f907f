/** Runs of a client that allocates stream ids and a server that checks their sequence. */
module StreamIdRuns {
  import opened Common
  import opened StreamIds

  const FIRST: First := CLIENT_STREAM_ID

  /**
    A request on its way. The client went from `from` over `skipped` ids to `id`; `held` is what it
    held open when its previous request had gone out.
   */
  datatype Sent = Sent(id: int, from: int, skipped: nat, held: set<int>)

  /** The ids the client passed over. */
  ghost function PassedOver(m: Sent): set<int>
  {
    Window(m.from, m.skipped, FIRST)
  }

  /**
    Both ends and the requests travelling between them. `base` is where the client stood after its
    last request, `skipped` how far it moved since, `held` what it then held. `serverDiscards` are ids
    whose fragments the server discards. `wrapped` records that the allocator started over, `dropped`
    that a queued request was cancelled before it was sent, `ignored` that the server took a request
    for a duplicate, `rejected` that it ended the connection.
   */
  datatype Ends = Ends(
    clientNext: int, clientOpen: set<int>, base: int, skipped: nat, held: set<int>, wire: seq<Sent>,
    serverNext: int, serverOpen: set<int>, serverDiscards: set<int>,
    wrapped: bool, dropped: bool, ignored: bool, rejected: bool)

  /** What handling a request leaves at the server. */
  datatype Kept = Nothing | Open | Discarding

  datatype Event =
    | Request(registers: bool)
    | RequestUnsent
    | RequestDropped
    | ClientCloses(id: int)
    | ServerHandles(kept: Kept)
    | ServerDiscards(id: int)
    | ServerForgets(id: int)
    | ServerCloses(id: int)

  ghost predicate ClientHasRoom(s: Ends)
  {
    Legal(s.clientNext, FIRST) && |s.clientOpen| < Count(FIRST)
  }

  /** Ids the server expects no request for. */
  ghost function ServerKnows(s: Ends): set<int>
  {
    s.serverOpen + s.serverDiscards
  }

  ghost predicate ServerHasRoom(s: Ends)
  {
    Legal(s.serverNext, FIRST) && |ServerKnows(s)| < Count(FIRST)
  }

  ghost function Allocated(s: Ends): int
    requires ClientHasRoom(s)
  {
    FreeId(s.clientNext, s.clientOpen, FIRST)
  }

  /** The client past the id it allocated. */
  ghost function Past(s: Ends, id: int, open: set<int>): Ends
  {
    var next := NextId(id, FIRST);
    s.(clientNext := next, clientOpen := open, base := next, skipped := 0, held := open,
       wrapped := s.wrapped || next < s.clientNext)
  }

  ghost function Requested(s: Ends, m: Sent, open: set<int>): Ends
  {
    Past(s, m.id, open).(wire := s.wire + [m])
  }

  ghost function ClientSteps(s: Ends, e: Event): Ends
    requires ClientHasRoom(s) && (e.Request? || e.RequestUnsent? || e.RequestDropped?)
  {
    var id, d := Allocated(s), s.skipped + SkipCount(s.clientNext, s.clientOpen, FIRST);
    match e
    case Request(registers) =>
      Requested(s, Sent(id, s.base, d, s.held), if registers then s.clientOpen + {id} else s.clientOpen)
    case RequestUnsent => s.(clientNext := id, skipped := d, wrapped := s.wrapped || NextId(id, FIRST) < s.clientNext)
    case RequestDropped => Past(s, id, s.clientOpen).(dropped := true)
  }

  /** The server looks at the next request: a duplicate is ignored, any other unexpected id ends the connection. */
  ghost function Handled(s: Ends, kept: Kept): Ends
    requires ServerHasRoom(s) && s.wire != []
  {
    var id, expected := s.wire[0].id, FreeId(s.serverNext, ServerKnows(s), FIRST);
    var rest := s.(wire := s.wire[1..]);
    if id in s.serverOpen then rest.(serverNext := expected, ignored := true)
    else if id != expected then rest.(rejected := true)
    else rest.(serverNext := NextId(id, FIRST),
               serverOpen := if kept.Open? then s.serverOpen + {id} else s.serverOpen,
               serverDiscards := if kept.Discarding? then s.serverDiscards + {id} else s.serverDiscards)
  }

  /** An interaction whose request the server has handled and one of the ends still knows. */
  ghost predicate Begun(s: Ends, id: int)
  {
    (id in s.clientOpen || id in s.serverOpen) && forall i :: 0 <= i < |s.wire| ==> s.wire[i].id != id
  }

  ghost function Step(s: Ends, e: Event): Ends
  {
    if s.rejected then s
    else match e
      case ClientCloses(id) => s.(clientOpen := s.clientOpen - {id})
      case ServerCloses(id) => s.(serverOpen := s.serverOpen - {id}, serverDiscards := s.serverDiscards - {id})
      case ServerDiscards(id) => if Begun(s, id) then s.(serverDiscards := s.serverDiscards + {id}) else s
      case ServerForgets(id) => s.(serverDiscards := s.serverDiscards - {id})
      case ServerHandles(kept) => if ServerHasRoom(s) && s.wire != [] then Handled(s, kept) else s
      case _ => if ClientHasRoom(s) then ClientSteps(s, e) else s
  }

  ghost function Run(s: Ends, events: seq<Event>): Ends
    decreases events
  {
    if events == [] then s else Run(Step(s, events[0]), events[1..])
  }

  lemma {:induction false} RunConcat(s: Ends, a: seq<Event>, b: seq<Event>)
    ensures Run(s, a + b) == Run(Run(s, a), b)
    decreases a
  {
    if a == [] {
      assert a + b == b;
    } else {
      assert (a + b)[1..] == a[1..] + b;
      RunConcat(Step(s, a[0]), a[1..], b);
    }
  }

  const BOTH_NEW := Ends(1, {}, 1, 0, {}, [], 1, {}, {}, false, false, false, false)

  // Where both ends stand

  /** What the client passed over it held, and it came to rest on an id it does not hold. */
  ghost predicate ClientOnTrack(s: Ends)
  {
    && Legal(s.base, FIRST) && s.skipped < Count(FIRST)
    && s.clientNext == Nth(s.base, s.skipped, FIRST)
    && AllOpen(s.base, s.held, s.skipped, FIRST)
    && s.clientOpen <= s.held
    && (s.skipped > 0 ==> s.clientNext !in s.clientOpen)
  }

  ghost predicate WellSent(m: Sent)
  {
    Legal(m.from, FIRST) && m.skipped < Count(FIRST) && m.id == Nth(m.from, m.skipped, FIRST) && PassedOver(m) <= m.held
  }

  /** Each request starts where the one before it ended, the first where the server stands. */
  ghost predicate Chained(s: Ends)
  {
    && Legal(s.serverNext, FIRST)
    && (forall i :: 0 <= i < |s.wire| ==> WellSent(s.wire[i]))
    && (forall i :: 0 <= i < |s.wire| ==> s.wire[i].from == Start(s, i))
    && s.base == Start(s, |s.wire|)
  }

  /** Where the client stood before request i. */
  ghost function Start(s: Ends, i: nat): int
    requires i <= |s.wire|
  {
    if i == 0 then s.serverNext else NextId(s.wire[i - 1].id, FIRST)
  }

  ghost predicate OnTrack(s: Ends)
  {
    ClientOnTrack(s) && (s.dropped || s.ignored || s.rejected || Chained(s))
  }

  /** The path of one allocation, from the end of the previous request. */
  lemma AllocationPath(s: Ends)
    requires ClientOnTrack(s) && ClientHasRoom(s)
    ensures var d := s.skipped + SkipCount(s.clientNext, s.clientOpen, FIRST);
            && d < Count(FIRST) && Allocated(s) == Nth(s.base, d, FIRST)
            && AllOpen(s.base, s.held, d, FIRST) && Legal(Allocated(s), FIRST)
            && WellSent(Sent(Allocated(s), s.base, d, s.held))
  {
    if s.skipped > 0 {
      NothingToSkip(s.clientNext, s.clientOpen);
    }
    SkippedAreOpen(s.base, s.held, s.skipped + SkipCount(s.clientNext, s.clientOpen, FIRST), FIRST);
  }

  lemma ClientStepsKeeps(s: Ends, e: Event)
    requires OnTrack(s) && ClientHasRoom(s) && !s.rejected && (e.Request? || e.RequestUnsent? || e.RequestDropped?)
    ensures OnTrack(ClientSteps(s, e))
  {
    hide FreeId, SkipCount, AllOpen, Chained, Nth, WellSent, NextId, Legal, Requested;
    AllocationPath(s);
    var id, d := Allocated(s), s.skipped + SkipCount(s.clientNext, s.clientOpen, FIRST);
    NextIsLegal(id, FIRST);
    match e
    case Request(registers) =>
      RequestKeeps(s, Sent(id, s.base, d, s.held), if registers then s.clientOpen + {id} else s.clientOpen);
    case RequestUnsent => assert Chained(s) ==> Chained(ClientSteps(s, e)) by { SameChain(s, ClientSteps(s, e)); }
    case RequestDropped => PastIsOnTrack(s, id, s.clientOpen);
  }

  lemma SameChain(s: Ends, t: Ends)
    requires s.serverNext == t.serverNext && s.wire == t.wire && s.base == t.base
    ensures Chained(s) == Chained(t)
  {
    assert forall i :: 0 <= i <= |s.wire| ==> Start(t, i) == Start(s, i);
  }

  lemma RequestKeeps(s: Ends, m: Sent, open: set<int>)
    requires OnTrack(s) && !s.rejected && WellSent(m) && m.from == s.base && Legal(m.id, FIRST)
    ensures OnTrack(Requested(s, m, open))
  {
    PastIsOnTrack(s, m.id, open);
    hide Chained, AllOpen, WellSent, Nth, Legal;
    if !s.dropped && !s.ignored {
      ChainExtends(s, Requested(s, m, open), m);
    }
  }

  lemma PastIsOnTrack(s: Ends, id: int, open: set<int>)
    requires Legal(id, FIRST)
    ensures ClientOnTrack(Past(s, id, open))
  {
    NextIsLegal(id, FIRST);
    AllOpenNone(NextId(id, FIRST), open);
  }

  lemma AllOpenNone(next: int, open: set<int>)
    ensures AllOpen(next, open, 0, FIRST) && Nth(next, 0, FIRST) == next
  {}

  /** One more request at the end of the wire, starting where the last one ended. */
  lemma ChainExtends(s: Ends, t: Ends, m: Sent)
    requires Chained(s) && WellSent(m) && m.from == s.base
    requires t.serverNext == s.serverNext && t.wire == s.wire + [m] && t.base == NextId(m.id, FIRST)
    ensures Chained(t)
  {
    hide WellSent, NextId;
    forall i | 0 <= i < |t.wire| ensures WellSent(t.wire[i]) && t.wire[i].from == Start(t, i) {
      assert i < |s.wire| ==> t.wire[i] == s.wire[i];
      assert i > 0 ==> t.wire[i - 1] == s.wire[i - 1];
    }
  }

  lemma HandledKeeps(s: Ends, kept: Kept)
    requires OnTrack(s) && ServerHasRoom(s) && s.wire != [] && !s.rejected
    ensures OnTrack(Handled(s, kept))
  {
    hide FreeId, AllOpen, Window, Nth;
    var t := Handled(s, kept);
    if !t.dropped && !t.ignored && !t.rejected {
      NextIsLegal(t.serverNext, FIRST);
      assert WellSent(s.wire[0]);
      forall i | 0 <= i < |t.wire| ensures WellSent(t.wire[i]) && t.wire[i].from == Start(t, i) {
        assert t.wire[i] == s.wire[i + 1];
        assert i > 0 ==> t.wire[i - 1] == s.wire[i];
      }
      assert |t.wire| > 0 ==> t.wire[|t.wire| - 1] == s.wire[|s.wire| - 1];
    }
  }

  lemma StepKeeps(s: Ends, e: Event)
    requires OnTrack(s)
    ensures OnTrack(Step(s, e))
  {
    if !s.rejected {
      match e
      case ServerHandles(kept) => if ServerHasRoom(s) && s.wire != [] { HandledKeeps(s, kept); }
      case Request(_) => if ClientHasRoom(s) { ClientStepsKeeps(s, e); }
      case RequestUnsent => if ClientHasRoom(s) { ClientStepsKeeps(s, e); }
      case RequestDropped => if ClientHasRoom(s) { ClientStepsKeeps(s, e); }
      case _ => {
        hide ClientSteps, Handled, ServerHasRoom, ClientHasRoom, Begun;
        OthersKeep(s, Step(s, e));
      }
    }
  }

  lemma OthersKeep(s: Ends, t: Ends)
    requires OnTrack(s) && t.clientOpen <= s.clientOpen
    requires t == s.(clientOpen := t.clientOpen, serverOpen := t.serverOpen, serverDiscards := t.serverDiscards)
    ensures OnTrack(t)
  {
    SameChain(s, t);
  }

  lemma {:induction false} RunKeeps(s: Ends, events: seq<Event>)
    requires OnTrack(s)
    ensures OnTrack(Run(s, events))
    decreases events
  {
    hide OnTrack, Step;
    if events != [] {
      StepKeeps(s, events[0]);
      RunKeeps(Step(s, events[0]), events[1..]);
    }
  }

  /**
    Over every run without a dropped request, past wrap-around too: as long as every request so far
    was accepted, the next one is rejected exactly if, when the server handles it, the server no
    longer knows some id the client passed over or still discards fragments of the id itself, and
    ignored as a duplicate exactly if the id itself is still open there. What the client passed over
    it held when its last request went out.
   */
  lemma HandledExactly(events: seq<Event>, kept: Kept)
    ensures var s := Run(BOTH_NEW, events);
            !s.dropped && !s.ignored && !s.rejected && s.wire != [] && ServerHasRoom(s) ==>
              var m, t := s.wire[0], Step(s, ServerHandles(kept));
              && PassedOver(m) <= m.held && m.id !in PassedOver(m)
              && (t.ignored <==> m.id in s.serverOpen)
              && (t.rejected <==> m.id !in s.serverOpen
                                  && (m.id in s.serverDiscards || !(PassedOver(m) <= ServerKnows(s))))
  {
    AllOpenNone(1, {});
    RunKeeps(BOTH_NEW, events);
    var s := Run(BOTH_NEW, events);
    hide Run;
    if !s.dropped && !s.ignored && !s.rejected && s.wire != [] && ServerHasRoom(s) {
      var m := s.wire[0];
      assert WellSent(m) && m.from == Start(s, 0) == s.serverNext;
      ArrivesAt(s.serverNext, ServerKnows(s), m.skipped, FIRST);
      NextIsNew(m.from, m.skipped, FIRST);
      WindowIs(m.from, m.skipped, m.id, FIRST);
    }
  }

  // Before the allocator starts over

  /** Ids of earlier requests only. */
  ghost predicate Earlier(open: set<int>, next: int)
  {
    forall id :: id in open ==> Legal(id, FIRST) && id < next
  }

  /** The wire holds the ids from the one the server expects to the one the client gives out next. */
  ghost predicate InSequence(s: Ends)
  {
    && !s.ignored && !s.rejected
    && Legal(s.clientNext, FIRST) && s.clientNext == s.serverNext + 2 * |s.wire|
    && (forall i :: 0 <= i < |s.wire| ==> s.wire[i].id == s.serverNext + 2 * i)
    && Legal(s.serverNext, FIRST)
    && Earlier(s.clientOpen, s.clientNext) && Earlier(ServerKnows(s), s.serverNext)
  }

  lemma ClientStaysInSequence(s: Ends, e: Event)
    requires InSequence(s) && ClientHasRoom(s) && (e.Request? || e.RequestUnsent?)
    ensures var t := ClientSteps(s, e); t.wrapped || InSequence(t)
  {
    NothingToSkip(s.clientNext, s.clientOpen);
    hide FreeId, SkipCount;
  }

  lemma ServerStaysInSequence(s: Ends, kept: Kept)
    requires InSequence(s) && ServerHasRoom(s) && s.wire != []
    ensures InSequence(Handled(s, kept))
  {
    NothingToSkip(s.serverNext, ServerKnows(s));
    hide FreeId;
    assert s.wire[0].id == s.serverNext;
    assert |s.wire| > 1 ==> s.wire[1].id == s.serverNext + 2;
  }

  lemma StepStaysInSequence(s: Ends, e: Event)
    requires s.wrapped || s.dropped || InSequence(s)
    ensures var t := Step(s, e); t.wrapped || t.dropped || InSequence(t)
  {
    if !s.wrapped && !s.dropped {
      match e
      case ServerHandles(kept) => if ServerHasRoom(s) && s.wire != [] { ServerStaysInSequence(s, kept); }
      case Request(_) => if ClientHasRoom(s) { ClientStaysInSequence(s, e); }
      case RequestUnsent => if ClientHasRoom(s) { ClientStaysInSequence(s, e); }
      case ServerDiscards(id) => if Begun(s, id) { BegunIsEarlier(s, id); }
      case _ =>
    }
  }

  lemma OnTheWire(s: Ends, id: int)
    requires InSequence(s)
    ensures Legal(id, FIRST) && s.serverNext <= id < s.clientNext ==>
              exists i :: 0 <= i < |s.wire| && s.wire[i].id == id
  {
    if Legal(id, FIRST) && s.serverNext <= id < s.clientNext {
      assert s.wire[(id - s.serverNext) / 2].id == id;
    }
  }

  lemma BegunIsEarlier(s: Ends, id: int)
    requires InSequence(s) && Begun(s, id)
    ensures Legal(id, FIRST) && id < s.serverNext
  {
    OnTheWire(s, id);
  }

  /** Until the allocator starts over and without a dropped request, no request is rejected or ignored. */
  lemma {:induction false} NeverRejected(s: Ends, events: seq<Event>)
    requires s.wrapped || s.dropped || InSequence(s)
    ensures var t := Run(s, events); t.wrapped || t.dropped || InSequence(t)
    decreases events
  {
    hide InSequence, Step;
    if events != [] {
      StepStaysInSequence(s, events[0]);
      NeverRejected(Step(s, events[0]), events[1..]);
    }
  }

  /**
    A queued request dropped by CANCEL uses up its id at the client alone: until the allocator starts
    over, whatever happened before, the next request to reach the server ends the connection.
   */
  lemma DroppedRequestBreaksSequence(events: seq<Event>, registers: bool, kept: Kept)
    ensures var s := Run(BOTH_NEW, events);
            !s.wrapped && !s.dropped && s.wire == [] && s.clientNext + 2 <= LastId(FIRST)
            && ClientHasRoom(s) && ServerHasRoom(s) ==>
              Run(BOTH_NEW, events + [RequestDropped, Request(registers), ServerHandles(kept)]).rejected
  {
    NeverRejected(BOTH_NEW, events);
    var s := Run(BOTH_NEW, events);
    RunConcat(BOTH_NEW, events, [RequestDropped, Request(registers), ServerHandles(kept)]);
    if !s.wrapped && !s.dropped && s.wire == [] && s.clientNext + 2 <= LastId(FIRST)
       && ClientHasRoom(s) && ServerHasRoom(s) {
      Unfold(s, RequestDropped, Request(registers), ServerHandles(kept));
      DropSkips(s);
      hide InSequence, Step, Run, ClientHasRoom, ServerHasRoom, Earlier, BOTH_NEW;
      LaterIsRejected(Step(s, RequestDropped), registers, kept);
    }
  }

  lemma DropSkips(s: Ends)
    requires InSequence(s) && ClientHasRoom(s) && ServerHasRoom(s) && s.wire == [] && s.clientNext + 2 <= LastId(FIRST)
    ensures var t := Step(s, RequestDropped);
            ClientHasRoom(t) && ServerHasRoom(t) && t.wire == [] && t.clientNext > t.serverNext
            && Earlier(t.clientOpen, t.clientNext) && Earlier(ServerKnows(t), t.serverNext)
  {
    NothingToSkip(s.clientNext, s.clientOpen);
    hide FreeId, SkipCount;
  }

  lemma LaterIsRejected(t: Ends, registers: bool, kept: Kept)
    requires ClientHasRoom(t) && ServerHasRoom(t) && t.wire == [] && t.clientNext > t.serverNext
    requires Earlier(t.clientOpen, t.clientNext) && Earlier(ServerKnows(t), t.serverNext)
    ensures Step(Step(t, Request(registers)), ServerHandles(kept)).rejected
  {
    NothingToSkip(t.clientNext, t.clientOpen);
    NothingToSkip(t.serverNext, ServerKnows(t));
    hide FreeId, SkipCount;
    assert !t.rejected ==> Step(t, Request(registers)).wire[0].id == t.clientNext;
  }

  lemma Unfold(s: Ends, a: Event, b: Event, c: Event)
    ensures Run(s, [a, b, c]) == Step(Step(Step(s, a), b), c)
  {
    hide Step;
    assert [a, b, c][1..] == [b, c] && [b, c][1..] == [c];
    assert Run(Step(Step(s, a), b), [c]) == Step(Step(Step(s, a), b), c);
  }

  // After the allocator started over

  /** A long-lived interaction with id 1, then n short ones. */
  ghost function OneLong(n: nat): seq<Event>
  {
    if n == 0 then [Request(true), ServerHandles(Open)]
    else OneLong(n - 1) + [Request(false), ServerHandles(Nothing)]
  }

  /** Both ends before the request that uses the n-th id after the first, only the first one open. */
  ghost function Rested(n: nat): Ends
  {
    var next := Nth(1, n, FIRST);
    Ends(next, {1}, next, 0, {1}, [], next, {1}, {}, n == Count(FIRST), false, false, false)
  }

  lemma FirstRound()
    ensures Run(BOTH_NEW, OneLong(0)) == Rested(1)
  {
    NothingToSkip(1, {});
    hide FreeId, SkipCount;
    var s := Step(BOTH_NEW, Request(true));
    assert Nth(1, 1, FIRST) == 3;
    assert s == BOTH_NEW.(clientNext := 3, clientOpen := {1}, base := 3, held := {1}, wire := [Sent(1, 1, 0, {})]);
    assert Step(s, ServerHandles(Open)) == Rested(1);
    assert OneLong(0)[1..] == [ServerHandles(Open)];
  }

  lemma NextRound(n: nat)
    requires 0 < n < Count(FIRST)
    ensures Step(Step(Rested(n), Request(false)), ServerHandles(Nothing)) == Rested(n + 1)
  {
    var s := Rested(n);
    FullPeriod(1, 1, FIRST);
    NthIs(1, n, FIRST);
    assert Nth(1, 0, FIRST) == 1 && s.clientNext != 1;
    NothingToSkip(s.clientNext, {1});
    assert ServerKnows(s) == {1};
    hide FreeId, SkipCount;
    var t := Step(s, Request(false));
    assert t.wire == [Sent(s.clientNext, s.clientNext, 0, {1})];
  }

  lemma {:induction false} RunsRound(n: nat)
    requires n < Count(FIRST)
    ensures Run(BOTH_NEW, OneLong(n)) == Rested(n + 1)
    decreases n
  {
    hide Rested, Step;
    if n == 0 {
      FirstRound();
    } else {
      RunsRound(n - 1);
      NextRound(n);
      var s, more := Rested(n), [Request(false), ServerHandles(Nothing)];
      RunConcat(BOTH_NEW, OneLong(n - 1), more);
      assert more[1..] == [ServerHandles(Nothing)];
      assert Run(Step(s, more[0]), more[1..]) == Step(Step(s, more[0]), more[1]);
    }
  }

  /** A run through all ids in which only the interaction with id 1 is still open, at both ends. */
  const PERIOD := Count(FIRST) - 1

  /**
    The id an interaction still holds comes up again. If the server has already let it go, it expects
    it while the client skips it, and the connection ends; if the client has let it go first, it uses
    it again while the server takes the new request for a duplicate, and drops it without an answer.
   */
  lemma StaleStreamDisagrees()
    ensures var s := Run(BOTH_NEW, OneLong(PERIOD) + [ServerCloses(1), Request(false), ServerHandles(Nothing)]);
            s.rejected && !s.dropped
    ensures var s := Run(BOTH_NEW, OneLong(PERIOD) + [ClientCloses(1), Request(false), ServerHandles(Nothing)]);
            s.ignored && !s.dropped && !s.rejected && s.clientNext == 3
  {
    RunsRound(PERIOD);
    FullPeriod(1, 1, FIRST);
    assert Rested(PERIOD + 1) == Rested(Count(FIRST));
    ServerLetsGo();
    ClientLetsGo();
    hide Rested, Step, OneLong;
    RunConcat(BOTH_NEW, OneLong(PERIOD), [ServerCloses(1), Request(false), ServerHandles(Nothing)]);
    Unfold(Rested(PERIOD + 1), ServerCloses(1), Request(false), ServerHandles(Nothing));
    RunConcat(BOTH_NEW, OneLong(PERIOD), [ClientCloses(1), Request(false), ServerHandles(Nothing)]);
    Unfold(Rested(PERIOD + 1), ClientCloses(1), Request(false), ServerHandles(Nothing));
  }

  lemma ServerLetsGo()
    ensures var s := Step(Step(Step(Rested(PERIOD + 1), ServerCloses(1)), Request(false)), ServerHandles(Nothing));
            s.rejected && !s.dropped
  {
    FullPeriod(1, 1, FIRST);
    var s := Step(Rested(PERIOD + 1), ServerCloses(1));
    assert s.serverNext == 1 && s.serverOpen == {} && s.clientNext == 1;
    SkipsOne();
    NothingToSkip(1, ServerKnows(s));
    hide FreeId, SkipCount, Rested;
    var t := Step(s, Request(false));
    assert t.wire[0].id == 3;
  }

  lemma SkipsOne()
    ensures FreeId(1, {1}, FIRST) == 3
  {
    assert FirstFreeAt(1, {1}, 3, 1, FIRST);
    FirstFreeIsUnique(1, {1}, 3, FreeId(1, {1}, FIRST), FIRST);
  }

  lemma ClientLetsGo()
    ensures var s := Step(Step(Step(Rested(PERIOD + 1), ClientCloses(1)), Request(false)), ServerHandles(Nothing));
            s.ignored && !s.dropped && !s.rejected && s.clientNext == 3
  {
    FullPeriod(1, 1, FIRST);
    var s := Step(Rested(PERIOD + 1), ClientCloses(1));
    assert s.serverNext == 1 && s.serverOpen == {1} && s.clientNext == 1 && s.clientOpen == {};
    NothingToSkip(1, {});
    hide FreeId, SkipCount, Rested;
    var t := Step(s, Request(false));
    assert t.wire[0].id == 1;
  }
}
