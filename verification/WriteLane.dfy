/** Serial writes to one native stream, interleaved at every `await`. */
module WriteLane {
  import opened Common

  /** Packets are told apart by identity, as the callback map does. */
  type Packet = nat

  /**
    Where the draining loop is suspended: not running, awaiting a native write, inside the completion
    callback of the packet just written, if it had one, or awaiting the native close.
   */
  datatype Phase = Rest | Writing(index: nat, packet: Packet) | Looping(callback: Option<nat>) | Closing

  /**
    All fields of a lane; an absent array or map is an empty one, and `order` is the order in which
    the map `settled` lists its keys. Below them, what happened so far: packets accepted, native
    writes started and completed, accepted packets no longer stored (`base`), the packet of each
    callback given, callbacks run, callbacks that will never run, failures reported, whether queued
    work was discarded, and whether a throwing callback cut the discarding short, so that the queue
    is still there. Callbacks in `faulty` throw when they are run.
   */
  datatype Lane = Lane(
    packets: seq<Packet>,
    settled: map<Packet, nat>,
    order: seq<Packet>,
    head: nat,
    writer: bool,
    opening: bool,
    phase: Phase,
    finishing: bool,
    closed: bool,
    accepted: seq<Packet>,
    started: seq<Packet>,
    completed: nat,
    base: nat,
    owners: seq<Packet>,
    ran: multiset<nat>,
    lost: set<nat>,
    failures: nat,
    discarded: bool,
    kept: bool,
    faulty: set<nat>)

  function Cleared(s: Lane): Lane
  {
    s.(packets := [], settled := map[], order := [], head := 0, base := |s.accepted|)
  }

  // The callback map

  function CallbackOf(settled: map<Packet, nat>, p: Packet): nat
  {
    if p in settled then settled[p] else 0
  }

  /** The waiting callbacks, in the order of the map. */
  function Callbacks(s: Lane): seq<nat>
  {
    seq(|s.order|, i requires 0 <= i < |s.order| => CallbackOf(s.settled, s.order[i]))
  }

  /** How many callbacks of a list are run: all, or up to the first that throws. */
  function Executed(callbacks: seq<nat>, faulty: set<nat>): (n: nat)
    ensures n <= |callbacks|
    ensures forall i :: 0 <= i < n - 1 ==> callbacks[i] !in faulty
    ensures n < |callbacks| ==> n > 0 && callbacks[n - 1] in faulty
  {
    if callbacks == [] then 0
    else if callbacks[0] in faulty then 1
    else
      var n := Executed(callbacks[1..], faulty);
      assert forall i :: 1 <= i < n ==> callbacks[i] == callbacks[1..][i - 1];
      1 + n
  }

  predicate Throws(callbacks: seq<nat>, faulty: set<nat>)
  {
    exists i :: 0 <= i < |callbacks| && callbacks[i] in faulty
  }

  function Members(callbacks: seq<nat>): set<nat>
  {
    set k | k in callbacks
  }

  /** Takes the map away and runs its callbacks; those after one that throws are lost. */
  function CallbacksFinished(s: Lane): Lane
  {
    var n := Executed(Callbacks(s), s.faulty);
    s.(ran := s.ran + multiset(Callbacks(s)[..n]), lost := s.lost + Members(Callbacks(s)[n..]), settled := map[],
       order := [])
  }

  /** Closes the lane and drops the queue, unless a callback throws first. */
  function Discarded(s: Lane): Lane
  {
    var t := CallbacksFinished(s.(closed := true, discarded := true));
    if Throws(Callbacks(s), s.faulty) then t.(kept := true) else Cleared(t)
  }

  /** A failure is reported last, and so not at all if a callback throws. */
  function Failed(s: Lane): Lane
  {
    if s.closed then s
    else
      var t := Discarded(s).(writer := false, opening := false);
      if Throws(Callbacks(s), s.faulty) then t else t.(failures := t.failures + 1)
  }

  function Aborted(s: Lane): Lane
  {
    if s.closed then s
    else if Throws(Callbacks(s), s.faulty) then Discarded(s)
    else Discarded(s).(writer := false)
  }

  /** The loop head: starts the next write, or ends, closing the writer if the lane is finishing. */
  function Looped(s: Lane): Lane
  {
    if s.head < |s.packets| then
      s.(phase := Writing(s.head, s.packets[s.head]), started := s.started + [s.packets[s.head]])
    else if s.finishing then Cleared(s).(closed := true, writer := false, phase := Closing)
    else Cleared(s).(phase := Rest)
  }

  function Woken(s: Lane): Lane
  {
    if s.opening || s.closed || s.phase != Rest then s else Looped(s)
  }

  function Enqueued(s: Lane, packet: Packet, callback: bool): Lane
  {
    if s.closed || s.finishing then s
    else
      var t := s.(packets := s.packets + [packet], accepted := s.accepted + [packet]);
      Woken(if callback then Registered(t, packet) else t)
  }

  /** One callback a packet: a second one for the same object replaces the first, in its place. */
  function Registered(s: Lane, packet: Packet): Lane
  {
    s.(settled := s.settled[packet := |s.owners|],
       order := if packet in s.settled then s.order else s.order + [packet],
       owners := s.owners + [packet],
       lost := if packet in s.settled then s.lost + {s.settled[packet]} else s.lost)
  }

  function Without(order: seq<Packet>, p: Packet): seq<Packet>
  {
    if order == [] then [] else (if order[0] == p then [] else [order[0]]) + Without(order[1..], p)
  }

  function Finished(s: Lane): Lane
  {
    if s.closed || s.finishing then s else Woken(s.(finishing := true))
  }

  function AfterWriterReady(s: Lane): Lane
  {
    if s.closed || !s.opening then s else Woken(s.(writer := true, opening := false))
  }

  function OpenFailed(s: Lane): Lane
  {
    if s.opening then Failed(s) else s
  }

  /** The callback of a packet, if it has one, is forgotten and runs. */
  function CallbackRun(s: Lane, p: Packet): Lane
  {
    if p in s.settled
    then s.(ran := s.ran + multiset{s.settled[p]}, settled := s.settled - {p}, order := Without(s.order, p))
    else s
  }

  function Registration(s: Lane, p: Packet): Option<nat>
  {
    if p in s.settled then Some(s.settled[p]) else None
  }

  /** The head moves past the packet that was written. */
  function Moved(s: Lane): Lane
    requires s.phase.Writing?
  {
    s.(head := s.phase.index + 1, completed := s.completed + 1, phase := Looping(Registration(s, s.phase.packet)))
  }

  /** A native write succeeded. */
  function Resolved(s: Lane): Lane
  {
    if !s.phase.Writing? then s else CallbackRun(Moved(s), s.phase.packet)
  }

  /** The callback just run, if there was one, throws. */
  predicate Throwing(s: Lane)
  {
    s.phase.Looping? && s.phase.callback.Some? && s.phase.callback.value in s.faulty
  }

  /** Drops a long consumed prefix. */
  function Trimmed(s: Lane): Lane
  {
    if s.head >= 64 && s.head * 2 >= |s.packets|
    then s.(packets := s.packets[Min(s.head, |s.packets|)..], head := 0, base := s.base + s.head)
    else s
  }

  /** After the callback returned: looks for the next packet. */
  function Continued(s: Lane): Lane
  {
    Looped(Trimmed(s))
  }

  function CallbackLeft(s: Lane): Lane
  {
    if !s.phase.Looping? then s
    else if Throwing(s) then Failed(s).(phase := Rest)
    else Continued(s)
  }

  /** A native write was rejected. */
  function DrainFailed(s: Lane): Lane
  {
    if s.phase.Writing? then Failed(s).(phase := Rest) else s
  }

  /** The native close settled either way. */
  function CloseSettled(s: Lane): Lane
  {
    if s.phase == Closing then s.(phase := Rest) else s
  }

  function Opening(preface: Option<Packet>, faulty: set<nat>): Lane
  {
    var s := Lane([], map[], [], 0, false, true, Rest, false, false, [], [], 0, 0, [], multiset{}, {}, 0, false, false,
                  faulty);
    if preface.Some? then Enqueued(s, preface.value, false) else s
  }

  // Invariant

  /** The queue is the part of the accepted packets that starts at `base`. */
  ghost predicate Stored(s: Lane)
  {
    && s.base <= |s.accepted|
    && s.packets == s.accepted[s.base..]
    && s.head <= |s.packets|
    && s.completed == s.base + s.head
    && (s.phase.Writing? ==> s.head < |s.packets| && s.phase == Writing(s.head, s.packets[s.head]))
    && s.started == s.accepted[..s.completed + if s.phase.Writing? then 1 else 0]
  }

  /** The order lists the keys of the map, each once. */
  ghost predicate Mapped(s: Lane)
  {
    && (forall i, j :: 0 <= i < j < |s.order| ==> s.order[i] != s.order[j])
    && (forall p :: p in s.order <==> p in s.settled)
  }

  /** Every callback given has run once, is still registered, or is lost. */
  ghost predicate Accounted(s: Lane)
  {
    && (forall p :: p in s.settled ==> s.settled[p] < |s.owners| && s.owners[s.settled[p]] == p)
    && (forall k: nat :: s.ran[k] + (if Waiting(s, k) then 1 else 0) + (if k in s.lost then 1 else 0)
                         == if k < |s.owners| then 1 else 0)
  }

  /** A callback still registered. */
  predicate Waiting(s: Lane, k: nat)
  {
    k < |s.owners| && s.owners[k] in s.settled && s.settled[s.owners[k]] == k
  }

  /** Callbacks wait for packets not yet written, and those that ran had theirs written. */
  ghost predicate OnTime(s: Lane)
  {
    && (forall p :: p in s.settled ==> p in s.accepted[Min(s.completed, |s.accepted|)..])
    && (forall k: nat :: s.ran[k] > 0 && k < |s.owners| ==> s.owners[k] in s.accepted[..Min(s.completed, |s.accepted|)])
  }

  ghost predicate Phased(s: Lane)
  {
    && (s.phase != Rest ==> !s.opening)
    && (!s.opening && !s.closed ==> s.writer)
    && (s.phase == Rest && !s.opening && !s.closed ==> s.packets == [] && !s.finishing)
    && (s.phase == Closing ==> s.closed)
    && (s.closed && !s.discarded ==> s.finishing && s.completed == |s.accepted| && s.phase in {Closing, Rest})
    && (s.discarded ==> s.closed && s.settled == map[] && (s.kept || s.packets == []))
    && (s.kept ==> s.discarded)
    && s.failures <= 1 && (s.failures == 1 ==> s.discarded && !s.kept)
  }

  ghost predicate Ordered(s: Lane)
  {
    && s.started <= s.accepted
    && s.completed <= |s.started| <= s.completed + 1
    && (s.phase.Writing? ==> |s.started| == s.completed + 1)
  }

  ghost predicate Inv(s: Lane)
  {
    && Phased(s) && Ordered(s) && Accounted(s) && Mapped(s)
    && (!s.discarded ==> OnTime(s))
    && (!s.discarded || (s.kept && s.phase != Rest) ==> Stored(s))
  }

  /** A live lane about to look at its queue. */
  ghost predicate Active(s: Lane)
  {
    && !s.closed && !s.opening && s.writer && !s.phase.Writing? && s.phase != Closing && !s.discarded && s.failures == 0
    && !s.kept && Accounted(s) && Mapped(s) && Stored(s) && OnTime(s)
  }

  /** Nothing is queued and no callback waits once every accepted packet was written. */
  lemma WrittenOutIsSettled(s: Lane)
    requires Stored(s) && OnTime(s) && s.completed == |s.accepted|
    ensures s.settled == map[] && s.packets[s.head..] == []
  {
    assert s.accepted[|s.accepted|..] == [];
  }

  function Started(s: Lane): Lane
    requires s.head < |s.packets|
  {
    s.(phase := Writing(s.head, s.packets[s.head]), started := s.started + [s.packets[s.head]])
  }

  /** The next write is that of the next accepted packet. */
  lemma StartStored(s: Lane)
    requires Stored(s) && !s.phase.Writing? && s.head < |s.packets|
    ensures Stored(Started(s)) && Ordered(Started(s))
  {
    assert s.packets[s.head] == s.accepted[s.completed];
    assert s.accepted[..s.completed + 1] == s.accepted[..s.completed] + [s.accepted[s.completed]];
  }

  /** Once the queue is empty it is forgotten. */
  lemma EndStored(s: Lane)
    requires Stored(s) && !s.phase.Writing? && s.head == |s.packets|
    ensures var t := Cleared(s).(phase := Rest); Stored(t) && Ordered(t) && s.completed == |s.accepted|
  {
    assert s.completed == |s.accepted|;
    assert s.accepted[..|s.accepted|] == s.accepted && s.accepted[|s.accepted|..] == [];
  }

  /** Callback bookkeeping depends on its own fields only. */
  lemma SameCallbacks(s: Lane, t: Lane)
    requires s.settled == t.settled && s.order == t.order && s.owners == t.owners && s.ran == t.ran && s.lost == t.lost
    ensures Accounted(s) ==> Accounted(t)
    ensures Mapped(s) ==> Mapped(t)
    ensures OnTime(s) && s.accepted == t.accepted && s.completed == t.completed ==> OnTime(t)
  {
    assert forall k: nat :: Waiting(t, k) == Waiting(s, k);
  }

  lemma NothingIsMapped(s: Lane)
    requires Mapped(s) && s.settled == map[]
    ensures s.order == []
  {
    SomeIsIn(s.order);
  }

  lemma SomeIsIn(order: seq<Packet>)
    ensures order == [] || exists p :: p in order
  {
    if order != [] {
      assert order[0] in order;
    }
  }

  lemma StartKeeps(s: Lane)
    requires Active(s) && s.head < |s.packets|
    ensures Inv(Started(s))
  {
    StartStored(s);
    SameCallbacks(s, Started(s));
    hide Accounted, OnTime, Stored, Mapped, Ordered;
  }

  lemma EndKeeps(s: Lane)
    requires Active(s) && s.head == |s.packets|
    ensures Inv(Looped(s))
  {
    EndStored(s);
    WrittenOutIsSettled(s);
    NothingIsMapped(s);
    SameCallbacks(s, Looped(s));
    hide Accounted, OnTime, Mapped;
  }

  lemma LoopedKeeps(s: Lane)
    requires Active(s)
    ensures Inv(Looped(s))
  {
    hide Accounted, OnTime, Inv, Mapped;
    if s.head < |s.packets| {
      StartKeeps(s);
    } else {
      EndKeeps(s);
    }
  }

  lemma WokenKeeps(s: Lane)
    requires Accounted(s) && Mapped(s) && Stored(s) && OnTime(s) && Ordered(s)
    requires !s.closed && !s.discarded && !s.kept && s.failures == 0
    requires s.phase != Closing && (s.phase != Rest ==> !s.opening) && (!s.opening ==> s.writer)
    ensures Inv(Woken(s))
  {
    hide Accounted, OnTime, Mapped;
    if !s.opening && s.phase == Rest {
      hide Stored, Inv, Looped;
      LoopedKeeps(s);
    }
  }

  lemma CallbackCount(s: Lane, k: nat)
    requires Accounted(s)
    ensures s.ran[k] + (if Waiting(s, k) then 1 else 0) + (if k in s.lost then 1 else 0)
            == if k < |s.owners| then 1 else 0
  {}

  lemma RegisteredKeeps(s: Lane, packet: Packet)
    requires Accounted(s)
    ensures Accounted(Registered(s, packet))
  {
    var t := Registered(s, packet);
    forall k: nat
      ensures t.ran[k] + (if Waiting(t, k) then 1 else 0) + (if k in t.lost then 1 else 0)
              == if k < |t.owners| then 1 else 0
    {
      CallbackCount(s, k);
    }
  }

  lemma RegisteredMapped(s: Lane, packet: Packet)
    requires Mapped(s)
    ensures Mapped(Registered(s, packet))
  {}

  lemma EnqueuedStored(s: Lane, packet: Packet)
    requires Stored(s) && OnTime(s)
    ensures var t := s.(packets := s.packets + [packet], accepted := s.accepted + [packet]);
            Stored(t) && OnTime(t) && packet in t.accepted[t.completed..]
  {
    AppendSlices(s.accepted, packet, s.base);
    AppendSlices(s.accepted, packet, s.completed);
    if s.phase.Writing? {
      AppendSlices(s.accepted, packet, s.completed + 1);
    }
  }

  lemma AppendSlices(packets: seq<Packet>, packet: Packet, k: nat)
    requires k <= |packets|
    ensures (packets + [packet])[k..] == packets[k..] + [packet] && (packets + [packet])[..k] == packets[..k]
  {}

  lemma EnqueuedKeeps(s: Lane, packet: Packet, callback: bool)
    requires Inv(s)
    ensures Inv(Enqueued(s, packet, callback))
  {
    if !s.closed && !s.finishing {
      EnqueuedStored(s, packet);
      var t := s.(packets := s.packets + [packet], accepted := s.accepted + [packet]);
      SameCallbacks(s, t);
      RegisteredKeeps(t, packet);
      RegisteredMapped(t, packet);
      var r := Registered(t, packet);
      RegisteredOnTime(t, packet);
      hide Accounted, OnTime, Stored, Woken, Mapped;
      WokenKeeps(if callback then r else t);
    }
  }

  lemma RegisteredOnTime(s: Lane, packet: Packet)
    requires Stored(s) && OnTime(s) && Accounted(s) && packet in s.accepted[s.completed..]
    ensures OnTime(Registered(s, packet)) && Stored(Registered(s, packet))
  {
    forall k: nat | s.ran[k] > 0 ensures k < |s.owners| {
      CallbackCount(s, k);
    }
  }

  // Discarding

  /** The waiting callbacks are those the map lists. */
  lemma WaitingIsListed(s: Lane, k: nat)
    requires Accounted(s) && Mapped(s)
    ensures Waiting(s, k) <==> k in Callbacks(s)
  {
    if Waiting(s, k) {
      var i :| 0 <= i < |s.order| && s.order[i] == s.owners[k];
      assert Callbacks(s)[i] == k;
    }
    if k in Callbacks(s) {
      var i :| 0 <= i < |s.order| && Callbacks(s)[i] == k;
      assert s.order[i] in s.settled;
    }
  }

  ghost predicate Distinct(callbacks: seq<nat>)
  {
    forall i, j :: 0 <= i < j < |callbacks| ==> callbacks[i] != callbacks[j]
  }

  lemma ListedOnce(s: Lane)
    requires Accounted(s) && Mapped(s)
    ensures Distinct(Callbacks(s))
  {
    var c := Callbacks(s);
    forall i, j | 0 <= i < j < |c| ensures c[i] != c[j] {
      assert s.order[i] in s.settled && s.order[j] in s.settled;
    }
  }

  lemma {:induction false} CountDistinct(callbacks: seq<nat>, k: nat)
    requires Distinct(callbacks)
    ensures multiset(callbacks)[k] == if k in callbacks then 1 else 0
    decreases callbacks
  {
    if callbacks != [] {
      assert callbacks == [callbacks[0]] + callbacks[1..];
      CountDistinct(callbacks[1..], k);
    }
  }

  /** Each listed callback is either run or lost. */
  lemma RunOrLost(callbacks: seq<nat>, n: nat, k: nat)
    requires Distinct(callbacks) && n <= |callbacks|
    ensures multiset(callbacks[..n])[k] + (if k in Members(callbacks[n..]) then 1 else 0)
            == if k in callbacks then 1 else 0
  {
    CountDistinct(callbacks[..n], k);
    NotBoth(callbacks, n, k);
    assert callbacks == callbacks[..n] + callbacks[n..];
  }

  lemma NotBoth(callbacks: seq<nat>, n: nat, k: nat)
    requires Distinct(callbacks) && n <= |callbacks|
    ensures k in callbacks[..n] ==> k !in callbacks[n..]
  {
    if k in callbacks[..n] {
      var i :| 0 <= i < n && callbacks[i] == k;
      forall j | 0 <= j < |callbacks[n..]| ensures callbacks[n..][j] != k {
        assert callbacks[n..][j] == callbacks[n + j];
      }
    }
  }

  lemma FinishedAccounts(s: Lane)
    requires Accounted(s) && Mapped(s)
    ensures Accounted(CallbacksFinished(s)) && Mapped(CallbacksFinished(s))
  {
    var t, c := CallbacksFinished(s), Callbacks(s);
    var n := Executed(c, s.faulty);
    ListedOnce(s);
    forall k: nat
      ensures t.ran[k] + (if Waiting(t, k) then 1 else 0) + (if k in t.lost then 1 else 0)
              == if k < |t.owners| then 1 else 0
    {
      CallbackCount(s, k);
      WaitingIsListed(s, k);
      hide Callbacks, Executed, Accounted, Mapped;
      RunOrLost(c, n, k);
    }
  }

  lemma DiscardedAccounts(s: Lane)
    requires Accounted(s) && Mapped(s)
    ensures Accounted(Discarded(s)) && Mapped(Discarded(s))
  {
    var t := s.(closed := true, discarded := true);
    SameCallbacks(s, t);
    hide Accounted, Mapped, Callbacks, Executed;
    FinishedAccounts(t);
    DiscardedCallbacks(s);
    hide CallbacksFinished, Discarded;
    SameCallbacks(CallbacksFinished(t), Discarded(s));
  }

  lemma DiscardedCallbacks(s: Lane)
    ensures var t, d := CallbacksFinished(s.(closed := true, discarded := true)), Discarded(s);
            t.settled == d.settled && t.order == d.order && t.owners == d.owners && t.ran == d.ran && t.lost == d.lost
  {
    hide Callbacks, Executed, Throws;
  }

  lemma DiscardedIs(s: Lane)
    ensures var t := Discarded(s);
            && t.closed && t.discarded && t.settled == map[] && t.order == []
            && t.accepted == s.accepted && t.started == s.started && t.completed == s.completed && t.phase == s.phase
            && t.failures == s.failures && t.finishing == s.finishing && t.opening == s.opening && t.writer == s.writer
            && t.owners == s.owners && t.faulty == s.faulty
            && (if Throws(Callbacks(s), s.faulty)
                then t.kept && t.packets == s.packets && t.head == s.head && t.base == s.base
                else t.kept == s.kept && t.packets == [])
  {}

  lemma AbortKeeps(s: Lane)
    requires Inv(s) && !s.closed
    ensures Inv(Aborted(s))
  {
    DiscardedAccounts(s);
    DiscardedIs(s);
    hide Accounted, OnTime, Mapped, Discarded, Callbacks, Throws, Stored;
    SameCallbacks(Discarded(s), Aborted(s));
    SameStored(s, Aborted(s));
  }

  lemma FailKeeps(s: Lane)
    requires Inv(s) && !s.closed
    ensures Inv(Failed(s))
  {
    DiscardedAccounts(s);
    DiscardedIs(s);
    hide Accounted, OnTime, Mapped, Discarded, Callbacks, Throws, Stored;
    SameCallbacks(Discarded(s), Failed(s));
    SameStored(s, Failed(s));
  }

  lemma SameStored(s: Lane, t: Lane)
    requires s.accepted == t.accepted && s.started == t.started && s.completed == t.completed && s.phase == t.phase
    ensures s.packets == t.packets && s.head == t.head && s.base == t.base && Stored(s) ==> Stored(t)
  {}

  /** A closed lane whose drain ends. */
  lemma RestsKeeps(s: Lane)
    requires Inv(s) && s.closed && (s.discarded || !s.phase.Writing?)
    ensures Inv(s.(phase := Rest))
  {
    SameCallbacks(s, s.(phase := Rest));
    hide Accounted, OnTime, Mapped;
  }

  /** A drain in flight fails: its lane is closed, and its write never completes. */
  lemma DrainFailedKeeps(s: Lane)
    requires Inv(s) && (s.phase.Writing? || s.phase.Looping?)
    ensures Inv(Failed(s).(phase := Rest))
  {
    if s.closed {
      RestsKeeps(s);
    } else {
      FailKeeps(s);
      RestsKeeps(Failed(s));
    }
    hide Accounted, OnTime, Mapped, Discarded;
  }


  lemma FinishedKeeps(s: Lane)
    requires Inv(s)
    ensures Inv(Finished(s))
  {
    if !s.closed && !s.finishing {
      var t := s.(finishing := true);
      SameCallbacks(s, t);
      hide Accounted, OnTime, Woken, Mapped;
      WokenKeeps(t);
    }
  }

  lemma ReadyKeeps(s: Lane)
    requires Inv(s)
    ensures Inv(AfterWriterReady(s))
  {
    if !s.closed && s.opening {
      var t := s.(writer := true, opening := false);
      SameCallbacks(s, t);
      hide Accounted, OnTime, Woken, Mapped;
      WokenKeeps(t);
    }
  }

  // Draining

  /** The completed packet leaves the pending ones. */
  lemma PendingAdvances(s: Lane)
    requires Stored(s) && s.phase.Writing?
    ensures s.completed < |s.accepted| && s.accepted[s.completed] == s.phase.packet
    ensures s.accepted[s.completed..] == [s.phase.packet] + s.accepted[s.completed + 1..]
    ensures s.accepted[..s.completed + 1] == s.accepted[..s.completed] + [s.phase.packet]
  {
    assert s.packets[s.head] == s.accepted[s.completed];
  }

  /** Running and forgetting the callback of one packet. */
  lemma CallbackAccounts(s: Lane, p: Packet)
    requires Accounted(s)
    ensures Accounted(CallbackRun(s, p))
  {
    hide Without;
    var t := CallbackRun(s, p);
    if p in s.settled {
      forall k: nat
        ensures t.ran[k] + (if Waiting(t, k) then 1 else 0) + (if k in t.lost then 1 else 0)
                == if k < |t.owners| then 1 else 0
      {
        CallbackCount(s, k);
        assert Waiting(t, k) <==> Waiting(s, k) && k != s.settled[p];
      }
    }
  }

  lemma CallbackRunIs(s: Lane, p: Packet)
    ensures var t := CallbackRun(s, p);
            && t == s.(ran := t.ran, settled := t.settled, order := t.order)
            && t.settled == s.settled - {p}
  {
    hide Without;
  }

  ghost predicate NoTwice(order: seq<Packet>)
  {
    forall i, j :: 0 <= i < j < |order| ==> order[i] != order[j]
  }

  lemma {:induction false} WithoutIs(order: seq<Packet>, p: Packet)
    ensures forall q :: q in Without(order, p) <==> q in order && q != p
    ensures NoTwice(order) ==> NoTwice(Without(order, p))
    decreases order
  {
    if order != [] {
      var rest := order[1..];
      WithoutIs(rest, p);
      assert order == [order[0]] + rest;
      if NoTwice(order) {
        assert NoTwice(rest) && order[0] !in rest;
        PrependNoTwice(order[0], Without(rest, p));
      }
    }
  }

  lemma PrependNoTwice(p: Packet, order: seq<Packet>)
    requires NoTwice(order) && p !in order
    ensures NoTwice([p] + order)
  {}

  lemma ResolvedAccounts(s: Lane)
    requires Accounted(s) && Mapped(s) && s.phase.Writing?
    ensures Accounted(Resolved(s)) && Mapped(Resolved(s))
  {
    SameCallbacks(s, Moved(s));
    hide Accounted, Mapped, CallbackRun;
    CallbackAccounts(Moved(s), s.phase.packet);
    RemovalMapped(Moved(s), s.phase.packet, Resolved(s));
  }

  lemma RemovalMapped(s: Lane, p: Packet, t: Lane)
    requires Mapped(s) && t == CallbackRun(s, p)
    ensures Mapped(t)
  {
    if p in s.settled {
      WithoutIs(s.order, p);
      assert NoTwice(s.order);
      hide Without;
      assert NoTwice(t.order);
    }
  }

  lemma ResolvedStored(s: Lane)
    requires Stored(s) && s.phase.Writing?
    ensures Stored(Resolved(s))
  {
    CallbackRunIs(Moved(s), s.phase.packet);
    hide CallbackRun;
  }

  lemma StillWaiting(s: Lane, q: Packet)
    requires Stored(s) && OnTime(s) && s.phase.Writing? && q in s.settled && q != s.phase.packet
    ensures q in s.accepted[s.completed + 1..]
  {
    PendingAdvances(s);
    hide Stored;
    assert q in [s.phase.packet] + s.accepted[s.completed + 1..];
  }

  lemma RanOnTime(s: Lane, k: nat)
    requires Stored(s) && OnTime(s) && Accounted(s) && s.phase.Writing? && k < |s.owners|
    requires Resolved(s).ran[k] > 0
    ensures s.owners[k] in s.accepted[..s.completed + 1]
  {
    PendingAdvances(s);
    hide Stored, Without;
    var p := s.phase.packet;
    assert p in s.accepted[..s.completed + 1];
    if s.ran[k] > 0 {
      assert s.owners[k] in s.accepted[..s.completed];
    } else {
      assert p in s.settled && s.settled[p] == k;
    }
  }

  lemma ResolvedOnTime(s: Lane)
    requires Stored(s) && OnTime(s) && Accounted(s) && s.phase.Writing?
    ensures OnTime(Resolved(s))
  {
    var t := Resolved(s);
    CallbackRunIs(Moved(s), s.phase.packet);
    forall q | q in t.settled ensures q in s.accepted[s.completed + 1..] {
      StillWaiting(s, q);
    }
    forall k: nat | t.ran[k] > 0 && k < |s.owners| ensures s.owners[k] in s.accepted[..s.completed + 1] {
      RanOnTime(s, k);
    }
    PendingAdvances(s);
    hide Stored, Accounted, CallbackRun;
  }

  lemma ResolvedKeeps(s: Lane)
    requires Inv(s) && s.phase.Writing?
    ensures Inv(Resolved(s))
  {
    ResolvedAccounts(s);
    if !s.discarded {
      ResolvedOnTime(s);
    }
    if !s.discarded || s.kept {
      ResolvedStored(s);
    }
    ResolvedIs(s);
    hide Accounted, OnTime, Stored, Mapped, Resolved;
  }

  lemma ResolvedIs(s: Lane)
    requires s.phase.Writing?
    ensures var t := Resolved(s);
            && t.phase.Looping? && t.completed == s.completed + 1 && (s.settled == map[] ==> t.settled == map[])
            && t == s.(head := s.phase.index + 1, completed := t.completed, ran := t.ran, settled := t.settled,
                       order := t.order, phase := t.phase)
  {
    CallbackRunIs(Moved(s), s.phase.packet);
    hide CallbackRun;
  }

  /** Compaction moves packets, not the queue they stand for. */
  lemma CompactedStored(s: Lane)
    requires Stored(s) && !s.phase.Writing?
    ensures Stored(s.(packets := s.packets[s.head..], head := 0, base := s.base + s.head))
  {
    assert s.accepted[s.base..][s.head..] == s.accepted[s.base + s.head..];
  }

  function Compacted(s: Lane): Lane
    requires s.head <= |s.packets|
  {
    s.(packets := s.packets[s.head..], head := 0, base := s.base + s.head)
  }

  lemma LoopingIsActive(s: Lane)
    requires Inv(s) && s.phase.Looping? && !s.discarded
    ensures Active(s) && Active(Compacted(s))
  {
    hide Accounted, OnTime, Mapped;
    CompactedStored(s);
    SameCallbacks(s, Compacted(s));
  }

  lemma ContinuedIs(s: Lane)
    requires s.head <= |s.packets|
    ensures Continued(s) == Looped(s) || Continued(s) == Looped(Compacted(s))
  {
    hide Looped;
  }

  lemma ContinuedKeeps(s: Lane)
    requires Inv(s) && s.phase.Looping?
    ensures Inv(Continued(s))
  {
    if !s.discarded {
      LoopingIsActive(s);
      ContinuedIs(s);
      hide Active, Inv, Looped, Continued;
      LoopedKeeps(s);
      LoopedKeeps(Compacted(s));
    } else if s.kept {
      KeptContinues(s);
    } else {
      DroppedLoops(s);
    }
  }

  lemma KeptContinues(s: Lane)
    requires Inv(s) && s.phase.Looping? && s.kept
    ensures Inv(Continued(s))
  {
    CompactedStored(s);
    SameCallbacks(s, Compacted(s));
    ContinuedIs(s);
    hide Stored, Ordered, Looped, Continued, Accounted, Mapped, OnTime;
    KeptLoops(s);
    KeptLoops(Compacted(s));
  }

  /** A drain that was aborted in flight finds nothing left to write. */
  lemma DroppedLoops(s: Lane)
    requires Inv(s) && s.phase.Looping? && s.discarded && !s.kept
    ensures Inv(Continued(s))
  {
    NothingIsMapped(s);
    SameCallbacks(s, Continued(s));
    hide Accounted, OnTime, Stored, Mapped;
  }

  /** Unless discarding was cut short: then it goes on writing what is queued. */
  lemma KeptLoops(s: Lane)
    requires Phased(s) && Accounted(s) && Mapped(s) && s.kept && s.phase.Looping? && Stored(s)
    ensures Inv(Looped(s))
  {
    NothingIsMapped(s);
    SameCallbacks(s, Looped(s));
    if s.head < |s.packets| {
      StartStored(s);
    } else {
      EndStored(s);
    }
    hide Accounted, OnTime, Stored, Mapped, Ordered;
  }

  // Runs

  /** Every operation and every settled promise, in any order the phases allow. */
  datatype Event =
    | Enqueue(packet: Packet, callback: bool)
    | Finish
    | Abort
    | WriterIsReady
    | WriterFails
    | WriteResolves
    | WriteRejects
    | CallbackReturns
    | CloseSettles

  function Step(s: Lane, e: Event): Lane
  {
    match e
    case Enqueue(packet, callback) => Enqueued(s, packet, callback)
    case Finish => Finished(s)
    case Abort => Aborted(s)
    case WriterIsReady => AfterWriterReady(s)
    case WriterFails => OpenFailed(s)
    case WriteResolves => Resolved(s)
    case WriteRejects => DrainFailed(s)
    case CallbackReturns => CallbackLeft(s)
    case CloseSettles => CloseSettled(s)
  }

  lemma StepKeeps(s: Lane, e: Event)
    requires Inv(s)
    ensures Inv(Step(s, e))
  {
    hide Inv, Enqueued, Finished, AfterWriterReady, Resolved, Continued, Failed, Aborted, Throwing;
    match e
    case Enqueue(packet, callback) => EnqueuedKeeps(s, packet, callback);
    case Finish => FinishedKeeps(s);
    case Abort => CloseIsKept(s); if !s.closed { AbortKeeps(s); }
    case WriterIsReady => ReadyKeeps(s);
    case WriterFails => CloseIsKept(s); if !s.closed { FailKeeps(s); }
    case WriteResolves =>
      if s.phase.Writing? { ResolvedKeeps(s); } else { assert Resolved(s) == s by { NotWriting(s); } }
    case WriteRejects => if s.phase.Writing? { DrainFailedKeeps(s); }
    case CallbackReturns => if s.phase.Looping? { ContinuedKeeps(s); DrainFailedKeeps(s); }
    case CloseSettles => ClosingIsClosed(s);
  }

  lemma CloseIsKept(s: Lane)
    ensures s.closed ==> Aborted(s) == s && Failed(s) == s
  {}

  lemma NotWriting(s: Lane)
    requires !s.phase.Writing?
    ensures Resolved(s) == s
  {}

  lemma ClosingIsClosed(s: Lane)
    requires Inv(s)
    ensures Inv(CloseSettled(s))
  {
    if s.phase == Closing {
      hide Accounted, OnTime, Stored, Mapped;
      RestsKeeps(s);
    }
  }

  function Run(s: Lane, events: seq<Event>): Lane
    decreases events
  {
    if events == [] then s else Run(Step(s, events[0]), events[1..])
  }

  lemma {:induction false} RunKeeps(s: Lane, events: seq<Event>)
    requires Inv(s)
    ensures Inv(Run(s, events))
    decreases events
  {
    hide Inv, Step;
    if events != [] {
      StepKeeps(s, events[0]);
      RunKeeps(Step(s, events[0]), events[1..]);
    }
  }

  lemma OpeningInv(preface: Option<Packet>, faulty: set<nat>)
    ensures Inv(Opening(preface, faulty))
  {}

  lemma Reached(preface: Option<Packet>, faulty: set<nat>, events: seq<Event>)
    ensures Inv(Run(Opening(preface, faulty), events))
  {
    OpeningInv(preface, faulty);
    hide Inv, Opening;
    RunKeeps(Opening(preface, faulty), events);
  }
}
