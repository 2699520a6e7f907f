/**
  Datagrams and their markers: the completion callbacks of the datagram lanes are what makes up for
  lost datagrams. A datagram's packet is named by its ordinal.
 */
module WebTransportMarkers {
  import opened Common
  import opened OrderedReceiver
  import opened WebTransportMapping
  import L = WriteLane
  import Runs = WriteLaneRuns

  /** Every packet is an object of its own. */
  ghost predicate Fresh(events: seq<L.Event>)
  {
    forall i, j :: 0 <= i < j < |events| && events[i].Enqueue? && events[j].Enqueue? ==>
      events[i].packet != events[j].packet
  }

  /** No packet still to be enqueued has a callback waiting. */
  ghost predicate Unknown(s: L.Lane, events: seq<L.Event>)
  {
    forall i :: 0 <= i < |events| && events[i].Enqueue? ==> events[i].packet !in s.settled
  }

  /** A step registers callbacks for the packet it enqueues only. */
  lemma StepRegisters(s: L.Lane, e: L.Event)
    ensures L.Step(s, e).faulty == s.faulty
    ensures forall p :: p in L.Step(s, e).settled ==> p in s.settled || (e.Enqueue? && p == e.packet)
  {
    if e.Enqueue? {
      EnqueuedRegisters(s, e.packet, e.callback);
      hide L.Enqueued;
    } else {
      OthersRegister(s, e);
      hide L.Step;
    }
  }

  lemma OthersRegister(s: L.Lane, e: L.Event)
    requires !e.Enqueue?
    ensures L.Step(s, e).faulty == s.faulty && L.Step(s, e).settled.Keys <= s.settled.Keys
  {
    hide L.Woken, L.Failed, L.Aborted, L.Resolved, L.Continued;
    match e
    case Finish => WokenRegisters(s.(finishing := true));
    case WriterIsReady => WokenRegisters(s.(writer := true, opening := false));
    case WriteResolves => ResolvedRegisters(s);
    case CallbackReturns => ContinuedRegisters(s); FailedRegisters(s);
    case CloseSettles =>
    case _ => FailedRegisters(s);
  }

  lemma ResolvedRegisters(s: L.Lane)
    ensures L.Resolved(s).faulty == s.faulty && L.Resolved(s).settled.Keys <= s.settled.Keys
  {
    hide L.CallbackRun;
    if s.phase.Writing? {
      L.CallbackRunIs(L.Moved(s), s.phase.packet);
    }
  }

  lemma FailedRegisters(s: L.Lane)
    ensures L.Failed(s).faulty == s.faulty && L.Failed(s).settled.Keys <= s.settled.Keys
    ensures L.Aborted(s).faulty == s.faulty && L.Aborted(s).settled.Keys <= s.settled.Keys
  {
    L.DiscardedIs(s);
    hide L.Discarded;
  }

  lemma LoopedRegisters(s: L.Lane)
    ensures L.Looped(s).faulty == s.faulty && L.Looped(s).settled.Keys <= s.settled.Keys
  {
    assert L.Cleared(s).faulty == s.faulty && L.Cleared(s).settled == map[];
    hide L.Cleared;
  }

  lemma WokenRegisters(s: L.Lane)
    ensures L.Woken(s).faulty == s.faulty && L.Woken(s).settled.Keys <= s.settled.Keys
  {
    LoopedRegisters(s);
    hide L.Looped;
  }

  lemma ContinuedRegisters(s: L.Lane)
    ensures L.Continued(s).faulty == s.faulty && L.Continued(s).settled.Keys <= s.settled.Keys
  {
    LoopedRegisters(L.Trimmed(s));
    hide L.Looped;
  }

  lemma EnqueuedRegisters(s: L.Lane, packet: nat, callback: bool)
    ensures var t := L.Enqueued(s, packet, callback);
            t.faulty == s.faulty && forall p :: p in t.settled ==> p in s.settled || p == packet
  {
    var t := s.(packets := s.packets + [packet], accepted := s.accepted + [packet]);
    WokenRegisters(if callback then L.Registered(t, packet) else t);
    hide L.Woken;
  }

  /** A lane whose packets are all distinct and whose callbacks do not throw loses no callback. */
  lemma {:induction false} NoneIsLost(s: L.Lane, events: seq<L.Event>, k: nat)
    requires s.faulty == {} && Fresh(events) && Unknown(s, events)
    ensures !Runs.LostIn(s, events, k)
    decreases events
  {
    hide L.Step;
    if events != [] {
      var e, t := events[0], L.Step(s, events[0]);
      StepRegisters(s, e);
      assert !Runs.Loses(s, e, k);
      assert Unknown(t, events[1..]) by {
        forall i | 0 <= i < |events[1..]| && events[1..][i].Enqueue? ensures events[1..][i].packet !in t.settled {
          assert events[1..][i] == events[i + 1];
        }
      }
      NoneIsLost(t, events[1..], k);
    }
  }

  /**
    The life of one datagram lane so far: its packets are objects of their own, its callbacks, which
    write the markers, do not throw, and it is at rest or closed.
   */
  ghost predicate AtRest(log: seq<Entry>, events: seq<L.Event>)
  {
    var s := L.Run(L.Opening(None, {}), events);
    && Fresh(events)
    && (s.closed || (s.phase == L.Rest && !s.opening))
    && forall i: nat :: i < |s.owners| && s.ran[i] > 0 ==> IsMarked(log, s.owners[i])
  }

  /** Every datagram it was given is marked, whether it was sent, failed or was discarded. */
  lemma RestingLaneMarksAll(log: seq<Entry>, events: seq<L.Event>, k: nat)
    requires AtRest(log, events) && k in L.Run(L.Opening(None, {}), events).owners
    ensures IsMarked(log, k)
  {
    var s := L.Run(L.Opening(None, {}), events);
    var i :| 0 <= i < |s.owners| && s.owners[i] == k;
    NoneIsLost(L.Opening(None, {}), events, i);
    Runs.CallbacksRunOnce(None, {}, events, i);
    hide L.Run, L.Opening, Runs.LostIn, IsMarked;
  }

  /** All datagram lanes are at rest, and each datagram was given to one of them. */
  ghost predicate LanesRest(log: seq<Entry>, lanes: seq<seq<L.Event>>)
  {
    && (forall i :: 0 <= i < |lanes| ==> AtRest(log, lanes[i]))
    && forall k :: 0 <= k < |Writes(log)| && Writes(log)[k].lane == Datagram ==>
         exists i :: 0 <= i < |lanes| && k in L.Run(L.Opening(None, {}), lanes[i]).owners
  }

  lemma RestingLanesMarkAll(log: seq<Entry>, lanes: seq<seq<L.Event>>, k: nat)
    requires LanesRest(log, lanes) && k < |Writes(log)| && Writes(log)[k].lane == Datagram
    ensures IsMarked(log, k)
  {
    var i :| 0 <= i < |lanes| && k in L.Run(L.Opening(None, {}), lanes[i]).owners;
    hide L.Run, L.Opening, AtRest;
    RestingLaneMarksAll(log, lanes[i], k);
  }

  /**
    So the reliable records alone make sure that everything is delivered: once they have arrived and
    the datagram lanes are at rest, nothing waits, even if every datagram was lost.
   */
  lemma ReliableRecordsSuffice(log: seq<Entry>, lanes: seq<seq<L.Event>>, arrivals: seq<Arrival<Record>>, cap: nat)
    requires WellMarked(log)
    requires forall a :: a in arrivals ==> Legit(Writes(log))(a.ordinal, a.value)
    requires forall lane, q :: lane != Datagram && q in OnLane(log, lane) ==> Arrived(arrivals, q.ordinal)
    ensures var s := AcceptAll(Reorder(map[], 0), arrivals, cap);
            LanesRest(log, lanes) && !s.overflow ==> |s.emitted| == |Writes(log)| && s.state.pending == map[]
  {
    if LanesRest(log, lanes) {
      forall k | 0 <= k < |Writes(log)| && Writes(log)[k].lane == Datagram ensures IsMarked(log, k) {
        RestingLanesMarkAll(log, lanes, k);
      }
      AllArrivedAllDelivered(log, arrivals, cap);
    }
    hide LanesRest, Writes, OnLane;
  }
}
