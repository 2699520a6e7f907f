/** Restoring the sender's order of records that travelled on independent lanes. */
module OrderedReceiver {
  import opened Common

  /** One record waiting for an earlier ordinal, with the bytes charged for it. */
  datatype PendingRecord<T> = PendingRecord(value: T, bytes: nat)

  type PendingMap<T> = map<nat, PendingRecord<T>>

  /** Bytes charged against the reorder limit. */
  ghost function Charged<T(!new)>(pending: PendingMap<T>): nat
  {
    if pending == map[] then 0
    else
      var k :| k in pending;
      pending[k].bytes + Charged(pending - {k})
  }

  lemma {:induction false} ChargedWithout<T(!new)>(pending: PendingMap<T>, k: nat)
    requires k in pending
    ensures Charged(pending) == pending[k].bytes + Charged(pending - {k})
    decreases |pending|
  {
    var j :| j in pending && Charged(pending) == pending[j].bytes + Charged(pending - {j});
    if j != k {
      ChargedWithout(pending - {j}, k);
      ChargedWithout(pending - {k}, j);
      assert pending - {j} - {k} == pending - {k} - {j};
    }
  }

  lemma ChargedWith<T(!new)>(pending: PendingMap<T>, k: nat, r: PendingRecord<T>)
    requires k !in pending
    ensures Charged(pending[k := r]) == Charged(pending) + r.bytes
  {
    ChargedWithout(pending[k := r], k);
    assert pending[k := r] - {k} == pending;
  }

  /** The receiver as a value. */
  datatype Reorder<T> = Reorder(pending: PendingMap<T>, next: nat)

  /** The contiguous run starting at `next`. */
  function Run<T>(pending: PendingMap<T>, next: nat): (values: seq<T>)
    decreases |pending|
  {
    if next !in pending then [] else [pending[next].value] + Run(pending - {next}, next + 1)
  }

  function AfterRun<T>(pending: PendingMap<T>, next: nat): Reorder<T>
    decreases |pending|
  {
    if next !in pending then Reorder(pending, next) else AfterRun(pending - {next}, next + 1)
  }

  /** Taking the record at the front. */
  lemma RunStep<T(!new)>(pending: PendingMap<T>, next: nat, emitted: seq<T>)
    requires next in pending
    ensures |pending - {next}| < |pending|
    ensures Charged(pending) == pending[next].bytes + Charged(pending - {next})
    ensures emitted + [pending[next].value] + Run(pending - {next}, next + 1) == emitted + Run(pending, next)
    ensures AfterRun(pending - {next}, next + 1) == AfterRun(pending, next)
  {
    ChargedWithout(pending, next);
    hide Charged;
    assert (pending - {next}).Keys == pending.Keys - {next};
    ConcatAssociates(emitted, [pending[next].value], Run(pending - {next}, next + 1));
  }

  lemma RunEnds<T(!new)>(pending: PendingMap<T>, next: nat)
    requires next !in pending
    ensures Run(pending, next) == [] && AfterRun(pending, next) == Reorder(pending, next)
  {}

  datatype Step<T> = Step(state: Reorder<T>, emitted: seq<T>, overflow: bool)

  ghost function Accept<T(!new)>(r: Reorder<T>, ordinal: nat, value: T, bytes: nat, cap: nat): Step<T>
  {
    if ordinal < r.next || ordinal in r.pending then Step(r, [], false)
    else if ordinal == r.next then
      Step(AfterRun(r.pending, r.next + 1), [value] + Run(r.pending, r.next + 1), false)
    else if Charged(r.pending) + bytes > cap then Step(r, [], true)
    else Step(r.(pending := r.pending[ordinal := PendingRecord(value, bytes)]), [], false)
  }

  class RSocketWebTransportOrderedReceiver<T(!new)> {
    var pending: PendingMap<T>
    var nextOrdinal: nat
    var retainedBytes: int
    const maxRetainedBytes: nat

    ghost predicate Valid()
      reads this
    {
      retainedBytes == Charged(pending) <= maxRetainedBytes && nextOrdinal !in pending
    }

    ghost function View(): Reorder<T>
      reads this
    {
      Reorder(pending, nextOrdinal)
    }

    constructor (limit: nat)
      ensures Valid() && View() == Reorder(map[], 0) && maxRetainedBytes == limit
    {
      pending, nextOrdinal, retainedBytes, maxRetainedBytes := map[], 0, 0, limit;
    }

    /** Delivers one record now, buffers it, or drops a late duplicate. */
    method AcceptRecord(ordinal: nat, value: T, bytes: nat) returns (emitted: seq<T>, overflow: bool)
      requires Valid()
      modifies this
      ensures Valid()
      ensures old(Accept(View(), ordinal, value, bytes, maxRetainedBytes)) == Step(View(), emitted, overflow)
      ensures overflow <==> && ordinal > old(nextOrdinal) && ordinal !in old(pending)
                            && old(retainedBytes) + bytes > maxRetainedBytes
      ensures ordinal == old(nextOrdinal) ==>
                emitted != [] && emitted[0] == value && nextOrdinal == ordinal + |emitted|
      ensures ordinal != old(nextOrdinal) ==>
                && emitted == [] && nextOrdinal == old(nextOrdinal)
                && pending == if ordinal < old(nextOrdinal) || ordinal in old(pending) || overflow then old(pending)
                              else old(pending)[ordinal := PendingRecord(value, bytes)]
    {
      if ordinal < nextOrdinal || ordinal in pending {
        return [], false;
      }
      if ordinal == nextOrdinal {
        nextOrdinal := nextOrdinal + 1;
        var run := Drain();
        return [value] + run, false;
      }
      var retained := retainedBytes + bytes;
      if retained > maxRetainedBytes {
        return [], true;
      }
      ChargedWith(pending, ordinal, PendingRecord(value, bytes));
      pending := pending[ordinal := PendingRecord(value, bytes)];
      retainedBytes := retained;
      return [], false;
    }

    /** Releases every value retained by an incomplete physical session. */
    method Clear()
      modifies this
      ensures retainedBytes == 0 && pending == map[] && nextOrdinal == old(nextOrdinal)
      ensures Valid()
    {
      pending := map[];
      retainedBytes := 0;
    }

    /** Emits the longest contiguous run after a gap closes. */
    method Drain() returns (emitted: seq<T>)
      requires retainedBytes == Charged(pending) <= maxRetainedBytes
      modifies this
      ensures Valid()
      ensures emitted == Run(old(pending), old(nextOrdinal))
      ensures View() == AfterRun(old(pending), old(nextOrdinal))
      ensures nextOrdinal == old(nextOrdinal) + |emitted|
    {
      hide Run, AfterRun, Charged;
      emitted := [];
      while nextOrdinal in pending
        invariant retainedBytes == Charged(pending) <= maxRetainedBytes
        invariant emitted + Run(pending, nextOrdinal) == Run(old(pending), old(nextOrdinal))
        invariant AfterRun(pending, nextOrdinal) == AfterRun(old(pending), old(nextOrdinal))
        invariant nextOrdinal == old(nextOrdinal) + |emitted|
        decreases |pending|
      {
        var record := pending[nextOrdinal];
        RunStep(pending, nextOrdinal, emitted);
        pending := pending - {nextOrdinal};
        retainedBytes := retainedBytes - record.bytes;
        nextOrdinal := nextOrdinal + 1;
        emitted := emitted + [record.value];
      }
      RunEnds(pending, nextOrdinal);
      assert emitted + [] == emitted;
    }
  }

  // ----- any arrival order whatever

  /** One arrival at the receiver: an ordinal, a record, and the bytes charged if it must wait. */
  datatype Arrival<T> = Arrival(ordinal: nat, value: T, bytes: nat)

  /** Processes arrivals until the reorder cap is exceeded. */
  ghost function AcceptAll<T(!new)>(r: Reorder<T>, arrivals: seq<Arrival<T>>, cap: nat): Step<T>
    decreases arrivals
  {
    if arrivals == [] then Step(r, [], false)
    else
      var a := arrivals[0];
      var s := Accept(r, a.ordinal, a.value, a.bytes, cap);
      if s.overflow then s
      else
        var rest := AcceptAll(s.state, arrivals[1..], cap);
        Step(rest.state, s.emitted + rest.emitted, rest.overflow)
  }

  /** `legit(k, v)` says that v is a record the sender issued under ordinal k. */
  ghost predicate Issued<T(!new)>(r: Reorder<T>, legit: (nat, T) -> bool)
  {
    r.next !in r.pending && forall k :: k in r.pending ==> legit(k, r.pending[k].value) && r.next <= k
  }

  ghost predicate InOrder<T(!new)>(emitted: seq<T>, first: nat, legit: (nat, T) -> bool)
  {
    forall i :: 0 <= i < |emitted| ==> legit(first + i, emitted[i])
  }

  lemma InOrderConcat<T(!new)>(a: seq<T>, b: seq<T>, first: nat, legit: (nat, T) -> bool)
    requires InOrder(a, first, legit) && InOrder(b, first + |a|, legit)
    ensures InOrder(a + b, first, legit)
  {
    forall i | 0 <= i < |a + b| ensures legit(first + i, (a + b)[i]) {
      if i >= |a| {
        assert legit(first + |a| + (i - |a|), b[i - |a|]);
      }
    }
  }

  /** Draining emits the waiting run in order and keeps everything else. */
  lemma {:induction false} DrainsInOrder<T(!new)>(pending: PendingMap<T>, next: nat, legit: (nat, T) -> bool)
    requires forall k :: k in pending ==> legit(k, pending[k].value) && next <= k
    ensures var r := AfterRun(pending, next);
            && Issued(r, legit)
            && r.next == next + |Run(pending, next)|
            && InOrder(Run(pending, next), next, legit)
            && forall k :: k in pending ==> k < r.next || k in r.pending
    decreases |pending|
  {
    if next in pending {
      RunStep(pending, next, []);
      DrainsInOrder(pending - {next}, next + 1, legit);
      InOrderConcat([pending[next].value], Run(pending - {next}, next + 1), next, legit);
    }
  }

  lemma AcceptInOrder<T(!new)>(r: Reorder<T>, a: Arrival<T>, cap: nat, legit: (nat, T) -> bool)
    requires Issued(r, legit) && legit(a.ordinal, a.value)
    ensures var s := Accept(r, a.ordinal, a.value, a.bytes, cap);
            && Issued(s.state, legit)
            && s.state.next == r.next + |s.emitted|
            && InOrder(s.emitted, r.next, legit)
            && (forall k :: k < r.next || k in r.pending ==> k < s.state.next || k in s.state.pending)
            && (!s.overflow ==> a.ordinal < s.state.next || a.ordinal in s.state.pending)
  {
    hide Charged, Run, AfterRun;
    if a.ordinal == r.next && a.ordinal !in r.pending {
      DrainsInOrder(r.pending, r.next + 1, legit);
      InOrderConcat([a.value], Run(r.pending, r.next + 1), r.next, legit);
    }
  }

  /**
    For any interleaving, loss, duplication or reordering of records the sender issued, the
    receiver emits one record per ordinal in ordinal order, each one issued under that ordinal.
    Short of the reorder cap, whatever arrived has been emitted or waits.
   */
  lemma {:induction false} OrderIsRestored<T(!new)>(
      r: Reorder<T>, arrivals: seq<Arrival<T>>, cap: nat, legit: (nat, T) -> bool)
    requires Issued(r, legit)
    requires forall a :: a in arrivals ==> legit(a.ordinal, a.value)
    ensures var s := AcceptAll(r, arrivals, cap);
            && Issued(s.state, legit)
            && s.state.next == r.next + |s.emitted|
            && InOrder(s.emitted, r.next, legit)
            && (forall k :: k < r.next || k in r.pending ==> k < s.state.next || k in s.state.pending)
            && (!s.overflow ==> forall a :: a in arrivals ==> a.ordinal < s.state.next || a.ordinal in s.state.pending)
    decreases arrivals
  {
    if arrivals != [] {
      hide Accept, Issued, InOrder;
      var a := arrivals[0];
      var s := Accept(r, a.ordinal, a.value, a.bytes, cap);
      AcceptInOrder(r, a, cap, legit);
      if !s.overflow {
        OrderIsRestored(s.state, arrivals[1..], cap, legit);
        InOrderConcat(s.emitted, AcceptAll(s.state, arrivals[1..], cap).emitted, r.next, legit);
        assert forall b :: b in arrivals ==> b == a || b in arrivals[1..];
      }
    }
  }

  // ----- the reorder limit

  /** Bytes of everything that arrives. */
  function Total<T>(arrivals: seq<Arrival<T>>): nat
    decreases arrivals
  {
    if arrivals == [] then 0 else arrivals[0].bytes + Total(arrivals[1..])
  }

  lemma {:induction false} DrainingReleases<T(!new)>(pending: PendingMap<T>, next: nat)
    ensures Charged(AfterRun(pending, next).pending) <= Charged(pending)
    decreases |pending|
  {
    if next in pending {
      RunStep(pending, next, []);
      DrainingReleases(pending - {next}, next + 1);
    }
  }

  lemma AcceptCharges<T(!new)>(r: Reorder<T>, a: Arrival<T>, cap: nat)
    ensures Charged(Accept(r, a.ordinal, a.value, a.bytes, cap).state.pending) <= Charged(r.pending) + a.bytes
  {
    hide Charged, AfterRun;
    DrainingReleases(r.pending, r.next + 1);
    if a.ordinal !in r.pending {
      ChargedWith(r.pending, a.ordinal, PendingRecord(a.value, a.bytes));
    }
  }

  /** Records that fit the limit together never overflow it, in whatever order they arrive. */
  lemma {:induction false} FittingNeverOverflows<T(!new)>(r: Reorder<T>, arrivals: seq<Arrival<T>>, cap: nat)
    requires Charged(r.pending) + Total(arrivals) <= cap
    ensures !AcceptAll(r, arrivals, cap).overflow
    decreases arrivals
  {
    hide Charged;
    if arrivals != [] {
      AcceptCharges(r, arrivals[0], cap);
      FittingNeverOverflows(Accept(r, arrivals[0].ordinal, arrivals[0].value, arrivals[0].bytes, cap).state,
                            arrivals[1..], cap);
    }
  }

  ghost predicate Arrived<T(!new)>(arrivals: seq<Arrival<T>>, ordinal: nat)
  {
    exists a :: a in arrivals && a.ordinal == ordinal
  }

  /** Once every ordinal below n has arrived in some form, nothing stays buffered. */
  lemma NothingStaysBuffered<T(!new)>(arrivals: seq<Arrival<T>>, cap: nat, n: nat, legit: (nat, T) -> bool)
    requires forall k: nat, v :: legit(k, v) ==> k < n
    requires forall a :: a in arrivals ==> legit(a.ordinal, a.value)
    requires forall k :: 0 <= k < n ==> Arrived(arrivals, k)
    ensures var s := AcceptAll(Reorder(map[], 0), arrivals, cap);
            !s.overflow ==> s.state == Reorder(map[], n) && |s.emitted| == n && Charged(s.state.pending) == 0
  {
    OrderIsRestored(Reorder(map[], 0), arrivals, cap, legit);
    hide Accept;
    var s := AcceptAll(Reorder(map[], 0), arrivals, cap);
    if !s.overflow {
      forall k | k in s.state.pending ensures s.state.next <= k < n {
        assert legit(k, s.state.pending[k].value);
      }
      if s.emitted != [] {
        assert legit(0 + (|s.emitted| - 1), s.emitted[|s.emitted| - 1]);
      }
      forall k | 0 <= k < n ensures k < s.state.next || k in s.state.pending {
        assert Arrived(arrivals, k);
      }
      assert !(s.state.next < n);
      assert s.state.pending.Keys == {};
    }
  }
}
