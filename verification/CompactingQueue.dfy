/** The queue object: two arrays read through an index, with their consumed prefixes compacted away. */
module CompactingQueue {
  import opened Common
  import opened ReadQueue

  const COMPACT_AFTER := 256

  /** Exactly the slots before the read index were released. */
  ghost predicate Released<T>(slots: seq<Option<T>>, read: nat)
  {
    read <= |slots| && forall i :: 0 <= i < |slots| ==> (slots[i].Some? <==> i >= read)
  }

  /** What is still to be read. */
  ghost function Contents<T>(slots: seq<Option<T>>, read: nat): (values: seq<T>)
    requires Released(slots, read)
    ensures |values| == |slots| - read
  {
    seq(|slots| - read, i requires 0 <= i < |slots| - read => slots[read + i].value)
  }

  /** Released slots are few, or fewer than the ones in use. */
  predicate Compact<T>(slots: seq<Option<T>>, read: nat)
  {
    read < COMPACT_AFTER || read * 2 < |slots|
  }

  lemma ContentsAppend<T>(slots: seq<Option<T>>, read: nat, value: T)
    requires Released(slots, read)
    ensures Released(slots + [Some(value)], read)
    ensures Contents(slots + [Some(value)], read) == Contents(slots, read) + [value]
    ensures Compact(slots, read) ==> Compact(slots + [Some(value)], read)
  {}

  /**
    Moves the part still in use to the front, in place, once the released part is long and at
    least as large; `moved` counts the elements copied.
   */
  method CompactSlots<T>(slots: seq<Option<T>>, read: nat) returns (next: seq<Option<T>>, nextRead: nat, moved: nat)
    requires Released(slots, read) && 0 < read
    ensures Released(next, nextRead) && Contents(next, nextRead) == Contents(slots, read)
    ensures Compact(next, nextRead)
    ensures moved + nextRead <= read
  {
    next, nextRead, moved := slots, read, 0;
    if read == |slots| {
      next, nextRead := [], 0;
    } else if read >= COMPACT_AFTER && read * 2 >= |slots| {
      var remaining := |slots| - read;
      next := CopiedWithin(slots, read);
      assert next[..remaining] == slots[read..];
      next := next[..remaining];
      moved := remaining;
      nextRead := 0;
    }
  }

  /** Reads and releases the oldest slot. */
  method TakeSlot<T>(slots: seq<Option<T>>, read: nat)
    returns (value: T, next: seq<Option<T>>, nextRead: nat, moved: nat)
    requires Released(slots, read) && read < |slots|
    ensures value == Contents(slots, read)[0]
    ensures Released(next, nextRead) && Contents(next, nextRead) == Contents(slots, read)[1..]
    ensures Compact(next, nextRead)
    ensures moved + nextRead <= read + 1
  {
    value := slots[read].value;
    var released := slots[read := None];
    assert Contents(released, read + 1) == Contents(slots, read)[1..];
    next, nextRead, moved := CompactSlots(released, read + 1);
  }

  /** Single-consumer queue; reads are numbered in order, and `results` holds their outcomes. */
  class AsyncQueue<T(!new)> {
    var values: seq<Option<T>>
    var waiters: seq<Option<nat>>
    var readIndex: nat
    var waiterIndex: nat
    var end: End
    var results: seq<Outcome<T>>
    ghost var pushed: seq<T>
    ghost var delivered: nat
    ghost var returned: bool
    /** Elements copied by compaction, and elements taken out, over the whole life of the queue. */
    ghost var moved: nat
    ghost var consumed: nat

    ghost predicate Valid()
      reads this
    {
      && Released(values, readIndex) && Released(waiters, waiterIndex)
      && Compact(values, readIndex) && Compact(waiters, waiterIndex)
      && Inv(State())
      && moved + readIndex + waiterIndex <= consumed
    }

    ghost function State(): Queue<T>
      requires Released(values, readIndex) && Released(waiters, waiterIndex)
      reads this
    {
      Queue(Contents(values, readIndex), Contents(waiters, waiterIndex), end, results, pushed, delivered, returned)
    }

    constructor ()
      ensures Valid() && State() == Empty()
    {
      values, waiters, readIndex, waiterIndex, end, results := [], [], 0, 0, Open, [];
      pushed, delivered, returned, moved, consumed := [], 0, false, 0, 0;
    }

    /** Storage stays proportional to what is queued: released slots never dominate a long array. */
    lemma StorageIsBounded()
      requires Valid()
      ensures |values| < COMPACT_AFTER + 2 * |State().pending|
              && |waiters| < COMPACT_AFTER + 2 * |State().waiting|
      ensures moved <= consumed
    {}

    /** Takes the oldest waiting read. */
    method NextWaiter() returns (waiter: nat)
      requires Released(waiters, waiterIndex) && waiterIndex < |waiters|
      modifies this`waiters, this`waiterIndex, this`moved, this`consumed
      ensures Released(waiters, waiterIndex) && Compact(waiters, waiterIndex)
      ensures waiter == old(Contents(waiters, waiterIndex))[0]
      ensures Contents(waiters, waiterIndex) == old(Contents(waiters, waiterIndex))[1..]
      ensures consumed == old(consumed) + 1
      ensures moved + waiterIndex <= old(moved) + old(waiterIndex) + 1
    {
      ghost var copied;
      waiter, waiters, waiterIndex, copied := TakeSlot(waiters, waiterIndex);
      moved := moved + copied;
      consumed := consumed + 1;
    }

    method Push(value: T)
      requires Valid()
      modifies this
      ensures Valid() && State() == Pushed(old(State()), value)
    {
      PushKeeps(State(), value);
      if end == Open {
        pushed := pushed + [value];
        if waiterIndex < |waiters| {
          var waiter := NextWaiter();
          results := results[waiter := Value(value)];
          delivered := delivered + 1;
        } else {
          ContentsAppend(values, readIndex, value);
          values := values + [Some(value)];
        }
      }
    }

    /** Answers all waiting reads, oldest first. */
    method FlushTerminal(outcome: Outcome<T>)
      requires Released(values, readIndex) && Released(waiters, waiterIndex) && Compact(waiters, waiterIndex)
      requires WaitingInOrder(State()) && moved + readIndex + waiterIndex <= consumed
      modifies this`waiters, this`waiterIndex, this`moved, this`consumed, this`results
      ensures Released(waiters, waiterIndex) && Compact(waiters, waiterIndex)
      ensures State() == Flushed(old(State()), outcome)
      ensures moved + readIndex + waiterIndex <= consumed
    {
      while waiterIndex < |waiters|
        invariant Released(waiters, waiterIndex) && Compact(waiters, waiterIndex)
        invariant WaitingInOrder(State())
        invariant Flushed(State(), outcome) == Flushed(old(State()), outcome)
        invariant moved + readIndex + waiterIndex <= consumed
        decreases |Contents(waiters, waiterIndex)|
      {
        var waiter := NextWaiter();
        results := results[waiter := outcome];
      }
      waiters, waiterIndex := [], 0;
      assert Contents(waiters, waiterIndex) == [];
    }

    method Complete()
      requires Valid()
      modifies this
      ensures Valid() && State() == Completion(old(State()))
    {
      EndKeeps(State(), "");
      if end == Open {
        end := Completed;
        FlushTerminal(Done);
      }
    }

    method Error(error: string)
      requires Valid()
      modifies this
      ensures Valid() && State() == Failure(old(State()), error)
    {
      EndKeeps(State(), error);
      if end == Open {
        end := Errored(error);
        FlushTerminal(Rejected(error));
      }
    }

    /** Starts one read; its promise is `results[read]`. */
    method Next() returns (read: nat)
      requires Valid()
      modifies this
      ensures Valid() && State() == Read(old(State()))
      ensures read == |old(results)|
    {
      ReadKeeps(State());
      read := |results|;
      if readIndex < |values| {
        var value;
        ghost var copied;
        value, values, readIndex, copied := TakeSlot(values, readIndex);
        moved := moved + copied;
        consumed := consumed + 1;
        delivered := delivered + 1;
        results := results + [Value(value)];
      } else {
        match end {
          case Errored(error) =>
            results := results + [Rejected(error)];
          case Completed =>
            results := results + [Done];
          case Open =>
            ContentsAppend(waiters, waiterIndex, read);
            waiters := waiters + [Some(read)];
            results := results + [Unsettled];
        }
      }
    }

    method Return()
      requires Valid()
      modifies this
      ensures Valid() && State() == Returned(old(State()))
    {
      EndKeeps(State(), "");
      end := Completed;
      values, readIndex := [], 0;
      returned := true;
      assert Contents(values, readIndex) == [];
      FlushTerminal(Done);
    }
  }
}
