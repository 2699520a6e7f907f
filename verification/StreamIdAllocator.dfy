/** The client's stream id allocator. */
module StreamIdAllocator {
  import opened Common
  import opened StreamIds

  /** Next-id allocation of a client: `streams` is what it holds open. */
  class RequesterIds {
    var nextStreamId: int
    var streams: set<int>

    ghost predicate Valid()
      reads this
    {
      Legal(nextStreamId, CLIENT_STREAM_ID)
    }

    constructor ()
      ensures Valid() && nextStreamId == 1 && streams == {}
    {
      nextStreamId := 1;
      streams := {};
    }

    /** Tries at most one more id than there are open streams. */
    method AllocateStreamId() returns (id: Option<int>)
      requires Valid()
      modifies this`nextStreamId
      ensures Valid()
      ensures id.Some? ==> FirstFree(old(nextStreamId), streams, id.value, CLIENT_STREAM_ID)
                           && Legal(id.value, CLIENT_STREAM_ID)
                           && nextStreamId == NextId(id.value, CLIENT_STREAM_ID)
      ensures |streams| < Count(CLIENT_STREAM_ID) ==> id.Some?
      ensures (forall x :: Legal(x, CLIENT_STREAM_ID) ==> x in streams) ==> id.None?
    {
      var occupied, attempts := |streams|, 0;
      ghost var start := nextStreamId;
      id := None;
      assert Nth(start, 0, 1) == start;
      while attempts <= occupied && id.None?
        invariant 0 <= attempts <= occupied + 1
        invariant Valid()
        invariant id.None? ==> nextStreamId == Nth(start, attempts, 1)
        invariant id.None? ==> AllOpen(start, streams, attempts, 1)
        invariant id.Some? ==> Legal(id.value, 1) && nextStreamId == NextId(id.value, 1) && id.value !in streams
        invariant id.Some? ==> exists d: nat :: d < attempts && id.value == Nth(start, d, 1)
                                                && AllOpen(start, streams, d, 1)
        decreases occupied - attempts, id.None?
      {
        var streamId := nextStreamId;
        nextStreamId := NextId(streamId, CLIENT_STREAM_ID);
        if streamId !in streams {
          id := Some(streamId);
        }
        attempts := attempts + 1;
      }
      if occupied < Count(1) && id.None? {
        SomeIsFree(start, streams, 1);
      }
      if id.Some? {
        ghost var d: nat :| d < attempts && id.value == Nth(start, d, 1) && AllOpen(start, streams, d, 1);
        WithinPeriod(start, streams, d, 1);
        assert FirstFreeAt(start, streams, id.value, d, 1);
      }
    }

    /**
      Takes back the last id given out if its request certainly never reached a transport: with the
      stream gone again, that very id is the next one allocated. Otherwise nothing is taken back, and
      the id does not come up again before all others have.
     */
    method RollbackUnsentStreamId(streamId: int, ambiguous: bool)
      requires Valid() && Legal(streamId, CLIENT_STREAM_ID)
      modifies this`nextStreamId
      ensures Valid()
      ensures nextStreamId == if !ambiguous && old(nextStreamId) == NextId(streamId, CLIENT_STREAM_ID) then streamId
                              else old(nextStreamId)
      ensures streamId !in streams && |streams| < Count(CLIENT_STREAM_ID) ==>
                (!ambiguous && old(nextStreamId) == NextId(streamId, CLIENT_STREAM_ID) ==>
                   FreeId(nextStreamId, streams, CLIENT_STREAM_ID) == streamId)
      ensures ambiguous && nextStreamId == NextId(streamId, CLIENT_STREAM_ID) ==>
                forall n: nat :: n < Count(CLIENT_STREAM_ID) - 1 ==> Nth(nextStreamId, n, CLIENT_STREAM_ID) != streamId
    {
      if streamId !in streams && |streams| < Count(CLIENT_STREAM_ID) {
        NothingToSkip(streamId, streams);
      }
      ComesUpLast(streamId);
      hide FreeId;
      if !ambiguous && nextStreamId == NextId(streamId, CLIENT_STREAM_ID) {
        nextStreamId := streamId;
      }
    }
  }

  /** After an id has been given out, all others come up before it does again. */
  lemma ComesUpLast(id: int)
    requires Legal(id, CLIENT_STREAM_ID)
    ensures forall n: nat :: n < Count(CLIENT_STREAM_ID) - 1 ==>
              Nth(NextId(id, CLIENT_STREAM_ID), n, CLIENT_STREAM_ID) != id
  {
    FullPeriod(id, id, CLIENT_STREAM_ID);
    forall n: nat | n < Count(CLIENT_STREAM_ID) - 1
      ensures Nth(NextId(id, CLIENT_STREAM_ID), n, CLIENT_STREAM_ID) != id
    {
      OneStepOn(id, n);
      assert Nth(id, 0, CLIENT_STREAM_ID) == id && Nth(id, n + 1, CLIENT_STREAM_ID) != Nth(id, 0, CLIENT_STREAM_ID);
    }
  }

  lemma {:induction false} OneStepOn(id: int, n: nat)
    ensures Nth(NextId(id, CLIENT_STREAM_ID), n, CLIENT_STREAM_ID) == Nth(id, n + 1, CLIENT_STREAM_ID)
    decreases n
  {
    if n == 0 {
      assert Nth(id, 1, CLIENT_STREAM_ID) == NextId(Nth(id, 0, CLIENT_STREAM_ID), CLIENT_STREAM_ID);
    } else {
      OneStepOn(id, n - 1);
    }
  }
}
