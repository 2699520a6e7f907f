/** Stream identifiers: allocation with wrap-around, and the sequence the responder insists on. */
module StreamIds {
  import opened Common

  const CLIENT_STREAM_ID := 1
  const SERVER_STREAM_ID := 2

  /** The parities a requester may use. */
  type First = f: int | f == CLIENT_STREAM_ID || f == SERVER_STREAM_ID witness CLIENT_STREAM_ID

  function LastId(first: First): nat
  {
    if first == CLIENT_STREAM_ID then 0x7fff_ffff else 0x7fff_fffe
  }

  function NextId(current: int, first: First): int
  {
    if current >= LastId(first) then first else current + 2
  }

  predicate Legal(id: int, first: First)
  {
    0 < id <= LastId(first) && id % 2 == first % 2
  }

  /** How many ids one requester has. */
  function Count(first: First): nat
  {
    if first == CLIENT_STREAM_ID then 0x4000_0000 else 0x3fff_ffff
  }

  /** `n` steps along the sequence. */
  function Nth(id: int, n: nat, first: First): int
  {
    if n == 0 then id else NextId(Nth(id, n - 1, first), first)
  }

  lemma NextIsLegal(id: int, first: First)
    requires Legal(id, first)
    ensures Legal(NextId(id, first), first)
  {}

  /** Within one period the sequence is plain arithmetic with a single wrap. */
  lemma {:induction false} NthIs(id: int, n: nat, first: First)
    requires Legal(id, first) && n < Count(first)
    ensures Legal(Nth(id, n, first), first)
    ensures Nth(id, n, first) == if id + 2 * n <= LastId(first) then id + 2 * n else id + 2 * n - 2 * Count(first)
    decreases n
  {
    if n > 0 {
      NthIs(id, n - 1, first);
    }
  }

  /** The sequence has full period: every legal id comes up exactly once before it repeats. */
  lemma FullPeriod(id: int, other: int, first: First)
    requires Legal(id, first) && Legal(other, first)
    ensures exists n: nat :: n < Count(first) && Nth(id, n, first) == other
    ensures forall m: nat, n: nat :: m < Count(first) && n < Count(first) && Nth(id, m, first) == Nth(id, n, first)
                                     ==> m == n
    ensures Nth(id, Count(first), first) == id
  {
    var n := if other >= id then (other - id) / 2 else (other - id) / 2 + Count(first);
    NthIs(id, n, first);
    assert Nth(id, n, first) == other;
    forall m: nat, k: nat | m < Count(first) && k < Count(first) && Nth(id, m, first) == Nth(id, k, first)
      ensures m == k
    {
      NthIs(id, m, first);
      NthIs(id, k, first);
    }
    NthIs(id, Count(first) - 1, first);
  }

  // The first free id

  /** The first `d` ids of the sequence are all open. */
  ghost predicate AllOpen(next: int, open: set<int>, d: nat, first: First)
  {
    forall i: nat :: i < d ==> Nth(next, i, first) in open
  }

  /** `id` is reached from `next` by skipping open ids only, and is not open itself. */
  ghost predicate FirstFreeAt(next: int, open: set<int>, id: int, d: nat, first: First)
  {
    d < Count(first) && id == Nth(next, d, first) && id !in open && AllOpen(next, open, d, first)
  }

  ghost predicate FirstFree(next: int, open: set<int>, id: int, first: First)
  {
    exists d: nat :: FirstFreeAt(next, open, id, d, first)
  }

  lemma FirstFreeIsUnique(next: int, open: set<int>, a: int, b: int, first: First)
    requires FirstFree(next, open, a, first) && FirstFree(next, open, b, first)
    ensures a == b
  {
    var c: nat :| FirstFreeAt(next, open, a, c, first);
    var d: nat :| FirstFreeAt(next, open, b, d, first);
    assert c < d ==> Nth(next, c, first) in open;
    assert d < c ==> Nth(next, d, first) in open;
  }

  /** One of the first `n` ids of the sequence. */
  ghost predicate Within(next: int, n: nat, x: int, first: First)
  {
    exists i: nat :: i < n && x == Nth(next, i, first)
  }

  /** The first `n` ids of the sequence, as a set. */
  ghost function Window(next: int, n: nat, first: First): set<int>
  {
    if n == 0 then {} else Window(next, n - 1, first) + {Nth(next, n - 1, first)}
  }

  lemma {:induction false} WindowIs(next: int, n: nat, x: int, first: First)
    ensures x in Window(next, n, first) <==> Within(next, n, x, first)
    decreases n
  {
    if n > 0 {
      WindowIs(next, n - 1, x, first);
      if Within(next, n, x, first) {
        var i: nat :| i < n && x == Nth(next, i, first);
        assert i < n - 1 ==> Within(next, n - 1, x, first);
      }
    }
  }

  /** Within one period the sequence does not return to an earlier id. */
  lemma NextIsNew(next: int, n: nat, first: First)
    requires Legal(next, first) && n < Count(first)
    ensures !Within(next, n, Nth(next, n, first), first)
  {
    FullPeriod(next, next, first);
  }

  lemma {:induction false} WindowSize(next: int, n: nat, first: First)
    requires Legal(next, first) && n <= Count(first)
    ensures |Window(next, n, first)| == n
    decreases n
  {
    hide Nth, Legal, Within, Count;
    if n > 0 {
      WindowSize(next, n - 1, first);
      WindowIs(next, n - 1, Nth(next, n - 1, first), first);
      NextIsNew(next, n - 1, first);
    }
  }

  /** Pigeonhole: `n` open ids cannot cover the next `n + 1` ids of the sequence. */
  lemma SomeIsFree(next: int, open: set<int>, first: First)
    requires Legal(next, first) && |open| < Count(first)
    ensures exists d: nat :: d <= |open| && Nth(next, d, first) !in open
  {
    var n := |open| + 1;
    if AllOpen(next, open, n, first) {
      WindowSize(next, n, first);
      forall x | x in Window(next, n, first) ensures x in open {
        WindowIs(next, n, x, first);
      }
      SubsetSize(Window(next, n, first), open);
      assert false;
    }
    var d: nat :| d < n && Nth(next, d, first) !in open;
    assert d <= |open| && Nth(next, d, first) !in open;
  }

  /** A free id is found before the sequence repeats. */
  lemma WithinPeriod(next: int, open: set<int>, d: nat, first: First)
    requires Legal(next, first) && Nth(next, d, first) !in open
    requires AllOpen(next, open, d, first)
    ensures d < Count(first)
  {
    var other := Nth(next, d, first);
    NthLegal(next, d, first);
    FullPeriod(next, other, first);
    var n: nat :| n < Count(first) && Nth(next, n, first) == other;
    assert n < d ==> Nth(next, n, first) in open;
  }

  lemma {:induction false} NthLegal(id: int, n: nat, first: First)
    requires Legal(id, first)
    ensures Legal(Nth(id, n, first), first)
    decreases n
  {
    if n > 0 {
      NthLegal(id, n - 1, first);
    }
  }

  // Agreement of both ends

  /** The id one end arrives at, when any id is free. */
  ghost function FreeId(next: int, open: set<int>, first: First): (id: int)
    requires Legal(next, first) && |open| < Count(first)
    ensures FirstFree(next, open, id, first) && Legal(id, first)
  {
    FreeExists(next, open, first);
    var id :| FirstFree(next, open, id, first);
    FirstFreeIsLegal(next, open, id, first);
    id
  }

  lemma FirstFreeIsLegal(next: int, open: set<int>, id: int, first: First)
    requires Legal(next, first) && FirstFree(next, open, id, first)
    ensures Legal(id, first)
  {
    var d: nat :| FirstFreeAt(next, open, id, d, first);
    NthLegal(next, d, first);
  }

  lemma FreeExists(next: int, open: set<int>, first: First)
    requires Legal(next, first) && |open| < Count(first)
    ensures exists id :: FirstFree(next, open, id, first)
  {
    SomeIsFree(next, open, first);
    var d: nat :| d <= |open| && Nth(next, d, first) !in open;
    LeastFree(next, open, d, first);
  }

  lemma {:induction false} LeastFree(next: int, open: set<int>, d: nat, first: First)
    requires d < Count(first) && Nth(next, d, first) !in open
    ensures exists id :: FirstFree(next, open, id, first)
    decreases d
  {
    if i: nat :| i < d && Nth(next, i, first) !in open {
      LeastFree(next, open, i, first);
    } else {
      assert FirstFreeAt(next, open, Nth(next, d, first), d, first);
      assert FirstFree(next, open, Nth(next, d, first), first);
    }
  }

  /** How many ids one end passes over. */
  ghost function SkipCount(next: int, open: set<int>, first: First): (d: nat)
    requires Legal(next, first) && |open| < Count(first)
    ensures FirstFreeAt(next, open, FreeId(next, open, first), d, first)
  {
    var d: nat :| FirstFreeAt(next, open, FreeId(next, open, first), d, first);
    d
  }

  /** One end arrives at a given id exactly when that id is free for it and all ids before it are not. */
  lemma ArrivesAt(next: int, open: set<int>, d: nat, first: First)
    requires Legal(next, first) && |open| < Count(first) && d < Count(first)
    ensures FreeId(next, open, first) == Nth(next, d, first)
            <==> Nth(next, d, first) !in open && Window(next, d, first) <= open
  {
    var id, free := Nth(next, d, first), FreeId(next, open, first);
    if id !in open && Window(next, d, first) <= open {
      forall i: nat | i < d ensures Nth(next, i, first) in open {
        assert Within(next, d, Nth(next, i, first), first);
        WindowIs(next, d, Nth(next, i, first), first);
      }
      assert FirstFreeAt(next, open, id, d, first);
      FirstFreeIsUnique(next, open, id, free, first);
    }
    if id == free {
      var e := SkipCount(next, open, first);
      FullPeriod(next, next, first);
      assert Nth(next, e, first) == Nth(next, d, first) && e == d;
      SkippedAreOpen(next, open, d, first);
    }
  }

  lemma SkippedAreOpen(next: int, open: set<int>, d: nat, first: First)
    requires AllOpen(next, open, d, first)
    ensures Window(next, d, first) <= open
  {
    forall x | x in Window(next, d, first) ensures x in open {
      WindowIs(next, d, x, first);
    }
  }

  lemma NothingToSkip(next: int, open: set<int>)
    requires Legal(next, CLIENT_STREAM_ID) && |open| < Count(CLIENT_STREAM_ID) && next !in open
    ensures FreeId(next, open, CLIENT_STREAM_ID) == next
    ensures SkipCount(next, open, CLIENT_STREAM_ID) == 0
  {
    assert FirstFreeAt(next, open, next, 0, CLIENT_STREAM_ID);
    FirstFreeIsUnique(next, open, next, FreeId(next, open, CLIENT_STREAM_ID), CLIENT_STREAM_ID);
    FullPeriod(next, next, CLIENT_STREAM_ID);
  }
}
