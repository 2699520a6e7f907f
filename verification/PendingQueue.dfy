/** Frames queued while a client session is suspended, and their flush after Resume. */
module PendingQueue {
  import opened Common

  /** A frame as the queue distinguishes it; `tag` stands for the rest of its contents. */
  datatype Body = InitialRequest(tag: Bytes) | RequestN(n: nat) | Cancel | Keepalive | Content(tag: Bytes)

  datatype Queued = Queued(streamId: nat, body: Body)

  type Frames = seq<Queued>

  // What queueing does to the list

  function Without(frames: Frames, streamId: nat): Frames
  {
    if frames == [] then []
    else
      var last := frames[|frames| - 1];
      var rest := Without(frames[..|frames| - 1], streamId);
      if last.streamId == streamId then rest else rest + [last]
  }

  function HasInitial(frames: Frames, streamId: nat): bool
  {
    frames != []
    && ((frames[|frames| - 1].streamId == streamId && frames[|frames| - 1].body.InitialRequest?)
        || HasInitial(frames[..|frames| - 1], streamId))
  }

  /** Where the newest frame of a stream is, or -1. */
  function LastIndex(frames: Frames, streamId: nat): (i: int)
    ensures -1 <= i < |frames|
    ensures i >= 0 ==> frames[i].streamId == streamId
  {
    if frames == [] then -1
    else if frames[|frames| - 1].streamId == streamId then |frames| - 1
    else LastIndex(frames[..|frames| - 1], streamId)
  }

  /** Demand joins the demand queued at `i`, spilling what one frame cannot carry. */
  function Merged(frames: Frames, i: nat, n: nat): Frames
    requires i < |frames| && frames[i].body.RequestN?
  {
    var id, total := frames[i].streamId, frames[i].body.n + n;
    var joined := frames[i := Queued(id, RequestN(Min(MAX_REQUEST_N, total)))];
    if total > MAX_REQUEST_N then joined + [Queued(id, RequestN(total - MAX_REQUEST_N))] else joined
  }

  function Enqueue(frames: Frames, f: Queued): Frames
  {
    match f.body
    case Keepalive => frames
    case Cancel =>
      var kept := Without(frames, f.streamId);
      if HasInitial(frames, f.streamId) then kept else kept + [f]
    case RequestN(n) =>
      var i := LastIndex(frames, f.streamId);
      if i < 0 then frames + [f]
      else if frames[i].body.Cancel? then frames
      else if frames[i].body.RequestN? then Merged(frames, i, n)
      else frames + [f]
    case _ => frames + [f]
  }

  function EnqueueAll(frames: Frames, more: Frames): Frames
    decreases more
  {
    if more == [] then frames else EnqueueAll(Enqueue(frames, more[0]), more[1..])
  }

  /** The in-place filter of a cancelled stream. */
  method DropStream(frames: Frames, streamId: nat) returns (kept: Frames, removedUnsentRequest: bool)
    ensures kept == Without(frames, streamId)
    ensures removedUnsentRequest == HasInitial(frames, streamId)
  {
    kept := frames;
    var retained := 0;
    removedUnsentRequest := false;
    for index := 0 to |frames|
      invariant retained <= index && |kept| == |frames|
      invariant kept[..retained] == Without(frames[..index], streamId)
      invariant kept[index..] == frames[index..]
      invariant removedUnsentRequest == HasInitial(frames[..index], streamId)
    {
      var pending := kept[index];
      assert pending == frames[index] by { assert kept[index..][0] == frames[index..][0]; }
      assert frames[..index + 1][..index] == frames[..index];
      ghost var front := kept[..retained];
      if pending.streamId != streamId {
        kept := kept[retained := pending];
        retained := retained + 1;
        assert kept[..retained] == front + [pending];
      } else if pending.body.InitialRequest? {
        removedUnsentRequest := true;
      }
    }
    kept := kept[..retained];
    assert frames[..|frames|] == frames;
  }

  /** The backward search for queued demand to join. */
  method JoinDemand(frames: Frames, streamId: nat, n: nat) returns (joined: Frames)
    ensures joined == Enqueue(frames, Queued(streamId, RequestN(n)))
  {
    joined := frames;
    var index := |frames|;
    assert frames[..|frames|] == frames;
    while index > 0 && frames[index - 1].streamId != streamId
      invariant 0 <= index <= |frames|
      invariant LastIndex(frames, streamId) == LastIndex(frames[..index], streamId)
    {
      assert frames[..index][..index - 1] == frames[..index - 1];
      index := index - 1;
    }
    if index == 0 {
      joined := joined + [Queued(streamId, RequestN(n))];
    } else {
      assert frames[..index][..index - 1] == frames[..index - 1];
      var pending := frames[index - 1].body;
      if pending.RequestN? {
        var request := pending.n + n;
        joined := joined[index - 1 := Queued(streamId, RequestN(Min(MAX_REQUEST_N, request)))];
        if request > MAX_REQUEST_N {
          joined := joined + [Queued(streamId, RequestN(request - MAX_REQUEST_N))];
        }
      } else if !pending.Cancel? {
        joined := joined + [Queued(streamId, RequestN(n))];
      }
    }
  }

  /** What sending does while the session is suspended. */
  method QueueFrame(frames: Frames, f: Queued) returns (queued: Frames)
    ensures queued == Enqueue(frames, f)
  {
    match f.body
    case Keepalive =>
      queued := frames;
    case Cancel =>
      var removedUnsentRequest;
      queued, removedUnsentRequest := DropStream(frames, f.streamId);
      if !removedUnsentRequest {
        queued := queued + [f];
      }
    case RequestN(n) =>
      queued := JoinDemand(frames, f.streamId, n);
    case _ =>
      queued := frames + [f];
  }

  // One stream's part of the queue

  /** The frames of one stream, in order. */
  function Of(frames: Frames, streamId: nat): seq<Body>
  {
    if frames == [] then []
    else
      var last := frames[|frames| - 1];
      var rest := Of(frames[..|frames| - 1], streamId);
      if last.streamId == streamId then rest + [last.body] else rest
  }

  /** The queue of one stream on its own. */
  function Stack(q: seq<Body>, b: Body): seq<Body>
  {
    match b
    case Keepalive => q
    case Cancel => if exists i :: 0 <= i < |q| && q[i].InitialRequest? then [] else [Cancel]
    case RequestN(n) =>
      if q == [] then [b]
      else
        var front, last := q[..|q| - 1], q[|q| - 1];
        if last.Cancel? then q
        else if last.RequestN? then
          front + if last.n + n > MAX_REQUEST_N then [RequestN(MAX_REQUEST_N), RequestN(last.n + n - MAX_REQUEST_N)]
                  else [RequestN(last.n + n)]
        else q + [b]
    case _ => q + [b]
  }

  function StackAll(q: seq<Body>, history: seq<Body>): seq<Body>
    decreases history
  {
    if history == [] then q else StackAll(Stack(q, history[0]), history[1..])
  }

  lemma OfAppend(frames: Frames, f: Queued, streamId: nat)
    ensures Of(frames + [f], streamId) == Of(frames, streamId) + if f.streamId == streamId then [f.body] else []
  {
    assert (frames + [f])[..|frames|] == frames;
  }

  lemma {:induction false} OfWithout(frames: Frames, gone: nat, streamId: nat)
    ensures Of(Without(frames, gone), streamId) == if streamId == gone then [] else Of(frames, streamId)
  {
    if frames != [] {
      var last := frames[|frames| - 1];
      OfWithout(frames[..|frames| - 1], gone, streamId);
      OfAppend(Without(frames[..|frames| - 1], gone), last, streamId);
    }
  }

  lemma {:induction false} OfInitial(frames: Frames, streamId: nat)
    ensures HasInitial(frames, streamId)
            <==> exists i :: 0 <= i < |Of(frames, streamId)| && Of(frames, streamId)[i].InitialRequest?
  {
    if frames != [] {
      var front, last := frames[..|frames| - 1], frames[|frames| - 1];
      OfInitial(front, streamId);
      var q, rest := Of(frames, streamId), Of(front, streamId);
      if last.streamId == streamId {
        assert q[|rest|] == last.body;
        assert forall i :: 0 <= i < |rest| ==> q[i] == rest[i];
      }
    }
  }

  /** The newest frame of a stream ends its part; replacing it replaces only that end. */
  lemma {:induction false} OfLast(frames: Frames, owner: nat, b: Body, streamId: nat)
    ensures var i := LastIndex(frames, owner);
            && (i < 0 ==> Of(frames, owner) == [])
            && (i >= 0 ==>
                  && Of(frames, owner) != []
                  && Of(frames, owner)[|Of(frames, owner)| - 1] == frames[i].body
                  && Of(frames[i := Queued(owner, b)], streamId)
                     == if streamId == owner then Of(frames, owner)[..|Of(frames, owner)| - 1] + [b]
                        else Of(frames, streamId))
  {
    if frames != [] {
      var front, last := frames[..|frames| - 1], frames[|frames| - 1];
      OfLast(front, owner, b, streamId);
      var i := LastIndex(frames, owner);
      if i == |frames| - 1 {
        assert frames[i := Queued(owner, b)] == front + [Queued(owner, b)];
        OfAppend(front, Queued(owner, b), streamId);
      } else if i >= 0 {
        assert frames[i := Queued(owner, b)] == front[i := Queued(owner, b)] + [last];
        OfAppend(front[i := Queued(owner, b)], last, streamId);
      }
    }
  }

  /** Merging touches one stream only, and there does what the stream's own queue does. */
  lemma MergedStacks(frames: Frames, owner: nat, n: nat, streamId: nat)
    requires LastIndex(frames, owner) >= 0 && frames[LastIndex(frames, owner)].body.RequestN?
    ensures Of(Merged(frames, LastIndex(frames, owner), n), streamId)
            == if streamId == owner then Stack(Of(frames, owner), RequestN(n)) else Of(frames, streamId)
  {
    var i := LastIndex(frames, owner);
    var total := frames[i].body.n + n;
    OfLast(frames, owner, RequestN(Min(MAX_REQUEST_N, total)), streamId);
    var joined := frames[i := Queued(owner, RequestN(Min(MAX_REQUEST_N, total)))];
    OfAppend(joined, Queued(owner, RequestN(Max(0, total - MAX_REQUEST_N))), streamId);
  }

  /** Queueing one frame changes the part of its own stream only. */
  lemma EnqueueStacks(frames: Frames, f: Queued, streamId: nat)
    ensures Of(Enqueue(frames, f), streamId)
            == if streamId == f.streamId then Stack(Of(frames, streamId), f.body) else Of(frames, streamId)
  {
    hide Of, LastIndex, Without, HasInitial, Merged;
    OfAppend(frames, f, streamId);
    match f.body
    case Cancel =>
      OfWithout(frames, f.streamId, streamId);
      OfInitial(frames, f.streamId);
      OfAppend(Without(frames, f.streamId), f, streamId);
    case RequestN(n) =>
      OfLast(frames, f.streamId, f.body, streamId);
      if LastIndex(frames, f.streamId) >= 0 && frames[LastIndex(frames, f.streamId)].body.RequestN? {
        MergedStacks(frames, f.streamId, n, streamId);
      }
    case _ =>
  }

  /** Whatever interleaving the streams queue in, each stream's part is what it would be alone. */
  lemma {:induction false} StreamsQueueIndependently(frames: Frames, more: Frames, streamId: nat)
    ensures Of(EnqueueAll(frames, more), streamId) == StackAll(Of(frames, streamId), Of(more, streamId))
    decreases more
  {
    if more != [] {
      EnqueueStacks(frames, more[0], streamId);
      StreamsQueueIndependently(Enqueue(frames, more[0]), more[1..], streamId);
      OfFirst(more, streamId);
      var h := Of(more, streamId);
      if more[0].streamId == streamId {
        assert h[1..] == Of(more[1..], streamId);
      } else {
        assert h == Of(more[1..], streamId);
      }
    }
  }

  lemma {:induction false} OfFirst(frames: Frames, streamId: nat)
    requires frames != []
    ensures Of(frames, streamId)
            == (if frames[0].streamId == streamId then [frames[0].body] else []) + Of(frames[1..], streamId)
    decreases |frames|
  {
    if |frames| > 1 {
      var front, last := frames[..|frames| - 1], frames[|frames| - 1];
      OfFirst(front, streamId);
      assert front[1..] == frames[1..][..|frames| - 2];
    }
  }

  // What one stream's queue means

  /** Everything but demand, in order. */
  function Rest(q: seq<Body>): seq<Body>
  {
    if q == [] then []
    else
      var last := q[|q| - 1];
      if last.RequestN? then Rest(q[..|q| - 1]) else Rest(q[..|q| - 1]) + [last]
  }

  /** Demand before each of the other frames, and after the last one. */
  function Totals(q: seq<Body>): (t: seq<nat>)
    ensures t != []
  {
    if q == [] then [0]
    else
      var t, last := Totals(q[..|q| - 1]), q[|q| - 1];
      if last.RequestN? then t[|t| - 1 := t[|t| - 1] + last.n] else t + [0]
  }

  /** Two queues that tell the responder the same: same frames, same demand between them. */
  ghost predicate SameMeaning(a: seq<Body>, b: seq<Body>)
  {
    Rest(a) == Rest(b) && Totals(a) == Totals(b)
  }

  /** Every REQUEST_N is one the protocol can carry. */
  predicate Valid(q: seq<Body>)
  {
    forall i :: 0 <= i < |q| && q[i].RequestN? ==> 0 < q[i].n <= MAX_REQUEST_N
  }

  /** A frame after the others: demand directly after demand follows a full frame. */
  predicate Follows(q: seq<Body>, b: Body)
  {
    b.RequestN? ==>
      && 0 < b.n <= MAX_REQUEST_N
      && (q != [] && q[|q| - 1].RequestN? ==> q[|q| - 1].n == MAX_REQUEST_N)
  }

  /** Demand directly followed by demand fills its frame. */
  predicate Packed(q: seq<Body>)
  {
    q != [] ==> Packed(q[..|q| - 1]) && Follows(q[..|q| - 1], q[|q| - 1])
  }

  lemma PackedAppend(q: seq<Body>, b: Body)
    requires Packed(q) && Follows(q, b)
    ensures Packed(q + [b])
  {
    assert (q + [b])[..|q|] == q;
  }

  lemma MeaningAppend(q: seq<Body>, b: Body)
    ensures Rest(q + [b]) == if b.RequestN? then Rest(q) else Rest(q) + [b]
    ensures var t := Totals(q);
            Totals(q + [b]) == if b.RequestN? then t[|t| - 1 := t[|t| - 1] + b.n] else t + [0]
  {
    assert (q + [b])[..|q|] == q;
  }

  /** Demand joining demand, with a full frame before whatever spills over. */
  lemma JoinKeepsMeaning(front: seq<Body>, m: nat, n: nat)
    requires Packed(front) && Follows(front, RequestN(m)) && 0 < n <= MAX_REQUEST_N
    ensures var q := Stack(front + [RequestN(m)], RequestN(n));
            SameMeaning(q, front + [RequestN(m)] + [RequestN(n)]) && Packed(q) && (Cancel !in front ==> Cancel !in q)
  {
    hide Rest, Totals, Packed;
    var q := front + [RequestN(m)];
    assert q[..|q| - 1] == front;
    MeaningAppend(front, RequestN(m));
    MeaningAppend(q, RequestN(n));
    if m + n > MAX_REQUEST_N {
      var full := front + [RequestN(MAX_REQUEST_N)];
      MeaningAppend(front, RequestN(MAX_REQUEST_N));
      MeaningAppend(full, RequestN(m + n - MAX_REQUEST_N));
      PackedAppend(front, RequestN(MAX_REQUEST_N));
      PackedAppend(full, RequestN(m + n - MAX_REQUEST_N));
      assert Stack(q, RequestN(n)) == full + [RequestN(m + n - MAX_REQUEST_N)];
    } else {
      MeaningAppend(front, RequestN(m + n));
      PackedAppend(front, RequestN(m + n));
    }
  }

  /** Queueing anything but CANCEL on a stream with no queued CANCEL keeps the meaning, packed. */
  lemma StackKeepsMeaning(q: seq<Body>, b: Body)
    requires Packed(q) && (b.RequestN? ==> 0 < b.n <= MAX_REQUEST_N) && Cancel !in q && b !in {Cancel, Keepalive}
    ensures SameMeaning(Stack(q, b), q + [b]) && Packed(Stack(q, b)) && Cancel !in Stack(q, b)
  {
    hide Rest, Totals;
    if b.RequestN? && q != [] && q[|q| - 1].RequestN? {
      var front, m := q[..|q| - 1], q[|q| - 1].n;
      assert q == front + [RequestN(m)];
      hide Packed;
      JoinKeepsMeaning(front, m, b.n);
    } else {
      assert Stack(q, b) == q + [b];
      PackedAppend(q, b);
    }
  }

  lemma {:induction false} MeaningCongruence(a: seq<Body>, b: seq<Body>, more: seq<Body>)
    requires SameMeaning(a, b)
    ensures SameMeaning(a + more, b + more)
    decreases |more|
  {
    hide Rest, Totals;
    if more == [] {
      assert a + more == a && b + more == b;
    } else {
      var front, last := more[..|more| - 1], more[|more| - 1];
      MeaningCongruence(a, b, front);
      assert a + more == (a + front) + [last] && b + more == (b + front) + [last];
      MeaningAppend(a + front, last);
      MeaningAppend(b + front, last);
    }
  }

  lemma SameTwice(a: seq<Body>, b: seq<Body>, c: seq<Body>)
    requires SameMeaning(a, b) && SameMeaning(b, c)
    ensures SameMeaning(a, c)
  {}

  /** What a stream that is not cancelled may queue. */
  predicate Queueable(history: seq<Body>)
  {
    forall i :: 0 <= i < |history| ==>
      history[i] !in {Cancel, Keepalive} && (history[i].RequestN? ==> 0 < history[i].n <= MAX_REQUEST_N)
  }

  lemma QueueableTail(history: seq<Body>)
    requires Queueable(history) && history != []
    ensures Queueable(history[1..])
    ensures history[0] !in {Cancel, Keepalive} && (history[0].RequestN? ==> 0 < history[0].n <= MAX_REQUEST_N)
  {}

  /** Queued work is neither lost, reordered nor inflated, and its demand takes as few frames as it can. */
  lemma {:induction false} QueueKeepsMeaning(q: seq<Body>, history: seq<Body>)
    requires Packed(q) && Cancel !in q && Queueable(history)
    ensures SameMeaning(StackAll(q, history), q + history) && Packed(StackAll(q, history))
    ensures Cancel !in StackAll(q, history)
    decreases history
  {
    hide Stack, Packed, SameMeaning, Queueable;
    if history == [] {
      assert q + history == q;
      SameRefl(q);
    } else {
      var b, later := history[0], history[1..];
      QueueableTail(history);
      StackKeepsMeaning(q, b);
      var next := Stack(q, b);
      QueueKeepsMeaning(next, later);
      MeaningCongruence(next, q + [b], later);
      assert (q + [b]) + later == q + history;
      SameTwice(StackAll(next, later), next + later, q + history);
    }
  }

  lemma SameRefl(q: seq<Body>)
    ensures SameMeaning(q, q)
  {}

  /** Frames needed for one amount of demand. */
  function FramesFor(n: nat): nat
  {
    (n + MAX_REQUEST_N - 1) / MAX_REQUEST_N
  }

  /** Frames needed for the given amounts of demand. */
  function Need(totals: seq<nat>): nat
  {
    if totals == [] then 0 else Need(totals[..|totals| - 1]) + FramesFor(totals[|totals| - 1])
  }

  lemma NeedAppend(totals: seq<nat>, n: nat)
    ensures Need(totals + [n]) == Need(totals) + FramesFor(n)
  {
    assert (totals + [n])[..|totals|] == totals;
  }

  lemma NeedUpdate(totals: seq<nat>, n: nat)
    requires totals != []
    ensures Need(totals[|totals| - 1 := n]) == Need(totals) - FramesFor(totals[|totals| - 1]) + FramesFor(n)
  {
    hide FramesFor;
    assert totals[|totals| - 1 := n] == totals[..|totals| - 1] + [n];
    NeedAppend(totals[..|totals| - 1], n);
  }

  /** A total whose last frame is `n`, all frames before it being full. */
  predicate Aligned(total: nat, n: nat)
  {
    total >= n && (total - n) % MAX_REQUEST_N == 0
  }

  /** One more frame of demand needs at most one more frame, and does when all before are full. */
  lemma OneFrameMore(t: nat, n: nat)
    requires 0 < n <= MAX_REQUEST_N
    ensures FramesFor(t + n) <= FramesFor(t) + 1
    ensures t == 0 || Aligned(t, MAX_REQUEST_N) ==> FramesFor(t + n) == FramesFor(t) + 1 && Aligned(t + n, n)
  {
    assert t == 0 || Aligned(t, MAX_REQUEST_N) ==> t % MAX_REQUEST_N == 0;
  }

  lemma NoDemand()
    ensures FramesFor(0) == 0
  {}

  /** No valid queue carries its demand in fewer frames than needed. */
  lemma {:induction false} NeedsAtLeast(q: seq<Body>)
    requires Valid(q)
    ensures |q| >= |Rest(q)| + Need(Totals(q))
    decreases |q|
  {
    hide FramesFor, Need, Aligned;
    NoDemand();
    if q == [] {
      NeedAppend([], 0);
      assert [] + [0] == [0];
      EmptyNeed();
    } else {
      var front, last, t := q[..|q| - 1], q[|q| - 1], Totals(q[..|q| - 1]);
      NeedsAtLeast(front);
      if last.RequestN? {
        NeedUpdate(t, t[|t| - 1] + last.n);
        OneFrameMore(t[|t| - 1], last.n);
      } else {
        NeedAppend(t, 0);
      }
    }
  }

  lemma EmptyNeed()
    ensures Need([]) == 0
  {}

  /** The last total of a packed queue ends in the frame that ends the queue. */
  predicate EndsAligned(q: seq<Body>)
  {
    var t := Totals(q);
    if q == [] || !q[|q| - 1].RequestN? then t[|t| - 1] == 0 else Aligned(t[|t| - 1], q[|q| - 1].n)
  }

  /** A packed queue takes exactly that many: all frames of a run but its last are full. */
  lemma {:induction false} PackedNeeds(q: seq<Body>)
    requires Packed(q)
    ensures |q| == |Rest(q)| + Need(Totals(q))
    ensures EndsAligned(q)
    decreases |q|
  {
    hide FramesFor, Need, Aligned;
    NoDemand();
    if q == [] {
      NeedAppend([], 0);
      assert [] + [0] == [0];
      EmptyNeed();
    } else {
      var front, last, t := q[..|q| - 1], q[|q| - 1], Totals(q[..|q| - 1]);
      PackedNeeds(front);
      if last.RequestN? {
        NeedUpdate(t, t[|t| - 1] + last.n);
        OneFrameMore(t[|t| - 1], last.n);
      } else {
        NeedAppend(t, 0);
      }
    }
  }

  lemma {:induction false} PackedIsValid(q: seq<Body>)
    requires Packed(q)
    ensures Valid(q)
    decreases |q|
  {
    if q != [] {
      PackedIsValid(q[..|q| - 1]);
      assert forall i :: 0 <= i < |q| - 1 ==> q[i] == q[..|q| - 1][i];
    }
  }

  /**
    However the streams interleave while the session is suspended, a stream nobody cancelled keeps
    its frames in order and its exact demand between them, in frames the protocol can carry, and
    in no more of them than any other queue with that meaning.
   */
  lemma SuspensionKeepsEachStream(more: Frames, streamId: nat, other: seq<Body>)
    requires Queueable(Of(more, streamId)) && Valid(other) && SameMeaning(other, Of(more, streamId))
    ensures var kept := Of(EnqueueAll([], more), streamId);
            SameMeaning(kept, Of(more, streamId)) && Valid(kept) && |kept| <= |other|
  {
    var history := Of(more, streamId);
    StreamsQueueIndependently([], more, streamId);
    QueueKeepsMeaning([], history);
    assert [] + history == history;
    PackedNeeds(StackAll([], history));
    PackedIsValid(StackAll([], history));
    NeedsAtLeast(other);
  }

  // Cancellation

  /** The stream's request was queued and not cancelled since. */
  predicate RequestUnsent(history: seq<Body>)
  {
    history != [] && match history[|history| - 1]
    case InitialRequest(_) => true
    case Cancel => false
    case _ => RequestUnsent(history[..|history| - 1])
  }

  lemma {:induction false} StackAllAppend(q: seq<Body>, history: seq<Body>, b: Body)
    ensures StackAll(q, history + [b]) == Stack(StackAll(q, history), b)
    decreases history
  {
    if history == [] {
      assert history + [b] == [b];
      assert StackAll(Stack(q, b), [b][1..]) == Stack(q, b);
    } else {
      assert (history + [b])[1..] == history[1..] + [b];
      StackAllAppend(Stack(q, history[0]), history[1..], b);
    }
  }

  lemma {:induction false} UnsentIsQueued(history: seq<Body>)
    ensures RequestUnsent(history)
            <==> exists i :: 0 <= i < |StackAll([], history)| && StackAll([], history)[i].InitialRequest?
    decreases |history|
  {
    if history != [] {
      var front, b := history[..|history| - 1], history[|history| - 1];
      UnsentIsQueued(front);
      assert front + [b] == history;
      StackAllAppend([], front, b);
      StackInitial(StackAll([], front), b);
    }
  }

  lemma StackInitial(q: seq<Body>, b: Body)
    ensures (exists i :: 0 <= i < |Stack(q, b)| && Stack(q, b)[i].InitialRequest?)
            <==> b.InitialRequest? || (b != Cancel && exists i :: 0 <= i < |q| && q[i].InitialRequest?)
  {
    var s := Stack(q, b);
    if b.InitialRequest? {
      assert s[|q|] == b;
    } else if b != Cancel && s != q {
      var k := if |s| > |q| && s[..|q|] == q then |q| else |q| - 1;
      assert forall i :: 0 <= i < k ==> s[i] == q[i];
      assert forall i :: k <= i < |s| ==> !s[i].InitialRequest?;
      assert forall i :: k <= i < |q| ==> !q[i].InitialRequest?;
    }
  }

  /**
    Whatever was queued for a cancelled stream is gone: nothing is left of a stream whose request
    was still queued, and only CANCEL of any other, however much demand follows it.
   */
  lemma CancelLeaves(history: seq<Body>, demand: seq<Body>)
    requires forall i :: 0 <= i < |demand| ==> demand[i].RequestN?
    ensures RequestUnsent(history) ==> StackAll([], history + [Cancel]) == []
    ensures !RequestUnsent(history) ==> StackAll(StackAll([], history + [Cancel]), demand) == [Cancel]
  {
    UnsentIsQueued(history);
    StackAllAppend([], history, Cancel);
    CancelAbsorbs(demand);
  }

  lemma {:induction false} CancelAbsorbs(demand: seq<Body>)
    requires forall i :: 0 <= i < |demand| ==> demand[i].RequestN?
    ensures StackAll([Cancel], demand) == [Cancel]
    decreases demand
  {
    if demand != [] {
      CancelAbsorbs(demand[1..]);
    }
  }

  // Flushing

  /**
    How sending one queued frame goes: all its pieces are written, or the transport is lost at one of
    them, which may already be written, or retained for replay, by then.
   */
  datatype Outcome = Sent | LostAt(piece: nat, written: bool)

  /** What a queued frame is sent as: itself, or several fragments if it is long. */
  predicate SentAs(f: Queued, pieces: Frames)
  {
    if |pieces| == 1 then pieces[0] == f && f.body != Keepalive
    else |pieces| > 1 && forall j :: 0 <= j < |pieces| ==> IsPiece(pieces[j], f.streamId)
  }

  predicate IsPiece(piece: Queued, streamId: nat)
  {
    piece.streamId == streamId && (piece.body.InitialRequest? || piece.body.Content?)
  }

  /** Sends the pieces of one frame; after a loss those not written are queued again, with the one it happened at. */
  method SendPieces(f: Queued, pieces: Frames, outcome: Outcome) returns (written: Frames, left: Frames)
    requires SentAs(f, pieces) && (outcome.LostAt? ==> outcome.piece < |pieces|)
    ensures written + left == pieces
    ensures outcome == Sent ==> left == []
    ensures outcome.LostAt? ==> |written| == outcome.piece + if outcome.written then 1 else 0
  {
    written, left := [], [];
    var suspended := false;
    for j := 0 to |pieces|
      invariant written + left == pieces[..j]
      invariant suspended <==> outcome.LostAt? && outcome.piece < j
      invariant !suspended ==> left == [] && |written| == j
      invariant suspended ==> |written| == outcome.piece + if outcome.written then 1 else 0
    {
      assert pieces[..j + 1] == pieces[..j] + [pieces[j]];
      if !suspended && (outcome == Sent || j < outcome.piece || outcome.written) {
        written := written + [pieces[j]];
      } else {
        Requeues(f, pieces, j, left);
        left := Enqueue(left, pieces[j]);
      }
      suspended := suspended || (outcome.LostAt? && j == outcome.piece);
    }
    assert pieces[..|pieces|] == pieces;
  }

  lemma Requeues(f: Queued, pieces: Frames, j: nat, left: Frames)
    requires SentAs(f, pieces) && j < |pieces| && (left == [] || |pieces| > 1)
    ensures Enqueue(left, pieces[j]) == left + [pieces[j]]
  {
    assert |pieces| > 1 ==> IsPiece(pieces[j], f.streamId);
  }

  /**
    Sends queued frames until all are gone or the transport is lost again. Then the pieces left of
    the frame being sent are pending, and after them the later frames, whole.
   */
  method FlushPendingFrames(frames: Frames, split: seq<Frames>, outcomes: seq<Outcome>)
    returns (written: Frames, pending: Frames, interrupted: bool, ghost index: nat, ghost left: Frames)
    requires |outcomes| == |split| == |frames|
    requires forall i :: 0 <= i < |frames| ==> SentAs(frames[i], split[i])
    requires forall i :: 0 <= i < |frames| && outcomes[i].LostAt? ==> outcomes[i].piece < |split[i]|
    ensures interrupted <==> exists i :: 0 <= i < |outcomes| && outcomes[i] != Sent
    ensures !interrupted ==> pending == [] && written == Flatten(split)
    ensures interrupted ==> index < |frames| && pending == left + frames[index + 1..]
                            && written + left == Flatten(split[..index + 1])
    ensures interrupted ==> outcomes[index] != Sent && forall i :: 0 <= i < index ==> outcomes[i] == Sent
  {
    written, pending, interrupted, index, left := [], [], false, 0, [];
    var next := 0;
    while next < |frames| && !interrupted
      invariant 0 <= next <= |frames|
      invariant !interrupted ==> written == Flatten(split[..next]) && pending == []
      invariant !interrupted ==> forall i :: 0 <= i < next ==> outcomes[i] == Sent
      invariant interrupted ==> index + 1 == next && pending == left + frames[index + 1..]
                                && written + left == Flatten(split[..index + 1])
      invariant interrupted ==> outcomes[index] != Sent && forall i :: 0 <= i < index ==> outcomes[i] == Sent
      decreases |frames| - next, !interrupted
    {
      assert split[..next + 1] == split[..next] + [split[next]];
      FlattenAppend(split[..next], split[next]);
      var more, rest := SendPieces(frames[next], split[next], outcomes[next]);
      ConcatAssociates(Flatten(split[..next]), more, rest);
      written := written + more;
      if outcomes[next].LostAt? {
        pending := rest + frames[next + 1..];
        interrupted := true;
        index, left := next, rest;
      }
      next := next + 1;
    }
    assert split[..|frames|] == split;
  }
}
