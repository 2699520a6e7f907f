/**
  Resume retention as a plain queue: the frames the peer has not acknowledged,
  and the implied position at which the first of them starts.
 */
module ReplayWindow {
  import opened Common

  /** An empty window keeps `base == acked`, so equal windows are equal values. */
  datatype Window = Window(base: int, frames: seq<Bytes>, acked: int)

  const EMPTY := Window(0, [], 0)

  datatype RecordError = CapacityExceeded | NotContiguous | SpanExceeded

  datatype RecordResult = Recorded(window: Window) | RecordFailed(error: RecordError)

  datatype AckResult = Acked(window: Window) | AckImpossible

  datatype ReplayResult = Replayed(window: Window, emitted: seq<Bytes>) | NoLongerRetained | NotABoundary

  /** Total number of bytes in a list of frames. */
  function Span(frames: seq<Bytes>): nat
  {
    if frames == [] then 0 else |frames[0]| + Span(frames[1..])
  }

  /** Implied position at which the k-th retained frame starts. */
  function PositionOf(base: int, frames: seq<Bytes>, k: nat): int
    requires k <= |frames|
  {
    base + Span(frames[..k])
  }

  /** Linear search for the first frame boundary lying at a position. */
  function FirstBoundary(base: int, frames: seq<Bytes>, position: int): (k: Option<nat>)
    ensures k.Some? ==> k.value <= |frames|
    decreases frames
  {
    if position == base then Some(0)
    else if position < base || frames == [] then None
    else match FirstBoundary(base + |frames[0]|, frames[1..], position)
      case None => None
      case Some(k) => Some(k + 1)
  }

  function FirstAvailable(w: Window, current: int): int
  {
    if w.frames == [] then current else w.base
  }

  /** How many retained frames lie before a position the peer reported. */
  function Locate(w: Window, position: int, current: int): (k: Option<nat>)
    ensures k.Some? ==> k.value <= |w.frames|
  {
    if position < 0 || position > current then None
    else if position == current then Some(|w.frames|)
    else if w.frames == [] then None
    else FirstBoundary(w.base, w.frames, position)
  }

  /** Forgets the first k frames; `acked` is the new acknowledged position. */
  function Drop(w: Window, k: nat, acked: int): Window
    requires k <= |w.frames|
  {
    if k == |w.frames| then Window(acked, [], acked)
    else Window(PositionOf(w.base, w.frames, k), w.frames[k..], acked)
  }

  function Record(w: Window, start: int, bytes: Bytes, capacity: Option<nat>): RecordResult
  {
    if capacity.Some? && Span(w.frames) + |bytes| > capacity.value then RecordFailed(CapacityExceeded)
    else if w.frames != [] && PositionOf(w.base, w.frames, |w.frames|) != start then RecordFailed(NotContiguous)
    else Recorded(Window(if w.frames == [] then start else w.base, w.frames + [bytes], w.acked))
  }

  function Acknowledge(w: Window, position: int, current: int): AckResult
  {
    if position <= w.acked then Acked(w)
    else match Locate(w, position, current)
      case None => AckImpossible
      case Some(k) => Acked(Drop(w, k, position))
  }

  predicate CanReplay(w: Window, position: int, current: int)
  {
    FirstAvailable(w, current) <= position && Locate(w, position, current).Some?
  }

  function Replay(w: Window, position: int, current: int): ReplayResult
  {
    if position < FirstAvailable(w, current) then NoLongerRetained
    else match Locate(w, position, current)
      case None => NotABoundary
      case Some(k) => Replayed(Drop(w, k, Max(w.acked, position)), w.frames[k..])
  }

  // ----- frame arithmetic

  lemma {:induction false} SpanConcat(a: seq<Bytes>, b: seq<Bytes>)
    ensures Span(a + b) == Span(a) + Span(b)
  {
    if a == [] {
      assert a + b == b;
    } else {
      assert (a + b)[1..] == a[1..] + b;
      SpanConcat(a[1..], b);
    }
  }

  lemma SpanSplit(frames: seq<Bytes>, k: nat)
    requires k <= |frames|
    ensures Span(frames) == Span(frames[..k]) + Span(frames[k..])
  {
    assert frames == frames[..k] + frames[k..];
    SpanConcat(frames[..k], frames[k..]);
  }

  lemma SpanNext(frames: seq<Bytes>, k: nat)
    requires k < |frames|
    ensures Span(frames[..k + 1]) == Span(frames[..k]) + |frames[k]|
  {
    assert frames[..k + 1] == frames[..k] + [frames[k]];
    SpanConcat(frames[..k], [frames[k]]);
  }

  /** Boundaries never move backwards. */
  lemma PositionsRise(base: int, frames: seq<Bytes>, j: nat, k: nat)
    requires j <= k <= |frames|
    ensures PositionOf(base, frames, j) <= PositionOf(base, frames, k)
  {
    assert frames[..k][..j] == frames[..j];
    SpanSplit(frames[..k], j);
  }

  /** The linear search finds exactly the least boundary at the position, if there is one. */
  lemma {:induction false} FirstBoundaryIsLeast(base: int, frames: seq<Bytes>, position: int)
    ensures match FirstBoundary(base, frames, position)
            case Some(k) => PositionOf(base, frames, k) == position
                            && forall j :: 0 <= j < k ==> PositionOf(base, frames, j) < position
            case None => forall j :: 0 <= j <= |frames| ==> PositionOf(base, frames, j) != position
    decreases frames
  {
    if position == base {
    } else if position < base || frames == [] {
      forall j | 0 <= j <= |frames| ensures PositionOf(base, frames, j) != position {
        PositionsRise(base, frames, 0, j);
      }
    } else {
      var rest := frames[1..];
      FirstBoundaryIsLeast(base + |frames[0]|, rest, position);
      forall j | 1 <= j <= |frames|
        ensures PositionOf(base, frames, j) == PositionOf(base + |frames[0]|, rest, j - 1)
      {
        assert frames[..j][1..] == rest[..j - 1];
      }
      assert PositionOf(base, frames, 0) == base;
    }
  }

  /** A boundary preceded only by smaller boundaries is the one the search returns. */
  lemma FirstBoundaryUnique(base: int, frames: seq<Bytes>, position: int, k: nat)
    requires k <= |frames| && PositionOf(base, frames, k) == position
    requires forall j :: 0 <= j < k ==> PositionOf(base, frames, j) < position
    ensures FirstBoundary(base, frames, position) == Some(k)
  {
    FirstBoundaryIsLeast(base, frames, position);
    var found := FirstBoundary(base, frames, position);
    assert found.Some? && !(found.value < k) && !(k < found.value);
  }

  // ----- windows whose positions are threaded by one endpoint

  /** The endpoint passes its own running position to every operation. */
  ghost predicate Threaded(w: Window, current: int)
  {
    && 0 <= w.base == w.acked
    && PositionOf(w.base, w.frames, |w.frames|) == current
  }

  /** Threaded windows retain exactly the frames after the acknowledged position. */
  lemma ThreadedFirstAvailable(w: Window, current: int)
    requires Threaded(w, current)
    ensures FirstAvailable(w, current) == w.acked
  {}

  lemma RecordKeepsThreaded(w: Window, current: int, bytes: Bytes, capacity: Option<nat>)
    requires Threaded(w, current)
    ensures var r := Record(w, current, bytes, capacity);
            if capacity.Some? && current - w.acked + |bytes| > capacity.value
            then r == RecordFailed(CapacityExceeded)
            else r.Recorded? && Threaded(r.window, current + |bytes|) && r.window.acked == w.acked
                 && r.window.frames == w.frames + [bytes]
  {
    assert w.frames[..|w.frames|] == w.frames;
    SpanConcat(w.frames, [bytes]);
    assert (w.frames + [bytes])[..|w.frames| + 1] == w.frames + [bytes];
  }

  /** Whatever the positions, what is recorded goes to the end, and is refused for lack of room exactly over the cap. */
  lemma RecordAppends(w: Window, start: int, bytes: Bytes, capacity: nat)
    ensures var r := Record(w, start, bytes, Some(capacity));
            && (r == RecordFailed(CapacityExceeded) <==> Span(w.frames) + |bytes| > capacity)
            && (r.Recorded? ==> r.window.frames == w.frames + [bytes] && r.window.acked == w.acked)
            && (Threaded(w, start) && r.RecordFailed? ==> r.error == CapacityExceeded)
  {}

  lemma DropKeepsThreaded(w: Window, k: nat, current: int)
    requires Threaded(w, current) && k <= |w.frames|
    ensures var p := PositionOf(w.base, w.frames, k);
            Threaded(Drop(w, k, p), current) && Drop(w, k, p) == Window(p, w.frames[k..], p)
  {
    SpanSplit(w.frames, k);
    assert w.frames[..|w.frames|] == w.frames;
    assert w.frames[k..][..|w.frames[k..]|] == w.frames[k..];
  }

  /** With non-empty frames every boundary is found at its own index. */
  lemma LocateBoundary(w: Window, current: int, k: nat)
    requires Threaded(w, current) && k <= |w.frames|
    requires forall f :: f in w.frames ==> f != []
    ensures Locate(w, PositionOf(w.base, w.frames, k), current) == Some(k)
  {
    var p := PositionOf(w.base, w.frames, k);
    PositionsRise(w.base, w.frames, k, |w.frames|);
    if k < |w.frames| {
      SpanNext(w.frames, k);
      PositionsRise(w.base, w.frames, k + 1, |w.frames|);
      forall j | 0 <= j < k ensures PositionOf(w.base, w.frames, j) < p {
        SpanNext(w.frames, j);
        PositionsRise(w.base, w.frames, j + 1, k);
        assert w.frames[j] in w.frames;
      }
      assert w.frames[k] in w.frames;
      FirstBoundaryUnique(w.base, w.frames, p, k);
    }
  }

  /**
    For any position at all, replay succeeds exactly when the position is a boundary of the
    retained frames, and then emits exactly the frames from that boundary on.
   */
  lemma ReplayIsSuffix(w: Window, position: int, current: int)
    requires Threaded(w, current)
    requires forall f :: f in w.frames ==> f != []
    ensures CanReplay(w, position, current)
        <==> exists k :: 0 <= k <= |w.frames| && PositionOf(w.base, w.frames, k) == position
    ensures CanReplay(w, position, current) <==> Replay(w, position, current).Replayed?
    ensures forall k :: 0 <= k <= |w.frames| && PositionOf(w.base, w.frames, k) == position ==>
              Replay(w, position, current)
              == Replayed(Window(position, w.frames[k..], position), w.frames[k..])
  {
    forall k | 0 <= k <= |w.frames| && PositionOf(w.base, w.frames, k) == position
      ensures CanReplay(w, position, current)
      ensures Replay(w, position, current)
              == Replayed(Window(position, w.frames[k..], position), w.frames[k..])
    {
      LocateBoundary(w, current, k);
      PositionsRise(w.base, w.frames, 0, k);
      DropKeepsThreaded(w, k, current);
    }
    if CanReplay(w, position, current) {
      if position == current {
        assert PositionOf(w.base, w.frames, |w.frames|) == position;
      } else {
        FirstBoundaryIsLeast(w.base, w.frames, position);
      }
    }
  }

  /**
    An acknowledgement of what was acknowledged before changes nothing; one at a later boundary
    releases exactly the frames before it; any other is refused.
   */
  lemma AcknowledgeReleases(w: Window, position: int, current: int)
    requires Threaded(w, current)
    requires forall f :: f in w.frames ==> f != []
    ensures position <= w.acked ==> Acknowledge(w, position, current) == Acked(w)
    ensures forall k :: 0 < k <= |w.frames| && PositionOf(w.base, w.frames, k) == position ==>
              Acknowledge(w, position, current) == Acked(Window(position, w.frames[k..], position))
    ensures Acknowledge(w, position, current) == AckImpossible
            <==> position > w.acked && forall k :: 0 < k <= |w.frames| ==> PositionOf(w.base, w.frames, k) != position
  {
    forall k | 0 < k <= |w.frames| && PositionOf(w.base, w.frames, k) == position
      ensures position > w.acked
      ensures Acknowledge(w, position, current) == Acked(Window(position, w.frames[k..], position))
    {
      LocateBoundary(w, current, k);
      SpanNext(w.frames, 0);
      PositionsRise(w.base, w.frames, 1, k);
      assert w.frames[0] in w.frames;
      DropKeepsThreaded(w, k, current);
    }
    if position > w.acked && Acknowledge(w, position, current).Acked? {
      var k := Locate(w, position, current).value;
      if position == current {
        assert PositionOf(w.base, w.frames, |w.frames|) == position;
      } else {
        FirstBoundaryIsLeast(w.base, w.frames, position);
        assert k > 0;
      }
    }
  }
}
