/**
  The replay buffer shared by client and server: cumulative end offsets in an array whose
  consumed prefix is dropped lazily. Every method is proved against the plain queue of
  module ReplayWindow.
 */
module ReplayBuffer {
  import opened Common
  import opened ReplayWindow

  /** A consumed prefix shorter than this is never worth compacting. */
  const COMPACT_THRESHOLD := 256

  /** A raw frame has a 6-byte header and a 24-bit length. */
  const MIN_FRAME := 6
  const MAX_FRAME := 0xff_ffff

  /** The client's cap on unacknowledged bytes. */
  const DEFAULT_RESUME_BUFFER_BYTES := 16 * 1024 * 1024

  /** The frames still held in a slot array, oldest first. */
  function Live(slots: seq<Option<Bytes>>): (frames: seq<Bytes>)
    requires forall i :: 0 <= i < |slots| ==> slots[i].Some?
    ensures |frames| == |slots|
    ensures forall i :: 0 <= i < |slots| ==> frames[i] == slots[i].value
  {
    seq(|slots|, i requires 0 <= i < |slots| => slots[i].value)
  }

  /** Offset at which entry i starts. */
  function Prior(entries: seq<int>, i: nat): int
    requires i <= |entries|
  {
    if i == 0 then 0 else entries[i - 1]
  }

  /** Length of the frame entry i was recorded for. */
  function Gap(entries: seq<int>, i: nat): int
    requires i < |entries|
  {
    entries[i] - Prior(entries, i)
  }

  /** `entries` accumulates the lengths of the slots from `head` on. */
  ghost predicate Cumulative(entries: seq<int>, slots: seq<Option<Bytes>>, head: nat)
  {
    && |entries| == |slots|
    && head <= |slots|
    && (forall i :: head <= i < |slots| ==> slots[i].Some?)
    && (forall i :: head <= i < |entries| ==> Gap(entries, i) == |slots[i].value|)
  }

  ghost predicate Rising(entries: seq<int>)
  {
    forall i :: 0 <= i < |entries| ==> 0 <= Gap(entries, i)
  }

  /** Every frame the table accounts for, consumed ones included, had a legal length. */
  ghost predicate Steps(entries: seq<int>)
  {
    forall i :: 0 <= i < |entries| ==> MIN_FRAME <= Gap(entries, i) <= MAX_FRAME
  }

  predicate LegalLength(frame: Bytes)
  {
    MIN_FRAME <= |frame| <= MAX_FRAME
  }

  lemma {:induction false} RisingBounds(entries: seq<int>, i: nat, j: nat)
    requires Rising(entries) && i <= j <= |entries|
    ensures 0 <= Prior(entries, i) <= Prior(entries, j)
    decreases j
  {
    if i < j {
      RisingBounds(entries, i, j - 1);
      assert 0 <= Gap(entries, j - 1);
    } else if j > 0 {
      RisingBounds(entries, j - 1, j - 1);
      assert 0 <= Gap(entries, j - 1);
    }
  }

  /** The offset table is the prefix-sum table of the retained frames. */
  lemma {:induction false} OffsetsAreSpans(entries: seq<int>, slots: seq<Option<Bytes>>, head: nat, k: nat)
    requires Cumulative(entries, slots, head) && head + k <= |slots|
    ensures Prior(entries, head + k) == Prior(entries, head) + Span(Live(slots[head..])[..k])
  {
    var frames := Live(slots[head..]);
    if k == 0 {
      assert frames[..0] == [];
    } else {
      OffsetsAreSpans(entries, slots, head, k - 1);
      SpanNext(frames, k - 1);
      assert frames[k - 1] == slots[head + k - 1].value;
      assert Gap(entries, head + k - 1) == |slots[head + k - 1].value|;
    }
  }

  lemma {:induction false} StepsBound(entries: seq<int>, i: nat, j: nat)
    requires Steps(entries) && i <= j <= |entries|
    ensures MIN_FRAME * (j - i) <= Prior(entries, j) - Prior(entries, i) <= MAX_FRAME * (j - i)
  {
    if i < j {
      StepsBound(entries, i, j - 1);
      assert MIN_FRAME <= Gap(entries, j - 1) <= MAX_FRAME;
    }
  }

  /**
    With frames of 6 to 2^24-1 bytes and at most 16 MiB retained, lazy compaction keeps the
    whole offset table, consumed prefix included, far inside the safe integers.
   */
  lemma SpanStaysSafe(entries: seq<int>, head: nat, retained: int)
    requires Steps(entries) && head <= |entries|
    requires head < COMPACT_THRESHOLD || 2 * head < |entries|
    requires Prior(entries, |entries|) - Prior(entries, head) == retained <= DEFAULT_RESUME_BUFFER_BYTES
    ensures Prior(entries, |entries|) + MAX_FRAME <= MAX_SAFE_INTEGER
  {
    StepsBound(entries, head, |entries|);
    StepsBound(entries, 0, |entries|);
    assert |entries| <= 6_000_000;
  }

  /** The fields of a replay buffer as one value. */
  datatype Store = Store(
    entries: seq<int>, slots: seq<Option<Bytes>>, head: nat,
    retained: int, origin: int, end: int, acked: int)

  /** What holds at every point inside an operation. */
  ghost predicate Consistent(s: Store)
  {
    && Cumulative(s.entries, s.slots, s.head)
    && (forall i :: 0 <= i < s.head ==> s.slots[i].None?)
    && Rising(s.entries)
    && s.retained == Span(Live(s.slots[s.head..]))
    && (s.entries != [] ==> s.end == s.origin + Prior(s.entries, |s.entries|))
    && Prior(s.entries, |s.entries|) <= MAX_SAFE_INTEGER
  }

  /** What holds besides between operations: the consumed prefix is short. */
  ghost predicate Compacted(s: Store)
  {
    && (s.head == |s.entries| ==> s.head == 0)
    && (s.head < COMPACT_THRESHOLD || 2 * s.head < |s.entries|)
  }

  /** The plain queue a buffer stands for. */
  ghost function ViewOf(s: Store): Window
    requires Consistent(s)
  {
    if s.head == |s.entries| then Window(s.acked, [], s.acked)
    else Window(s.origin + Prior(s.entries, s.head), Live(s.slots[s.head..]), s.acked)
  }

  /** The parts of consistency that straight-line code needs. */
  lemma Shape(s: Store)
    requires Consistent(s)
    ensures |s.entries| == |s.slots| && s.head <= |s.entries|
    ensures forall i :: s.head <= i < |s.slots| ==> s.slots[i].Some?
    ensures ViewOf(s).frames == Live(s.slots[s.head..])
    ensures ViewOf(s).acked == s.acked
  {
    if s.head == |s.entries| {
      assert Live(s.slots[s.head..]) == [];
    }
  }

  /** The acknowledged position is independent of the table. */
  lemma SetAcked(s: Store, acked: int, k: nat)
    requires Consistent(s) && s.head + k <= |s.entries|
    ensures Consistent(s.(acked := acked)) && (Compacted(s) ==> Compacted(s.(acked := acked)))
    ensures k <= |ViewOf(s).frames| == |ViewOf(s.(acked := acked)).frames|
    ensures Drop(ViewOf(s.(acked := acked)), k, acked) == Drop(ViewOf(s), k, acked)
  {
    Shape(s);
    Shape(s.(acked := acked));
  }

  lemma SlotHolds(s: Store, i: nat)
    requires Consistent(s) && s.head <= i < |s.entries|
    ensures i < |s.slots| && s.slots[i].Some?
    ensures |ViewOf(s).frames| == |s.entries| - s.head && ViewOf(s).frames[i - s.head] == s.slots[i].value
  {}

  lemma UnmovedHead(s: Store)
    requires Consistent(s)
    ensures ViewOf(s) == Drop(ViewOf(s), 0, s.acked)
  {
    var w := ViewOf(s);
    assert w.frames[0..] == w.frames && w.frames[..0] == [];
  }

  /** Boundary k of the queue is offset head + k of the table. */
  lemma ViewPositions(s: Store, k: nat)
    requires Consistent(s) && s.head + k <= |s.entries| && s.head < |s.entries|
    ensures PositionOf(ViewOf(s).base, ViewOf(s).frames, k) == s.origin + Prior(s.entries, s.head + k)
  {
    OffsetsAreSpans(s.entries, s.slots, s.head, k);
  }

  /** The table after one more frame. */
  ghost function Appended(s: Store, start: int, frame: Bytes): Store
  {
    Store(s.entries + [Prior(s.entries, |s.entries|) + |frame|], s.slots + [Some(frame)], s.head,
          s.retained + |frame|, if s.entries == [] then start else s.origin, start + |frame|, s.acked)
  }

  lemma AppendGaps(s: Store, start: int, frame: Bytes)
    ensures var t := Appended(s, start, frame);
            && (forall i :: 0 <= i < |s.entries| ==> Gap(t.entries, i) == Gap(s.entries, i))
            && Gap(t.entries, |s.entries|) == |frame|
            && (Steps(s.entries) && LegalLength(frame) ==> Steps(t.entries))
  {
    assert Gap(Appended(s, start, frame).entries, |s.entries|) == |frame|;
  }

  lemma AppendStore(s: Store, start: int, frame: Bytes)
    requires Consistent(s) && Compacted(s) && (s.entries == [] || s.end == start)
    requires Prior(s.entries, |s.entries|) + |frame| <= MAX_SAFE_INTEGER
    ensures var t := Appended(s, start, frame);
            && Consistent(t) && Compacted(t)
            && ViewOf(t) == Window(if s.entries == [] then start else ViewOf(s).base,
                                   ViewOf(s).frames + [frame], s.acked)
            && (Steps(s.entries) && LegalLength(frame) ==> Steps(t.entries))
  {
    var t := Appended(s, start, frame);
    AppendGaps(s, start, frame);
    hide Steps, LegalLength;
    assert Live(t.slots[t.head..]) == Live(s.slots[s.head..]) + [frame];
    SpanConcat(Live(s.slots[s.head..]), [frame]);
    RisingBounds(s.entries, 0, |s.entries|);
  }

  /** Slots from `head` up to `nextHead` lose their frames. */
  ghost predicate ClearedSlots(slots: seq<Option<Bytes>>, cleared: seq<Option<Bytes>>, head: nat, nextHead: nat)
  {
    && |cleared| == |slots|
    && (forall i :: 0 <= i < |slots| ==> cleared[i] == if head <= i < nextHead then None else slots[i])
  }

  lemma AdvanceStore(s: Store, nextHead: nat, cleared: seq<Option<Bytes>>)
    requires Consistent(s) && s.head <= nextHead <= |s.entries|
    requires ClearedSlots(s.slots, cleared, s.head, nextHead)
    ensures var freed := Span(Live(s.slots[s.head..])[..nextHead - s.head]);
            var t := s.(slots := cleared, head := nextHead, retained := s.retained - freed);
            && Consistent(t)
            && ViewOf(t) == Drop(ViewOf(s), nextHead - s.head, s.acked)
  {
    hide Live, Span;
    var frames := Live(s.slots[s.head..]);
    assert cleared[nextHead..] == s.slots[nextHead..];
    assert Live(s.slots[nextHead..]) == frames[nextHead - s.head..];
    SpanSplit(frames, nextHead - s.head);
    OffsetsAreSpans(s.entries, s.slots, s.head, nextHead - s.head);
  }

  /** Drops the references held by acknowledged slots and counts their bytes. */
  method Cleared(slots: seq<Option<Bytes>>, head: nat, nextHead: nat)
      returns (cleared: seq<Option<Bytes>>, freed: nat)
    requires head <= nextHead <= |slots|
    requires forall i :: head <= i < |slots| ==> slots[i].Some?
    ensures ClearedSlots(slots, cleared, head, nextHead)
    ensures freed == Span(Live(slots[head..])[..nextHead - head])
  {
    cleared, freed := slots, 0;
    ghost var frames := Live(slots[head..]);
    assert frames[..0] == [];
    var index := head;
    while index < nextHead
      invariant head <= index <= nextHead && ClearedSlots(slots, cleared, head, index)
      invariant freed == Span(frames[..index - head])
    {
      SpanNext(frames, index - head);
      if cleared[index].Some? {
        freed := freed + |cleared[index].value|;
      }
      cleared := cleared[index := None];
      index := index + 1;
    }
  }

  lemma CompactStore(s: Store, t: Store)
    requires Consistent(s) && 0 < s.head < |s.entries|
    requires |t.entries| == |s.entries| - s.head
    requires forall i :: 0 <= i < |t.entries| ==> t.entries[i] == s.entries[s.head + i] - s.entries[s.head - 1]
    requires t == s.(entries := t.entries, slots := s.slots[s.head..], head := 0,
                     origin := s.origin + s.entries[s.head - 1])
    ensures Consistent(t) && Compacted(t) && ViewOf(t) == ViewOf(s)
    ensures Steps(s.entries) ==> Steps(t.entries)
  {
    forall i | 0 <= i <= |t.entries|
      ensures Prior(t.entries, i) == Prior(s.entries, s.head + i) - s.entries[s.head - 1]
    {}
    RisingBounds(s.entries, 0, s.head);
    assert t.slots[0..] == t.slots;
    if Steps(s.entries) {
      forall i | 0 <= i < |t.entries| ensures MIN_FRAME <= Gap(t.entries, i) <= MAX_FRAME {
        assert MIN_FRAME <= Gap(s.entries, s.head + i) <= MAX_FRAME;
      }
    }
  }

  /** What the plain queue answers, in terms of the table's own fields. */
  lemma RecordView(s: Store, start: int, frame: Bytes, capacity: Option<nat>)
    requires Consistent(s) && Compacted(s)
    ensures ReplayWindow.Record(ViewOf(s), start, frame, capacity)
         == if capacity.Some? && s.retained + |frame| > capacity.value then RecordFailed(CapacityExceeded)
            else if s.entries != [] && s.end != start then RecordFailed(NotContiguous)
            else Recorded(Window(if s.entries == [] then start else ViewOf(s).base,
                                 ViewOf(s).frames + [frame], s.acked))
  {
    var w := ViewOf(s);
    assert w.frames[..|w.frames|] == w.frames;
    if s.head < |s.entries| {
      ViewPositions(s, |s.entries| - s.head);
    }
  }

  lemma StoreStaysSafe(s: Store)
    requires Consistent(s) && Compacted(s) && Steps(s.entries)
    requires s.retained <= DEFAULT_RESUME_BUFFER_BYTES
    ensures forall f :: LegalLength(f) ==> Prior(s.entries, |s.entries|) + |f| <= MAX_SAFE_INTEGER
  {
    var n := |s.entries| - s.head;
    OffsetsAreSpans(s.entries, s.slots, s.head, n);
    assert Live(s.slots[s.head..])[..n] == Live(s.slots[s.head..]);
    if s.entries != [] {
      SpanStaysSafe(s.entries, s.head, s.retained);
    }
  }

  /** The least offset not below the target is where the linear search would stop. */
  lemma LowerBoundLocates(s: Store, offset: int, low: nat)
    requires Consistent(s) && s.head <= low <= |s.entries| && s.head < |s.entries|
    requires Prior(s.entries, s.head) < offset
    requires forall i :: s.head <= i < low ==> s.entries[i] < offset
    requires low < |s.entries| ==> offset <= s.entries[low]
    ensures FirstBoundary(ViewOf(s).base, ViewOf(s).frames, s.origin + offset)
            == if low < |s.entries| && s.entries[low] == offset then Some(low + 1 - s.head) else None
  {
    var w := ViewOf(s);
    var position := s.origin + offset;
    forall k | 0 <= k <= |w.frames|
      ensures PositionOf(w.base, w.frames, k) == s.origin + Prior(s.entries, s.head + k)
    {
      ViewPositions(s, k);
    }
    FirstBoundaryIsLeast(w.base, w.frames, position);
    if low < |s.entries| && s.entries[low] == offset {
      FirstBoundaryUnique(w.base, w.frames, position, low + 1 - s.head);
    } else {
      forall k | 0 <= k <= |w.frames| ensures PositionOf(w.base, w.frames, k) != position {
        if low + 1 <= s.head + k {
          RisingBounds(s.entries, low + 1, s.head + k);
        }
      }
    }
  }

  /** Moves the live offsets to the front and makes them relative to the new origin. */
  method RebasedSuffix(entries: seq<int>, head: nat) returns (rebased: seq<int>)
    requires 0 < head <= |entries|
    ensures |rebased| == |entries| - head
    ensures forall i :: 0 <= i < |rebased| ==> rebased[i] == entries[head + i] - entries[head - 1]
  {
    var consumedOffset := entries[head - 1];
    var remaining := |entries| - head;
    rebased := CopiedWithin(entries, head);
    ghost var live := entries[head..];
    assert forall i :: 0 <= i < remaining ==> rebased[..remaining][i] == live[i];
    hide CopiedWithin;
    var index := 0;
    while index < remaining
      invariant 0 <= index <= remaining && |rebased| == |entries|
      invariant forall i :: 0 <= i < index ==> rebased[i] == live[i] - consumedOffset
      invariant forall i :: index <= i < remaining ==> rebased[i] == live[i]
    {
      rebased := rebased[index := rebased[index] - consumedOffset];
      index := index + 1;
    }
    rebased := rebased[..remaining];
  }

  /** The next frame of a snapshot to which more frames were appended. */
  lemma NextOf(snapshot: seq<Bytes>, appended: seq<Bytes>, k: nat)
    requires k < |snapshot|
    ensures (snapshot + appended)[k] == snapshot[k]
    ensures snapshot[..k + 1] == snapshot[..k] + [snapshot[k]]
  {}

  /** Bounded replay buffer for one direction of a resumable session. */
  class RSocketReplayBuffer {
    var entries: seq<int>
    var bytes: seq<Option<Bytes>>
    const maximumBytes: Option<nat>
    var head: nat
    var retainedBytes: int
    var originPosition: int
    var endPosition: int
    var acknowledgedPosition: int
    /** Array elements copied by compaction, and entries consumed, since construction. */
    ghost var moved: nat
    ghost var consumed: nat
    /** Whether every frame recorded so far had a legal length. */
    ghost var legal: bool

    ghost function State(): Store
      reads this
    {
      Store(entries, bytes, head, retainedBytes, originPosition, endPosition, acknowledgedPosition)
    }

    ghost predicate Valid()
      reads this
    {
      && Consistent(State())
      && Compacted(State())
      && (maximumBytes.Some? ==> retainedBytes <= maximumBytes.value)
      && moved + head <= consumed
      && (legal ==> Steps(entries))
    }

    /** The plain queue this buffer stands for. */
    ghost function View(): Window
      reads this
      requires Valid()
    {
      ViewOf(State())
    }

    constructor (maxBytes: Option<nat>)
      ensures Valid() && View() == EMPTY && maximumBytes == maxBytes
      ensures entries == [] && moved == consumed == 0 && legal
    {
      maximumBytes := maxBytes;
      entries, bytes, head, retainedBytes := [], [], 0, 0;
      originPosition, endPosition, acknowledgedPosition := 0, 0, 0;
      moved, consumed, legal := 0, 0, true;
    }

    /** Earliest exact local position still available for replay. */
    method FirstAvailablePosition(currentPosition: int) returns (position: int)
      requires Valid()
      ensures position == FirstAvailable(View(), currentPosition)
    {
      if head >= |entries| {
        return currentPosition;
      }
      return if head == 0 then originPosition else originPosition + entries[head - 1];
    }

    /** Why a frame cannot be retained, checked in this order. */
    function Refusal(start: int, frame: Bytes): Option<RecordError>
      reads this
    {
      if maximumBytes.Some? && retainedBytes + |frame| > maximumBytes.value then Some(CapacityExceeded)
      else if entries != [] && endPosition != start then Some(NotContiguous)
      else if (if entries == [] then 0 else entries[|entries| - 1]) + |frame| > MAX_SAFE_INTEGER
        then Some(SpanExceeded)
      else None
    }

    /**
      Retains one positional frame. It follows the plain queue, except that the offset table may
      refuse a frame the queue would take; with the client's 16 MiB cap and frames of legal
      length it never does.
     */
    method Record(start: int, frame: Bytes) returns (error: Option<RecordError>, end: int)
      requires Valid()
      modifies this
      ensures Valid() && head == old(head)
      ensures error == None ==>
                && old(ReplayWindow.Record(View(), start, frame, maximumBytes)) == Recorded(View())
                && end == start + |frame|
                && |entries| == old(|entries|) + 1
      ensures error.Some? ==> View() == old(View()) && entries == old(entries) && end == start
      ensures error.Some? && error.value != SpanExceeded ==>
                old(ReplayWindow.Record(View(), start, frame, maximumBytes)) == RecordFailed(error.value)
      ensures error == Some(SpanExceeded) <==>
                && old(ReplayWindow.Record(View(), start, frame, maximumBytes)).Recorded?
                && old(Prior(entries, |entries|)) + |frame| > MAX_SAFE_INTEGER
      ensures legal == (old(legal) && (error == None ==> LegalLength(frame)))
      ensures old(legal) && LegalLength(frame)
              && maximumBytes.Some? && maximumBytes.value <= DEFAULT_RESUME_BUFFER_BYTES
              ==> error != Some(SpanExceeded)
    {
      hide Consistent, Compacted, ViewOf, ReplayWindow.Record, Steps, LegalLength;
      Shape(State());
      RecordView(State(), start, frame, maximumBytes);
      if legal && retainedBytes <= DEFAULT_RESUME_BUFFER_BYTES {
        StoreStaysSafe(State());
      }
      end := start;
      error := Refusal(start, frame);
      if error == None {
        AppendStore(State(), start, frame);
        Retain(start, frame);
        end := start + |frame|;
      }
    }

    /** Enters one admitted frame into the table. */
    method Retain(start: int, frame: Bytes)
      modifies this
      ensures State() == Appended(old(State()), start, frame)
      ensures legal == (old(legal) && LegalLength(frame))
      ensures moved == old(moved) && consumed == old(consumed)
    {
      if |entries| == 0 {
        originPosition := start;
      }
      endPosition := start + |frame|;
      entries := entries + [(if |entries| == 0 then 0 else entries[|entries| - 1]) + |frame|];
      bytes := bytes + [Some(frame)];
      retainedBytes := retainedBytes + |frame|;
      legal := legal && LegalLength(frame);
    }

    /** Drops frames acknowledged by a monotonic peer position. */
    method Acknowledge(position: int, currentPosition: int) returns (ok: bool)
      requires Valid()
      modifies this
      ensures Valid()
      ensures match old(ReplayWindow.Acknowledge(View(), position, currentPosition))
              case Acked(w) => ok && View() == w
              case AckImpossible => !ok && View() == old(View()) && entries == old(entries)
      ensures legal == old(legal)
    {
      Shape(State());
      hide Consistent, ViewOf, Locate, Compacted, Drop;
      ok := true;
      if position > acknowledgedPosition {
        var nextHead := PositionIndex(position, currentPosition);
        ok := nextHead.Some?;
        if ok {
          Discard(nextHead.value, position);
        }
      }
    }

    /** Checks whether an exact position remains available for replay. */
    method CanReplayFrom(position: int, currentPosition: int) returns (possible: bool)
      requires Valid()
      ensures possible == CanReplay(View(), position, currentPosition)
    {
      var first := FirstAvailablePosition(currentPosition);
      if position < first {
        return false;
      }
      var index := PositionIndex(position, currentPosition);
      return index.Some?;
    }

    /**
      Replays the retained snapshot from one position. Each write may record further frames, those
      of `during` at its place; they are retained in order but are not part of this pass.
     */
    method ReplayFrom(position: int, currentPosition: int, during: seq<seq<Bytes>>)
        returns (ok: bool, emitted: seq<Bytes>, ghost recorded: seq<Bytes>, refused: bool)
      requires Valid()
      modifies this
      ensures Valid()
      ensures ok == old(CanReplay(View(), position, currentPosition))
      ensures !ok ==> View() == old(View()) && emitted == [] && entries == old(entries)
      ensures ok ==> var r := old(Replay(View(), position, currentPosition));
                && r.Replayed?
                && View() == r.window.(frames := r.window.frames + recorded)
                && emitted <= r.emitted && (!refused ==> emitted == r.emitted)
      ensures during == [] ==> recorded == [] && !refused && legal == old(legal)
    {
      hide Valid, ViewOf, Locate, Drop;
      emitted, recorded, refused := [], [], false;
      ok := BeginReplay(position, currentPosition);
      if ok {
        emitted, recorded, refused := EmitRetained(during);
      }
    }

    /** Forgets everything before the replay position, or refuses it. */
    method BeginReplay(position: int, currentPosition: int) returns (ok: bool)
      requires Valid()
      modifies this
      ensures Valid()
      ensures ok == old(CanReplay(View(), position, currentPosition))
      ensures !ok ==> View() == old(View()) && entries == old(entries)
      ensures ok ==> old(Replay(View(), position, currentPosition)) == Replayed(View(), View().frames)
      ensures legal == old(legal)
    {
      Shape(State());
      hide Consistent, ViewOf, Locate, Compacted, Drop;
      var first := FirstAvailablePosition(currentPosition);
      var nextHead := PositionIndex(position, currentPosition);
      ok := first <= position && nextHead.Some?;
      if ok {
        Discard(nextHead.value, if position > acknowledgedPosition then position else acknowledgedPosition);
      }
    }

    /** Writes the snapshot; frames recorded reentrantly by a write belong after this pass. */
    method EmitRetained(during: seq<seq<Bytes>>)
        returns (emitted: seq<Bytes>, ghost recorded: seq<Bytes>, refused: bool)
      requires Valid()
      modifies this
      ensures Valid() && View() == old(View()).(frames := old(View().frames) + recorded)
      ensures emitted <= old(View().frames) && (!refused ==> emitted == old(View().frames))
      ensures during == [] ==> recorded == [] && !refused && legal == old(legal)
    {
      Shape(State());
      hide Valid, Compacted, ViewOf, Consistent, Live;
      emitted, recorded, refused := [], [], false;
      ghost var snapshot := View();
      var replayEnd := |entries|;
      var index := head;
      assert snapshot.frames + [] == snapshot.frames;
      while index < replayEnd && !refused
        invariant Valid() && head <= index <= replayEnd <= |entries|
        invariant replayEnd - head == |snapshot.frames| && index - head == |emitted|
        invariant emitted == snapshot.frames[..|emitted|]
        invariant View() == Window(snapshot.base, snapshot.frames + recorded, snapshot.acked)
        invariant during == [] ==> recorded == [] && !refused && legal == old(legal)
      {
        var frame; ghost var kept;
        NextOf(snapshot.frames, recorded, |emitted|);
        frame, kept, refused := WriteSlot(index, if |emitted| < |during| then during[|emitted|] else []);
        ConcatAssociates(snapshot.frames, recorded, kept);
        emitted := emitted + [frame];
        recorded := recorded + kept;
        index := index + 1;
      }
    }

    /** Writes one retained frame, during which more frames may be recorded. */
    method WriteSlot(index: nat, during: seq<Bytes>) returns (frame: Bytes, ghost kept: seq<Bytes>, refused: bool)
      requires Valid() && head <= index < |entries|
      modifies this
      ensures Valid() && head == old(head) && old(|entries|) <= |entries|
      ensures index - head < old(|View().frames|) && frame == old(View().frames[index - head])
      ensures View() == old(View()).(frames := old(View().frames) + kept)
      ensures during == [] ==> kept == [] && !refused && legal == old(legal)
    {
      SlotHolds(State(), index);
      frame := bytes[index].value;
      hide Consistent, Compacted, ViewOf;
      kept, refused := RecordAll(during);
    }

    /** Records frames in order at the buffer's own end position until one is refused. */
    method RecordAll(frames: seq<Bytes>) returns (ghost kept: seq<Bytes>, refused: bool)
      requires Valid() && entries != []
      modifies this
      ensures Valid() && old(|entries|) <= |entries| && head == old(head)
      ensures kept <= frames && (!refused ==> kept == frames)
      ensures frames == [] ==> !refused && legal == old(legal)
      ensures View() == old(View()).(frames := old(View().frames) + kept)
    {
      kept, refused := [], false;
      assert head < |entries|;
      hide Consistent, Compacted, ViewOf;
      var i := 0;
      while i < |frames| && !refused
        invariant 0 <= i <= |frames| && Valid() && head == old(head) < old(|entries|) <= |entries|
        invariant if refused then |kept| < i else |kept| == i
        invariant i == 0 ==> legal == old(legal)
        invariant kept == frames[..|kept|]
        invariant View() == old(View()).(frames := old(View().frames) + kept)
      {
        SlotHolds(State(), head);
        var error, _ := Record(endPosition, frames[i]);
        refused := error.Some?;
        if !refused {
          kept := kept + [frames[i]];
        }
        i := i + 1;
      }
    }

    /** Releases all retained bytes. */
    method Clear()
      requires Valid()
      modifies this
      ensures Valid() && View() == EMPTY && entries == [] && legal == old(legal)
    {
      entries, bytes := [], [];
      head, retainedBytes := 0, 0;
      originPosition, endPosition, acknowledgedPosition := 0, 0, 0;
    }

    /** Resolves an exact frame boundary to an entry index by binary search. */
    method PositionIndex(position: int, currentPosition: int) returns (index: Option<nat>)
      requires Valid()
      ensures match Locate(View(), position, currentPosition)
              case None => index == None
              case Some(k) => index == Some(head + k)
    {
      hide Span, Steps, Compacted, LegalLength;
      if position < 0 || position > currentPosition {
        return None;
      }
      if position == currentPosition {
        return Some(|entries|);
      }
      var firstAvailable := FirstAvailablePosition(currentPosition);
      if position == firstAvailable {
        return Some(head);
      }
      if position < firstAvailable || position < originPosition {
        RisingBounds(entries, 0, head);
        return None;
      }
      var offset := position - originPosition;
      if offset > MAX_SAFE_INTEGER {
        forall i | head <= i < |entries| ensures entries[i] < offset {
          RisingBounds(entries, i + 1, |entries|);
        }
        LowerBoundLocates(State(), offset, |entries|);
        return None;
      }
      var low := head;
      var high := |entries|;
      while low < high
        invariant head <= low <= high <= |entries|
        invariant forall i :: head <= i < low ==> entries[i] < offset
        invariant forall i :: high <= i < |entries| ==> offset <= entries[i]
      {
        var middle := low + (high - low) / 2;
        if entries[middle] < offset {
          forall i | head <= i <= middle ensures entries[i] < offset {
            RisingBounds(entries, i + 1, middle + 1);
          }
          low := middle + 1;
        } else {
          forall i | middle <= i < |entries| ensures offset <= entries[i] {
            RisingBounds(entries, middle + 1, i + 1);
          }
          high := middle;
        }
      }
      LowerBoundLocates(State(), offset, low);
      if low < |entries| && entries[low] == offset {
        return Some(low + 1);
      }
      return None;
    }

    /** Records an acknowledgement and releases the entries before it, if there are any. */
    method Discard(nextHead: nat, acked: int)
      requires Valid() && head <= nextHead <= |entries|
      modifies this
      ensures Valid() && legal == old(legal)
      ensures nextHead - old(head) <= old(|View().frames|)
              && View() == Drop(old(View()), nextHead - old(head), acked)
    {
      hide Consistent, ViewOf, Drop, Steps, Compacted, Live;
      SetAcked(State(), acked, nextHead - head);
      acknowledgedPosition := acked;
      if nextHead <= head {
        UnmovedHead(State());
      } else {
        AdvanceHead(nextHead);
        Compact();
      }
    }

    /** Releases acknowledged entries and updates retained byte accounting. */
    method AdvanceHead(nextHead: nat)
      requires Consistent(State()) && head <= nextHead <= |entries| && moved + head <= consumed
      modifies `head, `bytes, `retainedBytes, `consumed
      ensures Consistent(State()) && head == nextHead && retainedBytes <= old(retainedBytes)
      ensures moved + head <= consumed
      ensures ViewOf(State()) == Drop(old(ViewOf(State())), nextHead - old(head), acknowledgedPosition)
    {
      hide Consistent, ViewOf, Drop, Live, Span;
      Shape(State());
      var cleared, freed := Cleared(bytes, head, nextHead);
      AdvanceStore(State(), nextHead, cleared);
      retainedBytes := retainedBytes - freed;
      bytes := cleared;
      consumed := consumed + (nextHead - head);
      head := nextHead;
    }

    /** Compacts sparse storage only after a meaningful consumed prefix. */
    method Compact()
      requires Consistent(State()) && moved + head <= consumed
      modifies `entries, `bytes, `head, `originPosition, `moved
      ensures Consistent(State()) && Compacted(State()) && moved + head <= consumed
      ensures ViewOf(State()) == old(ViewOf(State()))
      ensures old(Steps(entries)) ==> Steps(entries)
    {
      ghost var before := State();
      Shape(before);
      if head == |entries| {
        entries, bytes := [], [];
        head := 0;
        originPosition := acknowledgedPosition;
        return;
      }
      if head < COMPACT_THRESHOLD || head * 2 < |entries| {
        return;
      }
      hide Consistent, ViewOf, Steps;
      var consumedOffset := entries[head - 1];
      var remaining := |entries| - head;
      entries := RebasedSuffix(entries, head);
      bytes := CopiedWithin(bytes, head)[..remaining];
      originPosition := originPosition + consumedOffset;
      moved := moved + remaining;
      head := 0;
      CompactStore(before, State());
    }
  }
}
