/** The requester-to-responder direction of a request-channel, interleaved at every `await`. */
module ChannelOutbound {
  import opened Common
  import Flow = Demand

  /** Frames of this direction: the initial request, with the first item if there is one, then payloads. */
  datatype Frame<+T> = Channel(first: Option<T>, complete: bool) | Next(item: T) | Complete

  /** What one read of the input yields. */
  datatype Result<+T> = Item(item: T) | Ended

  /** Where the drain is suspended. */
  datatype Phase<+T> =
    | Opening
    | ReadingFirst
    | FirstReady(first: Result<T>)
    | NeedsRead
    | MayRead
    | Reading
    | NeedsCredit(item: T)
    | MaySend(item: T)
    | Over

  /**
    All fields, with the input the application supplies, the items read and sent so far, the
    demand received, the frames sent, and what was reported back.
   */
  datatype Outbound<T> = Outbound(
    input: seq<T>,
    phase: Phase<T>,
    demand: nat,
    aborted: bool,
    requestStarted: bool,
    iteratorClosed: bool,
    pulled: nat,
    items: nat,
    received: nat,
    frames: seq<Frame<T>>,
    completed: nat,
    failed: nat,
    returned: nat)

  function Opened<T>(input: seq<T>): Outbound<T>
  {
    Outbound(input, Opening, 0, false, false, false, 0, 0, 0, [], 0, 0, 0)
  }

  function IteratorClosed<T>(s: Outbound<T>): Outbound<T>
  {
    if s.iteratorClosed then s else s.(iteratorClosed := true, returned := s.returned + 1)
  }

  /** The `finally` of the drain. */
  function Finished<T>(s: Outbound<T>): Outbound<T>
  {
    IteratorClosed(s.(phase := Over))
  }

  /** The `catch` of the drain, then its `finally`. */
  function Thrown<T>(s: Outbound<T>): Outbound<T>
  {
    Finished(if s.aborted then s else s.(aborted := true, failed := s.failed + 1))
  }

  function DemandAdded<T>(s: Outbound<T>, n: int): Outbound<T>
  {
    if s.aborted || n <= 0 then s
    else s.(demand := Flow.AddReactiveDemand(Flow.Finite(s.demand), Flow.Finite(n)).n, received := s.received + n)
  }

  function Aborted<T>(s: Outbound<T>): Outbound<T>
  {
    if s.aborted then s else IteratorClosed(s.(aborted := true))
  }

  /** The next element of the input. */
  function Upcoming<T>(s: Outbound<T>): Result<T>
  {
    if s.items < |s.input| then Item(s.input[s.items]) else Ended
  }

  function ReadStarted<T>(s: Outbound<T>, phase: Phase<T>): Outbound<T>
  {
    s.(phase := phase, pulled := s.pulled + 1)
  }

  /** A frame left, and sending it may have cancelled the stream. */
  function Sent<T>(s: Outbound<T>, frame: Frame<T>, cancelled: bool): Outbound<T>
  {
    var t := s.(frames := s.frames + [frame], requestStarted := true);
    if cancelled then Aborted(t) else t
  }

  /** After the last frame. */
  function Reported<T>(s: Outbound<T>): Outbound<T>
  {
    Finished(if s.aborted then s else s.(completed := s.completed + 1))
  }

  /** Sends the initial request; `open` says whether the session takes the frame. */
  function Began<T>(s: Outbound<T>, first: Result<T>, open: bool, cancelled: bool): Outbound<T>
  {
    match first
    case Ended =>
      var t := s.(iteratorClosed := true);
      if open then Reported(Sent(t, Channel(None, true), cancelled)) else Thrown(t)
    case Item(item) =>
      if !open then Thrown(s)
      else
        var t := Sent(s.(items := s.items + 1), Channel(Some(item), false), cancelled);
        if t.aborted then Finished(t) else t.(phase := NeedsRead)
  }

  /** Spends one credit on one item, reading ahead once the credit is used up. */
  function ItemSent<T>(s: Outbound<T>, item: T, open: bool, cancelled: bool): Outbound<T>
    requires s.demand > 0
  {
    var t := s.(demand := s.demand - 1);
    if !open then Thrown(t)
    else
      var u := Sent(t.(items := t.items + 1), Next(item), cancelled);
      if u.aborted then Finished(u)
      else if u.demand == 0 then ReadStarted(u, Reading)
      else u.(phase := NeedsRead)
  }

  function ReadSettled<T>(s: Outbound<T>, open: bool, cancelled: bool): Outbound<T>
  {
    match s.phase
    case ReadingFirst => s.(phase := FirstReady(Upcoming(s)))
    case Reading =>
      (match Upcoming(s)
       case Item(item) => s.(phase := NeedsCredit(item))
       case Ended =>
         var t := s.(iteratorClosed := true);
         if open then Reported(Sent(t, Complete, cancelled)) else Thrown(t))
    case _ => s
  }

  /** The awaited promise resolved; waiting for demand goes on while there is none. */
  function Proceeded<T>(s: Outbound<T>, open: bool, cancelled: bool): Outbound<T>
  {
    if s.phase.Over? then s
    else if s.aborted then Finished(s)
    else match s.phase
      case Opening => ReadStarted(s, ReadingFirst)
      case ReadingFirst => ReadSettled(s, open, cancelled)
      case FirstReady(first) => Began(s, first, open, cancelled)
      case NeedsRead => if s.demand > 0 then s.(phase := MayRead) else s
      case MayRead => ReadStarted(s, Reading)
      case Reading => ReadSettled(s, open, cancelled)
      case NeedsCredit(item) => if s.demand > 0 then s.(phase := MaySend(item)) else s
      case MaySend(item) => if s.demand > 0 then ItemSent(s, item, open, cancelled) else s
  }

  datatype Event = DemandArrives(n: int) | Abort | Proceeds(open: bool, cancelled: bool) | InputFails

  function Step<T>(s: Outbound<T>, e: Event): Outbound<T>
  {
    match e
    case DemandArrives(n) => DemandAdded(s, n)
    case Abort => Aborted(s)
    case Proceeds(open, cancelled) => Proceeded(s, open, cancelled)
    case InputFails => if s.phase.Over? then s else Thrown(s)
  }

  // Invariant

  function Payloads<T>(items: seq<T>): (frames: seq<Frame<T>>)
    ensures |frames| == |items|
  {
    seq(|items|, i requires 0 <= i < |items| => Next(items[i]))
  }

  /** The frames that carry the given items, ended or not. */
  function FramesOf<T>(items: seq<T>, ended: bool): seq<Frame<T>>
  {
    if items == [] then if ended then [Channel(None, true)] else []
    else [Channel(Some(items[0]), false)] + Payloads(items[1..]) + if ended then [Complete] else []
  }

  lemma ItemAppends<T>(items: seq<T>, k: nat)
    requires k < |items|
    ensures FramesOf(items[..k + 1], false)
            == FramesOf(items[..k], false) + [if k == 0 then Channel(Some(items[0]), false) else Next(items[k])]
  {
    if k > 0 {
      assert items[..k + 1][1..] == items[..k][1..] + [items[k]];
      assert Payloads(items[..k + 1][1..]) == Payloads(items[..k][1..]) + [Next(items[k])];
    } else {
      assert items[..1][1..] == [];
    }
  }

  lemma EndAppends<T>(items: seq<T>)
    ensures FramesOf(items, true)
            == FramesOf(items, false) + [if items == [] then Channel(None, true) else Complete]
  {
    if items != [] {
      assert [Channel(Some(items[0]), false)] + Payloads(items[1..]) + []
             == [Channel(Some(items[0]), false)] + Payloads(items[1..]);
    }
  }

  /** Exactly the first items of the input were sent, and an end only after all of them. */
  ghost predicate Faithful<T>(s: Outbound<T>)
  {
    && s.items <= |s.input|
    && (s.frames == FramesOf(s.input[..s.items], false)
        || (s.phase.Over? && s.items == |s.input| && s.frames == FramesOf(s.input, true)))
  }

  /** What is in hand is the next item, and at most one item was pulled beyond those sent. */
  ghost predicate InStep<T>(s: Outbound<T>)
  {
    && s.items <= |s.input| && s.items <= s.pulled <= s.items + 1
    && match s.phase
       case Opening => s.pulled == 0
       case ReadingFirst => s.items == 0 && s.pulled == 1
       case FirstReady(first) => s.items == 0 && s.pulled == 1 && first == Upcoming(s)
       case NeedsRead => 0 < s.items == s.pulled
       case MayRead => 0 < s.items == s.pulled
       case Reading => 0 < s.items && s.pulled == s.items + 1
       case NeedsCredit(item) => 0 < s.items && s.pulled == s.items + 1 && Item(item) == Upcoming(s)
       case MaySend(item) => 0 < s.items && s.pulled == s.items + 1 && Item(item) == Upcoming(s)
       case Over => true
  }

  /** Credit is never overspent; the initial request needs none. */
  ghost predicate Credited<T>(s: Outbound<T>)
  {
    && s.demand <= MAX_SAFE_INTEGER
    && s.demand + (if s.items > 0 then s.items - 1 else 0) <= s.received
    && (s.phase.MaySend? && !s.aborted ==> s.demand > 0)
  }

  /** The iterator is closed once; the outcome is reported at most once, and only at the end. */
  ghost predicate Closes<T>(s: Outbound<T>)
  {
    && s.returned <= 1 && (s.returned == 1 ==> s.iteratorClosed)
    && (s.iteratorClosed ==> s.returned == 1 || (s.phase.Over? && s.items == |s.input|))
    && (s.phase.Over? || s.aborted ==> s.iteratorClosed)
    && (!s.phase.Over? && !s.aborted ==> !s.iteratorClosed)
    && s.completed + s.failed <= 1
    && (s.completed + s.failed == 1 ==> s.phase.Over?)
    && (s.failed == 1 ==> s.aborted)
    && (s.requestStarted <==> s.frames != [])
    && (!s.phase.Over? && s.frames == [] ==>
          s.items == 0 && (s.phase.Opening? || s.phase.ReadingFirst? || s.phase.FirstReady?))
    && (s.completed == 1 ==> s.frames == FramesOf(s.input, true))
  }

  ghost predicate Inv<T>(s: Outbound<T>)
  {
    Faithful(s) && InStep(s) && Credited(s) && Closes(s)
  }

  lemma AbortKeeps<T>(s: Outbound<T>)
    requires Inv(s)
    ensures Inv(Aborted(s)) && (!s.phase.Over? ==> Inv(Thrown(s))) && (s.aborted ==> Inv(Finished(s)))
  {}

  lemma DemandKeeps<T>(s: Outbound<T>, n: int)
    requires Inv(s)
    ensures Inv(DemandAdded(s, n))
  {}

  lemma BeganKeeps<T>(s: Outbound<T>, open: bool, cancelled: bool)
    requires Inv(s) && s.phase.FirstReady? && !s.aborted
    ensures Inv(Began(s, s.phase.first, open, cancelled))
  {
    EndAppends(s.input);
    if s.input != [] {
      ItemAppends(s.input, 0);
    }
    assert s.input[..|s.input|] == s.input;
  }

  lemma ItemSentKeeps<T>(s: Outbound<T>, open: bool, cancelled: bool)
    requires Inv(s) && s.phase.MaySend? && !s.aborted
    ensures Inv(ItemSent(s, s.phase.item, open, cancelled))
  {
    ItemAppends(s.input, s.items);
  }

  lemma ReadSettledKeeps<T>(s: Outbound<T>, open: bool, cancelled: bool)
    requires Inv(s) && !s.aborted && (s.phase.Reading? || s.phase.ReadingFirst?)
    ensures Inv(ReadSettled(s, open, cancelled))
  {
    EndAppends(s.input);
    assert s.input[..|s.input|] == s.input;
  }

  lemma StepKeeps<T>(s: Outbound<T>, e: Event)
    requires Inv(s)
    ensures Inv(Step(s, e))
  {
    match e
    case DemandArrives(n) => DemandKeeps(s, n);
    case Abort => AbortKeeps(s);
    case InputFails => AbortKeeps(s);
    case Proceeds(open, cancelled) => ProceededKeeps(s, open, cancelled);
  }

  lemma ProceededKeeps<T>(s: Outbound<T>, open: bool, cancelled: bool)
    requires Inv(s)
    ensures Inv(Proceeded(s, open, cancelled))
  {
    AbortKeeps(s);
    if !s.phase.Over? && !s.aborted {
      match s.phase
      case FirstReady(_) => BeganKeeps(s, open, cancelled);
      case MaySend(_) => ItemSentKeeps(s, open, cancelled);
      case ReadingFirst => ReadSettledKeeps(s, open, cancelled);
      case Reading => ReadSettledKeeps(s, open, cancelled);
      case _ =>
    }
  }

  function Run<T>(s: Outbound<T>, events: seq<Event>): Outbound<T>
    decreases events
  {
    if events == [] then s else Run(Step(s, events[0]), events[1..])
  }

  lemma {:induction false} RunKeeps<T>(s: Outbound<T>, events: seq<Event>)
    requires Inv(s)
    ensures Inv(Run(s, events)) && Run(s, events).input == s.input
    decreases events
  {
    if events != [] {
      StepKeeps(s, events[0]);
      InputStays(s, events[0]);
      hide Inv, Step;
      RunKeeps(Step(s, events[0]), events[1..]);
    }
  }

  lemma InputStays<T>(s: Outbound<T>, e: Event)
    ensures Step(s, e).input == s.input
  {
    hide Flow.AddReactiveDemand, Upcoming, Proceeded;
    match e
    case Proceeds(open, cancelled) => ProceedingKeepsInput(s, open, cancelled);
    case _ =>
  }

  lemma ProceedingKeepsInput<T>(s: Outbound<T>, open: bool, cancelled: bool)
    ensures Proceeded(s, open, cancelled).input == s.input
  {
    hide Upcoming, ReadSettled;
    assert ReadSettled(s, open, cancelled).input == s.input by { SettlingKeepsInput(s, open, cancelled); }
  }

  lemma SettlingKeepsInput<T>(s: Outbound<T>, open: bool, cancelled: bool)
    ensures ReadSettled(s, open, cancelled).input == s.input
  {
    hide Upcoming;
  }

  // Main results

  /**
    In every run the responder is sent one REQUEST_CHANNEL and then the next items of the input in
    order, and the end of the input only after all of its items, as the last frame.
   */
  lemma SendsTheInput<T>(input: seq<T>, events: seq<Event>)
    ensures var s := Run(Opened(input), events);
            s.items <= |input|
            && (s.frames == FramesOf(input[..s.items], false) || (s.phase.Over? && s.frames == FramesOf(input, true)))
  {
    RunKeeps(Opened(input), events);
  }

  /** NEXT payloads never exceed the demand received, and reading stays at most one item ahead of sending. */
  lemma StaysWithinDemand<T>(input: seq<T>, events: seq<Event>)
    ensures var s := Run(Opened(input), events);
            && (s.items > 0 ==> s.items - 1 <= s.received)
            && s.items <= s.pulled <= s.items + 1
  {
    RunKeeps(Opened(input), events);
  }

  /**
    The outcome is reported once at most, success only for the whole input, and the iterator is returned
    at most once, and always when the drain is aborted or over with items of the input still unsent.
   */
  lemma ReportsOnce<T>(input: seq<T>, events: seq<Event>)
    ensures var s := Run(Opened(input), events);
            && s.completed + s.failed <= 1
            && (s.completed == 1 ==> s.frames == FramesOf(input, true))
            && s.returned <= 1
            && (s.phase.Over? || s.aborted <==> s.iteratorClosed)
            && (s.iteratorClosed && s.returned == 0 ==> s.items == |input|)
  {
    RunKeeps(Opened(input), events);
  }

  /** The end of the input passes without credit: reading ahead finds it when the last item used the credit up. */
  lemma EndNeedsNoCredit<T>(s: Outbound<T>)
    requires Inv(s) && s.phase.MaySend? && !s.aborted && s.demand == 1 && s.items == |s.input| - 1
    ensures var t := Step(Step(s, Proceeds(true, false)), Proceeds(true, false));
            t.completed == 1 && t.frames == s.frames + [Next(s.phase.item), Complete] && t.received == s.received
  {
    var u := Step(s, Proceeds(true, false));
    assert u.phase == Reading && u.items == |u.input|;
  }

  // Progress

  /** Whatever is awaited resolves, frames can be sent, and nobody cancels. */
  function Proceeding(n: nat): (events: seq<Event>)
    ensures |events| == n
  {
    seq(n, i => Proceeds(true, false))
  }

  /** Demand for every item still to be sent; looking for the end after an item takes its last credit, or one more. */
  predicate Enough<T>(s: Outbound<T>)
    requires s.items <= |s.input|
  {
    var left := |s.input| - s.items;
    match s.phase
    case Opening => s.demand >= left - 1 && (left > 0 ==> s.demand > 0)
    case ReadingFirst => s.demand >= left - 1 && (left > 0 ==> s.demand > 0)
    case FirstReady(_) => s.demand >= left - 1 && (left > 0 ==> s.demand > 0)
    case NeedsRead => s.demand >= left && s.demand > 0
    case _ => s.demand >= left
  }

  /** Pieces of the drain still to run, at most. */
  function Left<T>(s: Outbound<T>): nat
    requires s.items <= |s.input|
  {
    5 * (|s.input| - s.items)
    + match s.phase
      case Opening => 7
      case ReadingFirst => 6
      case FirstReady(_) => 5
      case NeedsRead => 4
      case MayRead => 3
      case Reading => 2
      case NeedsCredit(_) => 1
      case MaySend(_) => 0
      case Over => 0
  }

  lemma ProceedingAdvances<T>(s: Outbound<T>)
    requires Inv(s) && !s.aborted && !s.phase.Over? && Enough(s)
    ensures var t := Step(s, Proceeds(true, false));
            && Inv(t) && t.input == s.input && !t.aborted
            && if t.phase.Over? then t.completed == 1 else Left(t) < Left(s) && Enough(t)
  {
    StepKeeps(s, Proceeds(true, false));
    ProceedingKeepsInput(s, true, false);
    hide Faithful;
  }

  lemma {:induction false} FinishesIn<T>(s: Outbound<T>, n: nat)
    requires Inv(s) && !s.aborted && !s.phase.Over? && Enough(s) && Left(s) < n
    ensures var t := Run(s, Proceeding(n)); t.completed == 1 && t.phase.Over? && t.input == s.input && Inv(t)
    decreases n
  {
    ProceedingAdvances(s);
    var t := Step(s, Proceeds(true, false));
    assert Proceeding(n)[0] == Proceeds(true, false) && Proceeding(n)[1..] == Proceeding(n - 1);
    hide Inv, Step, Left, Enough;
    if t.phase.Over? {
      OverStays(t, Proceeding(n - 1));
    } else {
      FinishesIn(t, n - 1);
    }
  }

  lemma {:induction false} OverStays<T>(s: Outbound<T>, events: seq<Event>)
    requires s.phase.Over? && forall e :: e in events ==> e.Proceeds?
    ensures Run(s, events) == s
    decreases events
  {
    if events != [] {
      assert events[0] in events;
      OverStays(s, events[1..]);
    }
  }

  /**
    From every state that a run can reach: given demand for what is left and no cancellation or
    failure, the drain sends all of the input, ends it, and reports success.
   */
  lemma SendsAll<T>(input: seq<T>, events: seq<Event>)
    ensures var s := Run(Opened(input), events);
            && s.items <= |s.input|
            && (!s.aborted && !s.phase.Over? && Enough(s) ==>
                  var t := Run(s, Proceeding(Left(s) + 1));
                  t.completed == 1 && t.frames == FramesOf(input, true))
  {
    RunKeeps(Opened(input), events);
    var s := Run(Opened(input), events);
    hide Run, Opened;
    if !s.aborted && !s.phase.Over? && Enough(s) {
      FinishesIn(s, Left(s) + 1);
      CompletedSent(Run(s, Proceeding(Left(s) + 1)));
    }
  }

  /**
    The drain waits exactly where it needs demand and has none; this includes the end of the input
    after the first item, which is not looked for until the responder grants something.
   */
  lemma WaitsExactly<T>(s: Outbound<T>)
    requires Inv(s) && !s.aborted
    ensures Step(s, Proceeds(true, false)) == s
            <==> s.phase.Over?
                 || ((s.phase.NeedsRead? || s.phase.NeedsCredit?) && s.demand == 0)
  {
    if !s.phase.Over? {
      hide Faithful;
      assert s.phase.MaySend? ==> s.demand > 0;
    }
  }

  // The publisher object

  /** One method for each uninterrupted piece of the drain. */
  class RequestChannelOutbound<T> {
    const input: seq<T>
    var phase: Phase<T>
    var demand: nat
    var aborted: bool
    var requestStarted: bool
    var iteratorClosed: bool
    var pulled: nat
    ghost var items: nat
    ghost var received: nat
    var frames: seq<Frame<T>>
    var completed: nat
    var failed: nat
    var returned: nat

    ghost function State(): Outbound<T>
      reads this
    {
      Outbound(input, phase, demand, aborted, requestStarted, iteratorClosed, pulled, items, received, frames,
               completed, failed, returned)
    }

    /** What was sent is the beginning of the input, within credit, and the iterator is closed in time. */
    ghost predicate Valid()
      reads this
    {
      Inv(State())
    }

    constructor (input: seq<T>)
      ensures Valid() && State() == Opened(input)
    {
      this.input := input;
      phase, demand, aborted, requestStarted, iteratorClosed := Opening, 0, false, false, false;
      pulled, items, received, frames := 0, 0, 0, [];
      completed, failed, returned := 0, 0, 0;
    }

    /** Demand adds up and saturates; there is no way to take credit back. */
    method AddDemand(n: int)
      requires Valid()
      modifies this`demand, this`received
      ensures Valid() && State() == DemandAdded(old(State()), n)
      ensures demand == if aborted || n <= 0 then old(demand) else Min(old(demand) + n, MAX_SAFE_INTEGER)
    {
      hide Faithful, InStep, Closes;
      if !aborted && n > 0 {
        demand := Flow.AddReactiveDemand(Flow.Finite(demand), Flow.Finite(n)).n;
        received := received + n;
      }
      assert Valid() by { DemandKeeps(old(State()), n); }
    }

    method CloseIterator()
      modifies this`iteratorClosed, this`returned
      ensures State() == IteratorClosed(old(State()))
    {
      if !iteratorClosed {
        iteratorClosed := true;
        returned := returned + 1;
      }
    }

    /** Sends nothing and reports nothing; the iterator is closed, and it was or is returned once at most. */
    method Abort()
      requires Valid()
      modifies this`aborted, this`iteratorClosed, this`returned
      ensures Valid() && State() == Aborted(old(State()))
      ensures aborted && iteratorClosed && returned <= 1
      ensures returned == old(returned) + if old(aborted || iteratorClosed) then 0 else 1
    {
      hide Faithful, InStep, Credited, Closes;
      StopAndClose();
      assert Valid() && iteratorClosed && returned <= 1 by {
        AbortKeeps(old(State()));
        ClosedOnce(State());
      }
    }

    method StopAndClose()
      modifies this`aborted, this`iteratorClosed, this`returned
      ensures State() == Aborted(old(State()))
    {
      if !aborted {
        aborted := true;
        CloseIterator();
      }
    }

    method Finish()
      modifies this`phase, this`iteratorClosed, this`returned
      ensures State() == Finished(old(State()))
    {
      phase := Over;
      CloseIterator();
    }

    method Throw()
      modifies this`phase, this`aborted, this`failed, this`iteratorClosed, this`returned
      ensures State() == Thrown(old(State()))
    {
      if !aborted {
        aborted := true;
        failed := failed + 1;
      }
      Finish();
    }

    /** The input fails: the drain is over, with a failure reported unless it was aborted before. */
    method InputFailed()
      requires Valid() && !phase.Over?
      modifies this
      ensures Valid() && State() == Thrown(old(State()))
      ensures phase.Over? && frames == old(frames) && completed == 0 && failed == (if old(aborted) then 0 else 1)
    {
      hide Faithful, InStep, Credited, Closes;
      Throw();
      assert Valid() && completed == 0 && failed == (if old(aborted) then 0 else 1) by {
        AbortKeeps(old(State()));
        NothingReported(old(State()));
      }
    }

    method Send(frame: Frame<T>, cancelled: bool)
      modifies this`frames, this`requestStarted, this`aborted, this`iteratorClosed, this`returned
      ensures State() == Sent(old(State()), frame, cancelled)
    {
      frames := frames + [frame];
      requestStarted := true;
      if cancelled {
        StopAndClose();
      }
    }

    method Report()
      modifies this`phase, this`completed, this`iteratorClosed, this`returned
      ensures State() == Reported(old(State()))
    {
      if !aborted {
        completed := completed + 1;
      }
      Finish();
    }

    /** The initial request, with the first item of the input, or complete if the input is empty. */
    method Begin(first: Result<T>, open: bool, cancelled: bool)
      requires Valid() && !aborted && phase == FirstReady(first)
      modifies this
      ensures Valid() && State() == Began(old(State()), first, open, cancelled)
      ensures frames == if !open then [] else if input == [] then [Channel(None, true)]
                        else [Channel(Some(input[0]), false)]
      ensures open && !cancelled ==> if input == [] then completed == 1 && phase.Over? else phase == NeedsRead
    {
      hide Faithful, InStep, Credited, Closes, Sent, Thrown, Finished, Reported;
      match first {
        case Ended =>
          iteratorClosed := true;
          if open {
            Send(Channel(None, true), cancelled);
            Report();
          } else {
            Throw();
          }
        case Item(item) =>
          if !open {
            Throw();
          } else {
            items := items + 1;
            Send(Channel(Some(item), false), cancelled);
            if aborted {
              Finish();
            } else {
              phase := NeedsRead;
            }
          }
      }
      assert State() == Began(old(State()), first, open, cancelled);
      assert Valid() && frames == (if !open then [] else if input == [] then [Channel(None, true)]
                                   else [Channel(Some(input[0]), false)])
             && (open && !cancelled ==>
                   if input == [] then completed == 1 && phase.Over? else phase == NeedsRead) by {
        BeganKeeps(old(State()), open, cancelled);
        BeganSends(old(State()), open, cancelled);
      }
    }

    /** One item, the next of the input, for one credit; a used up window is read ahead of. */
    method SendItem(item: T, open: bool, cancelled: bool)
      requires Valid() && !aborted && phase == MaySend(item)
      modifies this
      ensures Valid() && State() == ItemSent(old(State()), item, open, cancelled)
      ensures demand == old(demand) - 1 && old(items) < |input| && item == input[old(items)]
      ensures frames == if open then old(frames) + [Next(item)] else old(frames)
      ensures open && !cancelled ==> phase == if demand == 0 then Reading else NeedsRead
    {
      MaySendNext(State());
      hide ItemSent, Faithful, InStep, Credited, Closes;
      SpendOnItem(item, open, cancelled);
      assert Valid() && demand == old(demand) - 1
             && frames == (if open then old(frames) + [Next(item)] else old(frames))
             && (open && !cancelled ==> phase == if demand == 0 then Reading else NeedsRead) by {
        ItemSentKeeps(old(State()), open, cancelled);
        ItemSentSends(old(State()), item, open, cancelled);
      }
    }

    method SpendOnItem(item: T, open: bool, cancelled: bool)
      requires demand > 0
      modifies this
      ensures State() == ItemSent(old(State()), item, open, cancelled)
    {
      hide Sent, Thrown, Finished;
      demand := demand - 1;
      if !open {
        Throw();
      } else {
        items := items + 1;
        Send(Next(item), cancelled);
        if aborted {
          Finish();
        } else if demand == 0 {
          phase := Reading;
          pulled := pulled + 1;
        } else {
          phase := NeedsRead;
        }
      }
    }

    /** The awaited read yields `result`: an item in hand, or the end, which needs no credit and is reported. */
    method SettleRead(result: Result<T>, open: bool, cancelled: bool)
      requires Valid() && !aborted && (phase.ReadingFirst? || phase.Reading?)
      requires result == Upcoming(State())
      modifies this
      ensures Valid() && State() == ReadSettled(old(State()), open, cancelled)
      ensures demand == old(demand) && (completed > old(completed) ==> frames == FramesOf(input, true))
      ensures frames == old(frames) + if old(phase).Reading? && result.Ended? && open then [Complete] else []
      ensures if old(phase).ReadingFirst? then phase == FirstReady(result)
              else if result.Item? then phase == NeedsCredit(result.item)
              else phase.Over? && iteratorClosed && (open && !cancelled ==> completed == 1)
    {
      hide Upcoming, Sent, Thrown, Reported, Faithful, InStep, Credited, Closes, FramesOf;
      if phase.ReadingFirst? {
        phase := FirstReady(result);
      } else {
        match result {
          case Item(item) =>
            phase := NeedsCredit(item);
          case Ended =>
            iteratorClosed := true;
            if open {
              Send(Complete, cancelled);
              Report();
            } else {
              Throw();
            }
        }
      }
      assert State() == ReadSettled(old(State()), open, cancelled);
      assert Valid() && demand == old(demand) && (completed > old(completed) ==> frames == FramesOf(input, true))
             && frames == old(frames) + (if old(phase).Reading? && result.Ended? && open then [Complete] else [])
             && (if old(phase).ReadingFirst? then phase == FirstReady(result)
                 else if result.Item? then phase == NeedsCredit(result.item)
                 else phase.Over? && iteratorClosed && (open && !cancelled ==> completed == 1)) by {
        ReadSettledKeeps(old(State()), open, cancelled);
        ReadSettledTells(old(State()), open, cancelled);
        CompletedSent(State());
      }
    }

    /**
      Whatever was awaited resolved; `result` is what a pending read yields. One piece of the drain
      sends one frame at most, an item only for a credit, and success is reported for the whole input.
     */
    method Proceed(result: Result<T>, open: bool, cancelled: bool)
      requires Valid() && result == Upcoming(State())
      modifies this
      ensures Valid() && State() == Proceeded(old(State()), open, cancelled)
      ensures SendsOne(old(State()), State(), open)
      ensures completed == 1 ==> frames == FramesOf(input, true)
    {
      ProceedGives(State(), open, cancelled);
      hide Upcoming, Finished, Began, ReadSettled, ItemSent, Faithful, InStep, Credited, Closes, SendsOne, FramesOf;
      if !phase.Over? {
        if aborted {
          Finish();
        } else {
          match phase {
            case Opening => phase, pulled := ReadingFirst, pulled + 1;
            case ReadingFirst => SettleRead(result, open, cancelled);
            case FirstReady(first) => Begin(first, open, cancelled);
            case NeedsRead => if demand > 0 { phase := MayRead; }
            case MayRead => phase, pulled := Reading, pulled + 1;
            case Reading => SettleRead(result, open, cancelled);
            case NeedsCredit(item) => if demand > 0 { phase := MaySend(item); }
            case MaySend(item) => if demand > 0 { SendItem(item, open, cancelled); }
          }
        }
      }
    }
  }

  // What the invariant gives to the methods

  lemma ClosedOnce<T>(s: Outbound<T>)
    requires Inv(s) && s.aborted
    ensures s.iteratorClosed && s.returned <= 1
  {}

  lemma NothingReported<T>(s: Outbound<T>)
    requires Inv(s) && !s.phase.Over?
    ensures s.completed == 0 && s.failed == 0
  {}

  lemma MaySendNext<T>(s: Outbound<T>)
    requires Inv(s) && s.phase.MaySend? && !s.aborted
    ensures s.demand > 0 && s.items < |s.input| && s.phase.item == s.input[s.items]
  {}

  lemma BeganSends<T>(s: Outbound<T>, open: bool, cancelled: bool)
    requires Inv(s) && s.phase.FirstReady? && !s.aborted
    ensures Began(s, s.phase.first, open, cancelled).frames
            == if !open then [] else if s.input == [] then [Channel(None, true)]
               else [Channel(Some(s.input[0]), false)]
    ensures open && !cancelled ==>
              var t := Began(s, s.phase.first, open, cancelled);
              if s.input == [] then t.completed == 1 && t.phase.Over? else t.phase == NeedsRead
  {
    assert s.frames == [] && s.completed == 0 by { NothingReported(s); }
    assert s.frames == [] by { hide Credited, Closes; }
    hide Faithful, Credited, Closes;
  }

  lemma ItemSentSends<T>(s: Outbound<T>, item: T, open: bool, cancelled: bool)
    requires s.demand > 0
    ensures var t := ItemSent(s, item, open, cancelled);
            && t.demand == s.demand - 1 && t.frames == (if open then s.frames + [Next(item)] else s.frames)
            && (open && !cancelled && !s.aborted ==> t.phase == if t.demand == 0 then Reading else NeedsRead)
  {}

  lemma ReadSettledTells<T>(s: Outbound<T>, open: bool, cancelled: bool)
    requires Inv(s) && !s.aborted && (s.phase.ReadingFirst? || s.phase.Reading?)
    ensures var t, result := ReadSettled(s, open, cancelled), Upcoming(s);
            && t.demand == s.demand
            && t.frames == s.frames + (if s.phase.Reading? && result.Ended? && open then [Complete] else [])
            && (if s.phase.ReadingFirst? then t.phase == FirstReady(result)
                else if result.Item? then t.phase == NeedsCredit(result.item)
                else t.phase.Over? && t.iteratorClosed && (open && !cancelled ==> t.completed == 1))
  {
    NothingReported(s);
    hide Upcoming, Faithful, InStep, Credited, Closes;
  }

  lemma CompletedSent<T>(s: Outbound<T>)
    requires Inv(s)
    ensures s.completed == 0 || (s.completed == 1 && s.frames == FramesOf(s.input, true))
  {
    hide Faithful, InStep, Credited, FramesOf;
  }

  /** At most one frame more, and an element exactly for one credit. */
  ghost predicate SendsOne<T>(s: Outbound<T>, t: Outbound<T>, open: bool)
  {
    && |s.frames| <= |t.frames| <= |s.frames| + 1 && t.frames[..|s.frames|] == s.frames
    && (open ==> t.demand == s.demand - if |t.frames| > |s.frames| && t.frames[|s.frames|].Next? then 1 else 0)
    && (!open ==> t.frames == s.frames)
  }

  lemma BeganSendsOne<T>(s: Outbound<T>, open: bool, cancelled: bool)
    requires Inv(s) && s.phase.FirstReady? && !s.aborted
    ensures SendsOne(s, Began(s, s.phase.first, open, cancelled), open)
  {
    BeganSends(s, open, cancelled);
    assert s.frames == [] by { hide Credited, Closes; }
    hide Faithful, Credited, Closes;
  }

  lemma ItemSendsOne<T>(s: Outbound<T>, item: T, open: bool, cancelled: bool)
    requires s.demand > 0
    ensures SendsOne(s, ItemSent(s, item, open, cancelled), open)
  {
    ItemSentSends(s, item, open, cancelled);
    hide ItemSent;
  }

  lemma SettledSendsOne<T>(s: Outbound<T>, open: bool, cancelled: bool)
    requires s.phase.ReadingFirst? || s.phase.Reading?
    ensures SendsOne(s, ReadSettled(s, open, cancelled), open)
  {
    hide Upcoming;
  }

  lemma ProceedGives<T>(s: Outbound<T>, open: bool, cancelled: bool)
    requires Inv(s)
    ensures var t := Proceeded(s, open, cancelled);
            && Inv(t) && (t.completed == 1 ==> t.frames == FramesOf(t.input, true))
            && SendsOne(s, t, open)
  {
    ProceededKeeps(s, open, cancelled);
    CompletedSent(Proceeded(s, open, cancelled));
    if !s.phase.Over? && !s.aborted {
      match s.phase
      case FirstReady(_) => BeganSendsOne(s, open, cancelled);
      case MaySend(item) => if s.demand > 0 { ItemSendsOne(s, item, open, cancelled); }
      case ReadingFirst => SettledSendsOne(s, open, cancelled);
      case Reading => SettledSendsOne(s, open, cancelled);
      case _ =>
    }
    hide Inv, Began, ItemSent, ReadSettled, Upcoming, FramesOf;
  }
}
