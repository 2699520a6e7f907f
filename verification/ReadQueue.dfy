/** The asynchronous FIFO between callback signals and an async iterator. */
module ReadQueue {
  import opened Common

  /** How the promise of one read settled. */
  datatype Outcome<+T> = Unsettled | Value(value: T) | Done | Rejected(error: string)

  datatype End = Open | Completed | Errored(error: string)

  /**
    The queue as a value: values not yet read, reads not yet answered (by number), how the queue
    ended, the outcome of every read so far, every value accepted, how many of them were handed
    out, and whether the consumer stopped the iteration.
   */
  datatype Queue<T> = Queue(
    pending: seq<T>, waiting: seq<nat>, end: End, results: seq<Outcome<T>>, pushed: seq<T>, delivered: nat,
        returned: bool)

  function Empty<T>(): Queue<T>
  {
    Queue([], [], Open, [], [], 0, false)
  }

  /** Reads that wait are the newest ones, in order. */
  ghost predicate WaitingInOrder<T>(q: Queue<T>)
  {
    && |q.waiting| <= |q.results|
    && forall i :: 0 <= i < |q.waiting| ==> q.waiting[i] == |q.results| - |q.waiting| + i
  }

  function Pushed<T>(q: Queue<T>, value: T): Queue<T>
    requires WaitingInOrder(q)
  {
    if q.end != Open then q
    else if q.waiting == [] then q.(pending := q.pending + [value], pushed := q.pushed + [value])
    else q.(waiting := q.waiting[1..], results := q.results[q.waiting[0] := Value(value)],
            pushed := q.pushed + [value], delivered := q.delivered + 1)
  }

  /** Answers every waiting read the same way. */
  function Flushed<T>(q: Queue<T>, outcome: Outcome<T>): Queue<T>
    requires WaitingInOrder(q)
    decreases |q.waiting|
  {
    if q.waiting == [] then q
    else Flushed(q.(waiting := q.waiting[1..], results := q.results[q.waiting[0] := outcome]), outcome)
  }

  function Completion<T>(q: Queue<T>): Queue<T>
    requires WaitingInOrder(q)
  {
    if q.end != Open then q else Flushed(q.(end := Completed), Done)
  }

  function Failure<T>(q: Queue<T>, error: string): Queue<T>
    requires WaitingInOrder(q)
  {
    if q.end != Open then q else Flushed(q.(end := Errored(error)), Rejected(error))
  }

  function Read<T>(q: Queue<T>): Queue<T>
  {
    if q.pending != [] then
      q.(pending := q.pending[1..], results := q.results + [Value(q.pending[0])], delivered := q.delivered + 1)
    else match q.end
      case Errored(error) => q.(results := q.results + [Rejected(error)])
      case Completed => q.(results := q.results + [Done])
      case Open => q.(results := q.results + [Unsettled], waiting := q.waiting + [|q.results|])
  }

  /** Stops the consumer's side: queued values are dropped, and any failure is forgotten. */
  function Returned<T>(q: Queue<T>): Queue<T>
    requires WaitingInOrder(q)
  {
    Flushed(q.(end := Completed, pending := [], returned := true), Done)
  }

  // Invariant

  /** Values go to reads in order; a read is answered otherwise only once the queue ended. */
  ghost predicate Served<T>(q: Queue<T>)
  {
    && q.delivered <= |q.pushed| && q.delivered <= |q.results| - |q.waiting|
    && (forall i :: 0 <= i < q.delivered ==> q.results[i] == Value(q.pushed[i]))
    && (forall i :: q.delivered <= i < |q.results| ==> !q.results[i].Value?)
    && (forall i :: 0 <= i < |q.results| ==> (q.results[i] == Unsettled <==> i >= |q.results| - |q.waiting|))
  }

  ghost predicate Inv<T>(q: Queue<T>)
  {
    && WaitingInOrder(q) && Served(q)
    && (q.pending == [] || q.waiting == [])
    && (q.pending != [] ==> |q.results| == q.delivered)
    && (q.end != Open ==> q.waiting == [])
    && (q.end == Open ==> |q.results| - |q.waiting| == q.delivered && !q.returned)
    && (q.returned ==> q.pending == [] && q.end == Completed)
    && (!q.returned ==> q.pending == q.pushed[q.delivered..])
  }

  lemma PushKeeps<T>(q: Queue<T>, value: T)
    requires Inv(q)
    ensures Inv(Pushed(q, value))
  {
    if q.end == Open {
      var more := q.pushed + [value];
      assert more[q.delivered..] == q.pushed[q.delivered..] + [value];
      if q.waiting != [] {
        assert q.pushed[q.delivered..] == [] && q.delivered == |q.pushed|;
        assert more[q.delivered + 1..] == [];
      }
    }
  }

  lemma ReadKeeps<T>(q: Queue<T>)
    requires Inv(q)
    ensures Inv(Read(q))
  {
    if q.pending != [] {
      assert q.pushed[q.delivered..][1..] == q.pushed[q.delivered + 1..];
    }
  }

  /** Settled reads after answering every waiting one. */
  lemma {:induction false} FlushSettles<T>(q: Queue<T>, outcome: Outcome<T>)
    requires WaitingInOrder(q) && Served(q) && outcome != Unsettled && !outcome.Value?
    ensures var t := Flushed(q, outcome);
            && t.waiting == [] && WaitingInOrder(t) && Served(t)
            && t == q.(waiting := [], results := t.results)
            && |t.results| == |q.results|
    ensures var t := Flushed(q, outcome);
            forall i :: 0 <= i < |q.results| ==>
              t.results[i] == if q.results[i] == Unsettled then outcome else q.results[i]
    decreases |q.waiting|
  {
    if q.waiting != [] {
      var t := q.(waiting := q.waiting[1..], results := q.results[q.waiting[0] := outcome]);
      FlushSettles(t, outcome);
    }
  }

  lemma EndKeeps<T>(q: Queue<T>, error: string)
    requires Inv(q)
    ensures Inv(Completion(q)) && Inv(Failure(q, error)) && Inv(Returned(q))
  {
    FlushSettles(q.(end := Completed), Done);
    FlushSettles(q.(end := Errored(error)), Rejected(error));
    FlushSettles(q.(end := Completed, pending := [], returned := true), Done);
  }

  // Runs

  datatype Event<T> = Push(value: T) | Complete | Fail(error: string) | Next | Return

  function Step<T>(q: Queue<T>, e: Event<T>): Queue<T>
    requires WaitingInOrder(q)
  {
    match e
    case Push(value) => Pushed(q, value)
    case Complete => Completion(q)
    case Fail(error) => Failure(q, error)
    case Next => Read(q)
    case Return => Returned(q)
  }

  lemma StepKeeps<T>(q: Queue<T>, e: Event<T>)
    requires Inv(q)
    ensures Inv(Step(q, e))
  {
    match e
    case Push(value) => PushKeeps(q, value);
    case Complete => EndKeeps(q, "");
    case Fail(error) => EndKeeps(q, error);
    case Next => ReadKeeps(q);
    case Return => EndKeeps(q, "");
  }

  ghost function Run<T>(q: Queue<T>, events: seq<Event<T>>): (t: Queue<T>)
    requires Inv(q)
    ensures Inv(t)
    decreases events
  {
    if events == [] then q
    else
      StepKeeps(q, events[0]);
      Run(Step(q, events[0]), events[1..])
  }

  /**
    Whatever the interleaving of pushes, reads, completion, failure and return: the k-th read that
    yields a value yields the k-th value pushed, and until the consumer returns it does so as soon
    as both exist.
   */
  lemma KthReadGetsKthValue<T>(events: seq<Event<T>>, k: nat)
    ensures var q := Run(Empty(), events);
            && (k < |q.results| && q.results[k].Value? ==> k < |q.pushed| && q.results[k].value == q.pushed[k])
            && (!q.returned && k < |q.results| && k < |q.pushed| ==> q.results[k] == Value(q.pushed[k]))
  {
    var q := Run(Empty(), events);
    hide Run;
    if !q.returned && q.delivered <= k < |q.pushed| {
      assert |q.pending| == |q.pushed| - q.delivered;
    }
  }

  /** Values and waiting reads never coexist, and an ended queue leaves no read unanswered. */
  lemma NobodyWaitsForNothing<T>(events: seq<Event<T>>, k: nat)
    ensures var q := Run(Empty(), events);
            && (q.pending == [] || q.waiting == [])
            && (q.end != Open && k < |q.results| ==> q.results[k] != Unsettled)
            && (!q.returned && k < |q.results| && (q.results[k] == Done || q.results[k].Rejected?)
                ==> k >= |q.pushed| && q.end != Open)
  {
    var q := Run(Empty(), events);
    hide Run;
    if !q.returned {
      assert |q.pending| == |q.pushed| - q.delivered;
    }
  }

  /** A read settles at most once: no later event changes its outcome. */
  lemma SettlesOnce<T>(q: Queue<T>, e: Event<T>, k: nat)
    requires Inv(q) && k < |q.results| && q.results[k] != Unsettled
    ensures var t := Step(q, e); k < |t.results| && t.results[k] == q.results[k]
  {
    match e
    case Complete => FlushSettles(q.(end := Completed), Done);
    case Fail(error) => FlushSettles(q.(end := Errored(error)), Rejected(error));
    case Return => FlushSettles(q.(end := Completed, pending := [], returned := true), Done);
    case _ =>
  }

  // What a run amounts to, told from its events alone

  /** The values pushed before the queue ended. */
  function PushedBy<T>(events: seq<Event<T>>): (values: seq<T>)
    decreases events
  {
    if events == [] then []
    else match events[0]
      case Push(value) => [value] + PushedBy(events[1..])
      case Next => PushedBy(events[1..])
      case _ => []
  }

  /** A queue ends once, but a failure is forgotten once the consumer returns. */
  function EndAfter<T>(end: End, e: Event<T>): End
  {
    match e
    case Complete => if end == Open then Completed else end
    case Fail(error) => if end == Open then Errored(error) else end
    case Return => Completed
    case _ => end
  }

  function EndBy<T>(end: End, events: seq<Event<T>>): End
    decreases events
  {
    if events == [] then end else EndBy(EndAfter(end, events[0]), events[1..])
  }

  function Reads<T>(events: seq<Event<T>>): nat
    decreases events
  {
    if events == [] then 0 else Reads(events[1..]) + if events[0].Next? then 1 else 0
  }

  predicate Stops<T>(events: seq<Event<T>>)
    decreases events
  {
    events != [] && (events[0].Return? || Stops(events[1..]))
  }

  lemma StepTells<T>(q: Queue<T>, e: Event<T>)
    requires Inv(q)
    ensures var t := Step(q, e);
            && t.pushed == q.pushed + (if e.Push? && q.end == Open then [e.value] else [])
            && t.end == EndAfter(q.end, e)
            && |t.results| == |q.results| + (if e.Next? then 1 else 0)
            && (t.returned <==> q.returned || e.Return?)
  {
    match e
    case Complete => FlushSettles(q.(end := Completed), Done);
    case Fail(error) => FlushSettles(q.(end := Errored(error)), Rejected(error));
    case Return => FlushSettles(q.(end := Completed, pending := [], returned := true), Done);
    case _ =>
  }

  lemma {:induction false} RunTells<T>(q: Queue<T>, events: seq<Event<T>>)
    requires Inv(q)
    ensures var t := Run(q, events);
            && t.pushed == q.pushed + (if q.end == Open then PushedBy(events) else [])
            && t.end == EndBy(q.end, events)
            && |t.results| == |q.results| + Reads(events)
            && (t.returned <==> q.returned || Stops(events))
    decreases events
  {
    hide Inv, Step, WaitingInOrder;
    if events != [] {
      StepKeeps(q, events[0]);
      StepTells(q, events[0]);
      assert WaitingInOrder(q) by { InvWaits(q); }
      var t := Step(q, events[0]);
      RunTells(t, events[1..]);
      assert q.end == Open ==>
          q.pushed + PushedBy(events) == t.pushed + if t.end == Open then PushedBy(events[1..]) else [];
    }
  }

  lemma InvWaits<T>(q: Queue<T>)
    requires Inv(q)
    ensures WaitingInOrder(q)
  {}

  /** A read beyond the values pushed is answered by the end of the queue, and waits until there is one. */
  ghost predicate EndAnswers<T>(q: Queue<T>)
  {
    !q.returned ==>
      forall i :: q.delivered <= i < |q.results| && q.pending == [] ==>
        q.results[i] == match q.end
                        case Open => Unsettled
                        case Completed => Done
                        case Errored(error) => Rejected(error)
  }

  lemma StepEndAnswers<T>(q: Queue<T>, e: Event<T>)
    requires Inv(q) && EndAnswers(q)
    ensures EndAnswers(Step(q, e))
  {
    match e
    case Complete => FlushSettles(q.(end := Completed), Done);
    case Fail(error) => FlushSettles(q.(end := Errored(error)), Rejected(error));
    case Return => FlushSettles(q.(end := Completed, pending := [], returned := true), Done);
    case _ =>
  }

  lemma {:induction false} RunEndAnswers<T>(q: Queue<T>, events: seq<Event<T>>)
    requires Inv(q) && EndAnswers(q)
    ensures EndAnswers(Run(q, events))
    decreases events
  {
    hide Served, Step, EndAnswers;
    if events != [] {
      StepKeeps(q, events[0]);
      StepEndAnswers(q, events[0]);
      RunEndAnswers(Step(q, events[0]), events[1..]);
    }
  }

  /**
    The outcome of every read of a consumer that has not returned, from the events alone: the k-th read
    yields the k-th value pushed before the queue ended, or else how it ended, and waits until then.
   */
  lemma AnswersExactly<T>(events: seq<Event<T>>, k: nat)
    requires !Stops(events) && k < Reads(events)
    ensures var q, values := Run(Empty(), events), PushedBy(events);
            && |q.results| == Reads(events)
            && q.results[k] == if k < |values| then Value(values[k])
                               else match EndBy(Open, events)
                                    case Open => Unsettled
                                    case Completed => Done
                                    case Errored(error) => Rejected(error)
  {
    RunTells(Empty(), events);
    RunEndAnswers(Empty(), events);
    KthReadGetsKthValue(events, k);
    var q := Run(Empty(), events);
    hide Run;
    assert !q.returned && |q.pending| == |q.pushed| - q.delivered;
  }
}
