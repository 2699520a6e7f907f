/** Which logical session a client keeps for Resume, and for how long, interleaved at every `await`. */
module Coordinator {
  import opened Common

  /** Logical sessions and tokens are numbered in the order they come into being. */
  type Session = nat
  type Token = nat

  /** One connection attempt: awaiting a Resume, awaiting a fresh SETUP, or over with its result. */
  datatype Attempt = Resuming(client: Session, offered: Token) | Connecting(token: Option<Token>)
      | Over(result: Option<Session>)

  /**
    The coordinator's fields, the timers it ever armed (by number), the attempts in flight, and
    what it did to sessions. `suspended` are the sessions that survived the loss of a transport, and
    `setUp` lists for every session the token of the SETUP that created it.
   */
  datatype State = State(
    enabled: bool,
    ttlMs: nat,
    token: Option<Token>,
    retained: Option<Session>,
    deadlineAt: int,
    timer: Option<nat>,
    timers: seq<Session>,
    attempts: seq<Attempt>,
    suspended: set<Session>,
    abandoned: set<Session>,
    closed: set<Session>,
    setUp: seq<Option<Token>>,
    tokens: nat)

  function Abandon(s: State, client: Session): State
  {
    s.(abandoned := s.abandoned + {client}, suspended := s.suspended - {client})
  }

  /** A token of its own for the next logical session. */
  function Rotated(s: State): State
  {
    if s.enabled then s.(token := Some(s.tokens), tokens := s.tokens + 1) else s
  }

  function Released(s: State): State
  {
    s.(timer := None, retained := None, deadlineAt := 0)
  }

  function AbandonedRetained(s: State): State
  {
    if s.retained.Some? then Abandon(Released(s), s.retained.value) else Released(s)
  }

  function Reset(s: State): State
  {
    Rotated(AbandonedRetained(s))
  }

  function Disposed(s: State): State
  {
    Rotated(if s.retained.None? then Released(s)
            else Released(s).(closed := s.closed + {s.retained.value}, suspended := s.suspended - {s.retained.value}))
  }

  function Retained(s: State, client: Session, now: int): State
  {
    var t := if s.retained.Some? && s.retained.value != client then Abandon(s, s.retained.value) else s;
    if client in s.suspended && s.enabled && s.token.Some? then
      t.(retained := Some(client), deadlineAt := now + s.ttlMs, timer := Some(|s.timers|),
          timers := s.timers + [client])
    else Rotated(Released(t))
  }

  predicate CanResume(s: State, now: int)
  {
    s.enabled && s.token.Some? && s.retained.Some? && s.retained.value in s.suspended && s.deadlineAt > now
  }

  function LimitDelay(s: State, delayMs: int, now: int): (d: int)
    ensures d <= delayMs
  {
    if CanResume(s, now) then Min(delayMs, Max(0, s.deadlineAt - now - 1)) else delayMs
  }

  /** A timer goes off; one that was replaced or cancelled does nothing. */
  function Expired(s: State, timer: nat): State
  {
    if timer < |s.timers| && s.timer == Some(timer) && s.retained == Some(s.timers[timer])
    then Rotated(Abandon(Released(s), s.timers[timer]))
    else s
  }

  function Begun(s: State, a: Attempt): State
  {
    s.(attempts := s.attempts + [a])
  }

  function Opened(s: State, reconnect: bool, now: int, aborted: bool): State
  {
    if !reconnect || !CanResume(s, now) then
      var t := if s.retained.Some? then Reset(s) else AbandonedRetained(s);
      Begun(t, if aborted then Over(None) else Connecting(t.token))
    else Begun(s, if aborted then Over(None) else Resuming(s.retained.value, s.token.value))
  }

  function Continued(s: State, i: nat, a: Attempt): State
    requires i < |s.attempts|
  {
    s.(attempts := s.attempts[i := a])
  }

  /** The server accepted the Resume: the session runs again. */
  function Resumed(s: State, i: nat, aborted: bool): State
    requires i < |s.attempts| && s.attempts[i].Resuming?
  {
    var client := s.attempts[i].client;
    var t := s.(suspended := s.suspended - {client});
    if aborted then
      Continued(Abandon(if t.retained == Some(client) then Released(t) else t, client), i, Over(None))
    else if t.retained == Some(client) then Continued(Released(t), i, Over(Some(client)))
    else
      var u := Reset(Abandon(t, client));
      Continued(u, i, Connecting(u.token))
  }

  /** The Resume failed; only a connection failure leaves the session for another attempt. */
  function ResumeFailed(s: State, i: nat, retryable: bool, aborted: bool, abortedByListener: bool): State
    requires i < |s.attempts| && s.attempts[i].Resuming?
  {
    if aborted || retryable then Continued(s, i, Over(None))
    else
      var t := Reset(s);
      Continued(t, i, if abortedByListener then Over(None) else Connecting(t.token))
  }

  /** A fresh SETUP succeeded with a new session, was rejected, or failed otherwise. */
  function Connected(s: State, i: nat, ok: bool, rejected: bool): State
    requires i < |s.attempts| && s.attempts[i].Connecting?
  {
    if ok then Continued(s, i, Over(Some(|s.setUp|))).(setUp := s.setUp + [s.attempts[i].token])
    else Continued(if rejected then Rotated(s) else s, i, Over(None))
  }

  /** Calls, timers, settled promises, and what happens to sessions meanwhile. */
  datatype Event =
    | Retain(client: Session, now: int)
    | AbandonAll
    | ResetAll
    | Dispose
    | TimerFires(timer: nat)
    | Open(reconnect: bool, now: int, aborted: bool)
    | ResumeSucceeds(attempt: nat, aborted: bool)
    | ResumeFails(attempt: nat, retryable: bool, aborted: bool, abortedByListener: bool)
    | ConnectSettles(attempt: nat, ok: bool, rejected: bool)
    | SessionSuspends(client: Session)
    | SessionEnds(client: Session)

  function Step(s: State, e: Event): State
  {
    match e
    case Retain(client, now) => if client < |s.setUp| then Retained(s, client, now) else s
    case AbandonAll => AbandonedRetained(s)
    case ResetAll => Reset(s)
    case Dispose => Disposed(s)
    case TimerFires(timer) => Expired(s, timer)
    case Open(reconnect, now, aborted) => Opened(s, reconnect, now, aborted)
    case ResumeSucceeds(i, aborted) =>
      if i < |s.attempts| && s.attempts[i].Resuming? then Resumed(s, i, aborted) else s
    case ResumeFails(i, retryable, aborted, abortedByListener) =>
      if i < |s.attempts| && s.attempts[i].Resuming? then ResumeFailed(s, i, retryable, aborted, abortedByListener)
          else s
    case ConnectSettles(i, ok, rejected) =>
      if i < |s.attempts| && s.attempts[i].Connecting? then Connected(s, i, ok, rejected) else s
    case SessionSuspends(client) =>
      if client < |s.setUp| && client !in s.abandoned && client !in s.closed
      then s.(suspended := s.suspended + {client}) else s
    case SessionEnds(client) => s.(suspended := s.suspended - {client})
  }

  function Initial(enabled: bool, ttlMs: nat, token: bool): State
  {
    State(enabled, ttlMs, if token then Some(0) else None, None, 0, None, [], [], {}, {}, {}, [], 1)
  }

  // Invariant

  /** A retained session has a token, a deadline, and its own armed timer; without one there is neither. */
  ghost predicate Kept(s: State)
  {
    if s.retained.None? then s.timer.None? && s.deadlineAt == 0
    else
      && s.enabled && s.token.Some?
      && s.timer.Some? && s.timer.value < |s.timers| && s.timers[s.timer.value] == s.retained.value
      && s.retained.value !in s.abandoned && s.retained.value !in s.closed
      && s.retained.value < |s.setUp|
  }

  ghost predicate Inv(s: State)
  {
    && Kept(s)
    && s.suspended !! s.abandoned && s.suspended !! s.closed
    && (forall c :: c in s.suspended || c in s.abandoned || c in s.closed ==> c < |s.setUp|)
    && (s.token.Some? ==> s.token.value < s.tokens)
    && (forall i :: 0 <= i < |s.attempts| && s.attempts[i].Resuming? ==>
          s.enabled && s.attempts[i].offered < s.tokens && s.attempts[i].client < |s.setUp|)
  }

  lemma PiecesKeep(s: State)
    requires Inv(s)
    ensures Inv(Rotated(s)) && Inv(AbandonedRetained(s)) && Inv(Reset(s)) && Inv(Disposed(s))
    ensures Reset(s).retained == None && AbandonedRetained(s).retained == None
  {}

  lemma RetainedKeeps(s: State, client: Session, now: int)
    requires Inv(s) && client < |s.setUp|
    ensures Inv(Retained(s, client, now))
  {}

  lemma ExpiredKeeps(s: State, timer: nat)
    requires Inv(s)
    ensures Inv(Expired(s, timer))
  {}

  lemma ContinuedKeeps(s: State, i: nat, a: Attempt)
    requires Inv(s) && i < |s.attempts| && !a.Resuming?
    ensures Inv(Continued(s, i, a))
  {}

  lemma OpenedKeeps(s: State, reconnect: bool, now: int, aborted: bool)
    requires Inv(s)
    ensures Inv(Opened(s, reconnect, now, aborted))
  {
    PiecesKeep(s);
  }

  lemma ResumedKeeps(s: State, i: nat, aborted: bool)
    requires Inv(s) && i < |s.attempts| && s.attempts[i].Resuming?
    ensures Inv(Resumed(s, i, aborted))
  {
    var client := s.attempts[i].client;
    var t := s.(suspended := s.suspended - {client});
    assert Inv(t) && Inv(Released(t));
    if aborted {
      var u := Abandon(if t.retained == Some(client) then Released(t) else t, client);
      assert Inv(u);
      hide Inv;
      ContinuedKeeps(u, i, Over(None));
    } else if t.retained == Some(client) {
      hide Inv;
      ContinuedKeeps(Released(t), i, Over(Some(client)));
    } else {
      var u := Abandon(t, client);
      assert Inv(u);
      hide Inv;
      PiecesKeep(u);
      ContinuedKeeps(Reset(u), i, Connecting(Reset(u).token));
    }
  }

  lemma StepKeeps(s: State, e: Event)
    requires Inv(s)
    ensures Inv(Step(s, e))
  {
    hide Inv, Retained, Resumed, ResumeFailed, Connected, Opened, Expired, Disposed, Reset, AbandonedRetained;
    match e
    case Retain(client, now) => if client < |s.setUp| { RetainedKeeps(s, client, now); }
    case AbandonAll => PiecesKeep(s);
    case ResetAll => PiecesKeep(s);
    case Dispose => PiecesKeep(s);
    case TimerFires(timer) => ExpiredKeeps(s, timer);
    case Open(reconnect, now, aborted) => OpenedKeeps(s, reconnect, now, aborted);
    case ResumeSucceeds(i, aborted) =>
      if i < |s.attempts| && s.attempts[i].Resuming? { ResumedKeeps(s, i, aborted); }
    case ResumeFails(i, retryable, aborted, abortedByListener) =>
      if i < |s.attempts| && s.attempts[i].Resuming? {
        ResumeFailedKeeps(s, i, retryable, aborted, abortedByListener);
      }
    case ConnectSettles(i, ok, rejected) =>
      if i < |s.attempts| && s.attempts[i].Connecting? { ConnectedKeeps(s, i, ok, rejected); }
    case SessionSuspends(client) => SuspensionKeeps(s, client);
    case SessionEnds(client) => SuspensionKeeps(s, client);
  }

  lemma ResumeFailedKeeps(s: State, i: nat, retryable: bool, aborted: bool, abortedByListener: bool)
    requires Inv(s) && i < |s.attempts| && s.attempts[i].Resuming?
    ensures Inv(ResumeFailed(s, i, retryable, aborted, abortedByListener))
  {
    PiecesKeep(s);
    ContinuedKeeps(s, i, Over(None));
    hide Inv;
    ContinuedKeeps(Reset(s), i, if abortedByListener then Over(None) else Connecting(Reset(s).token));
  }

  lemma ConnectedKeeps(s: State, i: nat, ok: bool, rejected: bool)
    requires Inv(s) && i < |s.attempts| && s.attempts[i].Connecting?
    ensures Inv(Connected(s, i, ok, rejected))
  {
    PiecesKeep(s);
    ContinuedKeeps(if rejected then Rotated(s) else s, i, Over(None));
  }

  lemma SuspensionKeeps(s: State, client: Session)
    requires Inv(s)
    ensures Inv(s.(suspended := s.suspended - {client}))
    ensures client < |s.setUp| && client !in s.abandoned && client !in s.closed ==>
              Inv(s.(suspended := s.suspended + {client}))
  {}

  function Run(s: State, events: seq<Event>): State
    decreases events
  {
    if events == [] then s else Run(Step(s, events[0]), events[1..])
  }

  lemma {:induction false} RunKeeps(s: State, events: seq<Event>)
    requires Inv(s)
    ensures Inv(Run(s, events))
    decreases events
  {
    hide Inv, Step;
    if events != [] {
      StepKeeps(s, events[0]);
      RunKeeps(Step(s, events[0]), events[1..]);
    }
  }

  // Main results

  lemma Reached(enabled: bool, ttlMs: nat, token: bool, events: seq<Event>)
    ensures Inv(Run(Initial(enabled, ttlMs, token), events))
  {
    RunKeeps(Initial(enabled, ttlMs, token), events);
  }

  /** An attempt that ends with a session in this very step. */
  predicate Returns(s: State, t: State, i: nat, client: Session)
  {
    i < |t.attempts| && t.attempts[i] == Over(Some(client)) && (i >= |s.attempts|
        || s.attempts[i] != Over(Some(client)))
  }

  /**
    Under every interleaving a session handed back was never abandoned nor closed by the
    coordinator, which has let go of it.
   */
  lemma NeverReturnsAbandoned(enabled: bool, ttlMs: nat, token: bool, events: seq<Event>, e: Event, i: nat,
      client: Session)
    ensures var s := Run(Initial(enabled, ttlMs, token), events);
            var t := Step(s, e);
            Returns(s, t, i, client) ==> client !in t.abandoned && client !in t.closed && t.retained != Some(client)
  {
    Reached(enabled, ttlMs, token, events);
    var s := Run(Initial(enabled, ttlMs, token), events);
    hide Run, Initial;
    ReturnsOwned(s, e, i, client);
  }

  lemma ReturnsOwned(s: State, e: Event, i: nat, client: Session)
    requires Inv(s)
    ensures var t := Step(s, e);
            Returns(s, t, i, client) ==> client !in t.abandoned && client !in t.closed && t.retained != Some(client)
  {
    hide Retained, Disposed, Expired, CanResume;
    match e
    case ResumeSucceeds(j, aborted) => ResumeReturns(s, j, aborted, i, client);
    case _ => OnlySettlingReturns(s, e, i, client);
  }

  lemma ResumeReturns(s: State, j: nat, aborted: bool, i: nat, client: Session)
    requires Inv(s)
    ensures var t := Step(s, ResumeSucceeds(j, aborted));
            Returns(s, t, i, client) ==> client !in t.abandoned && client !in t.closed && t.retained != Some(client)
  {}

  /** Calls that do not settle an attempt leave the earlier ones as they are. */
  lemma AttemptsStay(s: State, client: Session, now: int, timer: nat)
    ensures Retained(s, client, now).attempts == s.attempts
    ensures Disposed(s).attempts == s.attempts && Expired(s, timer).attempts == s.attempts
    ensures Reset(s).attempts == s.attempts && AbandonedRetained(s).attempts == s.attempts
    ensures Retained(s, client, now).setUp == s.setUp
    ensures Disposed(s).setUp == s.setUp && Expired(s, timer).setUp == s.setUp
    ensures Reset(s).setUp == s.setUp && AbandonedRetained(s).setUp == s.setUp
  {}

  lemma OnlySettlingReturns(s: State, e: Event, i: nat, client: Session)
    requires Inv(s) && !e.ResumeSucceeds?
    ensures var t := Step(s, e);
            Returns(s, t, i, client) ==> client == |s.setUp| && t.retained == s.retained
                                         && t.abandoned == s.abandoned && t.closed == s.closed
    ensures s.retained != Some(|s.setUp|) && |s.setUp| !in s.abandoned && |s.setUp| !in s.closed
  {
    hide Retained, Disposed, Expired, CanResume, Reset, AbandonedRetained;
    AttemptsStay(s, if e.Retain? then e.client else 0, if e.Retain? then e.now else 0, if e.TimerFires? then e.timer
        else 0);
    if e.Open? {
      OpeningReturnsNothing(s, e.reconnect, e.now, e.aborted, i, client);
    }
  }

  lemma OpeningReturnsNothing(s: State, reconnect: bool, now: int, aborted: bool, i: nat, client: Session)
    ensures !Returns(s, Opened(s, reconnect, now, aborted), i, client)
  {
    hide CanResume;
    AttemptsStay(s, 0, 0, 0);
  }

  /**
    A retained session is never dropped silently: it leaves the coordinator by being returned,
    abandoned or closed, or because it is reported again when it is no longer suspended.
   */
  lemma NoSilentDrop(enabled: bool, ttlMs: nat, token: bool, events: seq<Event>, e: Event, client: Session)
    ensures var s := Run(Initial(enabled, ttlMs, token), events);
            var t := Step(s, e);
            s.retained == Some(client) && t.retained != Some(client)
            ==> || client in t.abandoned || client in t.closed
                || (exists i :: Returns(s, t, i, client))
                || (e.Retain? && e.client == client && client !in s.suspended)
  {
    Reached(enabled, ttlMs, token, events);
    var s := Run(Initial(enabled, ttlMs, token), events);
    hide Run, Initial;
    if s.retained == Some(client) {
      LeavesOpenly(s, e, client);
    }
  }

  lemma LeavesOpenly(s: State, e: Event, client: Session)
    requires Inv(s) && s.retained == Some(client)
    ensures var t := Step(s, e);
            t.retained == Some(client) || client in t.abandoned || client in t.closed
            || (exists i :: Returns(s, t, i, client))
            || (e.Retain? && e.client == client && client !in s.suspended)
  {
    match e
    case ResumeSucceeds(i, aborted) =>
      var t := Step(s, e);
      assert t.retained == Some(client) || client in t.abandoned || Returns(s, t, i, client);
    case _ =>
  }

  /** Throughout, a retained session has a token, a deadline and its own timer, and nothing abandoned is kept. */
  lemma RetainedIsKept(enabled: bool, ttlMs: nat, token: bool, events: seq<Event>)
    ensures Kept(Run(Initial(enabled, ttlMs, token), events))
  {
    Reached(enabled, ttlMs, token, events);
  }

  /** After a failed or superseded Resume the fresh SETUP never offers the token that was refused. */
  lemma FallbackTokenIsNew(enabled: bool, ttlMs: nat, token: bool, events: seq<Event>, e: Event, i: nat)
    ensures var s := Run(Initial(enabled, ttlMs, token), events);
            var t := Step(s, e);
            i < |s.attempts| && s.attempts[i].Resuming? && t.attempts[i].Connecting?
            ==> t.attempts[i].token.Some? && t.attempts[i].token.value > s.attempts[i].offered
                && t.attempts[i].token == t.token && t.retained == None
  {
    Reached(enabled, ttlMs, token, events);
    var s := Run(Initial(enabled, ttlMs, token), events);
    hide Run, Initial;
    if i < |s.attempts| && s.attempts[i].Resuming? {
      FallbackRotates(s, e, i);
    }
  }

  lemma FallbackRotates(s: State, e: Event, i: nat)
    requires Inv(s) && i < |s.attempts| && s.attempts[i].Resuming?
    ensures var t := Step(s, e);
            |t.attempts| >= |s.attempts|
            && (t.attempts[i].Connecting? ==>
                  t.attempts[i].token.Some? && t.attempts[i].token.value > s.attempts[i].offered
                  && t.attempts[i].token == t.token && t.retained == None)
  {
    hide Step;
    if e.ResumeSucceeds? && e.attempt == i {
      ResumedRotates(s, i, e.aborted);
    } else if e.ResumeFails? && e.attempt == i {
      FailedRotates(s, i, e.retryable, e.aborted, e.abortedByListener);
    } else {
      OtherAttemptsStay(s, e, i);
    }
  }

  lemma ResumedRotates(s: State, i: nat, aborted: bool)
    requires Inv(s) && i < |s.attempts| && s.attempts[i].Resuming?
    ensures var t := Step(s, ResumeSucceeds(i, aborted));
            |t.attempts| == |s.attempts|
            && (t.attempts[i].Connecting? ==>
                  t.attempts[i].token == t.token == Some(s.tokens) && t.retained == None
                      && s.tokens > s.attempts[i].offered)
  {}

  lemma FailedRotates(s: State, i: nat, retryable: bool, aborted: bool, abortedByListener: bool)
    requires Inv(s) && i < |s.attempts| && s.attempts[i].Resuming?
    ensures var t := Step(s, ResumeFails(i, retryable, aborted, abortedByListener));
            |t.attempts| == |s.attempts|
            && (t.attempts[i].Connecting? ==>
                  t.attempts[i].token == t.token == Some(s.tokens) && t.retained == None
                      && s.tokens > s.attempts[i].offered)
  {}

  /** An attempt changes only when its own promise settles. */
  lemma OtherAttemptsStay(s: State, e: Event, i: nat)
    requires i < |s.attempts| && s.attempts[i].Resuming?
    requires !(e.ResumeSucceeds? && e.attempt == i) && !(e.ResumeFails? && e.attempt == i)
    ensures |Step(s, e).attempts| >= |s.attempts| && Step(s, e).attempts[i] == s.attempts[i]
  {
    hide Retained, Disposed, Expired, CanResume, Reset, AbandonedRetained;
    AttemptsStay(s, if e.Retain? then e.client else 0, if e.Retain? then e.now else 0, if e.TimerFires? then e.timer
        else 0);
    if e.ResumeSucceeds? && e.attempt < |s.attempts| && s.attempts[e.attempt].Resuming? {
      var client := s.attempts[e.attempt].client;
      AttemptsStay(Abandon(s.(suspended := s.suspended - {client}), client), 0, 0, 0);
    }
  }

  /** The events that make a new token current. */
  predicate Rotates(s: State, e: Event)
  {
    && s.enabled
    && match e
       case Retain(client, now) => client < |s.setUp| && (client !in s.suspended || s.token.None?)
       case ResetAll => true
       case Dispose => true
       case TimerFires(timer) =>
         timer < |s.timers| && s.timer == Some(timer) && s.retained == Some(s.timers[timer])
       case Open(reconnect, now, aborted) => s.retained.Some? && (!reconnect || !CanResume(s, now))
       case ResumeSucceeds(i, aborted) =>
         i < |s.attempts| && s.attempts[i].Resuming? && !aborted && s.retained != Some(s.attempts[i].client)
       case ResumeFails(i, retryable, aborted, abortedByListener) =>
         i < |s.attempts| && s.attempts[i].Resuming? && !retryable && !aborted
       case ConnectSettles(i, ok, rejected) => i < |s.attempts| && s.attempts[i].Connecting? && !ok && rejected
       case _ => false
  }

  /** By every other event the token stays, above all when another suspended session is retained instead. */
  lemma TokenChangesExactly(s: State, e: Event)
    requires Inv(s)
    ensures var t := Step(s, e);
            if Rotates(s, e) then t.token == Some(s.tokens) && t.tokens == s.tokens + 1
            else t.token == s.token && t.tokens == s.tokens
  {}

  /** A retained session that expires, is reset, disposed, or given up by `open` or `retain` takes its token with it. */
  lemma EndedSessionRetiresToken(s: State, e: Event)
    requires Inv(s) && s.retained.Some? && Step(s, e).retained == None
    requires e.TimerFires? || e.ResetAll? || e.Dispose? || e.Open? || e.Retain?
    ensures Step(s, e).token == Some(s.tokens) && s.token.value < s.tokens < Step(s, e).tokens
  {}

  // The token of a retained session

  predicate RotatesIn(s: State, events: seq<Event>)
    decreases events
  {
    events != [] && (Rotates(s, events[0]) || RotatesIn(Step(s, events[0]), events[1..]))
  }

  /** A token that is no longer current never becomes current again. */
  lemma {:induction false} TokenOverRun(s: State, events: seq<Event>)
    requires Inv(s)
    ensures var t := Run(s, events);
            && s.tokens <= t.tokens
            && (if RotatesIn(s, events) then t.token.Some? && t.token.value >= s.tokens else t.token == s.token)
    decreases events
  {
    hide Inv, Step, Rotates;
    if events != [] {
      StepKeeps(s, events[0]);
      TokenChangesExactly(s, events[0]);
      TokenOverRun(Step(s, events[0]), events[1..]);
    }
  }

  /** An attempt that awaits a SETUP, or the session that SETUP created. */
  predicate SetsUp(s: State, i: nat, token: Option<Token>)
  {
    && i < |s.attempts|
    && match s.attempts[i]
       case Connecting(sent) => sent == token
       case Over(result) => result.Some? ==> result.value < |s.setUp| && s.setUp[result.value] == token
       case Resuming(_, _) => false
  }

  lemma SetUpStays(s: State, e: Event, i: nat, token: Option<Token>)
    requires SetsUp(s, i, token)
    ensures SetsUp(Step(s, e), i, token)
  {
    hide Retained, Disposed, Expired, CanResume, Reset, AbandonedRetained;
    AttemptsStay(s, if e.Retain? then e.client else 0, if e.Retain? then e.now else 0, if e.TimerFires? then e.timer
        else 0);
    if e.ResumeSucceeds? && e.attempt < |s.attempts| && s.attempts[e.attempt].Resuming? {
      var client := s.attempts[e.attempt].client;
      AttemptsStay(Abandon(s.(suspended := s.suspended - {client}), client), 0, 0, 0);
    }
  }

  lemma {:induction false} SetUpOverRun(s: State, events: seq<Event>, i: nat, token: Option<Token>)
    requires SetsUp(s, i, token)
    ensures SetsUp(Run(s, events), i, token)
    decreases events
  {
    hide Step, SetsUp;
    if events != [] {
      SetUpStays(s, events[0], i, token);
      SetUpOverRun(Step(s, events[0]), events[1..], i, token);
    }
  }

  /**
    An attempt starts a SETUP with the current token, and in some later state the session this SETUP
    created is retained. The Resume offered for it then carries the token it was set up with exactly
    if no event in between rotated the token.
   */
  lemma OfferedTokenExactly(enabled: bool, ttlMs: nat, token: bool, before: seq<Event>, events: seq<Event>, i: nat,
      client: Session, now: int)
    ensures var s := Run(Initial(enabled, ttlMs, token), before);
            var t := Run(s, events);
            i < |s.attempts| && s.attempts[i] == Connecting(s.token)
            && i < |t.attempts| && t.attempts[i] == Over(Some(client))
            && t.retained == Some(client) && CanResume(t, now)
            ==> var u := Step(t, Open(true, now, false));
                && client < |t.setUp|
                && u.attempts[|t.attempts|..] == [Resuming(client, t.token.value)]
                && (t.setUp[client] == t.token <==> !RotatesIn(s, events))
  {
    Reached(enabled, ttlMs, token, before);
    var s := Run(Initial(enabled, ttlMs, token), before);
    TokenOverRun(s, events);
    if i < |s.attempts| && s.attempts[i] == Connecting(s.token) {
      SetUpOverRun(s, events, i, s.token);
    }
    hide Run, Initial, RotatesIn, Reset, AbandonedRetained;
  }

  /** Two SETUPs in parallel: the second is rejected after the first created the session. */
  const PARALLEL := [Open(false, 0, false), Open(false, 0, false), ConnectSettles(0, true, false),
                     ConnectSettles(1, false, true), SessionSuspends(0), Retain(0, 0)]

  lemma TwoSetups()
    ensures Run(Initial(true, 1000, true), PARALLEL[..3])
            == Initial(true, 1000, true).(attempts := [Over(Some(0)), Connecting(Some(0))], setUp := [Some(0)])
  {
    var a := Initial(true, 1000, true).(attempts := [Connecting(Some(0))]);
    var b := a.(attempts := [Connecting(Some(0)), Connecting(Some(0))]);
    assert Step(Initial(true, 1000, true), PARALLEL[0]) == a && Step(a, PARALLEL[1]) == b;
    assert Step(b, PARALLEL[2])
        == Initial(true, 1000, true).(attempts := [Over(Some(0)), Connecting(Some(0))], setUp := [Some(0)]);
    RunOfThree(Initial(true, 1000, true), PARALLEL[..3]);
  }

  lemma RunOfThree(s: State, events: seq<Event>)
    requires |events| == 3
    ensures Run(s, events) == Step(Step(Step(s, events[0]), events[1]), events[2])
  {
    hide Step;
    assert events[1..][1..] == [events[2]];
    var t := Step(Step(s, events[0]), events[1]);
    assert Run(t, [events[2]]) == Step(t, events[2]);
  }

  lemma {:induction false} RunConcat(s: State, a: seq<Event>, b: seq<Event>)
    ensures Run(s, a + b) == Run(Run(s, a), b)
    decreases a
  {
    hide Step;
    if a == [] {
      assert a + b == b;
    } else {
      assert (a + b)[1..] == a[1..] + b;
      RunConcat(Step(s, a[0]), a[1..], b);
    }
  }

  /** The session is then retained, and its Resume offers a token the server has never seen. */
  lemma ParallelRejectionSpoilsResume()
    ensures var t := Run(Initial(true, 1000, true), PARALLEL);
            && t.retained == Some(0) && t.setUp == [Some(0)] && CanResume(t, 1)
            && Step(t, Open(true, 1, false)).attempts[|t.attempts|..] == [Resuming(0, 1)]
  {
    TwoSetups();
    var c := Initial(true, 1000, true).(attempts := [Over(Some(0)), Connecting(Some(0))], setUp := [Some(0)]);
    var d := c.(attempts := [Over(Some(0)), Over(None)], token := Some(1), tokens := 2);
    var f := d.(suspended := {0});
    var g := f.(retained := Some(0), deadlineAt := 1000, timer := Some(0), timers := [0]);
    assert PARALLEL[3..] == [ConnectSettles(1, false, true), SessionSuspends(0), Retain(0, 0)];
    assert Step(c, PARALLEL[3]) == d && Step(d, PARALLEL[4]) == f && Step(f, PARALLEL[5]) == g;
    RunOfThree(c, PARALLEL[3..]);
    RunConcat(Initial(true, 1000, true), PARALLEL[..3], PARALLEL[3..]);
    assert PARALLEL[..3] + PARALLEL[3..] == PARALLEL;
  }

  /** A capped delay ends strictly before the deadline, so the attempt after it can still Resume. */
  lemma LimitedDelayEndsInTime(s: State, delayMs: nat, now: int)
    requires CanResume(s, now)
    ensures var d := LimitDelay(s, delayMs, now);
            0 <= d <= delayMs && now + d < s.deadlineAt && CanResume(s, now + d)
            && (d < delayMs ==> now + d + 1 == s.deadlineAt)
  {}

  /** After a connection failure during Resume the next attempt in time offers the same session and token again. */
  lemma RetryOffersTheSame(s: State, i: nat, now: int)
    requires Inv(s) && i < |s.attempts| && CanResume(s, now)
    requires s.attempts[i] == Resuming(s.retained.value, s.token.value)
    ensures var t := Step(Step(s, ResumeFails(i, true, false, false)), Open(true, now, false));
            && t.attempts == s.attempts[i := Over(None)] + [s.attempts[i]]
            && t == s.(attempts := t.attempts)
  {}
}
