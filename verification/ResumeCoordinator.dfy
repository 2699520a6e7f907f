/** The coordinator object; each method is one uninterrupted piece of its code. */
module ResumeCoordinator {
  import opened Common
  import Spec = Coordinator

  /**
    `timers`, `attempts`, `suspended`, `abandoned`, `closed`, `setUp` and `tokens` record the
    environment: timers armed, attempts in flight, and what became of sessions and tokens.
   */
  class RSocketResumeCoordinator {
    const enabled: bool
    const ttlMs: nat
    var currentToken: Option<Spec.Token>
    var retainedClient: Option<Spec.Session>
    var deadlineAt: int
    var expiryTimer: Option<nat>
    var timers: seq<Spec.Session>
    var attempts: seq<Spec.Attempt>
    var suspended: set<Spec.Session>
    var abandoned: set<Spec.Session>
    var closed: set<Spec.Session>
    var setUp: seq<Option<Spec.Token>>
    var tokens: nat

    ghost function State(): Spec.State
      reads this
    {
      Spec.State(enabled, ttlMs, currentToken, retainedClient, deadlineAt, expiryTimer, timers, attempts, suspended,
                 abandoned, closed, setUp, tokens)
    }

    /** A retained session is resumable and watched by a timer; tokens and sessions in use exist. */
    ghost predicate Valid()
      reads this
    {
      Spec.Inv(State())
    }

    constructor (enabled: bool, ttlMs: nat, token: bool)
      ensures Valid() && State() == Spec.Initial(enabled, ttlMs, token)
    {
      this.enabled, this.ttlMs := enabled, ttlMs;
      currentToken := if token then Some(0) else None;
      retainedClient, deadlineAt, expiryTimer := None, 0, None;
      timers, attempts, suspended, abandoned, closed := [], [], {}, {}, {};
      setUp, tokens := [], 1;
    }

    method RotateToken()
      modifies this`currentToken, this`tokens
      ensures State() == Spec.Rotated(old(State()))
    {
      if enabled {
        currentToken := Some(tokens);
        tokens := tokens + 1;
      }
    }

    method AbandonClient(client: Spec.Session)
      modifies this`abandoned, this`suspended
      ensures State() == Spec.Abandon(old(State()), client)
    {
      abandoned := abandoned + {client};
      suspended := suspended - {client};
    }

    method TakeRetained() returns (client: Option<Spec.Session>)
      modifies this`expiryTimer, this`retainedClient, this`deadlineAt
      ensures client == old(retainedClient) && State() == Spec.Released(old(State()))
    {
      expiryTimer := None;
      client := retainedClient;
      retainedClient := None;
      deadlineAt := 0;
    }

    method ReleaseAndAbandon()
      modifies this`expiryTimer, this`retainedClient, this`deadlineAt, this`abandoned, this`suspended
      ensures State() == Spec.AbandonedRetained(old(State()))
    {
      var client := TakeRetained();
      if client.Some? {
        AbandonClient(client.value);
      }
    }

    /** Nothing can be resumed afterwards, and the session that was retained has failed; its token stays current. */
    method Abandon()
      requires Valid()
      modifies this
      ensures Valid() && State() == Spec.AbandonedRetained(old(State()))
      ensures GivenUp(old(State()), State()) && currentToken == old(currentToken)
    {
      hide Spec.Inv, GivenUp;
      ReleaseAndAbandon();
      assert Valid() && GivenUp(old(State()), State()) by { AbandonGives(old(State())); }
    }

    /** The same, and the next SETUP offers a token that was never used before. */
    method Reset()
      requires Valid()
      modifies this
      ensures Valid() && State() == Spec.Reset(old(State()))
      ensures GivenUp(old(State()), State()) && (enabled ==> FreshToken(old(State()), State()))
    {
      hide Spec.Inv, GivenUp, FreshToken;
      ReleaseAndAbandon();
      RotateToken();
      assert State() == Spec.Reset(old(State()));
      assert Valid() && GivenUp(old(State()), State()) && (enabled ==> FreshToken(old(State()), State())) by {
        AbandonGives(old(State()));
      }
    }

    /** The retained session is closed, not abandoned, and a later one has a token of its own. */
    method Dispose()
      requires Valid()
      modifies this
      ensures Valid() && State() == Spec.Disposed(old(State()))
      ensures retainedClient == None && (forall now :: !CanResume(now))
      ensures old(retainedClient).Some? ==> old(retainedClient).value in closed - suspended
      ensures abandoned == old(abandoned) && (enabled ==> FreshToken(old(State()), State()))
    {
      hide Spec.Inv, Spec.Kept;
      PiecesKeepValid(State());
      var client := TakeRetained();
      if client.Some? {
        closed := closed + {client.value};
        suspended := suspended - {client.value};
      }
      RotateToken();
    }

    /**
      A suspended session is resumable from now until its time is up, and takes the place of another
      one; a session that cannot be kept leaves nothing retained and a token of its own to the next.
     */
    method Retain(client: Spec.Session, now: int)
      requires Valid() && client < |setUp|
      modifies this
      ensures Valid() && State() == Spec.Retained(old(State()), client, now)
      ensures KeepsOrReleases(old(State()), State(), client, now)
    {
      hide Spec.Rotated, Spec.Inv, KeepsOrReleases;
      var previous, keep := retainedClient, client in suspended && enabled && currentToken.Some?;
      expiryTimer := None;
      if previous.Some? && previous.value != client {
        AbandonClient(previous.value);
      }
      if keep {
        retainedClient := Some(client);
        deadlineAt := now + ttlMs;
        expiryTimer := Some(|timers|);
        timers := timers + [client];
      } else {
        retainedClient := None;
        deadlineAt := 0;
        RotateToken();
      }
      assert State() == Spec.Retained(old(State()), client, now);
      assert Valid() && KeepsOrReleases(old(State()), State(), client, now) by {
        RetainGives(old(State()), client, now);
      }
    }

    function CanResume(now: int): (r: bool)
      reads this
      ensures r == Spec.CanResume(State(), now)
    {
      enabled && currentToken.Some? && retainedClient.Some? && retainedClient.value in suspended && deadlineAt > now
    }

    method LimitDelay(delayMs: int, now: int) returns (d: int)
      ensures d == Spec.LimitDelay(State(), delayMs, now)
      ensures CanResume(now) ==> now + d < deadlineAt
      ensures d <= delayMs && (d < delayMs ==> CanResume(now) && now + d == deadlineAt - 1)
      ensures CanResume(now) && delayMs >= 0 ==> CanResume(now + d)
    {
      d := if CanResume(now) then Min(delayMs, Max(0, deadlineAt - now - 1)) else delayMs;
    }

    /** Only the session retained now can expire, and only by its own timer. */
    method TimerFired(timer: nat)
      requires Valid() && timer < |timers|
      modifies this
      ensures Valid() && State() == Spec.Expired(old(State()), timer)
      ensures if old(expiryTimer) == Some(timer)
              then GivenUp(old(State()), State()) && FreshToken(old(State()), State()) && timers[timer] in abandoned
              else State() == old(State())
    {
      ExpiredGives(State(), timer);
      hide Spec.Inv, GivenUp, FreshToken;
      var client := timers[timer];
      if expiryTimer == Some(timer) && retainedClient == Some(client) {
        var _ := TakeRetained();
        AbandonClient(client);
        RotateToken();
      }
    }

    /**
      Starts an attempt, up to its first `await`: a Resume of the retained session with the current
      token, or a SETUP with the current token, and then nothing is retained any more.
     */
    method Open(reconnect: bool, now: int, aborted: bool)
      requires Valid()
      modifies this
      ensures Valid() && State() == Spec.Opened(old(State()), reconnect, now, aborted)
      ensures StartsAttempt(old(State()), State(), reconnect, now, aborted)
    {
      hide Spec.CanResume, Spec.Rotated, Spec.AbandonedRetained, Spec.Inv, StartsAttempt;
      var resume := reconnect && CanResume(now);
      if !resume {
        var hadRetainedSession := retainedClient.Some?;
        ReleaseAndAbandon();
        if hadRetainedSession {
          RotateToken();
        }
        attempts := attempts + [if aborted then Spec.Over(None) else Spec.Connecting(currentToken)];
      } else {
        ResumableHolds(State(), now);
        attempts := attempts + [if aborted then Spec.Over(None)
                                else Spec.Resuming(retainedClient.value, currentToken.value)];
      }
      assert State() == Spec.Opened(old(State()), reconnect, now, aborted);
      assert Valid() && StartsAttempt(old(State()), State(), reconnect, now, aborted) by {
        OpenGives(old(State()), reconnect, now, aborted);
      }
    }

    /**
      The awaited Resume succeeded. Unless the attempt was aborted, the session is handed back exactly
      if it is still the retained one; otherwise it is abandoned, and a SETUP follows with a newer token.
     */
    method ResumeSucceeded(i: nat, aborted: bool)
      requires Valid() && i < |attempts| && attempts[i].Resuming?
      modifies this
      ensures Valid() && State() == Spec.Resumed(old(State()), i, aborted)
      ensures HandsBack(old(State()), State(), i, aborted)
    {
      hide Spec.AbandonedRetained, Spec.Rotated, Spec.Inv, HandsBack;
      var client := attempts[i].client;
      suspended := suspended - {client};
      if aborted {
        if retainedClient == Some(client) {
          var _ := TakeRetained();
        }
        AbandonClient(client);
        attempts := attempts[i := Spec.Over(None)];
      } else if retainedClient == Some(client) {
        var _ := TakeRetained();
        attempts := attempts[i := Spec.Over(Some(client))];
      } else {
        AbandonClient(client);
        AttemptsStay(State());
        ReleaseAndAbandon();
        RotateToken();
        attempts := attempts[i := Spec.Connecting(currentToken)];
      }
      assert State() == Spec.Resumed(old(State()), i, aborted);
      assert Valid() && HandsBack(old(State()), State(), i, aborted) by { ResumeGives(old(State()), i, aborted); }
    }

    /**
      The awaited Resume failed. A retryable failure changes nothing but the attempt; after any other
      the session is given up, and a SETUP that follows carries a newer token.
     */
    method ResumeFailed(i: nat, retryable: bool, aborted: bool, abortedByListener: bool)
      requires Valid() && i < |attempts| && attempts[i].Resuming?
      modifies this
      ensures Valid() && State() == Spec.ResumeFailed(old(State()), i, retryable, aborted, abortedByListener)
      ensures if retryable || aborted then State() == old(State()).(attempts := attempts)
              else GivenUp(old(State()), State()) && FreshToken(old(State()), State())
      ensures attempts == old(attempts)[i := if retryable || aborted || abortedByListener then Spec.Over(None)
                                             else Spec.Connecting(currentToken)]
    {
      FailureGives(State(), i, retryable, aborted, abortedByListener);
      hide Spec.AbandonedRetained, Spec.Rotated, Spec.Inv, GivenUp, FreshToken;
      if aborted || retryable {
        attempts := attempts[i := Spec.Over(None)];
      } else {
        AttemptsStay(State());
        ReleaseAndAbandon();
        RotateToken();
        attempts := attempts[i := if abortedByListener then Spec.Over(None) else Spec.Connecting(currentToken)];
      }
    }

    /** The awaited SETUP settled: a new session with its token, or none, and after a rejection a new token. */
    method ConnectSettled(i: nat, ok: bool, rejected: bool)
      requires Valid() && i < |attempts| && attempts[i].Connecting?
      modifies this
      ensures Valid() && State() == Spec.Connected(old(State()), i, ok, rejected)
      ensures attempts == old(attempts)[i := Spec.Over(if ok then Some(|old(setUp)|) else None)]
      ensures setUp == old(setUp) + if ok then [old(attempts)[i].token] else []
      ensures if !ok && rejected && enabled then FreshToken(old(State()), State())
              else currentToken == old(currentToken)
      ensures retainedClient == old(retainedClient)
    {
      if ok {
        var token := attempts[i].token;
        attempts := attempts[i := Spec.Over(Some(|setUp|))];
        setUp := setUp + [token];
      } else {
        if rejected {
          RotateToken();
        }
        attempts := attempts[i := Spec.Over(None)];
      }
    }
  }

  // What the invariant gives to callers

  /** Nothing is retained, nothing can be resumed, and the session that was retained has been abandoned. */
  ghost predicate GivenUp(s: Spec.State, t: Spec.State)
  {
    && t.retained == None && (forall now :: !Spec.CanResume(t, now))
    && (s.retained.Some? ==> s.retained.value in t.abandoned - t.suspended)
  }

  /** The current token is newer than every one there was. */
  predicate FreshToken(s: Spec.State, t: Spec.State)
  {
    && t.token.Some? && t.token.value >= s.tokens
    && (s.token.Some? ==> t.token.value > s.token.value)
    && (forall i :: 0 <= i < |s.attempts| && s.attempts[i].Resuming? ==> t.token.value > s.attempts[i].offered)
  }

  lemma AbandonGives(s: Spec.State)
    requires Spec.Inv(s)
    ensures var t, u := Spec.AbandonedRetained(s), Spec.Reset(s);
            && Spec.Inv(t) && Spec.Inv(u) && GivenUp(s, t) && GivenUp(s, u) && t.token == s.token
            && (s.enabled ==> FreshToken(s, u))
  {
    Spec.PiecesKeep(s);
  }

  lemma PiecesKeepValid(s: Spec.State)
    requires Spec.Inv(s)
    ensures Spec.Inv(Spec.Disposed(s)) && (s.enabled ==> FreshToken(s, Spec.Disposed(s)))
  {
    Spec.PiecesKeep(s);
  }

  /** A retained session can be resumed for its whole time; whoever was retained before has been abandoned. */
  ghost predicate KeepsOrReleases(s: Spec.State, t: Spec.State, client: Spec.Session, now: int)
  {
    && (t.retained == Some(client) <==> client in s.suspended && s.enabled && s.token.Some?)
    && (if t.retained == Some(client)
        then t.token == s.token && forall later :: Spec.CanResume(t, later) <==> later < now + s.ttlMs
        else t.retained == None && (forall later :: !Spec.CanResume(t, later)) && (s.enabled ==> FreshToken(s, t)))
    && (s.retained.Some? && s.retained.value != client ==> s.retained.value in t.abandoned - t.suspended)
    && client !in t.abandoned - s.abandoned
  }

  lemma RetainGives(s: Spec.State, client: Spec.Session, now: int)
    requires Spec.Inv(s) && client < |s.setUp|
    ensures var t := Spec.Retained(s, client, now); Spec.Inv(t) && KeepsOrReleases(s, t, client, now)
  {
    Spec.RetainedKeeps(s, client, now);
  }

  lemma ExpiredGives(s: Spec.State, timer: nat)
    requires Spec.Inv(s) && timer < |s.timers|
    ensures var t := Spec.Expired(s, timer);
            && Spec.Inv(t)
            && (if s.timer == Some(timer)
                then GivenUp(s, t) && FreshToken(s, t) && s.timers[timer] in t.abandoned else t == s)
  {
    Spec.ExpiredKeeps(s, timer);
  }

  /** What an attempt offers, and what is left retained meanwhile. */
  ghost predicate StartsAttempt(s: Spec.State, t: Spec.State, reconnect: bool, now: int, aborted: bool)
  {
    && |t.attempts| == |s.attempts| + 1 && t.attempts[..|s.attempts|] == s.attempts
    && (if reconnect && Spec.CanResume(s, now)
        then t == s.(attempts := t.attempts) else GivenUp(s, t) && (s.retained.Some? ==> FreshToken(s, t)))
    && match t.attempts[|s.attempts|]
       case Resuming(client, offered) =>
         && !aborted && reconnect && Spec.CanResume(s, now)
         && s.retained == Some(client) && client in s.suspended && client !in s.abandoned && s.token == Some(offered)
       case Connecting(token) => !aborted && !(reconnect && Spec.CanResume(s, now)) && token == t.token
       case Over(result) => aborted && result == None
  }

  lemma OpenGives(s: Spec.State, reconnect: bool, now: int, aborted: bool)
    requires Spec.Inv(s)
    ensures var t := Spec.Opened(s, reconnect, now, aborted);
            Spec.Inv(t) && StartsAttempt(s, t, reconnect, now, aborted)
  {
    Spec.OpenedKeeps(s, reconnect, now, aborted);
    AbandonGives(s);
    ResumableHolds(s, now);
    AttemptsStay(s);
    hide Spec.Reset, Spec.AbandonedRetained, FreshToken;
  }

  /**
    The outcome of an accepted Resume: unless it was aborted, a session that is still retained is
    handed back with its token, and any other is abandoned and followed by a SETUP with a newer token.
   */
  ghost predicate HandsBack(s: Spec.State, t: Spec.State, i: nat, aborted: bool)
    requires i < |s.attempts| && s.attempts[i].Resuming?
  {
    var client := s.attempts[i].client;
    && |t.attempts| == |s.attempts| && t.attempts == s.attempts[i := t.attempts[i]]
    && if !aborted && s.retained == Some(client) then
         && t.attempts[i] == Spec.Over(Some(client)) && t.retained == None && t.token == s.token
         && client !in t.abandoned && client !in t.closed
       else
         && client in t.abandoned && client !in t.suspended && t.retained != Some(client)
         && if aborted then
              && t.attempts[i] == Spec.Over(None) && t.token == s.token
              && (s.retained != Some(client) ==> t.retained == s.retained)
            else t.attempts[i] == Spec.Connecting(t.token) && t.retained == None && FreshToken(s, t)
  }

  lemma ResumeGives(s: Spec.State, i: nat, aborted: bool)
    requires Spec.Inv(s) && i < |s.attempts| && s.attempts[i].Resuming?
    ensures var t := Spec.Resumed(s, i, aborted); Spec.Inv(t) && HandsBack(s, t, i, aborted)
  {
    Spec.ResumedKeeps(s, i, aborted);
  }

  lemma FailureGives(s: Spec.State, i: nat, retryable: bool, aborted: bool, abortedByListener: bool)
    requires Spec.Inv(s) && i < |s.attempts| && s.attempts[i].Resuming?
    ensures var t := Spec.ResumeFailed(s, i, retryable, aborted, abortedByListener);
            && Spec.Inv(t)
            && (if retryable || aborted then t == s.(attempts := t.attempts) else GivenUp(s, t) && FreshToken(s, t))
            && t.attempts == s.attempts[i := if retryable || aborted || abortedByListener then Spec.Over(None)
                                             else Spec.Connecting(t.token)]
  {
    AbandonGives(s);
    Spec.ContinuedKeeps(s, i, Spec.Over(None));
    var t := Spec.Reset(s);
    AttemptsStay(s);
    Spec.ContinuedKeeps(t, i, if abortedByListener then Spec.Over(None) else Spec.Connecting(t.token));
    assert s.enabled by { ResumingIsEnabled(s, i); }
    hide Spec.Inv, Spec.Reset, FreshToken;
  }

  lemma ResumingIsEnabled(s: Spec.State, i: nat)
    requires Spec.Inv(s) && i < |s.attempts| && s.attempts[i].Resuming?
    ensures s.enabled
  {}

  lemma ResumableHolds(s: Spec.State, now: int)
    ensures Spec.CanResume(s, now) ==> s.retained.Some? && s.token.Some?
  {}

  lemma AttemptsStay(s: Spec.State)
    ensures Spec.Reset(s).attempts == s.attempts && Spec.AbandonedRetained(s).attempts == s.attempts
    ensures Spec.Rotated(Spec.AbandonedRetained(s)).attempts == s.attempts
  {}
}
