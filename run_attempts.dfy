/**
 * The free-run quota (`useRunAttempts`): a counter of runs made without a
 * session, with the moment it was last reset. Browser storage is replaced by
 * the record found there at start (if any); the clock is a parameter.
 */
module RunAttempts {
  import opened Wrappers

  const MaxFreeRuns := 5

  /** The `RunAttempts` record. */
  datatype Attempts = Attempts(count: int, lastReset: int)

  /**
   * The session as the auth hook gives it: `null` (signed out), `undefined`
   * (still loading) or a session object, which is truthy.
   */
  datatype Session = NullSession | UndefinedSession | SignedIn(user: string)

  /** `remainingRuns()`: `Infinity` or a count. */
  datatype Remaining = Unlimited | Finite(n: nat)

  /** `canRun()`: any session other than exactly `null`, or fewer than five runs so far. */
  function CanRun(session: Session, attempts: Attempts): (ok: bool)
    ensures session.SignedIn? ==> ok
    ensures session.NullSession? ==> (ok <==> attempts.count < MaxFreeRuns)
  {
    session != NullSession || attempts.count < MaxFreeRuns
  }

  /** `remainingRuns()`: unlimited with a truthy session, else what is left of five, never negative. */
  function RemainingRuns(session: Session, attempts: Attempts): (r: Remaining)
    ensures r.Unlimited? <==> session.SignedIn?
    ensures r.Finite? ==> (r.n == 0 <==> attempts.count >= MaxFreeRuns)
    ensures r.Finite? && attempts.count >= 0 ==> r.n == MaxFreeRuns - attempts.count || r.n == 0
    ensures r.Finite? && attempts.count >= 0 ==> r.n <= MaxFreeRuns
  {
    if session.SignedIn? then Unlimited
    else Finite(if MaxFreeRuns - attempts.count > 0 then MaxFreeRuns - attempts.count else 0)
  }

  /** With a `null` session the two queries agree: a run is allowed exactly when some are left. */
  lemma NullSessionQueriesAgree(attempts: Attempts)
    ensures CanRun(NullSession, attempts) <==> RemainingRuns(NullSession, attempts) != Finite(0)
  {
  }

  /** With an `undefined` session they can disagree: running is allowed with none left. */
  lemma UndefinedSessionQueriesDisagree(attempts: Attempts)
    requires attempts.count >= MaxFreeRuns
    ensures CanRun(UndefinedSession, attempts)
    ensures RemainingRuns(UndefinedSession, attempts) == Finite(0)
  {
  }

  class RunAttemptsHook {
    var session: Session
    /** The `runAttempts` state cell. */
    var runAttempts: Attempts

    /**
     * Mount: the stored record if there is one, else a zero count reset now;
     * then the session effect, which resets the count for a truthy session.
     */
    constructor (session: Session, stored: Option<Attempts>, now: int)
      ensures this.session == session
      ensures session.SignedIn? ==> runAttempts == Attempts(0, now)
      ensures !session.SignedIn? ==> runAttempts == (if stored.Some? then stored.value else Attempts(0, now))
    {
      this.session := session;
      if stored.Some? {
        runAttempts := stored.value;
      } else {
        runAttempts := Attempts(0, now);
      }
      if session.SignedIn? {
        runAttempts := Attempts(0, now);
      }
    }

    /** `incrementCount`: one more run; the reset moment is kept. */
    method IncrementCount()
      modifies this
      ensures runAttempts == old(runAttempts).(count := old(runAttempts).count + 1)
      ensures session == old(session)
    {
      runAttempts := runAttempts.(count := runAttempts.count + 1);
    }

    /** `resetCount`: back to zero, reset now. */
    method ResetCount(now: int)
      modifies this
      ensures runAttempts == Attempts(0, now)
      ensures session == old(session)
    {
      runAttempts := Attempts(0, now);
    }

    /** The session effect: a new session arrives; a truthy one resets the count. */
    method SessionChanged(s: Session, now: int)
      modifies this
      ensures session == s
      ensures runAttempts == if s.SignedIn? then Attempts(0, now) else old(runAttempts)
    {
      session := s;
      if s.SignedIn? {
        runAttempts := Attempts(0, now);
      }
    }
  }
}
