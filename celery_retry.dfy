/**
 * `setup_periodic_tasks`: up to five attempts to connect to the broker, with
 * a delay that starts at one second and doubles after every wait. Whether
 * attempt `i` (from 0) connects is the parameter `connects`; the waits are
 * recorded instead of slept, and the printed lines are collected (`Text`
 * spells each one out).
 */
module CeleryRetry {

  import opened Json

  const MaxRetries: nat := 5
  const Connected := "Successfully connected to broker"
  const GaveUp := "Failed to connect after 5 attempts"

  function Pow2(n: nat): (p: nat)
    ensures p >= 1
  {
    if n == 0 then 1 else 2 * Pow2(n - 1)
  }

  /** How many attempts fail before the first that connects, counting at most five. */
  function FailuresBefore(connects: nat -> bool, i: nat): (k: nat)
    requires i <= MaxRetries
    ensures i <= k <= MaxRetries
    ensures forall j :: i <= j < k ==> !connects(j)
    ensures k < MaxRetries ==> connects(k)
    decreases MaxRetries - i
  {
    if i == MaxRetries || connects(i) then i else FailuresBefore(connects, i + 1)
  }

  /** The waits 1, 2, 4, ... of the first `m` failed attempts. */
  function Delays(m: nat): (d: seq<nat>)
    ensures |d| == m && forall j :: 0 <= j < m ==> d[j] == Pow2(j)
  {
    seq(m, (j: int) requires 0 <= j => Pow2(j))
  }

  function Sum(s: seq<nat>): nat
  {
    if s == [] then 0 else Sum(s[..|s| - 1]) + s[|s| - 1]
  }

  /** A printed line: the success, a retried failure (attempt number from 1 and delay), or giving up. */
  datatype Line = ConnectedLine | RetryLine(attempt: nat, delay: nat) | GaveUpLine

  /** The text `print` writes for a line. */
  function Text(line: Line): string
  {
    match line
    case ConnectedLine => Connected
    case RetryLine(a, d) => "Connection attempt " + NatText(a) + " failed, retrying in " + NatText(d) + " seconds..."
    case GaveUpLine => GaveUp
  }

  function FailedLine(i: nat, delay: nat): Line
  {
    RetryLine(i + 1, delay)
  }

  /** The lines printed for the first `m` failed attempts that are retried. */
  function FailedLines(m: nat): (lines: seq<Line>)
    ensures |lines| == m && forall j :: 0 <= j < m ==> lines[j] == FailedLine(j, Pow2(j))
  {
    seq(m, (j: int) requires 0 <= j => FailedLine(j, Pow2(j)))
  }

  /**
   * The attempt loop. It stops at the first attempt that connects; after each
   * failure but the fifth it waits the current delay and doubles it; the
   * fifth failure is re-raised without a wait.
   */
  method SetupPeriodicTasks(connects: nat -> bool) returns (attempts: nat, sleeps: seq<nat>, raised: bool, printed: seq<Line>)
    ensures var k := FailuresBefore(connects, 0);
      && attempts == (if k < MaxRetries then k + 1 else MaxRetries)
      && (raised <==> k == MaxRetries)
      && sleeps == Delays(if k < MaxRetries then k else MaxRetries - 1)
      && printed == FailedLines(|sleeps|) + [if raised then GaveUpLine else ConnectedLine]
  {
    var maxRetries := MaxRetries;
    var retryDelay := 1;
    attempts, sleeps, raised, printed := 0, [], false, [];
    for i := 0 to maxRetries
      invariant i < maxRetries
      invariant forall j :: 0 <= j < i ==> !connects(j)
      invariant attempts == i && retryDelay == Pow2(i)
      invariant sleeps == Delays(i) && printed == FailedLines(i)
    {
      attempts := attempts + 1;
      if connects(i) {
        FailuresBeforeIs(connects, i, 0);
        printed := printed + [ConnectedLine];
        return;
      }
      if i == maxRetries - 1 {
        FailuresBeforeIs(connects, maxRetries, 0);
        printed := printed + [GaveUpLine];
        raised := true;
        return;
      }
      printed := printed + [FailedLine(i, retryDelay)];
      sleeps := sleeps + [retryDelay];
      retryDelay := retryDelay * 2;
      assert sleeps == Delays(i + 1);
      assert printed == FailedLines(i + 1);
    }
    // Every path returns inside the loop: the fifth attempt connects or raises.
    assert false;
  }

  /** The count of failures is `k` when the attempts before `k` fail and attempt `k` (if any) connects. */
  lemma {:induction false} FailuresBeforeIs(connects: nat -> bool, k: nat, i: nat)
    requires i <= k <= MaxRetries
    requires forall j :: i <= j < k ==> !connects(j)
    requires k < MaxRetries ==> connects(k)
    ensures FailuresBefore(connects, i) == k
    decreases k - i
  {
    if i < k {
      FailuresBeforeIs(connects, k, i + 1);
    }
  }

  /** The first `m` waits add up to 2^m - 1 seconds. */
  lemma {:induction false} DelaysSum(m: nat)
    ensures Sum(Delays(m)) == Pow2(m) - 1
  {
    if m > 0 {
      DelaysSum(m - 1);
      assert Delays(m)[..m - 1] == Delays(m - 1);
    }
  }

  /**
   * With `k < 5` failures before a success there are exactly `k` waits,
   * totalling 2^k - 1 seconds, and `k + 1` attempts; with five failures there
   * are four waits (15 seconds) and the error is re-raised.
   */
  lemma BackoffTotals(k: nat)
    requires k <= MaxRetries
    ensures k < MaxRetries ==> |Delays(k)| == k && Sum(Delays(k)) == Pow2(k) - 1
    ensures Sum(Delays(MaxRetries - 1)) == 15
  {
    DelaysSum(k);
    DelaysSum(MaxRetries - 1);
  }
}
