/**
 * The debounce hook (`useDebounceHook`). The hook keeps one mutable reference,
 * `timer.current`, to the last timer it set; every call clears that timer and
 * sets a new one that will run the wrapped function `delay` ms later with the
 * call's arguments. `setTimeout`/`clearTimeout` are modelled by a table of
 * pending timers and a logical clock that the environment advances.
 */
module Debounce {
  import opened Wrappers

  /** A timer the runtime holds: when it is due and the arguments it will pass. */
  datatype Timer<A> = Timer(due: int, args: A)

  /** A call of the debounced function at a moment of the logical clock. */
  datatype Call<A> = Call(at: int, args: A)

  class Debouncer<A> {
    /** The `delay` the hook was created with. */
    const delay: nat
    /** The logical clock, in ms. */
    var now: int
    /** `timer.current`: the handle of the last timer set, if any. */
    var current: Option<nat>
    /** The timers set and neither fired nor cleared, by handle. */
    var pending: map<nat, Timer<A>>
    /** The handle `setTimeout` will give out next. */
    var nextHandle: nat
    /** The arguments the wrapped function has received, in order. */
    var invoked: seq<A>

    /** Only the timer stored in `timer.current` can still be pending. */
    ghost predicate Valid()
      reads this
    {
      && pending.Keys <= (if current.Some? then {current.value} else {})
      && (current.Some? ==> current.value < nextHandle)
    }

    /** At most one timer is pending at any moment. */
    lemma AtMostOnePending()
      requires Valid()
      ensures |pending| <= 1
    {
      assert pending.Keys == {} || pending.Keys == {current.value};
    }

    constructor (delay: nat)
      ensures Valid() && this.delay == delay
      ensures now == 0 && current == None && pending == map[] && invoked == []
    {
      this.delay := delay;
      now := 0;
      current := None;
      pending := map[];
      nextHandle := 0;
      invoked := [];
    }

    /**
     * A call of the debounced function: clear the stored timer (a no-op when
     * it has already fired) and store a fresh one due `delay` ms from now.
     */
    method Call(args: A) returns (cancelled: bool)
      requires Valid()
      modifies this
      ensures Valid()
      ensures cancelled <==> (old(current).Some? && old(current).value in old(pending))
      ensures current == Some(old(nextHandle))
      ensures pending == map[old(nextHandle) := Timer(now + delay, args)]
      ensures now == old(now) && invoked == old(invoked)
    {
      cancelled := false;
      if current.Some? {
        cancelled := current.value in pending;
        pending := pending - {current.value};
      }
      var handle := nextHandle;
      nextHandle := nextHandle + 1;
      pending := pending[handle := Timer(now + delay, args)];
      current := Some(handle);
    }

    /**
     * The clock moves to `t`; a pending timer due by then runs the wrapped
     * function. The stored handle is left as it is after firing.
     */
    method AdvanceTo(t: int) returns (fired: bool)
      requires Valid() && now <= t
      modifies this
      ensures Valid() && now == t && current == old(current)
      ensures fired <==> (old(current).Some? && old(current).value in old(pending)
                          && old(pending)[old(current).value].due <= t)
      ensures fired ==> invoked == old(invoked) + [old(pending)[old(current).value].args] && pending == map[]
      ensures !fired ==> invoked == old(invoked) && pending == old(pending)
    {
      now := t;
      fired := false;
      if current.Some? && current.value in pending && pending[current.value].due <= t {
        invoked := invoked + [pending[current.value].args];
        pending := pending - {current.value};
        fired := true;
      }
    }
  }

  /** Call times never go back and none lies after the end of the observation. */
  predicate Chronological<A>(calls: seq<Call<A>>, end: int) {
    && 0 <= end
    && (forall i :: 0 <= i < |calls| ==> 0 <= calls[i].at <= end)
    && (forall i :: 0 < i < |calls| ==> calls[i - 1].at <= calls[i].at)
  }

  /** The moment the clock reaches after call `j`: the next call, or the end. */
  function NextMoment<A>(calls: seq<Call<A>>, end: int, j: nat): int
    requires j < |calls|
  {
    if j + 1 < |calls| then calls[j + 1].at else end
  }

  /** Call `j` is followed by `delay` ms of quiet. */
  predicate Survives<A>(calls: seq<Call<A>>, delay: nat, end: int, j: nat)
    requires j < |calls|
  {
    calls[j].at + delay <= NextMoment(calls, end, j)
  }

  /** The arguments of those among the first `n` calls that are followed by `delay` ms of quiet. */
  function FiredAmong<A>(calls: seq<Call<A>>, delay: nat, end: int, n: nat): (r: seq<A>)
    requires n <= |calls|
    ensures |r| <= n
  {
    if n == 0 then []
    else FiredAmong(calls, delay, end, n - 1) + (if Survives(calls, delay, end, n - 1) then [calls[n - 1].args] else [])
  }

  /** The reference definition: what the wrapped function receives, in order. */
  function Fired<A>(calls: seq<Call<A>>, delay: nat, end: int): (r: seq<A>)
    ensures |r| <= |calls|
  {
    FiredAmong(calls, delay, end, |calls|)
  }

  function ArgsOf<A>(calls: seq<Call<A>>): (r: seq<A>)
    ensures |r| == |calls|
    ensures forall i :: 0 <= i < |calls| ==> r[i] == calls[i].args
  {
    if calls == [] then [] else ArgsOf(calls[..|calls| - 1]) + [calls[|calls| - 1].args]
  }

  /** The hook's state once the first `i` calls have been made, each at its own time. */
  ghost predicate AfterCalls<A>(d: Debouncer<A>, delay: nat, calls: seq<Call<A>>, end: int, i: nat)
    requires i <= |calls|
    reads d
  {
    && d.Valid() && d.delay == delay
    && (i == 0 ==> d.now == 0 && d.pending == map[] && d.invoked == [])
    && (i > 0 ==> && d.now == calls[i - 1].at && d.current.Some?
                  && d.pending == map[d.current.value := Timer(calls[i - 1].at + delay, calls[i - 1].args)]
                  && d.invoked == FiredAmong(calls, delay, end, i - 1))
  }

  /** Move the clock to call `i`'s time, then make the call. */
  method NextCall<A>(d: Debouncer<A>, delay: nat, calls: seq<Call<A>>, end: int, i: nat)
    requires Chronological(calls, end) && i < |calls|
    requires AfterCalls(d, delay, calls, end, i)
    modifies d
    ensures AfterCalls(d, delay, calls, end, i + 1)
  {
    var fired := d.AdvanceTo(calls[i].at);
    assert d.invoked == FiredAmong(calls, delay, end, i) by {
      if i > 0 {
        assert NextMoment(calls, end, i - 1) == calls[i].at;
      }
    }
    var cancelled := d.Call(calls[i].args);
  }

  /**
   * Drive one hook through a schedule of calls: before each call the clock
   * moves to the call's time, and at the end to `end`. What the wrapped
   * function receives is exactly the reference `Fired`.
   */
  method Simulate<A>(delay: nat, calls: seq<Call<A>>, end: int) returns (invoked: seq<A>)
    requires Chronological(calls, end)
    ensures invoked == Fired(calls, delay, end)
  {
    var d := new Debouncer<A>(delay);
    var i := 0;
    while i < |calls|
      invariant 0 <= i <= |calls|
      invariant AfterCalls(d, delay, calls, end, i)
    {
      NextCall(d, delay, calls, end, i);
      i := i + 1;
    }
    assert i > 0 ==> calls[i - 1].at <= end;
    var fired := d.AdvanceTo(end);
    invoked := d.invoked;
  }

  /** Calls each within `delay` of the previous one: none but the last can fire. */
  lemma {:induction false} BurstPrefixSilent<A>(calls: seq<Call<A>>, delay: nat, end: int, n: nat)
    requires n < |calls|
    requires forall i :: 0 < i < |calls| ==> calls[i].at < calls[i - 1].at + delay
    ensures FiredAmong(calls, delay, end, n) == []
  {
    if n > 0 {
      BurstPrefixSilent(calls, delay, end, n - 1);
      assert calls[n].at < calls[n - 1].at + delay;
    }
  }

  /**
   * N calls, each within `delay` of the previous one, produce at most one
   * invocation, carrying the last call's arguments.
   */
  lemma BurstInvokesOnce<A>(calls: seq<Call<A>>, delay: nat, end: int)
    requires |calls| > 0
    requires forall i :: 0 < i < |calls| ==> calls[i].at < calls[i - 1].at + delay
    ensures Fired(calls, delay, end) ==
      if calls[|calls| - 1].at + delay <= end then [calls[|calls| - 1].args] else []
  {
    BurstPrefixSilent(calls, delay, end, |calls| - 1);
  }

  /** Calls spaced at least `delay` apart each produce their own invocation, in call order. */
  lemma {:induction false} SpacedPrefixFires<A>(calls: seq<Call<A>>, delay: nat, end: int, n: nat)
    requires n <= |calls|
    requires forall i :: 0 < i < |calls| ==> calls[i - 1].at + delay <= calls[i].at
    requires |calls| > 0 ==> calls[|calls| - 1].at + delay <= end
    ensures FiredAmong(calls, delay, end, n) == ArgsOf(calls[..n])
  {
    if n > 0 {
      SpacedPrefixFires(calls, delay, end, n - 1);
      assert calls[..n][..n - 1] == calls[..n - 1];
      assert Survives(calls, delay, end, n - 1);
    }
  }

  lemma SpacedCallsAllFire<A>(calls: seq<Call<A>>, delay: nat, end: int)
    requires forall i :: 0 < i < |calls| ==> calls[i - 1].at + delay <= calls[i].at
    requires |calls| > 0 ==> calls[|calls| - 1].at + delay <= end
    ensures Fired(calls, delay, end) == ArgsOf(calls)
  {
    SpacedPrefixFires(calls, delay, end, |calls|);
    assert calls[..|calls|] == calls;
  }
}
