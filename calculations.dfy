/**
 * Chart-axis helpers (`safeCalculations`): the equity range, the tick list
 * of the drawdown axis and the tick dates of the time axis. Equity values
 * and timestamps (ms) are integers; drawdown percentages are reals.
 */
module ChartCalculations {

  import opened Reals

  /** A chart point: its timestamp in ms and its equity. */
  datatype ChartPoint = ChartPoint(date: int, equity: int)

  datatype Bounds = Bounds(min: int, max: int)

  function Min(a: int, b: int): int { if a <= b then a else b }
  function Max(a: int, b: int): int { if a >= b then a else b }

  /** The reduce step by step: the accumulator widened by each value in turn. */
  function FoldBounds(acc: Bounds, values: seq<int>): (r: Bounds)
    ensures r.min <= acc.min && acc.max <= r.max
    ensures forall v :: v in values ==> r.min <= v <= r.max
    ensures r.min == acc.min || r.min in values
    ensures r.max == acc.max || r.max in values
    decreases |values|
  {
    if values == [] then acc
    else
      assert forall v :: v in values ==> v == values[0] || v in values[1..];
      FoldBounds(Bounds(Min(acc.min, values[0]), Max(acc.max, values[0])), values[1..])
  }

  /** The smallest and largest of a non-empty list, both taken from it. */
  function Extremes(values: seq<int>): (r: Bounds)
    requires |values| > 0
    ensures r.min in values && r.max in values
    ensures forall v :: v in values ==> r.min <= v <= r.max
  {
    FoldBounds(Bounds(values[0], values[0]), values)
  }

  function Equities(data: seq<ChartPoint>): (r: seq<int>)
    ensures |r| == |data| && forall i :: 0 <= i < |data| ==> r[i] == data[i].equity
  {
    seq(|data|, i requires 0 <= i < |data| => data[i].equity)
  }

  function Dates(data: seq<ChartPoint>): (r: seq<int>)
    ensures |r| == |data| && forall i :: 0 <= i < |data| ==> r[i] == data[i].date
  {
    seq(|data|, i requires 0 <= i < |data| => data[i].date)
  }

  /** `getMinMax`: {0, 0} for no data, else the least and greatest equity, each occurring in the data. */
  function GetMinMax(data: seq<ChartPoint>): (r: Bounds)
    ensures data == [] ==> r == Bounds(0, 0)
    ensures data != [] ==> exists i, j :: 0 <= i < |data| && 0 <= j < |data| && r.min == data[i].equity && r.max == data[j].equity
    ensures forall i :: 0 <= i < |data| ==> r.min <= data[i].equity <= r.max
  {
    if data == [] then Bounds(0, 0)
    else
      var r := Extremes(Equities(data));
      assert forall i :: 0 <= i < |data| ==> data[i].equity in Equities(data);
      r
  }

  // ---- reals: ceiling and truncation as Math.ceil and Date's time clip do them

  function Ceil(x: real): (c: int)
    ensures x <= c as real < x + 1.0
  {
    -((-x).Floor)
  }

  function Trunc(x: real): (t: int)
    ensures x >= 0.0 ==> t as real <= x < t as real + 1.0
    ensures x < 0.0 ==> t as real - 1.0 < x <= t as real
  {
    if x >= 0.0 then x.Floor else -((-x).Floor)
  }

  function AbsReal(x: real): real { if x < 0.0 then -x else x }

  // ---- drawdown ticks

  const MaxTicks: nat := 20

  /** The tick spacing: `ceil(range / 5)` rounded up to a multiple of 5. */
  function TickStep(maxDrawdown: real): (step: int)
    requires maxDrawdown > 0.0
    ensures step > 0 && step % 5 == 0
    ensures step as real >= maxDrawdown / 5.0
  {
    var s := Ceil(maxDrawdown / 5.0);
    Ceil(s as real / 5.0) * 5
  }

  lemma MulMonotone(a: int, b: int, c: int)
    requires a <= b && c >= 0
    ensures a * c <= b * c
  {
    assert (b - a) * c >= 0;
  }

  /** How many ticks the loop leaves: 0 and the multiples of the step within range, at most 20 in all. */
  function LoopTickCount(maxDrawdown: real, step: int): (n: nat)
    requires maxDrawdown > 0.0 && step > 0
    ensures 1 <= n <= MaxTicks
    ensures forall k :: 0 <= k < n ==> (k * step) as real <= maxDrawdown
    ensures n == MaxTicks || (n * step) as real > maxDrawdown
  {
    var whole := maxDrawdown.Floor;
    var q := whole / step;
    assert q >= 0;
    assert q * step <= whole < (q + 1) * step;
    assert forall k :: 0 <= k <= q ==> k * step <= whole by {
      forall k | 0 <= k <= q ensures k * step <= whole {
        MulMonotone(k, q, step);
      }
    }
    if q + 1 < MaxTicks then q + 1 else MaxTicks
  }

  /** `0, -step, -2*step, ...`: the first `n` ticks. */
  function Multiples(step: int, n: nat): (r: seq<int>)
    ensures |r| == n && forall k :: 0 <= k < n ==> r[k] == -k * step
  {
    seq(n, k => -k * step)
  }

  /** The extra tick is added when the range goes on for more than 0.3 steps past the last loop tick. */
  predicate NeedsExtraTick(maxDrawdown: real, step: int, n: nat)
    requires n >= 1
  {
    var covered := ((n - 1) * step) as real;
    maxDrawdown > covered && maxDrawdown - covered > step as real * 0.3
  }

  /** The tick list `calculateDrawdownTicks` builds, in closed form. */
  function DrawdownTickList(values: seq<real>): seq<int>
  {
    if |values| == 0 then [0]
    else
      var maxDrawdown := AbsReal(MinOf(values));
      if maxDrawdown <= 0.0 then [0]
      else
        var step := TickStep(maxDrawdown);
        var n := LoopTickCount(maxDrawdown, step);
        Multiples(step, n) + (if NeedsExtraTick(maxDrawdown, step, n) then [-Ceil(maxDrawdown)] else [])
  }

  /** The loop of `calculateDrawdownTicks`: 0, then -step, -2*step, ... while within range and fewer than 20. */
  method StepTicks(maxDrawdown: real, step: int) returns (ticks: seq<int>)
    requires maxDrawdown > 0.0 && step > 0
    ensures ticks == Multiples(step, LoopTickCount(maxDrawdown, step))
  {
    ticks := [0];
    var currentTick := -step;
    while AbsReal(currentTick as real) <= maxDrawdown && |ticks| < MaxTicks
      invariant 1 <= |ticks| <= LoopTickCount(maxDrawdown, step)
      invariant ticks == Multiples(step, |ticks|)
      invariant currentTick == -(|ticks| * step)
      decreases MaxTicks - |ticks|
    {
      NextTick(step, |ticks|);
      TickInRange(maxDrawdown, step, |ticks|);
      ticks := ticks + [currentTick];
      currentTick := currentTick - step;
    }
    NextTick(step, |ticks|);
    TicksComplete(maxDrawdown, step, |ticks|);
  }

  /** One more step down: the next multiple, and its distance from 0. */
  lemma NextTick(step: int, m: nat)
    requires step > 0
    ensures Multiples(step, m + 1) == Multiples(step, m) + [-(m * step)]
    ensures -(m * step) - step == -((m + 1) * step)
    ensures AbsReal((-(m * step)) as real) == (m * step) as real
  {
    assert m * step >= 0;
  }

  /** A tick still within range, below the cap of 20, is not the last one the loop leaves. */
  lemma TickInRange(maxDrawdown: real, step: int, m: nat)
    requires maxDrawdown > 0.0 && step > 0
    requires (m * step) as real <= maxDrawdown && m < MaxTicks
    ensures m < LoopTickCount(maxDrawdown, step)
  {
    var n := LoopTickCount(maxDrawdown, step);
    if m >= n {
      MulMonotone(n, m, step);
    }
  }

  /** When the loop stops it has left exactly `LoopTickCount` ticks. */
  lemma TicksComplete(maxDrawdown: real, step: int, m: nat)
    requires maxDrawdown > 0.0 && step > 0
    requires 1 <= m <= LoopTickCount(maxDrawdown, step)
    requires (m * step) as real > maxDrawdown || m == MaxTicks
    ensures m == LoopTickCount(maxDrawdown, step)
  {
  }

  /**
   * `calculateDrawdownTicks`: [0] for no data or a zero minimum; else the
   * loop's ticks, then -ceil(drawdown) when the range goes on for more than
   * 0.3 steps past the last of them.
   */
  method CalculateDrawdownTicks(values: seq<real>) returns (ticks: seq<int>)
    ensures ticks == DrawdownTickList(values)
  {
    if |values| == 0 {
      return [0];
    }
    var maxDrawdown := AbsReal(MinOf(values));
    if maxDrawdown <= 0.0 {
      return [0];
    }
    var step := TickStep(maxDrawdown);
    ticks := StepTicks(maxDrawdown, step);
    var last := ticks[|ticks| - 1];
    LastLoopTick(maxDrawdown, step, ticks);
    if maxDrawdown > AbsReal(last as real) && maxDrawdown - AbsReal(last as real) > step as real * 0.3 {
      ticks := ticks + [-Ceil(maxDrawdown)];
    }
  }

  /** The last loop tick lies `(n - 1)` steps below 0. */
  lemma LastLoopTick(maxDrawdown: real, step: int, ticks: seq<int>)
    requires maxDrawdown > 0.0 && step > 0
    requires ticks == Multiples(step, LoopTickCount(maxDrawdown, step))
    ensures |ticks| >= 1
    ensures var n := |ticks|;
      AbsReal(ticks[n - 1] as real) == ((n - 1) * step) as real
  {
    var n := |ticks|;
    assert ticks[n - 1] == -(n - 1) * step;
    assert (n - 1) * step >= 0;
  }

  lemma MultiplesDecrease(step: int, i: int, j: int)
    requires step > 0 && 0 <= i < j
    ensures -j * step < -i * step
  {
    assert (j - i) * step > 0;
  }

  /** The loop ticks strictly decrease. */
  lemma MultiplesStrictlyDecrease(step: int, n: nat)
    requires step > 0
    ensures var m := Multiples(step, n);
      forall i, j :: 0 <= i < j < n ==> m[j] < m[i]
  {
    var m := Multiples(step, n);
    forall i, j | 0 <= i < j < n ensures m[j] < m[i] {
      MultiplesDecrease(step, i, j);
    }
  }

  /** The extra tick lies below every loop tick. */
  lemma ExtraTickBelow(maxDrawdown: real, step: int, n: nat)
    requires step > 0 && n >= 1 && NeedsExtraTick(maxDrawdown, step, n)
    ensures forall k :: 0 <= k < n ==> -Ceil(maxDrawdown) < Multiples(step, n)[k]
  {
    var m := Multiples(step, n);
    assert ((n - 1) * step) as real < maxDrawdown;
    assert -Ceil(maxDrawdown) < m[n - 1];
    MultiplesStrictlyDecrease(step, n);
  }

  /**
   * The drawdown axis: it starts at 0 and strictly decreases, has at most 21
   * ticks, and is [0] for no data or a zero minimum.
   */
  lemma DrawdownTicksShape(values: seq<real>)
    ensures var ticks := DrawdownTickList(values);
      && 1 <= |ticks| <= MaxTicks + 1
      && ticks[0] == 0
      && (forall i, j :: 0 <= i < j < |ticks| ==> ticks[j] < ticks[i])
      && (|values| == 0 || MinOf(values) == 0.0 ==> ticks == [0])
  {
    if |values| > 0 && AbsReal(MinOf(values)) > 0.0 {
      var maxDrawdown := AbsReal(MinOf(values));
      var step := TickStep(maxDrawdown);
      var n := LoopTickCount(maxDrawdown, step);
      var m := Multiples(step, n);
      MultiplesStrictlyDecrease(step, n);
      if NeedsExtraTick(maxDrawdown, step, n) {
        ExtraTickBelow(maxDrawdown, step, n);
        var ticks := m + [-Ceil(maxDrawdown)];
        assert DrawdownTickList(values) == ticks;
        forall i, j | 0 <= i < j < |ticks| ensures ticks[j] < ticks[i] {
          if j == n {
            assert ticks[i] == m[i];
          } else {
            assert ticks[i] == m[i] && ticks[j] == m[j];
          }
        }
      } else {
        assert DrawdownTickList(values) == m + [];
      }
    }
  }

  // ---- date ticks

  const DayMs := 86400000
  const YearDays := 365

  datatype DateTicks = DateTicks(ticks: seq<int>, format: string)

  /** Tick `i` of 5 from `start` over `span` ms: the time clip of `start + i*span/4`. */
  function DateTick(start: int, span: int, i: int): int
  {
    Trunc(start as real + (i * span) as real / 4.0)
  }

  /** `calculateDateTicks`: no ticks for no data; else 5 dates from the earliest to the latest. */
  method CalculateDateTicks(data: seq<ChartPoint>) returns (r: DateTicks)
    ensures data == [] ==> r == DateTicks([], "dd/mm")
    ensures data != [] ==>
      var b := Extremes(Dates(data));
      && |r.ticks| == 5
      && (forall i :: 0 <= i < 5 ==> r.ticks[i] == DateTick(b.min, b.max - b.min, i))
      && r.format == (if Ceil((b.max - b.min) as real / DayMs as real) > YearDays then "mm/yy" else "dd/mm")
  {
    if data == [] {
      return DateTicks([], "dd/mm");
    }
    var b := Extremes(Dates(data));
    var startDate, endDate := b.min, b.max;
    var daysDiff := Ceil((endDate - startDate) as real / DayMs as real);
    var format := "dd/mm";
    if daysDiff > YearDays {
      format := "mm/yy";
    }
    var ticks := [];
    for i := 0 to 5
      invariant |ticks| == i
      invariant forall k :: 0 <= k < i ==> ticks[k] == DateTick(startDate, endDate - startDate, k)
    {
      ticks := ticks + [DateTick(startDate, endDate - startDate, i)];
    }
    r := DateTicks(ticks, format);
  }

  /** The 'mm/yy' format is chosen exactly when the span is longer than 365 days. */
  lemma YearFormatRule(span: int)
    requires span >= 0
    ensures Ceil(span as real / DayMs as real) > YearDays <==> span > YearDays * DayMs
  {
    var x := span as real / DayMs as real;
    assert x * DayMs as real == span as real;
  }

  /** The date ticks run from the earliest to the latest date, never going back. */
  lemma DateTicksSpan(start: int, span: int)
    requires span >= 0
    ensures DateTick(start, span, 0) == start
    ensures DateTick(start, span, 4) == start + span
    ensures forall i, j :: 0 <= i <= j <= 4 ==> start <= DateTick(start, span, i) <= DateTick(start, span, j) <= start + span
  {
    assert Trunc(start as real) == start;
    assert (4 * span) as real / 4.0 == span as real;
    assert Trunc((start + span) as real) == start + span;
    forall i, j | 0 <= i <= j <= 4
      ensures start <= DateTick(start, span, i) <= DateTick(start, span, j) <= start + span
    {
      var a := start as real + (i * span) as real / 4.0;
      var b := start as real + (j * span) as real / 4.0;
      MulMonotone(i, j, span);
      MulMonotone(j, 4, span);
      assert 0 <= i * span <= j * span <= 4 * span;
      assert start as real <= a <= b <= (start + span) as real;
      assert Trunc(start as real) <= Trunc(a) <= Trunc(b) <= Trunc((start + span) as real);
    }
  }
}
