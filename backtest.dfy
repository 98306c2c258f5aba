/**
 * The backtest engine of the sandbox (`BaseStrategy`): the bar loop that
 * turns a signal series into trades and an equity curve, the settlement of
 * the last open trade, and the count- and sum-based metrics. Prices, PnL
 * and equity are integers; bars are numbered from 0 and stand for the
 * frame's dates.
 */
module Backtest {

  import opened Wrappers
  import opened Reals

  const Quantity: int := 100
  const Long := "LONG"
  const SignalReason := "signal"
  const MissingSignalMessage := "No 'signal' column found in DataFrame. Implement generate_signals() correctly."

  /** A trade: entry and exit bar, prices, size, side, profit and why it closed. */
  datatype Trade = Trade(
    entryBar: nat,
    exitBar: Option<nat>,
    entryPrice: int,
    exitPrice: Option<int>,
    quantity: int,
    side: string,
    pnl: int,
    exitReason: string)

  /** The exceptions `run_backtest` can end with. */
  datatype PyError = ValueError(message: string) | IndexError | TypeError

  /** A ratio that Python may report as `float('inf')`. */
  datatype Ratio = Finite(value: real) | Infinity

  // ---- the bar loop, as functions of the inputs

  /** The trade opened at bar `i`. */
  function Open(i: nat, price: int): (t: Trade)
    ensures t.exitBar.None? && t.pnl == 0 && t.quantity == Quantity && t.entryPrice == price
  {
    Trade(i, None, price, None, Quantity, Long, 0, SignalReason)
  }

  /** `t` closed at bar `i` and `price`, its profit taken on its whole quantity. */
  function CloseAt(t: Trade, i: nat, price: int): (c: Trade)
    ensures c.entryBar == t.entryBar && c.entryPrice == t.entryPrice && c.quantity == t.quantity
    ensures c.exitBar == Some(i) && c.exitPrice == Some(price)
    ensures c.pnl == (price - t.entryPrice) * t.quantity
  {
    t.(exitBar := Some(i), exitPrice := Some(price), pnl := (price - t.entryPrice) * t.quantity)
  }

  /** There is a last trade and it has no exit yet. */
  predicate LastOpen(trades: seq<Trade>)
  {
    |trades| > 0 && trades[|trades| - 1].exitBar.None?
  }

  /** The signal handling of bar `i`: open on a change to 1, close the last open trade on a change to -1. */
  function HandleBar(trades: seq<Trade>, closes: seq<int>, signals: seq<int>, i: nat): seq<Trade>
    requires 1 <= i < |closes| == |signals|
  {
    if signals[i] == signals[i - 1] then trades
    else if signals[i] == 1 then trades + [Open(i, closes[i])]
    else if signals[i] == -1 && LastOpen(trades) then
      trades[..|trades| - 1] + [CloseAt(trades[|trades| - 1], i, closes[i])]
    else trades
  }

  /** The trades after the signal handling of bars 1 to `k - 1`, starting from `t0`. */
  function TradesFrom(t0: seq<Trade>, closes: seq<int>, signals: seq<int>, k: nat): seq<Trade>
    requires 1 <= k <= |closes| == |signals|
    decreases k
  {
    if k == 1 then t0 else HandleBar(TradesFrom(t0, closes, signals, k - 1), closes, signals, k - 1)
  }

  /** Equity at bar `i`: the previous bar's, plus 100 times the price move when the last trade is open after bar `i`. */
  function EquityAt(e0: int, t0: seq<Trade>, closes: seq<int>, signals: seq<int>, i: nat): int
    requires i < |closes| == |signals|
  {
    if i == 0 then e0
    else
      EquityAt(e0, t0, closes, signals, i - 1)
      + (if LastOpen(TradesFrom(t0, closes, signals, i + 1)) then (closes[i] - closes[i - 1]) * 100 else 0)
  }

  /** After the loop: the last trade, if open, is closed at the final bar's close. */
  function Settle(trades: seq<Trade>, closes: seq<int>): seq<Trade>
    requires |closes| > 0
  {
    if LastOpen(trades) then
      trades[..|trades| - 1] + [CloseAt(trades[|trades| - 1], |closes| - 1, closes[|closes| - 1])]
    else trades
  }

  /** The strategy state `run_backtest` works on: the closes, the trade list and the equity curve. */
  class Backtester {
    const closes: seq<int>
    const initialCapital: int
    var trades: seq<Trade>
    const equity: array<int>

    predicate Valid()
      reads this
    {
      equity.Length == |closes|
    }

    /** A fresh strategy: no trades, and every bar of the equity curve at the initial capital. */
    constructor (closes: seq<int>, initialCapital: int)
      ensures Valid() && this.closes == closes && this.initialCapital == initialCapital
      ensures trades == []
      ensures forall j :: 0 <= j < equity.Length ==> equity[j] == initialCapital
      ensures fresh(equity)
    {
      this.closes := closes;
      this.initialCapital := initialCapital;
      trades := [];
      equity := new int[|closes|](_ => initialCapital);
    }

    /**
     * `run_backtest` with the signal column `generate_signals` left behind
     * (None when it left none). The loop and settlement run as in the source;
     * the result is never returned, since building it always raises: an
     * IndexError on an empty frame, a TypeError otherwise.
     */
    method RunBacktest(signals: Option<seq<int>>) returns (err: PyError)
      requires Valid()
      requires signals.Some? ==> |signals.value| == |closes|
      modifies this, equity
      ensures Valid()
      ensures signals.None? ==> err == ValueError(MissingSignalMessage) && trades == old(trades) && unchanged(equity)
      ensures signals.Some? && |closes| == 0 ==> err == IndexError && trades == old(trades)
      ensures signals.Some? && |closes| > 0 ==>
        && err == TypeError
        && trades == Settle(TradesFrom(old(trades), closes, signals.value, |closes|), closes)
        && forall j :: 0 <= j < |closes| ==> equity[j] == EquityAt(old(equity[0]), old(trades), closes, signals.value, j)
    {
      if signals.None? {
        return ValueError(MissingSignalMessage);
      }
      var s := signals.value;
      var n := |closes|;
      if n == 0 {
        // The settlement reads the last close of an empty frame, or, with no
        // open trade, reading the final capital does.
        return IndexError;
      }
      BarLoop(s);
      SettleLast();
      return TypeError;
    }

    /** The loop over bars 1 to n - 1: signal handling, then that bar's equity. */
    method BarLoop(s: seq<int>)
      requires Valid() && 0 < |closes| == |s|
      modifies this, equity
      ensures Valid()
      ensures trades == TradesFrom(old(trades), closes, s, |closes|)
      ensures forall j :: 0 <= j < |closes| ==> equity[j] == EquityAt(old(equity[0]), old(trades), closes, s, j)
    {
      var n := |closes|;
      ghost var t0 := trades;
      ghost var e0 := equity[0];
      var i := 1;
      while i < n
        invariant 1 <= i <= n
        invariant trades == TradesFrom(t0, closes, s, i)
        invariant forall j :: 0 <= j < i ==> equity[j] == EquityAt(e0, t0, closes, s, j)
      {
        HandleSignal(s, i);
        UpdateEquity(s, i, e0, t0);
        i := i + 1;
      }
    }

    /** The signal handling of bar `i` inside the loop. */
    method HandleSignal(s: seq<int>, i: nat)
      requires 1 <= i < |closes| == |s|
      modifies this
      ensures trades == HandleBar(old(trades), closes, s, i)
    {
      if s[i] != s[i - 1] {
        var price := closes[i];
        if s[i] == 1 {
          trades := trades + [Open(i, price)];
        } else if s[i] == -1 && |trades| > 0 {
          var last := trades[|trades| - 1];
          if last.exitBar.None? {
            trades := trades[..|trades| - 1] + [CloseAt(last, i, price)];
          }
        }
      }
    }

    /** The equity of bar `i`: the previous bar's, plus the price move on 100 shares while the last trade is open. */
    method UpdateEquity(s: seq<int>, i: nat, ghost e0: int, ghost t0: seq<Trade>)
      requires Valid() && 1 <= i < |closes| == |s|
      requires trades == TradesFrom(t0, closes, s, i + 1)
      requires equity[i - 1] == EquityAt(e0, t0, closes, s, i - 1)
      modifies equity
      ensures equity[i] == EquityAt(e0, t0, closes, s, i)
      ensures forall j :: 0 <= j < equity.Length && j != i ==> equity[j] == old(equity[j])
    {
      equity[i] := equity[i - 1];
      if |trades| > 0 && trades[|trades| - 1].exitBar.None? {
        equity[i] := equity[i] + (closes[i] - closes[i - 1]) * 100;
      }
    }

    /** After the loop: close the last trade at the final close if it is still open. */
    method SettleLast()
      requires |closes| > 0
      modifies this
      ensures trades == Settle(old(trades), closes)
    {
      if |trades| > 0 && trades[|trades| - 1].exitBar.None? {
        var last := trades[|trades| - 1];
        var lastPrice := closes[|closes| - 1];
        trades := trades[..|trades| - 1] + [CloseAt(last, |closes| - 1, lastPrice)];
      }
    }
  }

  // ---- what the loop promises

  /** A trade as the loop builds it over the first `k` bars. */
  predicate TradeFits(t: Trade, closes: seq<int>, signals: seq<int>, k: nat)
    requires k <= |closes| == |signals|
  {
    && 1 <= t.entryBar < k
    && signals[t.entryBar] == 1 && signals[t.entryBar - 1] != 1
    && t.entryPrice == closes[t.entryBar]
    && t.quantity == Quantity && t.side == Long && t.exitReason == SignalReason
    && (t.exitBar.None? ==> t.exitPrice.None? && t.pnl == 0)
    && (t.exitBar.Some? ==>
          && t.entryBar < t.exitBar.value < k
          && signals[t.exitBar.value] == -1
          && t.exitPrice == Some(closes[t.exitBar.value])
          && t.pnl == (closes[t.exitBar.value] - t.entryPrice) * Quantity)
  }

  /** The trades are in the order of their entry bars. */
  predicate OrderedByEntry(ts: seq<Trade>)
  {
    forall a, b :: 0 <= a < b < |ts| ==> ts[a].entryBar < ts[b].entryBar
  }

  predicate AllFit(ts: seq<Trade>, closes: seq<int>, signals: seq<int>, k: nat)
    requires k <= |closes| == |signals|
  {
    forall t :: t in ts ==> TradeFits(t, closes, signals, k)
  }

  /**
   * Starting from no trades: every trade was opened on a bar whose signal
   * changed to 1, at that bar's close, LONG and for 100 shares, with no
   * exit and pnl 0 until a later change to -1 closes it at that bar's close;
   * the trades are in the order of their entry bars.
   */
  lemma {:induction false} TradesWellFormed(closes: seq<int>, signals: seq<int>, k: nat)
    requires 1 <= k <= |closes| == |signals|
    ensures AllFit(TradesFrom([], closes, signals, k), closes, signals, k)
    ensures OrderedByEntry(TradesFrom([], closes, signals, k))
  {
    if k > 1 {
      TradesWellFormed(closes, signals, k - 1);
      var prev := TradesFrom([], closes, signals, k - 1);
      var ts := TradesFrom([], closes, signals, k);
      var i := k - 1;
      assert AllFit(prev, closes, signals, k - 1);
      assert OrderedByEntry(prev);
      forall t | t in prev ensures TradeFits(t, closes, signals, k) {
        FitsWiden(t, closes, signals, k - 1, k);
      }
      if signals[i] != signals[i - 1] && signals[i] == 1 {
        assert ts == prev + [Open(i, closes[i])];
        forall a, b | 0 <= a < b < |ts| ensures ts[a].entryBar < ts[b].entryBar {
          assert ts[a] == prev[a] && prev[a] in prev;
          if b < |prev| {
            assert ts[b] == prev[b];
          }
        }
      } else if signals[i] != signals[i - 1] && signals[i] == -1 && LastOpen(prev) {
        var last := prev[|prev| - 1];
        var closed := CloseAt(last, i, closes[i]);
        assert last in prev;
        assert ts == prev[..|prev| - 1] + [closed];
        assert TradeFits(closed, closes, signals, k);
        forall t | t in ts ensures TradeFits(t, closes, signals, k) {
          if t != closed {
            assert t in prev[..|prev| - 1];
          }
        }
        forall a, b | 0 <= a < b < |ts| ensures ts[a].entryBar < ts[b].entryBar {
          assert ts[a] == prev[a];
          assert ts[b].entryBar == prev[b].entryBar;
        }
      } else {
        assert ts == prev;
      }
    }
  }

  lemma FitsWiden(t: Trade, closes: seq<int>, signals: seq<int>, k: nat, k': nat)
    requires k <= k' <= |closes| == |signals|
    requires TradeFits(t, closes, signals, k)
    ensures TradeFits(t, closes, signals, k')
  {
  }

  /** Settlement touches only the last trade, closing it at the final close when it was open. */
  lemma SettleClosesOnlyLast(trades: seq<Trade>, closes: seq<int>)
    requires |closes| > 0
    ensures var s := Settle(trades, closes);
      && |s| == |trades|
      && s[..|s| - (if |s| > 0 then 1 else 0)] == trades[..|trades| - (if |trades| > 0 then 1 else 0)]
      && !LastOpen(s)
      && (LastOpen(trades) ==>
            s[|s| - 1] == CloseAt(trades[|trades| - 1], |closes| - 1, closes[|closes| - 1]))
      && (!LastOpen(trades) ==> s == trades)
  {
    var s := Settle(trades, closes);
    if LastOpen(trades) {
      assert s[..|s| - 1] == trades[..|trades| - 1];
    }
  }

  /** Starting from no trades, with no bar where the signal changes to 1, nothing is traded and equity stays flat. */
  lemma {:induction false} FlatWithoutEntries(e0: int, closes: seq<int>, signals: seq<int>, i: nat)
    requires i < |closes| == |signals|
    requires forall j :: 1 <= j <= i ==> signals[j] == signals[j - 1] || signals[j] != 1
    ensures TradesFrom([], closes, signals, i + 1) == []
    ensures EquityAt(e0, [], closes, signals, i) == e0
  {
    if i > 0 {
      FlatWithoutEntries(e0, closes, signals, i - 1);
    }
  }

  /**
   * The equity curve lags the trades by a bar: closes 10, 20, 50 with signals
   * 0, 1, -1 close a trade with pnl 3000, yet the curve gains only 1000 (the
   * entry bar is credited with the previous bar's move, the exit bar's move
   * is not credited).
   */
  lemma EquityLagsTrades()
    ensures var closes, signals := [10, 20, 50], [0, 1, -1];
      && Settle(TradesFrom([], closes, signals, 3), closes)[0].pnl == 3000
      && EquityAt(100000, [], closes, signals, 2) - 100000 == 1000
  {
    var closes, signals := [10, 20, 50], [0, 1, -1];
    var t2 := TradesFrom([], closes, signals, 2);
    assert t2 == HandleBar([], closes, signals, 1) == [Open(1, 20)];
    var t3 := TradesFrom([], closes, signals, 3);
    assert t3 == HandleBar(t2, closes, signals, 2);
    assert LastOpen(t2);
    assert t3 == [CloseAt(Open(1, 20), 2, 50)];
    assert !LastOpen(t3) && Settle(t3, closes) == t3;
    assert EquityAt(100000, [], closes, signals, 1) == 100000 + 1000;
  }

  /**
   * A trade superseded by a re-entry is never closed: signals 0, 1, 0, 1 open
   * two trades; settlement closes the second and the first keeps no exit and
   * pnl 0.
   */
  lemma SupersededTradeStaysOpen()
    ensures var closes, signals := [10, 11, 12, 13], [0, 1, 0, 1];
      var ts := Settle(TradesFrom([], closes, signals, 4), closes);
      && |ts| == 2
      && ts[0].exitBar.None? && ts[0].pnl == 0
      && ts[1].exitBar == Some(3) && ts[1].pnl == 0
  {
    var closes, signals := [10, 11, 12, 13], [0, 1, 0, 1];
    var t2 := TradesFrom([], closes, signals, 2);
    assert t2 == HandleBar([], closes, signals, 1) == [Open(1, 11)];
    var t3 := TradesFrom([], closes, signals, 3);
    assert t3 == HandleBar(t2, closes, signals, 2) == t2;
    var t4 := TradesFrom([], closes, signals, 4);
    assert t4 == HandleBar(t3, closes, signals, 3) == [Open(1, 11), Open(3, 13)];
    var ts := Settle(t4, closes);
    assert ts == [Open(1, 11), CloseAt(Open(3, 13), 3, 13)];
  }

  /** Every trade followed by another has no exit or left before the next one's entry bar. */
  predicate ExitsBeforeNext(ts: seq<Trade>)
  {
    forall a :: 0 <= a < |ts| - 1 ==> ts[a].exitBar.None? || ts[a].exitBar.value < ts[a + 1].entryBar
  }

  /**
   * Only the last trade can ever be closed: every trade followed by another
   * either has no exit or left before the next one was entered, in the loop's
   * trades and after settlement. A trade superseded by a re-entry while open
   * therefore keeps no exit and pnl 0.
   */
  lemma {:induction false} SupersededNeverClosedLater(closes: seq<int>, signals: seq<int>, k: nat)
    requires 1 <= k <= |closes| == |signals|
    ensures ExitsBeforeNext(TradesFrom([], closes, signals, k))
    ensures ExitsBeforeNext(Settle(TradesFrom([], closes, signals, k), closes))
  {
    var ts := TradesFrom([], closes, signals, k);
    if k > 1 {
      SupersededNeverClosedLater(closes, signals, k - 1);
      TradesWellFormed(closes, signals, k - 1);
      HandleBarExitsBeforeNext(TradesFrom([], closes, signals, k - 1), closes, signals, k - 1);
    }
    SettleExitsBeforeNext(ts, closes);
  }

  /** The handling of bar `i` keeps every exit before the next entry when all trades fit the bars before `i`. */
  lemma HandleBarExitsBeforeNext(prev: seq<Trade>, closes: seq<int>, signals: seq<int>, i: nat)
    requires 1 <= i < |closes| == |signals|
    requires AllFit(prev, closes, signals, i) && ExitsBeforeNext(prev)
    ensures ExitsBeforeNext(HandleBar(prev, closes, signals, i))
  {
    var ts := HandleBar(prev, closes, signals, i);
    if signals[i] != signals[i - 1] && signals[i] == 1 {
      assert ts == prev + [Open(i, closes[i])];
      forall a | 0 <= a < |ts| - 1
        ensures ts[a].exitBar.None? || ts[a].exitBar.value < ts[a + 1].entryBar
      {
        assert ts[a] == prev[a] && prev[a] in prev;
        if a + 1 < |prev| {
          assert ts[a + 1] == prev[a + 1];
        } else {
          assert TradeFits(prev[a], closes, signals, i);
        }
      }
    } else if signals[i] != signals[i - 1] && signals[i] == -1 && LastOpen(prev) {
      var closed := CloseAt(prev[|prev| - 1], i, closes[i]);
      assert ts == prev[..|prev| - 1] + [closed];
      forall a | 0 <= a < |ts| - 1
        ensures ts[a].exitBar.None? || ts[a].exitBar.value < ts[a + 1].entryBar
      {
        assert ts[a] == prev[a];
        assert ts[a + 1].entryBar == prev[a + 1].entryBar;
      }
    }
  }

  /** Settlement keeps every exit before the next entry. */
  lemma SettleExitsBeforeNext(ts: seq<Trade>, closes: seq<int>)
    requires |closes| > 0 && ExitsBeforeNext(ts)
    ensures ExitsBeforeNext(Settle(ts, closes))
  {
    var s := Settle(ts, closes);
    if LastOpen(ts) {
      forall a | 0 <= a < |s| - 1
        ensures s[a].exitBar.None? || s[a].exitBar.value < s[a + 1].entryBar
      {
        assert s[a] == ts[a];
        assert s[a + 1].entryBar == ts[a + 1].entryBar;
      }
    }
  }

  // ---- metrics

  function CountWinners(trades: seq<Trade>): (c: nat)
    ensures c <= |trades|
    ensures c == 0 <==> forall t :: t in trades ==> t.pnl <= 0
    ensures c == |trades| <==> forall t :: t in trades ==> t.pnl > 0
  {
    if trades == [] then 0
    else
      assert forall t :: t in trades ==> t == trades[0] || t in trades[1..];
      (if trades[0].pnl > 0 then 1 else 0) + CountWinners(trades[1..])
  }

  function CountLosers(trades: seq<Trade>): (c: nat)
    ensures c <= |trades|
    ensures c == 0 <==> forall t :: t in trades ==> t.pnl >= 0
  {
    if trades == [] then 0
    else
      assert forall t :: t in trades ==> t == trades[0] || t in trades[1..];
      (if trades[0].pnl < 0 then 1 else 0) + CountLosers(trades[1..])
  }

  function SumPnl(trades: seq<Trade>): int
  {
    if trades == [] then 0 else trades[0].pnl + SumPnl(trades[1..])
  }

  /** The sum of the winning pnls: positive exactly when there is a winner. */
  function GrossProfit(trades: seq<Trade>): (g: int)
    ensures g >= 0
    ensures g > 0 <==> exists t :: t in trades && t.pnl > 0
  {
    if trades == [] then 0
    else
      assert forall t :: t in trades ==> t == trades[0] || t in trades[1..];
      (if trades[0].pnl > 0 then trades[0].pnl else 0) + GrossProfit(trades[1..])
  }

  /** The sum of the losing pnls: negative exactly when there is a loser. */
  function LossSum(trades: seq<Trade>): (l: int)
    ensures l <= 0
    ensures l < 0 <==> exists t :: t in trades && t.pnl < 0
  {
    if trades == [] then 0
    else
      assert forall t :: t in trades ==> t == trades[0] || t in trades[1..];
      (if trades[0].pnl < 0 then trades[0].pnl else 0) + LossSum(trades[1..])
  }

  /**
   * Python's true division of `num` by a positive `den`: the quotient times
   * `den` gives `num` back, and the quotient has the sign of `num`.
   */
  function Divide(num: int, den: nat): (q: real)
    requires den > 0
    ensures q * den as real == num as real
    ensures q > 0.0 <==> num > 0
    ensures q < 0.0 <==> num < 0
  {
    num as real / den as real
  }

  /** A fraction of a positive whole: between 0 and 1, and 0 or 1 only at the ends. */
  lemma Fraction(w: real, n: real)
    requires 0.0 <= w <= n && n > 0.0
    ensures 0.0 <= w / n <= 1.0
    ensures w / n == 0.0 <==> w == 0.0
    ensures w / n == 1.0 <==> w == n
  {
    var q := w / n;
    assert q * n == w;
  }

  /** `calculate_win_rate`: 0 with no trades, else the share of winners in percent. */
  function WinRate(trades: seq<Trade>): (r: real)
    ensures 0.0 <= r <= 100.0
    ensures r == 0.0 <==> forall t :: t in trades ==> t.pnl <= 0
    ensures |trades| > 0 ==> (r == 100.0 <==> forall t :: t in trades ==> t.pnl > 0)
    ensures |trades| > 0 ==> r == Divide(CountWinners(trades), |trades|) * 100.0
  {
    if |trades| == 0 then 0.0
    else
      var w, n := CountWinners(trades) as real, |trades| as real;
      Fraction(w, n);
      Divide(CountWinners(trades), |trades|) * 100.0
  }

  /** `calculate_profit_factor`: gross profit over gross loss, infinite exactly when nothing lost. */
  function ProfitFactor(trades: seq<Trade>): (r: Ratio)
    ensures r == Infinity <==> forall t :: t in trades ==> t.pnl >= 0
    ensures r.Finite? ==> r.value >= 0.0
    ensures r.Finite? ==> (r.value > 0.0 <==> exists t :: t in trades && t.pnl > 0)
    ensures r.Finite? ==> -LossSum(trades) > 0 && r.value == Divide(GrossProfit(trades), -LossSum(trades))
  {
    var losses := -LossSum(trades);
    if losses != 0 then Finite(Divide(GrossProfit(trades), losses)) else Infinity
  }

  /** Bounds on a sum of pnls that all lie in `[lo, hi]`. */
  lemma {:induction false} SumPnlBounds(trades: seq<Trade>, lo: int, hi: int)
    requires forall t :: t in trades ==> lo <= t.pnl <= hi
    ensures |trades| * lo <= SumPnl(trades) <= |trades| * hi
  {
    if trades != [] {
      var rest := trades[1..];
      forall t | t in rest ensures lo <= t.pnl <= hi {
        assert t in trades;
      }
      SumPnlBounds(rest, lo, hi);
      MulSucc(|rest|, lo);
      MulSucc(|rest|, hi);
    }
  }

  lemma MulSucc(n: int, x: int)
    ensures (n + 1) * x == x + n * x
  {
  }

  /** `calculate_avg_trade_pnl`: 0 with no trades, else the mean pnl. */
  function AvgTradePnl(trades: seq<Trade>): (r: real)
    ensures |trades| == 0 ==> r == 0.0
    ensures |trades| > 0 ==> r == Divide(SumPnl(trades), |trades|)
  {
    if |trades| == 0 then 0.0 else Divide(SumPnl(trades), |trades|)
  }

  /** The mean pnl lies between any lower and upper bound of the pnls. */
  lemma AvgTradePnlWithin(trades: seq<Trade>, lo: int, hi: int)
    requires |trades| > 0
    requires forall t :: t in trades ==> lo <= t.pnl <= hi
    ensures lo as real <= AvgTradePnl(trades) <= hi as real
  {
    SumPnlBounds(trades, lo, hi);
    MeanWithin(SumPnl(trades), |trades|, lo, hi);
  }

  /** A mean `a` of `n` values summing to `sum` lies within bounds that hold for every value. */
  lemma MeanWithin(sum: int, n: nat, lo: int, hi: int)
    requires n > 0 && n * lo <= sum <= n * hi
    ensures lo as real <= Divide(sum, n) <= hi as real
  {
    var a, k := Divide(sum, n), n as real;
    assert (n * lo) as real == k * lo as real && (n * hi) as real == k * hi as real;
    assert (a - lo as real) * k >= 0.0 && (hi as real - a) * k >= 0.0;
  }

  /** `calculate_avg_winner_pnl`: the mean winning pnl, or 0 with no winner; positive exactly when there is one. */
  function AvgWinnerPnl(trades: seq<Trade>): (r: real)
    ensures r >= 0.0
    ensures r > 0.0 <==> exists t :: t in trades && t.pnl > 0
    ensures CountWinners(trades) > 0 ==> r == Divide(GrossProfit(trades), CountWinners(trades))
  {
    var w := CountWinners(trades);
    if w > 0 then Divide(GrossProfit(trades), w) else 0.0
  }

  /** `calculate_avg_loser_pnl`: the mean losing pnl, or 0 with no loser; negative exactly when there is one. */
  function AvgLoserPnl(trades: seq<Trade>): (r: real)
    ensures r <= 0.0
    ensures r < 0.0 <==> exists t :: t in trades && t.pnl < 0
    ensures CountLosers(trades) > 0 ==> r == Divide(LossSum(trades), CountLosers(trades))
  {
    var l := CountLosers(trades);
    if l > 0 then Divide(LossSum(trades), l) else 0.0
  }

  /** Bounds on the winning pnls bound their sum: `w * lo <= GrossProfit <= w * hi` for `w` winners. */
  lemma {:induction false} GrossProfitBounds(trades: seq<Trade>, lo: int, hi: int)
    requires forall t :: t in trades && t.pnl > 0 ==> lo <= t.pnl <= hi
    ensures CountWinners(trades) * lo <= GrossProfit(trades) <= CountWinners(trades) * hi
  {
    if trades != [] {
      var rest := trades[1..];
      forall t | t in rest && t.pnl > 0 ensures lo <= t.pnl <= hi {
        assert t in trades;
      }
      GrossProfitBounds(rest, lo, hi);
      MulSucc(CountWinners(rest), lo);
      MulSucc(CountWinners(rest), hi);
    }
  }

  /** Bounds on the losing pnls bound their sum: `l * lo <= LossSum <= l * hi` for `l` losers. */
  lemma {:induction false} LossSumBounds(trades: seq<Trade>, lo: int, hi: int)
    requires forall t :: t in trades && t.pnl < 0 ==> lo <= t.pnl <= hi
    ensures CountLosers(trades) * lo <= LossSum(trades) <= CountLosers(trades) * hi
  {
    if trades != [] {
      var rest := trades[1..];
      forall t | t in rest && t.pnl < 0 ensures lo <= t.pnl <= hi {
        assert t in trades;
      }
      LossSumBounds(rest, lo, hi);
      MulSucc(CountLosers(rest), lo);
      MulSucc(CountLosers(rest), hi);
    }
  }

  /** The mean winning pnl lies between any bounds of the winning pnls. */
  lemma AvgWinnerPnlWithin(trades: seq<Trade>, lo: int, hi: int)
    requires exists t :: t in trades && t.pnl > 0
    requires forall t :: t in trades && t.pnl > 0 ==> lo <= t.pnl <= hi
    ensures lo as real <= AvgWinnerPnl(trades) <= hi as real
  {
    GrossProfitBounds(trades, lo, hi);
    MeanWithin(GrossProfit(trades), CountWinners(trades), lo, hi);
  }

  /** The mean losing pnl lies between any bounds of the losing pnls. */
  lemma AvgLoserPnlWithin(trades: seq<Trade>, lo: int, hi: int)
    requires exists t :: t in trades && t.pnl < 0
    requires forall t :: t in trades && t.pnl < 0 ==> lo <= t.pnl <= hi
    ensures lo as real <= AvgLoserPnl(trades) <= hi as real
  {
    LossSumBounds(trades, lo, hi);
    MeanWithin(LossSum(trades), CountLosers(trades), lo, hi);
  }

  // ---- drawdown

  /** The expanding maximum of the equity curve at bar `i`. */
  function RunningMax(equity: seq<int>, i: nat): (m: int)
    requires i < |equity|
    ensures m in equity[..i + 1]
    ensures forall j :: 0 <= j <= i ==> equity[j] <= m
  {
    if i == 0 then equity[0]
    else
      var prev := RunningMax(equity, i - 1);
      assert equity[..i + 1] == equity[..i] + [equity[i]];
      if equity[i] > prev then equity[i] else prev
  }

  /**
   * `calculate_drawdown_curve`: `(equity - running max) / running max` per
   * bar, None where the running max is 0 (a division by zero in pandas).
   */
  function DrawdownCurve(equity: seq<int>): (dd: seq<Option<real>>)
    ensures |dd| == |equity|
    ensures forall i :: 0 <= i < |equity| ==> (dd[i].None? <==> RunningMax(equity, i) == 0)
  {
    seq(|equity|, i requires 0 <= i < |equity| =>
      var m := RunningMax(equity, i);
      if m == 0 then None else Some((equity[i] - m) as real / m as real))
  }

  /** A defined drawdown is the bar's retreat from its running peak, relative to that peak. */
  lemma DrawdownRelative(equity: seq<int>, i: nat)
    requires i < |equity| && DrawdownCurve(equity)[i].Some?
    ensures var m := RunningMax(equity, i);
      DrawdownCurve(equity)[i].value * m as real == (equity[i] - m) as real
  {
    var m := RunningMax(equity, i);
    var num, den := (equity[i] - m) as real, m as real;
    var v := DrawdownCurve(equity)[i].value;
    assert v == num / den;
    Quotient(num, den);
    assert v * den == num;
  }

  /** A quotient times its non-zero divisor gives back the dividend. */
  lemma Quotient(num: real, den: real)
    requires den != 0.0
    ensures (num / den) * den == num
  {
  }

  /** The curve starts from a positive capital, so every running maximum is positive. */
  predicate StartsPositive(equity: seq<int>)
  {
    |equity| > 0 ==> equity[0] > 0
  }

  /** Every bar of the curve is positive. */
  predicate AllPositive(equity: seq<int>)
  {
    forall i :: 0 <= i < |equity| ==> equity[i] > 0
  }

  /**
   * For a curve that starts positive every drawdown is defined and at most 0;
   * it is 0 exactly at a running peak, and above -1 exactly where the equity
   * is still positive (an open long can take the equity to 0 or below).
   */
  lemma DrawdownBounds(equity: seq<int>)
    requires StartsPositive(equity)
    ensures forall i :: 0 <= i < |equity| ==>
      && DrawdownCurve(equity)[i].Some?
      && DrawdownCurve(equity)[i].value <= 0.0
      && (DrawdownCurve(equity)[i].value == 0.0 <==> equity[i] == RunningMax(equity, i))
      && (-1.0 < DrawdownCurve(equity)[i].value <==> equity[i] > 0)
  {
    forall i | 0 <= i < |equity| {
      DrawdownAt(equity, i);
    }
  }

  /** The drawdown at one bar of a curve that starts positive. */
  lemma DrawdownAt(equity: seq<int>, i: nat)
    requires StartsPositive(equity) && i < |equity|
    ensures DrawdownCurve(equity)[i].Some?
    ensures DrawdownCurve(equity)[i].value <= 0.0
    ensures DrawdownCurve(equity)[i].value == 0.0 <==> equity[i] == RunningMax(equity, i)
    ensures -1.0 < DrawdownCurve(equity)[i].value <==> equity[i] > 0
  {
    var m := RunningMax(equity, i);
    assert 0 < equity[0] <= m && equity[i] <= m;
    Retreat(equity[i] as real, m as real);
    assert DrawdownCurve(equity)[i] == Some((equity[i] - m) as real / m as real);
  }

  /** The relative retreat of `e` from a positive peak `m >= e`: at most 0, 0 only at the peak, above -1 exactly while `e` is positive. */
  lemma Retreat(e: real, m: real)
    requires e <= m && m > 0.0
    ensures (e - m) / m <= 0.0
    ensures (e - m) / m == 0.0 <==> e == m
    ensures -1.0 < (e - m) / m <==> e > 0.0
  {
    var d := (e - m) / m;
    assert d * m == e - m;
    assert (d + 1.0) * m == e;
    ProductSign(d, m);
    ProductSign(d + 1.0, m);
  }

  /** A product with a positive factor has the sign of the other factor. */
  lemma ProductSign(x: real, m: real)
    requires m > 0.0
    ensures x * m > 0.0 <==> x > 0.0
    ensures x * m == 0.0 <==> x == 0.0
  {
  }

  /** The drawdown values of a curve that starts positive. */
  function Drawdowns(equity: seq<int>): (ds: seq<real>)
    requires StartsPositive(equity)
    ensures |ds| == |equity|
    ensures forall i :: 0 <= i < |equity| ==> Some(ds[i]) == DrawdownCurve(equity)[i]
  {
    DrawdownBounds(equity);
    seq(|equity|, i requires 0 <= i < |equity| => DrawdownCurve(equity)[i].value)
  }

  /** One drawdown value: at most 0, and above -1 exactly where the equity is positive. */
  lemma DrawdownValue(equity: seq<int>, i: nat)
    requires StartsPositive(equity) && i < |equity|
    ensures Drawdowns(equity)[i] <= 0.0
    ensures -1.0 < Drawdowns(equity)[i] <==> equity[i] > 0
  {
    DrawdownAt(equity, i);
  }

  /** The deepest drawdown is at most 0, and above -1 exactly when the whole curve stays positive. */
  lemma MinDrawdownBounds(equity: seq<int>)
    requires StartsPositive(equity) && |equity| > 0
    ensures MinOf(Drawdowns(equity)) <= 0.0
    ensures -1.0 < MinOf(Drawdowns(equity)) <==> AllPositive(equity)
  {
    var ds := Drawdowns(equity);
    var m := MinOf(ds);
    var k :| 0 <= k < |ds| && ds[k] == m;
    DrawdownValue(equity, k);
    if -1.0 < m {
      forall i | 0 <= i < |equity| ensures equity[i] > 0 {
        assert ds[i] in ds;
        DrawdownValue(equity, i);
      }
    }
  }

  /**
   * `calculate_max_drawdown_pct`: the deepest drawdown in percent, None (NaN)
   * for an empty curve; below -100 exactly when the equity has fallen to 0
   * or below somewhere.
   */
  function MaxDrawdownPct(equity: seq<int>): (r: Option<real>)
    requires StartsPositive(equity)
    ensures r.None? <==> |equity| == 0
    ensures r.Some? ==> r.value <= 0.0
    ensures r.Some? ==> forall i :: 0 <= i < |equity| ==> r.value <= Drawdowns(equity)[i] * 100.0
    ensures r.Some? ==> exists i :: 0 <= i < |equity| && r.value == Drawdowns(equity)[i] * 100.0
    ensures r.Some? ==> (-100.0 < r.value <==> AllPositive(equity))
  {
    if |equity| == 0 then None
    else
      MinDrawdownBounds(equity);
      LeastInPercent(Drawdowns(equity));
      Some(MinOf(Drawdowns(equity)) * 100.0)
  }

  /** The least value in percent is one of the values in percent and none is below it. */
  lemma LeastInPercent(ds: seq<real>)
    requires |ds| > 0
    ensures forall i :: 0 <= i < |ds| ==> MinOf(ds) * 100.0 <= ds[i] * 100.0
    ensures exists i :: 0 <= i < |ds| && MinOf(ds) * 100.0 == ds[i] * 100.0
  {
    var m := MinOf(ds);
    forall i | 0 <= i < |ds| ensures m * 100.0 <= ds[i] * 100.0 {
      assert ds[i] in ds;
    }
    var k :| 0 <= k < |ds| && ds[k] == m;
  }

  /**
   * pandas' `min()` of the drawdown curve, NaN skipped, is 0: some bar has
   * drawdown 0 and no bar is below 0. Where the running maximum is 0 a bar
   * at 0 gives NaN (skipped) and a bar below it gives -inf.
   */
  predicate MinDrawdownZero(equity: seq<int>)
  {
    && (exists i :: 0 <= i < |equity| && DrawdownCurve(equity)[i] == Some(0.0))
    && (forall i :: 0 <= i < |equity| ==>
          if DrawdownCurve(equity)[i].Some? then DrawdownCurve(equity)[i].value >= 0.0 else equity[i] == 0)
  }

  /**
   * `calculate_calmar_ratio`: infinite when the deepest drawdown is 0;
   * otherwise it computes the total return percentage, which divides a
   * method by the capital and raises a TypeError. An empty curve's NaN is
   * not 0.
   */
  function Calmar(equity: seq<int>): (r: Result<Ratio, PyError>)
    ensures r.Ok? ==> r.value == Infinity
    ensures r.Err? ==> r.error == TypeError
    ensures |equity| == 0 ==> r.Err?
  {
    if MinDrawdownZero(equity) then Ok(Infinity) else Err(TypeError)
  }

  /** A list of non-positive reals has least member 0 exactly when every member is 0. */
  lemma MinZeroIffAllZero(ds: seq<real>)
    requires |ds| > 0 && forall i :: 0 <= i < |ds| ==> ds[i] <= 0.0
    ensures MinOf(ds) == 0.0 <==> forall i :: 0 <= i < |ds| ==> ds[i] == 0.0
  {
    var m := MinOf(ds);
    if m == 0.0 {
      forall i | 0 <= i < |ds| ensures ds[i] == 0.0 {
        assert ds[i] in ds;
      }
    } else {
      var i :| 0 <= i < |ds| && ds[i] == m;
    }
  }

  /** The drawdown values are never positive, and 0 exactly at a running peak. */
  lemma DrawdownsAtPeak(equity: seq<int>)
    requires StartsPositive(equity)
    ensures forall i :: 0 <= i < |equity| ==> Drawdowns(equity)[i] <= 0.0
    ensures forall i :: 0 <= i < |equity| ==> (Drawdowns(equity)[i] == 0.0 <==> equity[i] == RunningMax(equity, i))
  {
    DrawdownBounds(equity);
  }

  /** For a curve that starts positive, Calmar is infinite exactly when the least drawdown value is 0. */
  lemma CalmarAtZero(equity: seq<int>)
    requires StartsPositive(equity) && |equity| > 0
    ensures Calmar(equity).Ok? <==> MinOf(Drawdowns(equity)) == 0.0
  {
    CalmarInfiniteIffAtPeak(equity);
    DrawdownsAtPeak(equity);
    MinZeroIffAllZero(Drawdowns(equity));
  }

  /** For a curve that starts positive, Calmar is infinite exactly when it never falls below its running peak. */
  lemma CalmarInfiniteIffAtPeak(equity: seq<int>)
    requires StartsPositive(equity) && |equity| > 0
    ensures Calmar(equity).Ok? <==> forall i :: 0 <= i < |equity| ==> equity[i] == RunningMax(equity, i)
  {
    if Calmar(equity).Ok? {
      assert MinDrawdownZero(equity);
      forall i | 0 <= i < |equity| ensures equity[i] == RunningMax(equity, i) {
        DrawdownAt(equity, i);
      }
    }
    if forall i :: 0 <= i < |equity| ==> equity[i] == RunningMax(equity, i) {
      forall i | 0 <= i < |equity| ensures DrawdownCurve(equity)[i] == Some(0.0) {
        DrawdownAt(equity, i);
      }
      assert DrawdownCurve(equity)[0] == Some(0.0);
    }
  }

  /**
   * A negative capital turns the drawdowns positive: with the curve -5, -7
   * the second drawdown is 0.4, the least is 0, and Calmar is infinite.
   */
  lemma NegativeCapitalCalmarInfinite()
    ensures DrawdownCurve([-5, -7])[1] == Some(0.4)
    ensures Calmar([-5, -7]) == Ok(Infinity)
  {
    var e := [-5, -7];
    assert RunningMax(e, 1) == -5;
    assert DrawdownCurve(e)[0] == Some(0.0);
    assert DrawdownCurve(e)[1] == Some(0.4);
  }

  /**
   * An open long can lose more than the capital: closes 1500, 1500, 400 with
   * signals 0, 1, 1 give the curve 100000, 100000, -10000, whose deepest
   * drawdown is -110%.
   */
  lemma LosingLongBelowCapital()
    ensures var closes, signals := [1500, 1500, 400], [0, 1, 1];
      && EquityAt(100000, [], closes, signals, 1) == 100000
      && EquityAt(100000, [], closes, signals, 2) == -10000
      && MaxDrawdownPct([100000, 100000, -10000]) == Some(-110.0)
  {
    var closes, signals := [1500, 1500, 400], [0, 1, 1];
    var t2 := TradesFrom([], closes, signals, 2);
    assert t2 == HandleBar([], closes, signals, 1) == [Open(1, 1500)];
    var t3 := TradesFrom([], closes, signals, 3);
    assert t3 == HandleBar(t2, closes, signals, 2) == t2;
    assert EquityAt(100000, [], closes, signals, 1) == 100000;
    BelowCapitalDrawdown();
  }

  /** The curve 100000, 100000, -10000 has drawdowns 0, 0, -1.1, so its maximum drawdown is -110%. */
  lemma BelowCapitalDrawdown()
    ensures Drawdowns([100000, 100000, -10000]) == [0.0, 0.0, -1.1]
    ensures MaxDrawdownPct([100000, 100000, -10000]) == Some(-110.0)
  {
    var curve := [100000, 100000, -10000];
    assert RunningMax(curve, 1) == 100000;
    assert RunningMax(curve, 2) == 100000;
    var dd := DrawdownCurve(curve);
    assert dd[0] == Some(0.0) && dd[1] == Some(0.0);
    assert dd[2] == Some(-1.1);
    var ds := Drawdowns(curve);
    assert ds == [0.0, 0.0, -1.1];
    assert MinOf([0.0, -1.1]) == -1.1;
    assert MinOf(ds) == -1.1;
  }
}
