/** Helpers on exact reals shared by the chart and backtest models. */
module Reals {

  /** The least of a non-empty list: one of its members, and no member below it. */
  function MinOf(values: seq<real>): (m: real)
    requires |values| > 0
    ensures m in values && forall v :: v in values ==> m <= v
  {
    if |values| == 1 then values[0]
    else
      assert forall v :: v in values ==> v == values[0] || v in values[1..];
      var rest := MinOf(values[1..]); if values[0] <= rest then values[0] else rest
  }

}
