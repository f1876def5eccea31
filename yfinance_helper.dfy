/** Market price lookup and the profit/loss percentage
    (`utils/yfinance_helper.py`). The network calls of the lookup are not
    modelled: each of its three sources is an input that is either a price or
    absent (unavailable, empty or raised). */
module YFinanceHelper {
  import opened Values

  /** `get_current_value`: the first price available in the order intraday
      history, `fast_info.last_price`, `info["regularMarketPrice"]`; 0.0 when
      none is. */
  function CurrentValue(intraday: Option<real>, fastInfo: Option<real>, info: Option<real>): (price: real)
    ensures intraday.Some? ==> price == intraday.value
    ensures intraday.None? && fastInfo.Some? ==> price == fastInfo.value
    ensures intraday.None? && fastInfo.None? && info.Some? ==> price == info.value
    ensures intraday.None? && fastInfo.None? && info.None? ==> price == 0.0
  {
    if intraday.Some? then intraday.value
    else if fastInfo.Some? then fastInfo.value
    else if info.Some? then info.value
    else 0.0
  }

  /** The guarded percentage every handler computes inline:
      `((current - purchase) / purchase) * 100`, or 0 for a zero purchase. */
  function PercentChange(purchase: real, current: real): (pl: real)
    ensures purchase == 0.0 ==> pl == 0.0
    ensures purchase != 0.0 ==> pl * purchase == (current - purchase) * 100.0
  {
    if purchase != 0.0 then ((current - purchase) / purchase) * 100.0 else 0.0
  }

  /** A position bought at a positive price gains exactly when the price rose,
      loses exactly when it fell, and is flat when it did not move. */
  lemma PercentChangeSign(purchase: real, current: real)
    requires purchase > 0.0
    ensures PercentChange(purchase, current) > 0.0 <==> current > purchase
    ensures PercentChange(purchase, current) < 0.0 <==> current < purchase
    ensures PercentChange(purchase, current) == 0.0 <==> current == purchase
  {
    var pl := PercentChange(purchase, current);
    assert pl * purchase == (current - purchase) * 100.0;
    if pl > 0.0 {
      assert pl * purchase > 0.0;
    } else if pl < 0.0 {
      assert pl * purchase < 0.0;
    }
  }

  /** Python `v == 0` on a request scalar: `0`, `0.0` and `False` compare
      equal to 0, a string never does. */
  predicate EqualsZero(v: Scalar) {
    match v
    case Bool(b) => !b
    case Number(x) => x == 0.0
    case Text(_) => false
  }

  /** `float(v)` for an argument that may be `None` (a `TypeError`). */
  function FloatOf(v: Option<Scalar>, parse: string -> Option<real>): Option<real> {
    if v.None? then None else ToFloat(v.value, parse)
  }

  /** `calculate_profit_loss(purchase_value, current_value)`: 0.0 for a
      `None` or zero purchase value, 0.0 when a conversion fails or the
      converted purchase value is 0, the percentage otherwise. */
  function ProfitLoss(purchase: Option<Scalar>, current: Option<Scalar>, parse: string -> Option<real>): (pl: real)
    ensures purchase.None? || EqualsZero(purchase.value) ==> pl == 0.0
    ensures FloatOf(current, parse).None? || FloatOf(purchase, parse).None? ==> pl == 0.0
    ensures FloatOf(current, parse).Some? && FloatOf(purchase, parse).Some? ==>
              pl == PercentChange(FloatOf(purchase, parse).value, FloatOf(current, parse).value)
  {
    if purchase.None? || EqualsZero(purchase.value) then 0.0
    else
      var c := FloatOf(current, parse);
      var p := FloatOf(purchase, parse);
      if c.None? || p.None? then 0.0            // ValueError, TypeError
      else if p.value == 0.0 then 0.0            // ZeroDivisionError
      else ((c.value - p.value) / p.value) * 100.0
  }

  /** Numeric arguments give the guarded formula; in particular a purchase
      value of 0 gives 0 whatever the current value. */
  lemma ProfitLossOfNumbers(purchase: real, current: real, parse: string -> Option<real>)
    ensures ProfitLoss(Some(Number(purchase)), Some(Number(current)), parse) == PercentChange(purchase, current)
  {
  }
}
