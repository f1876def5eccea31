/** `InvestmentAPI.getProfitLossClass` of the browser client. */
module ClientApi {
  import opened Values
  import opened YFinanceHelper

  /** The CSS class a percentage is shown with. */
  datatype ProfitLossClass = Positive | Negative | Neutral

  /** `getProfitLossClass(percentage)`. The argument is the number JavaScript
      compares with 0, or `None` for a value both comparisons reject
      (`undefined`, `NaN`). */
  function ClassOf(percentage: Option<real>): (c: ProfitLossClass)
    ensures c == Positive <==> percentage.Some? && percentage.value > 0.0
    ensures c == Negative <==> percentage.Some? && percentage.value < 0.0
    ensures c == Neutral <==> percentage.None? || percentage.value == 0.0
  {
    if percentage.Some? && percentage.value > 0.0 then Positive
    else if percentage.Some? && percentage.value < 0.0 then Negative
    else Neutral
  }

  /** A position bought at a positive price is shown positive exactly when its
      price rose and negative exactly when it fell. */
  lemma {:induction false} ClassFollowsPrice(purchase: real, current: real)
    requires purchase > 0.0
    ensures ClassOf(Some(PercentChange(purchase, current))) == Positive <==> current > purchase
    ensures ClassOf(Some(PercentChange(purchase, current))) == Negative <==> current < purchase
    ensures ClassOf(Some(PercentChange(purchase, current))) == Neutral <==> current == purchase
  {
    PercentChangeSign(purchase, current);
  }
}
