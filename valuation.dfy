/** The two update payloads the handlers build from a price: the price-only
    refresh (refresh-all, the price-only branch of edit) and the recompute
    with new inputs (the other branch of edit). Both write the two derived
    columns together, so a stored row stays consistent with its inputs. */
module Valuation {
  import opened Values
  import opened Records
  import opened YFinanceHelper
  import opened Calculations

  /** The derived columns of `r` are what the shared formulas give for its
      purchase value, amount and current price. */
  predicate Consistent(r: Investment) {
    r.purchaseValue.Some? && r.amount.Some? && r.currentValue.Some? &&
    r.profitLoss == Some(PercentChange(r.purchaseValue.value, r.currentValue.value)) &&
    r.totalMoney == Some(TotalMoney(r.amount.value, r.profitLoss.value))
  }

  /** `{current_value, profit_loss_percentage, total_money, updated_at}` for
      a row whose purchase value and amount stay as stored. */
  function PriceUpdate(purchase: real, amount: real, current: real, now: string): (p: Patch)
    ensures p.purchaseValue.None? && p.amount.None?
    ensures p.currentValue == current && p.updatedAt == now
  {
    var pl := PercentChange(purchase, current);
    Patch(None, None, current, pl, TotalMoney(amount, pl), now)
  }

  /** The same columns plus the new `purchase_value` and `amount`. */
  function InputsUpdate(purchase: real, amount: real, current: real, now: string): (p: Patch)
    ensures p.purchaseValue == Some(purchase) && p.amount == Some(amount)
    ensures p.currentValue == current && p.updatedAt == now
  {
    var pl := PercentChange(purchase, current);
    Patch(Some(purchase), Some(amount), current, pl, TotalMoney(amount, pl), now)
  }

  /** Refreshing the price of a row that has both inputs leaves the inputs
      and the identity alone and makes the row consistent. */
  lemma PriceUpdateConsistent(r: Investment, current: real, now: string)
    requires r.purchaseValue.Some? && r.amount.Some?
    ensures var s := Apply(r, PriceUpdate(r.purchaseValue.value, r.amount.value, current, now));
            Consistent(s) && SameIdentity(s, r) &&
            s.purchaseValue == r.purchaseValue && s.amount == r.amount &&
            s.currentValue == Some(current) && s.updatedAt == now
  {
  }

  /** Writing new inputs stores them and makes the row consistent with
      them, whatever the row held before. */
  lemma InputsUpdateConsistent(r: Investment, purchase: real, amount: real, current: real, now: string)
    ensures var s := Apply(r, InputsUpdate(purchase, amount, current, now));
            Consistent(s) && SameIdentity(s, r) &&
            s.purchaseValue == Some(purchase) && s.amount == Some(amount) &&
            s.currentValue == Some(current) && s.updatedAt == now
  {
  }

  /** Rewriting the inputs a row already holds is the price-only refresh. */
  lemma InputsUpdateOfStored(r: Investment, current: real, now: string)
    requires r.purchaseValue.Some? && r.amount.Some?
    ensures Apply(r, InputsUpdate(r.purchaseValue.value, r.amount.value, current, now)) ==
            Apply(r, PriceUpdate(r.purchaseValue.value, r.amount.value, current, now))
  {
  }
}
