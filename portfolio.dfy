/** `api/portfolio.py`: the portfolio overview, every investment with three
    flat totals. */
module Portfolio {
  import opened Values
  import opened Records
  import opened YFinanceHelper
  import opened Calculations
  import PieChart

  /** The overview's answer: 404 "No se encontraron inversiones" for an
      empty table, otherwise the rows as read and the three totals. */
  datatype PortfolioResponse =
    | NotFound
    | Overview(investments: seq<Investment>, quantity: real, money: real, purchaseValue: real)

  /** HTTP status of the answer: the empty portfolio is a 404, unlike the
      200 the other views give for it. */
  function Status(r: PortfolioResponse): int {
    if r.NotFound? then 404 else 200
  }

  /** The handler after `get_all_investments`. */
  function Summarize(investments: seq<Investment>): (r: PortfolioResponse)
    ensures r.NotFound? <==> investments == []
    ensures Status(r) == 404 <==> investments == []
    ensures r.Overview? ==> r.investments == investments
  {
    if investments == [] then NotFound
    else Overview(investments, Sum(investments, Quantity), Sum(investments, Money), Sum(investments, Cost))
  }

  /** The flat money total of the overview is the overall total of the
      composition view: the seven buckets lose and duplicate no row. */
  lemma {:induction false} MoneyMatchesComposition(investments: seq<Investment>)
    requires investments != []
    ensures Summarize(investments).money == Total(PieChart.BucketTotals(investments))
  {
    PieChart.OverallIsTotalMoney(investments);
  }

  /** Every total adds the rows one at a time: the total over two lists of
      rows is the sum of their totals. */
  lemma {:induction false} OverviewSplits(a: seq<Investment>, b: seq<Investment>)
    requires a != [] && b != []
    ensures Summarize(a + b).quantity == Summarize(a).quantity + Summarize(b).quantity
    ensures Summarize(a + b).money == Summarize(a).money + Summarize(b).money
    ensures Summarize(a + b).purchaseValue == Summarize(a).purchaseValue + Summarize(b).purchaseValue
  {
    SumConcat(a, b, Quantity);
    SumConcat(a, b, Money);
    SumConcat(a, b, Cost);
  }

  /** A row as the add handler stores it: the percentage and the money
      derived from purchase price, quantity and current price. */
  function Valued(id: int, purchase: real, amount: real, current: real): Investment {
    var pl := PercentChange(purchase, current);
    Investment(id, "", "", Some(purchase), Some(amount), Some(current), Some(TotalMoney(amount, pl)), Some(pl), None, "", "")
  }

  /** Two positions bought at 100 and 50 with amounts 200 and 50, now worth
      110 and 40: +10% and -20%, money 220 and 40, 260 in all. */
  lemma {:induction false} OverviewExample()
    ensures Valued(1, 100.0, 200.0, 110.0).profitLoss == Some(10.0)
    ensures Valued(2, 50.0, 50.0, 40.0).profitLoss == Some(-20.0)
    ensures Valued(1, 100.0, 200.0, 110.0).totalMoney == Some(220.0)
    ensures Valued(2, 50.0, 50.0, 40.0).totalMoney == Some(40.0)
    ensures Summarize([Valued(1, 100.0, 200.0, 110.0), Valued(2, 50.0, 50.0, 40.0)]).money == 260.0
  {
    var a := Valued(1, 100.0, 200.0, 110.0);
    var b := Valued(2, 50.0, 50.0, 40.0);
    assert PercentChange(100.0, 110.0) == 10.0;
    assert PercentChange(50.0, 40.0) == -20.0;
    assert [a, b][1..] == [b];
  }
}
