/** One row of the `investments` table and the sums the handlers take over
    lists of rows. */
module Records {
  import opened Values

  /** A stored investment. A numeric column is `None` when the row has no such
      key: `inv.get(key, 0)` then reads 0 and `inv[key]` raises. */
  datatype Investment = Investment(
    id: int,
    isin: string,
    assetName: string,
    purchaseValue: Option<real>,
    amount: Option<real>,
    currentValue: Option<real>,
    totalMoney: Option<real>,
    profitLoss: Option<real>,
    investmentType: Option<string>,
    createdAt: string,
    updatedAt: string)

  /** The columns one `update_investment` call writes. `purchaseValue` and
      `amount` are written only when they are `Some`; the four price-derived
      columns are always written. */
  datatype Patch = Patch(
    purchaseValue: Option<real>,
    amount: Option<real>,
    currentValue: real,
    profitLoss: real,
    totalMoney: real,
    updatedAt: string)

  /** The row after the columns of `p` have been written into it. */
  function Apply(r: Investment, p: Patch): Investment {
    r.(purchaseValue := if p.purchaseValue.Some? then p.purchaseValue else r.purchaseValue,
       amount := if p.amount.Some? then p.amount else r.amount,
       currentValue := Some(p.currentValue),
       profitLoss := Some(p.profitLoss),
       totalMoney := Some(p.totalMoney),
       updatedAt := p.updatedAt)
  }

  /** The columns no update of this system ever writes. */
  predicate SameIdentity(a: Investment, b: Investment) {
    a.id == b.id && a.isin == b.isin && a.assetName == b.assetName &&
    a.investmentType == b.investmentType && a.createdAt == b.createdAt
  }

  /** `float(v or 0)` for a column read with `.get(key, 0)`. */
  function OrZero(v: Option<real>): real {
    v.GetOr(0.0)
  }

  function Quantity(r: Investment): real { OrZero(r.amount) }
  function Money(r: Investment): real { OrZero(r.totalMoney) }
  function Cost(r: Investment): real { OrZero(r.purchaseValue) }

  /** `sum(f(inv) for inv in rs)` */
  function Sum(rs: seq<Investment>, f: Investment -> real): real {
    if rs == [] then 0.0 else f(rs[0]) + Sum(rs[1..], f)
  }

  /** Summing the rows of two lists one after the other adds the two sums. */
  lemma {:induction false} SumConcat(a: seq<Investment>, b: seq<Investment>, f: Investment -> real)
    ensures Sum(a + b, f) == Sum(a, f) + Sum(b, f)
  {
    if a == [] {
      assert a + b == b;
    } else {
      assert (a + b)[1..] == a[1..] + b;
      SumConcat(a[1..], b, f);
    }
  }

  /** `sum(xs)` over a list of numbers. */
  function Total(xs: seq<real>): real {
    if xs == [] then 0.0 else xs[0] + Total(xs[1..])
  }

  /** Strictly increasing ids: the order `get_all_investments` returns rows
      in (`order("id")`), and in particular no id occurs twice. */
  ghost predicate ById(rows: seq<Investment>) {
    forall i, j :: 0 <= i < j < |rows| ==> rows[i].id < rows[j].id
  }

  /** The table after `update(patch).eq("id", id)`: every row with that id
      gets the patch. */
  function UpdateById(rows: seq<Investment>, id: int, p: Patch): (r: seq<Investment>)
    ensures |r| == |rows|
  {
    seq(|rows|, i requires 0 <= i < |rows| => if rows[i].id == id then Apply(rows[i], p) else rows[i])
  }

  /** With unique ids, updating the id of row `k` rewrites row `k` and no
      other. */
  lemma UpdateByIdAt(rows: seq<Investment>, k: nat, p: Patch)
    requires ById(rows) && k < |rows|
    ensures UpdateById(rows, rows[k].id, p) == rows[k := Apply(rows[k], p)]
  {
    var r := UpdateById(rows, rows[k].id, p);
    forall j | 0 <= j < |rows|
      ensures r[j] == rows[k := Apply(rows[k], p)][j]
    {
      if j < k {
        assert rows[j].id < rows[k].id;
      } else if j > k {
        assert rows[k].id < rows[j].id;
      }
    }
  }

  /** `[(x / whole) * 100 for x in xs]` */
  function Percentages(xs: seq<real>, whole: real): (ps: seq<real>)
    requires whole != 0.0
    ensures |ps| == |xs|
  {
    seq(|xs|, i requires 0 <= i < |xs| => (xs[i] / whole) * 100.0)
  }

  /** Summing the percentages is taking the percentage of the sum. */
  lemma {:induction false} PercentagesTotal(xs: seq<real>, whole: real)
    requires whole != 0.0
    ensures Total(Percentages(xs, whole)) == (Total(xs) / whole) * 100.0
  {
    if xs != [] {
      PercentagesTotal(xs[1..], whole);
      assert Percentages(xs, whole)[1..] == Percentages(xs[1..], whole);
      var a := xs[0];
      var rest := Total(xs[1..]);
      assert (a / whole) * 100.0 + (rest / whole) * 100.0 == ((a + rest) / whole) * 100.0;
    }
  }

  /** The percentages of the parts of a nonzero whole add up to 100 (in
      exact arithmetic). */
  lemma {:induction false} PercentagesAddUp(xs: seq<real>)
    requires Total(xs) != 0.0
    ensures Total(Percentages(xs, Total(xs))) == 100.0
  {
    PercentagesTotal(xs, Total(xs));
    assert Total(xs) / Total(xs) == 1.0;
  }
}
