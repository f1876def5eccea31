/** `utils/calculations.py`: the total-money formula and the per-category
    totals. */
module Calculations {
  import opened Values
  import opened Records
  import opened YFinanceHelper

  /** `calculate_total_money(amount, pl)`: the invested amount scaled by the
      profit/loss percentage. */
  function TotalMoney(amount: real, pl: real): (money: real)
    ensures pl == 0.0 ==> money == amount
    ensures amount > 0.0 ==> (money > amount <==> pl > 0.0)
    ensures amount > 0.0 ==> (money < amount <==> pl < 0.0)
    ensures pl == -100.0 ==> money == 0.0
  {
    amount + (amount * pl / 100.0)
  }

  /** With the guarded percentage, the total money of a position is its
      amount scaled by the ratio of current to purchase price. */
  lemma {:induction false} TotalMoneyIsPriceRatio(amount: real, purchase: real, current: real)
    requires purchase != 0.0
    ensures TotalMoney(amount, PercentChange(purchase, current)) == amount * current / purchase
  {
    var pl := PercentChange(purchase, current);
    assert pl == (current - purchase) / purchase * 100.0;
    assert amount * pl / 100.0 == amount * (current - purchase) / purchase;
    assert amount + amount * (current - purchase) / purchase == amount * current / purchase;
  }

  /** The accumulator `calculate_category_totals` keeps for one category. */
  datatype CategoryStats = CategoryStats(totalValue: real, totalMoney: real, count: nat, avgProfitLoss: real)

  /** The category of a row whose `category_field` key is missing. */
  const NoCategory: string := "Sin categoría"

  /** `inv.get(category_field, "Sin categoría")`; `field` reads the column
      that `category_field` names. */
  function CategoryOf(r: Investment, field: Investment -> Option<string>): string {
    field(r).GetOr(NoCategory)
  }

  /** The rows of category `c`, in input order. */
  function InCategory(rs: seq<Investment>, field: Investment -> Option<string>, c: string): seq<Investment> {
    if rs == [] then []
    else InCategory(rs[..|rs| - 1], field, c) +
         (if CategoryOf(rs[|rs| - 1], field) == c then [rs[|rs| - 1]] else [])
  }

  /** The distinct categories of the rows. */
  function Categories(rs: seq<Investment>, field: Investment -> Option<string>): set<string> {
    if rs == [] then {}
    else Categories(rs[..|rs| - 1], field) + {CategoryOf(rs[|rs| - 1], field)}
  }

  /** The accumulator after the first loop: purchase values and total money
      added up, rows counted, average still 0. */
  function Accumulated(g: seq<Investment>): CategoryStats {
    CategoryStats(Sum(g, Cost), Sum(g, Money), |g|, 0.0)
  }

  /** The second loop's update: the average profit/loss is set only when the
      category has rows and a positive purchase total. */
  function WithAverage(s: CategoryStats): CategoryStats {
    if s.count > 0 && s.totalValue > 0.0
    then s.(avgProfitLoss := PercentChange(s.totalValue, s.totalMoney))
    else s
  }

  /** The accumulators of the rows `rs` after the first loop. */
  function Accumulators(rs: seq<Investment>, field: Investment -> Option<string>): map<string, CategoryStats> {
    map c | c in Categories(rs, field) :: Accumulated(InCategory(rs, field, c))
  }

  /** What `calculate_category_totals` returns, category by category. */
  function CategoryTotalsOf(rs: seq<Investment>, field: Investment -> Option<string>): map<string, CategoryStats> {
    map c | c in Categories(rs, field) :: WithAverage(Accumulated(InCategory(rs, field, c)))
  }

  /** One `+=` round of the first loop for row `r`. */
  function Bump(s: CategoryStats, r: Investment): CategoryStats {
    s.(totalValue := s.totalValue + Cost(r), totalMoney := s.totalMoney + Money(r), count := s.count + 1)
  }

  /** `calculate_category_totals(investments, category_field)`: one dict
      entry per category, updated with `+=` row by row, then the averages. */
  method CategoryTotals(investments: seq<Investment>, field: Investment -> Option<string>)
    returns (categories: map<string, CategoryStats>)
    ensures categories == CategoryTotalsOf(investments, field)
  {
    categories := AccumulateCategories(investments, field);
    categories := AverageCategories(categories);
    AveragedAccumulators(investments, field);
  }

  /** The first loop of `calculate_category_totals`. */
  method AccumulateCategories(investments: seq<Investment>, field: Investment -> Option<string>)
    returns (categories: map<string, CategoryStats>)
    ensures categories == Accumulators(investments, field)
  {
    categories := map[];
    var i := 0;
    while i < |investments|
      invariant 0 <= i <= |investments|
      invariant categories == Accumulators(investments[..i], field)
    {
      var inv := investments[i];
      var category := CategoryOf(inv, field);
      if category !in categories {
        categories := categories[category := CategoryStats(0.0, 0.0, 0, 0.0)];
      }
      categories := categories[category := Bump(categories[category], inv)];
      AccumulateStep(investments, field, i);
      i := i + 1;
    }
    assert investments[..i] == investments;
  }

  /** The second loop of `calculate_category_totals`: every entry gets its
      guarded average. */
  method AverageCategories(accumulated: map<string, CategoryStats>)
    returns (categories: map<string, CategoryStats>)
    ensures categories == Averaged(accumulated, accumulated.Keys)
  {
    categories := accumulated;
    var pending := categories.Keys;
    while pending != {}
      invariant pending <= accumulated.Keys
      invariant categories == Averaged(accumulated, accumulated.Keys - pending)
      decreases pending
    {
      var category :| category in pending;
      ghost var done := accumulated.Keys - pending;
      var data := categories[category];
      assert data == accumulated[category];
      if data.count > 0 && data.totalValue > 0.0 {
        categories := categories[category := data.(avgProfitLoss := ((data.totalMoney - data.totalValue) / data.totalValue) * 100.0)];
      }
      assert categories == Averaged(accumulated, done)[category := WithAverage(data)];
      AverageStep(accumulated, done, category);
      pending := pending - {category};
      assert accumulated.Keys - pending == done + {category};
    }
    assert accumulated.Keys - pending == accumulated.Keys;
  }

  /** Averaging every accumulator gives the result of the whole function. */
  lemma {:induction false} AveragedAccumulators(rs: seq<Investment>, field: Investment -> Option<string>)
    ensures Averaged(Accumulators(rs, field), Accumulators(rs, field).Keys) == CategoryTotalsOf(rs, field)
  {
  }

  /** The accumulators with the categories in `done` already averaged. */
  function Averaged(acc: map<string, CategoryStats>, done: set<string>): map<string, CategoryStats> {
    map c | c in acc :: if c in done then WithAverage(acc[c]) else acc[c]
  }

  /** One round of the second loop averages one more category. */
  lemma {:induction false} AverageStep(acc: map<string, CategoryStats>, done: set<string>, c: string)
    requires c in acc && c !in done
    ensures Averaged(acc, done + {c}) == Averaged(acc, done)[c := WithAverage(acc[c])]
  {
    var lhs := Averaged(acc, done + {c});
    var rhs := Averaged(acc, done)[c := WithAverage(acc[c])];
    assert lhs.Keys == rhs.Keys;
    forall d | d in lhs
      ensures lhs[d] == rhs[d]
    {
    }
  }

  /** Each entry of the result counts and sums the rows of its category and
      carries the guarded average. */
  lemma {:induction false} CategoryTotalsFacts(rs: seq<Investment>, field: Investment -> Option<string>)
    ensures CategoryTotalsOf(rs, field).Keys == Categories(rs, field)
    ensures forall c :: c in CategoryTotalsOf(rs, field) ==>
              var s := CategoryTotalsOf(rs, field)[c];
              var g := InCategory(rs, field, c);
              s.count == |g| && s.totalValue == Sum(g, Cost) && s.totalMoney == Sum(g, Money) &&
              s.avgProfitLoss == (if s.totalValue > 0.0 then PercentChange(s.totalValue, s.totalMoney) else 0.0)
  {
    forall c | c in CategoryTotalsOf(rs, field)
      ensures var s := CategoryTotalsOf(rs, field)[c];
              var g := InCategory(rs, field, c);
              s.count == |g| && s.totalValue == Sum(g, Cost) && s.totalMoney == Sum(g, Money) &&
              s.avgProfitLoss == (if s.totalValue > 0.0 then PercentChange(s.totalValue, s.totalMoney) else 0.0)
    {
      InCategoryNonEmpty(rs, field, c);
    }
  }

  /** Every category that occurs has at least one row. */
  lemma {:induction false} InCategoryNonEmpty(rs: seq<Investment>, field: Investment -> Option<string>, c: string)
    requires c in Categories(rs, field)
    ensures |InCategory(rs, field, c)| > 0
  {
    var last := rs[|rs| - 1];
    if CategoryOf(last, field) != c {
      InCategoryNonEmpty(rs[..|rs| - 1], field, c);
    }
  }

  /** Adding row `i` to the accumulators of rows `..i` bumps its own
      category, created at zero when new, and leaves the others alone. */
  lemma {:induction false} AccumulateStep(rs: seq<Investment>, field: Investment -> Option<string>, i: nat)
    requires i < |rs|
    ensures var c := CategoryOf(rs[i], field);
            var m := Accumulators(rs[..i], field);
            var m0 := if c in m then m else m[c := CategoryStats(0.0, 0.0, 0, 0.0)];
            Accumulators(rs[..i + 1], field) == m0[c := Bump(m0[c], rs[i])]
  {
    var c := CategoryOf(rs[i], field);
    var m := Accumulators(rs[..i], field);
    var m0 := if c in m then m else m[c := CategoryStats(0.0, 0.0, 0, 0.0)];
    var next := Accumulators(rs[..i + 1], field);
    var expected := m0[c := Bump(m0[c], rs[i])];
    CategoriesStep(rs, field, i);
    assert next.Keys == expected.Keys;
    AccumulateOwn(rs, field, i);
    forall d | d in next
      ensures next[d] == expected[d]
    {
      if d != c {
        AccumulateOther(rs, field, i, d);
      }
    }
  }

  lemma {:induction false} AccumulatorsAt(rs: seq<Investment>, field: Investment -> Option<string>, d: string)
    requires d in Categories(rs, field)
    ensures Accumulators(rs, field)[d] == Accumulated(InCategory(rs, field, d))
  {
  }

  lemma {:induction false} AccumulateOther(rs: seq<Investment>, field: Investment -> Option<string>, i: nat, d: string)
    requires i < |rs|
    requires d in Categories(rs[..i], field)
    requires d != CategoryOf(rs[i], field)
    ensures d in Categories(rs[..i + 1], field)
    ensures Accumulators(rs[..i + 1], field)[d] == Accumulators(rs[..i], field)[d]
  {
    CategoriesStep(rs, field, i);
    InCategoryStep(rs, field, i, d);
    assert InCategory(rs[..i], field, d) + [] == InCategory(rs[..i], field, d);
    AccumulatorsAt(rs[..i + 1], field, d);
    AccumulatorsAt(rs[..i], field, d);
  }

  lemma {:induction false} AccumulateOwn(rs: seq<Investment>, field: Investment -> Option<string>, i: nat)
    requires i < |rs|
    ensures var c := CategoryOf(rs[i], field);
            var m := Accumulators(rs[..i], field);
            Accumulators(rs[..i + 1], field)[c] ==
              Bump(if c in m then m[c] else CategoryStats(0.0, 0.0, 0, 0.0), rs[i])
  {
    var c := CategoryOf(rs[i], field);
    var m := Accumulators(rs[..i], field);
    CategoriesStep(rs, field, i);
    InCategoryStep(rs, field, i, c);
    var g := InCategory(rs[..i], field, c);
    SumConcat(g, [rs[i]], Cost);
    SumConcat(g, [rs[i]], Money);
    AccumulatorsAt(rs[..i + 1], field, c);
    if c in m {
      AccumulatorsAt(rs[..i], field, c);
    } else {
      AbsentCategoryEmpty(rs[..i], field, c);
    }
  }

  lemma {:induction false} CategoriesStep(rs: seq<Investment>, field: Investment -> Option<string>, i: nat)
    requires i < |rs|
    ensures Categories(rs[..i + 1], field) == Categories(rs[..i], field) + {CategoryOf(rs[i], field)}
  {
    assert rs[..i + 1][..i] == rs[..i];
  }

  lemma {:induction false} InCategoryStep(rs: seq<Investment>, field: Investment -> Option<string>, i: nat, d: string)
    requires i < |rs|
    ensures InCategory(rs[..i + 1], field, d) ==
            InCategory(rs[..i], field, d) + (if CategoryOf(rs[i], field) == d then [rs[i]] else [])
  {
    assert rs[..i + 1][..i] == rs[..i];
  }

  lemma {:induction false} AbsentCategoryEmpty(rs: seq<Investment>, field: Investment -> Option<string>, c: string)
    requires c !in Categories(rs, field)
    ensures InCategory(rs, field, c) == []
  {
    if rs != [] {
      AbsentCategoryEmpty(rs[..|rs| - 1], field, c);
    }
  }

  /** A row belongs to the group of category `c` exactly when it is one of
      the rows and its category field, or "Sin categoría" when missing, is `c`. */
  lemma {:induction false} InCategoryIff(rs: seq<Investment>, field: Investment -> Option<string>, c: string, x: Investment)
    ensures x in InCategory(rs, field, c) <==> x in rs && CategoryOf(x, field) == c
  {
    if rs != [] {
      var init := rs[..|rs| - 1];
      InCategoryIff(init, field, c, x);
      assert rs == init + [rs[|rs| - 1]];
    }
  }

  /** Some category of a non-empty set of categories. */
  ghost function Pick(ks: set<string>): string
    requires ks != {}
  {
    var c :| c in ks; c
  }

  /** The sizes of the groups of the categories `ks`, added up. */
  ghost function GroupSizes(rs: seq<Investment>, field: Investment -> Option<string>, ks: set<string>): nat
    decreases ks
  {
    if ks == {} then 0
    else var c := Pick(ks); |InCategory(rs, field, c)| + GroupSizes(rs, field, ks - {c})
  }

  /** The `count` entries of the categories `ks` of a result, added up. */
  ghost function CountSum(m: map<string, CategoryStats>, ks: set<string>): nat
    requires ks <= m.Keys
    decreases ks
  {
    if ks == {} then 0
    else var c := Pick(ks); m[c].count + CountSum(m, ks - {c})
  }

  /** The sum over a set does not depend on the order it is taken in. */
  lemma {:induction false} GroupSizesRemove(rs: seq<Investment>, field: Investment -> Option<string>, ks: set<string>, c: string)
    requires c in ks
    ensures GroupSizes(rs, field, ks) == |InCategory(rs, field, c)| + GroupSizes(rs, field, ks - {c})
    decreases ks
  {
    var d := Pick(ks);
    if d != c {
      GroupSizesRemove(rs, field, ks - {d}, c);
      GroupSizesRemove(rs, field, ks - {c}, d);
      assert ks - {d} - {c} == ks - {c} - {d};
    }
  }

  /** Adding the last row adds one to the group sizes of any set of
      categories that holds its category, and nothing otherwise. */
  lemma {:induction false} GroupSizesStep(rs: seq<Investment>, field: Investment -> Option<string>, ks: set<string>)
    requires rs != []
    ensures GroupSizes(rs, field, ks) ==
            GroupSizes(rs[..|rs| - 1], field, ks) + (if CategoryOf(rs[|rs| - 1], field) in ks then 1 else 0)
    decreases ks
  {
    if ks != {} {
      GroupSizesStep(rs, field, ks - {Pick(ks)});
    }
  }

  /** The groups of the categories that occur cover every row once. */
  lemma {:induction false} GroupsCoverRows(rs: seq<Investment>, field: Investment -> Option<string>)
    ensures GroupSizes(rs, field, Categories(rs, field)) == |rs|
  {
    if rs != [] {
      var init := rs[..|rs| - 1];
      var c := CategoryOf(rs[|rs| - 1], field);
      GroupsCoverRows(init, field);
      assert rs[..|rs| - 1] == init;
      GroupSizesStep(rs, field, Categories(rs, field));
      if c !in Categories(init, field) {
        GroupSizesRemove(init, field, Categories(rs, field), c);
        assert Categories(rs, field) - {c} == Categories(init, field);
        AbsentCategoryEmpty(init, field, c);
      } else {
        assert Categories(rs, field) == Categories(init, field);
      }
    }
  }

  /** The counts of the result are the group sizes. */
  lemma {:induction false} CountSumIsGroupSizes(rs: seq<Investment>, field: Investment -> Option<string>, ks: set<string>)
    requires ks <= Categories(rs, field)
    ensures CountSum(CategoryTotalsOf(rs, field), ks) == GroupSizes(rs, field, ks)
    decreases ks
  {
    if ks != {} {
      CountSumIsGroupSizes(rs, field, ks - {Pick(ks)});
    }
  }

  /** Each row increments the count of exactly one category, so the counts
      add up to the number of rows. */
  lemma {:induction false} CountsAddUp(rs: seq<Investment>, field: Investment -> Option<string>)
    ensures CountSum(CategoryTotalsOf(rs, field), CategoryTotalsOf(rs, field).Keys) == |rs|
  {
    assert CategoryTotalsOf(rs, field).Keys == Categories(rs, field);
    CountSumIsGroupSizes(rs, field, Categories(rs, field));
    GroupsCoverRows(rs, field);
  }
}
