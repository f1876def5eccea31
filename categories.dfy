/** `api/categories.py`: the per-asset ranking, which sorts the investments
    by their money, largest first, and gives each its share of the whole. */
module Categories {
  import opened Values
  import opened Records

  /** Puts `x` in front of the first row whose money does not exceed its
      own: one step of a stable sort by descending money for a row that
      came before all rows of `s`. */
  function InsertByMoney(x: Investment, s: seq<Investment>): (r: seq<Investment>)
    ensures |r| == |s| + 1
  {
    if s == [] then [x]
    else if Money(s[0]) <= Money(x) then [x] + s
    else [s[0]] + InsertByMoney(x, s[1..])
  }

  /** `sorted(investments, key=total_money, reverse=True)` */
  function SortByMoneyDesc(rs: seq<Investment>): (s: seq<Investment>)
    ensures |s| == |rs|
  {
    if rs == [] then [] else InsertByMoney(rs[0], SortByMoneyDesc(rs[1..]))
  }

  /** Money never increases along `s`. */
  ghost predicate Descending(s: seq<Investment>) {
    forall i, j :: 0 <= i < j < |s| ==> Money(s[i]) >= Money(s[j])
  }

  /** The rows of `rs` whose money is `v`, in order. */
  function WithMoney(rs: seq<Investment>, v: real): seq<Investment> {
    if rs == [] then []
    else (if Money(rs[0]) == v then [rs[0]] else []) + WithMoney(rs[1..], v)
  }

  lemma {:induction false} InsertPermutes(x: Investment, s: seq<Investment>)
    ensures multiset(InsertByMoney(x, s)) == multiset(s) + multiset{x}
  {
    if s != [] && Money(s[0]) > Money(x) {
      InsertPermutes(x, s[1..]);
      assert s == [s[0]] + s[1..];
    }
  }

  lemma {:induction false} InsertKeepsDescending(x: Investment, s: seq<Investment>)
    requires Descending(s)
    ensures Descending(InsertByMoney(x, s))
  {
    if s != [] && Money(s[0]) > Money(x) {
      var rest := s[1..];
      InsertKeepsDescending(x, rest);
      InsertPermutes(x, rest);
      var r := InsertByMoney(x, rest);
      forall j | 0 <= j < |r|
        ensures Money(s[0]) >= Money(r[j])
      {
        assert r[j] in multiset(r);
        if r[j] != x {
          assert r[j] in multiset(rest);
          var k :| 0 <= k < |rest| && rest[k] == r[j];
          assert s[k + 1] == r[j];
        }
      }
    }
  }

  lemma {:induction false} InsertAdds(x: Investment, s: seq<Investment>, f: Investment -> real)
    ensures Sum(InsertByMoney(x, s), f) == f(x) + Sum(s, f)
  {
    if s != [] && Money(s[0]) > Money(x) {
      InsertAdds(x, s[1..], f);
      assert ([s[0]] + InsertByMoney(x, s[1..]))[1..] == InsertByMoney(x, s[1..]);
    } else {
      assert ([x] + s)[1..] == s;
    }
  }

  lemma {:induction false} InsertKeepsTies(x: Investment, s: seq<Investment>, v: real)
    decreases s
    ensures WithMoney(InsertByMoney(x, s), v) ==
            (if Money(x) == v then [x] else []) + WithMoney(s, v)
  {
    if s == [] {
      WithMoneyCons(x, [], v);
    } else if Money(s[0]) <= Money(x) {
      WithMoneyCons(x, s, v);
    } else {
      InsertKeepsTies(x, s[1..], v);
      WithMoneyCons(s[0], InsertByMoney(x, s[1..]), v);
      WithMoneyCons(s[0], s[1..], v);
      assert [s[0]] + s[1..] == s;
    }
  }

  lemma WithMoneyCons(y: Investment, t: seq<Investment>, v: real)
    ensures WithMoney([y] + t, v) == (if Money(y) == v then [y] else []) + WithMoney(t, v)
  {
    assert ([y] + t)[1..] == t;
  }

  /** The sorted list is a permutation of the input. */
  lemma {:induction false} SortPermutes(rs: seq<Investment>)
    ensures multiset(SortByMoneyDesc(rs)) == multiset(rs)
  {
    if rs != [] {
      SortPermutes(rs[1..]);
      InsertPermutes(rs[0], SortByMoneyDesc(rs[1..]));
      assert rs == [rs[0]] + rs[1..];
    }
  }

  /** The sorted list is non-increasing in money. */
  lemma {:induction false} SortDescends(rs: seq<Investment>)
    ensures Descending(SortByMoneyDesc(rs))
  {
    if rs != [] {
      SortDescends(rs[1..]);
      InsertKeepsDescending(rs[0], SortByMoneyDesc(rs[1..]));
    }
  }

  /** The sort is stable: rows with the same money keep their input order. */
  lemma {:induction false} SortIsStable(rs: seq<Investment>, v: real)
    ensures WithMoney(SortByMoneyDesc(rs), v) == WithMoney(rs, v)
  {
    if rs != [] {
      SortIsStable(rs[1..], v);
      InsertKeepsTies(rs[0], SortByMoneyDesc(rs[1..]), v);
    }
  }

  /** Sorting does not change a sum over the rows. */
  lemma {:induction false} SortKeepsSum(rs: seq<Investment>, f: Investment -> real)
    ensures Sum(SortByMoneyDesc(rs), f) == Sum(rs, f)
  {
    if rs != [] {
      SortKeepsSum(rs[1..], f);
      InsertAdds(rs[0], SortByMoneyDesc(rs[1..]), f);
    }
  }

  /** One row of `table_data`; the colour column is not modelled. */
  datatype RankRow = RankRow(name: string, size: real, percentage: real)

  /** Why the handler answers 500: a row without `total_money` makes
      `row["total_money"]` raise, and a zero sum makes the percentage
      division raise. */
  datatype RankFailure = MissingTotalMoney | ZeroTotal

  /** The handler's answer: "No hay inversiones" with no graph and an empty
      table, the ranking, or an error. */
  datatype RankResponse =
    | NoInvestments
    | Ranking(table: seq<RankRow>, totalMoneySum: real, count: nat)
    | Failed(reason: RankFailure)

  /** Every row has its `total_money` key. */
  predicate AllHaveMoney(rs: seq<Investment>) {
    forall r | r in rs :: r.totalMoney.Some?
  }

  /** The `zip` loop that builds `table_data`: one row per position of the
      shortest of the three lists. */
  method TableData(labels: seq<string>, sizes: seq<real>, percentages: seq<real>) returns (table: seq<RankRow>)
    ensures |table| <= |labels| && |table| <= |sizes| && |table| <= |percentages|
    ensures |table| == |labels| || |table| == |sizes| || |table| == |percentages|
    ensures forall i :: 0 <= i < |table| ==> table[i] == RankRow(labels[i], sizes[i], percentages[i])
  {
    table := [];
    var i := 0;
    while i < |labels| && i < |sizes| && i < |percentages|
      invariant 0 <= i <= |labels| && i <= |sizes| && i <= |percentages|
      invariant |table| == i
      invariant forall h :: 0 <= h < i ==> table[h] == RankRow(labels[h], sizes[h], percentages[h])
    {
      table := table + [RankRow(labels[i], sizes[i], percentages[i])];
      i := i + 1;
    }
  }

  /** The handler after `get_all_investments`. */
  method Rank(investments: seq<Investment>) returns (response: RankResponse)
    ensures investments == [] <==> response.NoInvestments?
    ensures response == Failed(MissingTotalMoney) <==> investments != [] && !AllHaveMoney(investments)
    ensures response == Failed(ZeroTotal) <==>
              investments != [] && AllHaveMoney(investments) && Sum(investments, Money) == 0.0
    ensures response.Ranking? ==>
              response.count == |investments| &&
              response.totalMoneySum == Sum(investments, Money) &&
              |response.table| == |investments| &&
              forall i :: 0 <= i < |investments| ==>
                response.table[i].name == SortByMoneyDesc(investments)[i].assetName &&
                response.table[i].size == Money(SortByMoneyDesc(investments)[i]) &&
                response.table[i].percentage == (response.table[i].size / response.totalMoneySum) * 100.0
  {
    if investments == [] {
      return NoInvestments;
    }
    var sorted := SortByMoneyDesc(investments);
    SortPermutes(investments);
    if !AllHaveMoney(sorted) {
      var r :| r in sorted && r.totalMoney.None?;
      assert r in multiset(sorted);
      assert r in investments;
      return Failed(MissingTotalMoney);
    }
    forall r | r in investments
      ensures r.totalMoney.Some?
    {
      assert r in multiset(sorted);
    }
    var labels := seq(|sorted|, i requires 0 <= i < |sorted| => sorted[i].assetName);
    var sizes := seq(|sorted|, i requires 0 <= i < |sorted| => sorted[i].totalMoney.value);
    var totalMoneySum := Total(sizes);
    assert sizes == seq(|sorted|, i requires 0 <= i < |sorted| => Money(sorted[i]));
    MoneyTotal(sorted);
    SortKeepsSum(investments, Money);
    if totalMoneySum == 0.0 {
      return Failed(ZeroTotal);
    }
    var percentages := Percentages(sizes, totalMoneySum);
    var table := TableData(labels, sizes, percentages);
    response := Ranking(table, totalMoneySum, |investments|);
  }

  /** The percentages of a ranking add up to 100 (in exact arithmetic). */
  lemma {:induction false} RankingAddsUp(rs: seq<Investment>)
    requires AllHaveMoney(rs) && Sum(rs, Money) != 0.0
    ensures Total(Percentages(seq(|rs|, i requires 0 <= i < |rs| => Money(SortByMoneyDesc(rs)[i])), Sum(rs, Money))) == 100.0
  {
    var sorted := SortByMoneyDesc(rs);
    var sizes := seq(|rs|, i requires 0 <= i < |rs| => Money(sorted[i]));
    SortKeepsSum(rs, Money);
    MoneyTotal(sorted);
    assert sizes == seq(|sorted|, i requires 0 <= i < |sorted| => Money(sorted[i]));
    PercentagesAddUp(sizes);
  }

  lemma {:induction false} MoneyTotal(rs: seq<Investment>)
    ensures Total(seq(|rs|, i requires 0 <= i < |rs| => Money(rs[i]))) == Sum(rs, Money)
  {
    if rs != [] {
      MoneyTotal(rs[1..]);
      assert seq(|rs|, i requires 0 <= i < |rs| => Money(rs[i]))[1..] ==
             seq(|rs[1..]|, i requires 0 <= i < |rs[1..]| => Money(rs[1..][i]));
    }
  }
}
