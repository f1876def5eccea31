/** `api/pie-chart.py`: the composition view, which sorts every investment
    into one of seven buckets, adds up their money and turns the totals into
    percentages of the whole. */
module PieChart {
  import opened Values
  import opened Text
  import opened Records
  import opened Buckets
  import Tables

  /** The seven lists of the composition view, in the order of its labels. */
  const PieBuckets: seq<Bucket> :=
    [RentaFija, RentaVariable, Cryptomonedas, Acciones, Crowfounding, Epsv, CapitalRiesgo]

  /** `pie_labels` */
  const PieLabels: seq<string> :=
    ["RENTA FIJA", "RENTA VARIABLE", "CRYPTOMONEDAS", "ACCIONES", "CROWFOUNDING", "EPSV", "CAPITAL RIESGO & STARTUPS"]

  /** `custom_colors` */
  const PieColors: seq<string> :=
    ["#FF6B6B", "#48CAE4", "#F9C74F", "#6BCB77", "#4D96FF", "#BC6FF1", "#FFA500"]

  /** The bucket the composition view's `if`/`elif` chain appends a row to.
      It has no DCA rule. */
  function PieCategory(t: Option<string>): (b: Bucket)
    ensures b != Dca
  {
    var k := TypeKey(t);
    if Mentions(k, RentaFija) then RentaFija
    else if Mentions(k, RentaVariable) then RentaVariable
    else if Mentions(k, Cryptomonedas) then Cryptomonedas
    else if Mentions(k, Acciones) then Acciones
    else if Mentions(k, Crowfounding) then Crowfounding
    else if Mentions(k, Epsv) then Epsv
    else if Mentions(k, CapitalRiesgo) then CapitalRiesgo
    else RentaVariable
  }

  /** The chain is the phrase table read first-match-wins with renta
      variable as the default (see `FirstMatchWins`). */
  lemma {:induction false} PieFirstMatch(t: Option<string>)
    ensures PieCategory(t) == FirstMatch(Mentions, PieBuckets, RentaVariable, TypeKey(t), 0)
  {
    var k := TypeKey(t);
    var order := PieBuckets;
    assert FirstMatch(Mentions, order, RentaVariable, k, 7) == RentaVariable;
    assert FirstMatch(Mentions, order, RentaVariable, k, 6) == if Mentions(k, CapitalRiesgo) then CapitalRiesgo else RentaVariable;
    assert FirstMatch(Mentions, order, RentaVariable, k, 5) == if Mentions(k, Epsv) then Epsv else FirstMatch(Mentions, order, RentaVariable, k, 6);
    assert FirstMatch(Mentions, order, RentaVariable, k, 4) == if Mentions(k, Crowfounding) then Crowfounding else FirstMatch(Mentions, order, RentaVariable, k, 5);
    assert FirstMatch(Mentions, order, RentaVariable, k, 3) == if Mentions(k, Acciones) then Acciones else FirstMatch(Mentions, order, RentaVariable, k, 4);
    assert FirstMatch(Mentions, order, RentaVariable, k, 2) == if Mentions(k, Cryptomonedas) then Cryptomonedas else FirstMatch(Mentions, order, RentaVariable, k, 3);
    assert FirstMatch(Mentions, order, RentaVariable, k, 1) == if Mentions(k, RentaVariable) then RentaVariable else FirstMatch(Mentions, order, RentaVariable, k, 2);
    assert FirstMatch(Mentions, order, RentaVariable, k, 0) == if Mentions(k, RentaFija) then RentaFija else FirstMatch(Mentions, order, RentaVariable, k, 1);
  }

  /** Every bucket but DCA occurs once among the seven lists, so every row
      lands in exactly one of them. */
  lemma {:induction false} PieBucketsOnce(b: Bucket)
    requires b != Dca
    ensures Occurrences(PieBuckets, b) == 1
  {
    assert b in PieBuckets by {
      match b
      case RentaFija => assert PieBuckets[0] == b;
      case RentaVariable => assert PieBuckets[1] == b;
      case Cryptomonedas => assert PieBuckets[2] == b;
      case Acciones => assert PieBuckets[3] == b;
      case Crowfounding => assert PieBuckets[4] == b;
      case Epsv => assert PieBuckets[5] == b;
      case CapitalRiesgo => assert PieBuckets[6] == b;
    }
    OccursOnce(PieBuckets, b);
  }

  /** The two views agree on every row the table view does not file under
      DCA; a DCA row of the table view is renta fija or renta variable here. */
  lemma {:induction false} ViewsDivergeOnlyOnDca(t: Option<string>)
    ensures Tables.TableCategory(t) != Dca ==> Tables.TableCategory(t) == PieCategory(t)
    ensures Tables.TableCategory(t) == Dca ==> PieCategory(t) == RentaFija || PieCategory(t) == RentaVariable
  {
  }

  /** "DCA Renta Fija" is DCA in the table view but renta fija here. */
  lemma {:induction false} PieDcaExamples()
    ensures PieCategory(Some("DCA Renta Fija")) == RentaFija
    ensures Tables.TableCategory(Some("DCA Renta Fija")) == Dca
  {
    assert OccursAt("DCA RENTA FIJA", "DCA", 0);
    assert OccursAt("DCA RENTA FIJA", "RENTA FIJA", 4);
    UpperIs("DCA Renta Fija", "DCA RENTA FIJA");
  }

  /** "DCA Renta Variable" is renta variable here, while the table view
      files it under DCA (`Tables.TableDcaRenta`). */
  lemma {:induction false} PieDcaVariableExample()
    ensures PieCategory(Some("DCA Renta Variable")) == RentaVariable
  {
    ContainsNeedsChar("DCA RENTA VARIABLE", "RENTA FIJA", 6);
    assert OccursAt("DCA RENTA VARIABLE", "RENTA VARIABLE", 4);
    UpperIs("DCA Renta Variable", "DCA RENTA VARIABLE");
  }

  /** One bucket's `total_*`: its rows' `total_money`, a missing one read
      as 0. */
  function BucketTotal(rs: seq<Investment>, b: Bucket): real {
    Sum(Members(rs, PieCategory, b), Money)
  }

  /** `(total / overall_total) * 100 if overall_total > 0 else 0` */
  function Share(total: real, overall: real): (percentage: real)
    ensures overall > 0.0 ==> percentage * overall == total * 100.0
    ensures overall <= 0.0 ==> percentage == 0.0
  {
    if overall > 0.0 then (total / overall) * 100.0 else 0.0
  }

  /** The percentages of a list of totals. */
  function Shares(totals: seq<real>, overall: real): (percentages: seq<real>)
    ensures |percentages| == |totals|
  {
    seq(|totals|, j requires 0 <= j < |totals| => Share(totals[j], overall))
  }

  /** Shares of a positive whole add up to 100 (in exact arithmetic). */
  lemma {:induction false} SharesAddUp(totals: seq<real>)
    requires Total(totals) > 0.0
    ensures Total(Shares(totals, Total(totals))) == 100.0
  {
    assert Shares(totals, Total(totals)) == Percentages(totals, Total(totals));
    PercentagesAddUp(totals);
  }

  /** A whole that is not positive, negative totals included, shows every
      bucket at 0 percent. */
  lemma {:induction false} SharesOfNonPositive(totals: seq<real>, overall: real)
    requires overall <= 0.0
    ensures forall j :: 0 <= j < |totals| ==> Shares(totals, overall)[j] == 0.0
  {
  }

  /** The per-bucket sums, added up in bucket order, are the sum over the
      bucket lists. */
  lemma {:induction false} TotalOfBucketTotals(rs: seq<Investment>, bs: seq<Bucket>)
    ensures Total(seq(|bs|, j requires 0 <= j < |bs| => BucketTotal(rs, bs[j]))) == SumOver(rs, PieCategory, bs, Money)
  {
    if bs != [] {
      TotalOfBucketTotals(rs, bs[1..]);
      assert seq(|bs|, j requires 0 <= j < |bs| => BucketTotal(rs, bs[j]))[1..] ==
             seq(|bs[1..]|, j requires 0 <= j < |bs[1..]| => BucketTotal(rs, bs[1..][j]));
    }
  }

  /** The seven `total_*` values, in label order. */
  function BucketTotals(rs: seq<Investment>): (totals: seq<real>)
    ensures |totals| == 7
  {
    seq(7, j requires 0 <= j < 7 => BucketTotal(rs, PieBuckets[j]))
  }

  /** Because the seven lists partition the rows, `overall_total` is the
      sum of `total_money` over all rows. */
  lemma {:induction false} OverallIsTotalMoney(rs: seq<Investment>)
    ensures Total(BucketTotals(rs)) == Sum(rs, Money)
  {
    TotalOfBucketTotals(rs, PieBuckets);
    forall r | r in rs
      ensures Occurrences(PieBuckets, PieCategory(r.investmentType)) == 1
    {
      PieBucketsOnce(PieCategory(r.investmentType));
    }
    SumPartition(rs, PieCategory, PieBuckets, Money);
  }

  /** Two "Crypto" rows worth 300 and 700: the crypto bucket holds 1000,
      which is the whole, so it shows 100 percent. */
  lemma {:induction false} CryptoExample()
    ensures var a := Investment(1, "X", "A", None, None, None, Some(300.0), None, Some("Crypto"), "", "");
            var b := Investment(2, "Y", "B", None, None, None, Some(700.0), None, Some("Crypto"), "", "");
            BucketTotal([a, b], Cryptomonedas) == 1000.0 &&
            Sum([a, b], Money) == 1000.0 &&
            Share(BucketTotal([a, b], Cryptomonedas), Sum([a, b], Money)) == 100.0
  {
    var a := Investment(1, "X", "A", None, None, None, Some(300.0), None, Some("Crypto"), "", "");
    var b := Investment(2, "Y", "B", None, None, None, Some(700.0), None, Some("Crypto"), "", "");
    UpperIs("Crypto", "CRYPTO");
    ContainsNeedsChar("CRYPTO", "RENTA FIJA", 1);
    ContainsNeedsChar("CRYPTO", "RENTA VARIABLE", 1);
    assert OccursAt("CRYPTO", "CRYPTO", 0);
    assert PieCategory(Some("Crypto")) == Cryptomonedas;
    assert [a, b][..1] == [a];
    assert [a][..0] == [];
    assert Members([a, b], PieCategory, Cryptomonedas) == [a, b];
    assert [a, b][1..] == [b];
    assert [b][1..] == [];
    assert Money(a) == 300.0 && Money(b) == 700.0;
    assert Sum([b], Money) == 700.0;
  }

  /** One entry of `table_data`. */
  datatype PieRow = PieRow(color: string, name: string, total: real, percentage: real)

  /** The handler's answer: "No hay inversiones" with empty categories and a
      total of 0, or the labels, percentages, colours, totals and table. */
  datatype PieResponse =
    | NoInvestments
    | Composition(labels: seq<string>, values: seq<real>, colors: seq<string>,
                  totals: seq<real>, overall: real, table: seq<PieRow>)

  /** The handler after `get_all_investments`. */
  method Compose(investments: seq<Investment>) returns (response: PieResponse)
    ensures investments == [] <==> response.NoInvestments?
    ensures response.Composition? ==>
              response.labels == PieLabels && response.colors == PieColors &&
              response.totals == BucketTotals(investments) &&
              response.overall == Total(response.totals) == Sum(investments, Money) &&
              response.values == Shares(response.totals, response.overall)
    ensures response.Composition? ==>
              |response.table| == 7 &&
              forall j :: 0 <= j < 7 ==>
                response.table[j] == PieRow(PieColors[j], PieLabels[j], response.totals[j], response.values[j])
  {
    if investments == [] {
      return NoInvestments;
    }
    forall t: Option<string>
      ensures PieCategory(t) in PieBuckets
    {
      PieBucketsOnce(PieCategory(t));
    }
    var lists := Distribute(investments, PieCategory, PieBuckets);
    assert forall j :: 0 <= j < 7 ==> PieBuckets[j] in lists;
    var totals := seq(7, j requires 0 <= j < 7 => Sum(lists[PieBuckets[j]], Money));
    assert totals == BucketTotals(investments);
    var overall := Total(totals);
    OverallIsTotalMoney(investments);
    var values := Shares(totals, overall);
    var table := TableData(totals, values);
    response := Composition(PieLabels, values, PieColors, totals, overall, table);
  }

  /** The `zip` loop that builds `table_data`, one row per label. */
  method TableData(totals: seq<real>, values: seq<real>) returns (table: seq<PieRow>)
    requires |totals| == 7 && |values| == 7
    ensures |table| == 7
    ensures forall j :: 0 <= j < 7 ==> table[j] == PieRow(PieColors[j], PieLabels[j], totals[j], values[j])
  {
    table := [];
    for j := 0 to 7
      invariant |table| == j
      invariant forall h :: 0 <= h < j ==> table[h] == PieRow(PieColors[h], PieLabels[h], totals[h], values[h])
    {
      table := table + [PieRow(PieColors[j], PieLabels[j], totals[j], values[j])];
    }
  }
}
