/** `api/tables.py`: the table view, which sorts every investment into one of
    eight buckets and counts them. */
module Tables {
  import opened Values
  import opened Text
  import opened Records
  import opened Buckets

  /** The eight lists of the table view, in the order of the response. */
  const TableBuckets: seq<Bucket> :=
    [Dca, RentaFija, RentaVariable, Cryptomonedas, Acciones, Crowfounding, Epsv, CapitalRiesgo]

  /** The test each branch of the table view's rule chain applies to the
      upper-cased type: the DCA branch asks for "DCA" together with a renta
      phrase, every other branch for its own phrase. */
  predicate TableRule(k: string, b: Bucket) {
    if b == Dca then Mentions(k, Dca) && (Mentions(k, RentaFija) || Mentions(k, RentaVariable))
    else Mentions(k, b)
  }

  /** The bucket the table view's `if`/`elif` chain appends a row to. */
  function TableCategory(t: Option<string>): (c: Bucket)
    ensures c in TableBuckets
    ensures c == Dca <==> Mentions(TypeKey(t), Dca) && (Mentions(TypeKey(t), RentaFija) || Mentions(TypeKey(t), RentaVariable))
  {
    var k := TypeKey(t);
    if TableRule(k, Dca) then Dca
    else if TableRule(k, RentaFija) then RentaFija
    else if TableRule(k, RentaVariable) then RentaVariable
    else if TableRule(k, Cryptomonedas) then Cryptomonedas
    else if TableRule(k, Acciones) then Acciones
    else if TableRule(k, Crowfounding) then Crowfounding
    else if TableRule(k, Epsv) then Epsv
    else if TableRule(k, CapitalRiesgo) then CapitalRiesgo
    else RentaVariable
  }

  /** The chain is the rule table read first-match-wins with renta variable
      as the default (see `FirstMatchWins`). */
  lemma {:induction false} TableFirstMatch(t: Option<string>)
    ensures TableCategory(t) == FirstMatch(TableRule, TableBuckets, RentaVariable, TypeKey(t), 0)
  {
    var k := TypeKey(t);
    var order := TableBuckets;
    assert FirstMatch(TableRule, order, RentaVariable, k, 8) == RentaVariable;
    assert FirstMatch(TableRule, order, RentaVariable, k, 7) == if TableRule(k, CapitalRiesgo) then CapitalRiesgo else RentaVariable;
    assert FirstMatch(TableRule, order, RentaVariable, k, 6) == if TableRule(k, Epsv) then Epsv else FirstMatch(TableRule, order, RentaVariable, k, 7);
    assert FirstMatch(TableRule, order, RentaVariable, k, 5) == if TableRule(k, Crowfounding) then Crowfounding else FirstMatch(TableRule, order, RentaVariable, k, 6);
    assert FirstMatch(TableRule, order, RentaVariable, k, 4) == if TableRule(k, Acciones) then Acciones else FirstMatch(TableRule, order, RentaVariable, k, 5);
    assert FirstMatch(TableRule, order, RentaVariable, k, 3) == if TableRule(k, Cryptomonedas) then Cryptomonedas else FirstMatch(TableRule, order, RentaVariable, k, 4);
    assert FirstMatch(TableRule, order, RentaVariable, k, 2) == if TableRule(k, RentaVariable) then RentaVariable else FirstMatch(TableRule, order, RentaVariable, k, 3);
    assert FirstMatch(TableRule, order, RentaVariable, k, 1) == if TableRule(k, RentaFija) then RentaFija else FirstMatch(TableRule, order, RentaVariable, k, 2);
    assert FirstMatch(TableRule, order, RentaVariable, k, 0) == if TableRule(k, Dca) then Dca else FirstMatch(TableRule, order, RentaVariable, k, 1);
  }

  /** Every bucket occurs once in the response, so every row is counted in
      exactly one list. */
  lemma {:induction false} TableBucketsOnce(b: Bucket)
    ensures Occurrences(TableBuckets, b) == 1
  {
    assert b in TableBuckets by {
      match b
      case Dca => assert TableBuckets[0] == b;
      case RentaFija => assert TableBuckets[1] == b;
      case RentaVariable => assert TableBuckets[2] == b;
      case Cryptomonedas => assert TableBuckets[3] == b;
      case Acciones => assert TableBuckets[4] == b;
      case Crowfounding => assert TableBuckets[5] == b;
      case Epsv => assert TableBuckets[6] == b;
      case CapitalRiesgo => assert TableBuckets[7] == b;
    }
    OccursOnce(TableBuckets, b);
  }

  /** The eight counts add up to `counts.total`, the number of rows. */
  lemma {:induction false} TableCountsAddUp(rs: seq<Investment>)
    ensures CountOver(rs, TableCategory, TableBuckets) == |rs|
  {
    forall r | r in rs
      ensures Occurrences(TableBuckets, TableCategory(r.investmentType)) == 1
    {
      TableBucketsOnce(TableCategory(r.investmentType));
    }
    CountPartition(rs, TableCategory, TableBuckets);
  }

  /** The rules test the upper-cased type, so the case of the stored type
      does not matter. */
  lemma {:induction false} TableIgnoresCase(s: string)
    ensures TableCategory(Some(Lower(s))) == TableCategory(Some(s))
    ensures TableCategory(Some(Upper(s))) == TableCategory(Some(s))
  {
    UpperOfLower(s);
    assert TypeKey(Some(Lower(s))) == TypeKey(Some(s));
    UpperOfUpper(s);
    assert TypeKey(Some(Upper(s))) == TypeKey(Some(s));
  }

  /** A missing, empty or unrecognised type goes to renta variable. */
  lemma {:induction false} TableDefault()
    ensures TableCategory(None) == RentaVariable
    ensures TableCategory(Some("")) == RentaVariable
    ensures TableCategory(Some("Otros")) == RentaVariable
  {
    UpperIs("Otros", "OTROS");
    ContainsNeedsChar("OTROS", "DCA", 0);
    ContainsNeedsChar("OTROS", "RENTA FIJA", 1);
    ContainsNeedsChar("OTROS", "RENTA VARIABLE", 1);
    ContainsNeedsChar("OTROS", "CRYPTO", 0);
    ContainsNeedsChar("OTROS", "ACCIONES", 0);
    ContainsNeedsChar("OTROS", "CROWFOUNDING", 0);
    ContainsNeedsChar("OTROS", "EPSV", 0);
    ContainsNeedsChar("OTROS", "CAPITAL RIESGO", 0);
  }

  /** "DCA" without a renta phrase is not DCA and falls through to the later
      rules. */
  lemma {:induction false} TableDcaFallsThrough()
    ensures TableCategory(Some("dca crypto")) == Cryptomonedas
  {
    UpperIs("dca crypto", "DCA CRYPTO");
    ContainsNeedsChar("DCA CRYPTO", "RENTA FIJA", 1);
    ContainsNeedsChar("DCA CRYPTO", "RENTA VARIABLE", 1);
    assert OccursAt("DCA CRYPTO", "CRYPTO", 4);
  }

  /** When two phrases occur the earlier rule wins. */
  lemma {:induction false} TableEarlierRuleWins()
    ensures TableCategory(Some("Renta Fija Acciones")) == RentaFija
  {
    UpperIs("Renta Fija Acciones", "RENTA FIJA ACCIONES");
    ContainsNeedsChar("RENTA FIJA ACCIONES", "DCA", 0);
    assert OccursAt("RENTA FIJA ACCIONES", "RENTA FIJA", 0);
  }

  /** "DCA" with either renta phrase, in any case, goes to DCA. */
  lemma {:induction false} TableDcaRenta()
    ensures TableCategory(Some("dca renta fija")) == Dca
    ensures TableCategory(Some("DCA Renta Variable")) == Dca
  {
    assert OccursAt("DCA RENTA FIJA", "DCA", 0);
    assert OccursAt("DCA RENTA FIJA", "RENTA FIJA", 4);
    assert OccursAt("DCA RENTA VARIABLE", "DCA", 0);
    assert OccursAt("DCA RENTA VARIABLE", "RENTA VARIABLE", 4);
    UpperIs("dca renta fija", "DCA RENTA FIJA");
    UpperIs("DCA Renta Variable", "DCA RENTA VARIABLE");
  }

  /** The `counts` object: the number of rows, and one length per list. */
  datatype Counts = Counts(total: nat, perBucket: map<Bucket, nat>)

  /** The `categories` and `counts` of a successful response. */
  datatype TablesResponse = TablesResponse(categories: map<Bucket, seq<Investment>>, counts: Counts)

  /** The handler after `get_all_investments`: an empty portfolio gives no
      lists and a total of 0; otherwise each of the eight lists holds, in
      input order, the rows the rule chain sends to it, and `counts` holds
      their lengths. */
  method Categorize(investments: seq<Investment>) returns (response: TablesResponse)
    ensures investments == [] ==> response == TablesResponse(map[], Counts(0, map[]))
    ensures investments != [] ==>
              response.categories.Keys == (set b | b in TableBuckets) &&
              (forall b :: b in response.categories ==> response.categories[b] == Members(investments, TableCategory, b))
    ensures investments != [] ==>
              response.counts.total == |investments| &&
              response.counts.perBucket.Keys == response.categories.Keys &&
              (forall b :: b in response.counts.perBucket ==> response.counts.perBucket[b] == |response.categories[b]|)
  {
    if investments == [] {
      return TablesResponse(map[], Counts(0, map[]));
    }
    forall t: Option<string>
      ensures TableCategory(t) in TableBuckets
    {
      TableBucketsOnce(TableCategory(t));
    }
    var lists := Distribute(investments, TableCategory, TableBuckets);
    var counts := map b | b in lists :: |lists[b]|;
    response := TablesResponse(lists, Counts(|investments|, counts));
  }
}
