/** `api/add-asset.py`: validate a new investment, value it at the current
    price and insert it. */
module AddAsset {
  import opened Values
  import opened Records
  import opened YFinanceHelper
  import opened Calculations
  import opened Valuation
  import opened InvestmentStore
  import Buckets
  import Tables
  import PieChart

  /** The request body: not JSON, or the fields the handler reads. The
      ISIN, name and type are JSON strings here. */
  datatype AddBody =
    | Malformed
    | AddRequest(isin: Field<string>, assetName: Field<string>, purchaseValue: Field<Scalar>,
                 amount: Field<Scalar>, investmentType: Field<string>)

  /** `required_fields`, in the order they are checked. */
  const RequiredFields: seq<string> := ["isin", "asset_name", "purchase_value", "amount"]

  /** `field in data and data[field]` for the `i`-th required field. */
  predicate Present(req: AddBody, i: nat)
    requires req.AddRequest?
  {
    if i == 0 then TruthyText(req.isin)
    else if i == 1 then TruthyText(req.assetName)
    else if i == 2 then Truthy(req.purchaseValue)
    else Truthy(req.amount)
  }

  /** The validation loop from the `i`-th field on: the first field that is
      missing or falsy. */
  function MissingFrom(req: AddBody, i: nat): (m: Option<nat>)
    requires req.AddRequest? && i <= 4
    ensures m.Some? ==> i <= m.value < 4 && !Present(req, m.value) &&
                        forall j | i <= j < m.value :: Present(req, j)
    ensures m.None? ==> forall j | i <= j < 4 :: Present(req, j)
    decreases 4 - i
  {
    if i == 4 then None
    else if !Present(req, i) then Some(i)
    else MissingFrom(req, i + 1)
  }

  /** `data.get("investment_type", "Otros")` */
  function TypeOf(f: Field<string>): (t: Option<string>)
    ensures f.Absent? ==> t == Some("Otros")
    ensures f.Null? ==> t.None?
    ensures f.Given? ==> t == Some(f.value)
  {
    match f
    case Absent => Some("Otros")
    case Null => None
    case Given(s) => Some(s)
  }

  /** The row the handler builds for a validated request at price
      `current`; the store assigns its id. `None` when `float` raises or
      the converted purchase value is 0, so that the unguarded division
      raises. */
  function NewRecord(req: AddBody, current: real, parse: string -> Option<real>, now: string): (r: Option<Investment>)
    requires req.AddRequest? && MissingFrom(req, 0).None?
    ensures r.None? <==>
              ToFloat(req.purchaseValue.value, parse).None? || ToFloat(req.amount.value, parse).None? ||
              ToFloat(req.purchaseValue.value, parse) == Some(0.0)
    ensures r.Some? ==>
              Consistent(r.value) &&
              r.value.isin == req.isin.value && r.value.assetName == req.assetName.value &&
              r.value.purchaseValue == ToFloat(req.purchaseValue.value, parse) &&
              r.value.amount == ToFloat(req.amount.value, parse) &&
              r.value.currentValue == Some(current) &&
              r.value.investmentType == TypeOf(req.investmentType) &&
              r.value.createdAt == now && r.value.updatedAt == now
  {
    assert Present(req, 0) && Present(req, 1);
    var purchase := ToFloat(req.purchaseValue.value, parse);
    var amount := ToFloat(req.amount.value, parse);
    if purchase.None? || amount.None? || purchase.value == 0.0 then None
    else
      var pl := ((current - purchase.value) / purchase.value) * 100.0;
      Some(Investment(0, req.isin.value, req.assetName.value, purchase, amount, Some(current),
                      Some(TotalMoney(amount.value, pl)), Some(pl), TypeOf(req.investmentType), now, now))
  }

  /** The handler's answers. */
  datatype AddResponse =
    | InvalidJson              // 400 "JSON inválido"
    | MissingField(field: string) // 400 "Campo requerido faltante: ..."
    | Crashed                  // 500 from the outer `except`
    | InsertFailed             // 500 "Error al insertar en la base de datos"
    | Created(row: Investment) // 201 with the stored row

  function Status(r: AddResponse): int {
    match r
    case InvalidJson => 400
    case MissingField(_) => 400
    case Created(_) => 201
    case _ => 500
  }

  /** The answer for a request, the store giving the row id `nextId` when it
      accepts. */
  function AddSpec(body: AddBody, price: string -> real, parse: string -> Option<real>,
                   accepted: bool, now: string, nextId: int): (r: AddResponse)
    ensures r == InvalidJson <==> body.Malformed?
    ensures r.MissingField? <==> body.AddRequest? && MissingFrom(body, 0).Some?
    ensures r.MissingField? ==> r.field == RequiredFields[MissingFrom(body, 0).value]
    ensures r.Created? ==> accepted && r.row.id == nextId && Consistent(r.row)
    ensures r == InsertFailed ==> !accepted
    ensures body.AddRequest? && MissingFrom(body, 0).None? ==>
              var n := NewRecord(body, price(body.isin.value), parse, now);
              (n.None? <==> r == Crashed) &&
              (n.Some? ==> r == if accepted then Created(n.value.(id := nextId)) else InsertFailed)
  {
    match body
    case Malformed => InvalidJson
    case AddRequest(isin, _, _, _, _) =>
      match MissingFrom(body, 0)
      case Some(i) => MissingField(RequiredFields[i])
      case None =>
        assert Present(body, 0);
        match NewRecord(body, price(isin.value), parse, now)
        case None => Crashed
        case Some(row) => if accepted then Created(row.(id := nextId)) else InsertFailed
  }

  /** The handler. */
  method Add(store: Store, body: AddBody, price: string -> real, parse: string -> Option<real>,
             accepted: bool, now: string) returns (response: AddResponse)
    requires store.Valid()
    modifies store
    ensures store.Valid()
    ensures response == AddSpec(body, price, parse, accepted, now, old(store.nextId))
    ensures response.Created? ==> store.rows == old(store.rows) + [response.row]
    ensures !response.Created? ==> store.rows == old(store.rows)
  {
    if body.Malformed? {
      return InvalidJson;
    }
    var missing := MissingFrom(body, 0);
    if missing.Some? {
      return MissingField(RequiredFields[missing.value]);
    }
    assert Present(body, 0);
    var row := NewRecord(body, price(body.isin.value), parse, now);
    if row.None? {
      return Crashed;
    }
    var data := store.Insert(row.value, accepted);
    if Succeeded(data) {
      response := Created(data.value[0]);
    } else {
      response := InsertFailed;
    }
  }

  /** A numeric zero purchase value is stopped by the required-field check,
      so the unguarded division only sees a non-zero number; the text "0"
      passes that check and the division raises. */
  lemma ZeroPurchaseValue(isin: string, name: string, amount: Scalar, t: Field<string>, price: string -> real,
                          parse: string -> Option<real>, accepted: bool, now: string, nextId: int)
    requires isin != "" && name != ""
    ensures AddSpec(AddRequest(Given(isin), Given(name), Given(Number(0.0)), Given(amount), t),
                    price, parse, accepted, now, nextId) == MissingField("purchase_value")
    ensures parse("0") == Some(0.0) && Truthy(Given(amount)) ==>
              AddSpec(AddRequest(Given(isin), Given(name), Given(Text("0")), Given(amount), t),
                      price, parse, accepted, now, nextId) == Crashed
  {
    var req := AddRequest(Given(isin), Given(name), Given(Number(0.0)), Given(amount), t);
    assert Present(req, 0) && Present(req, 1) && !Present(req, 2);
    assert MissingFrom(req, 0) == Some(2);
    var req2 := AddRequest(Given(isin), Given(name), Given(Text("0")), Given(amount), t);
    if parse("0") == Some(0.0) && Truthy(Given(amount)) {
      assert Present(req2, 0) && Present(req2, 1) && Present(req2, 2) && Present(req2, 3);
      assert MissingFrom(req2, 0).None?;
    }
  }

  /** A request is created exactly when it is complete, its values convert,
      its purchase value is not 0 and the store accepts it; the created row
      holds the request's ISIN, name, values and type at the looked-up
      price. */
  lemma AddSucceedsIff(body: AddBody, price: string -> real, parse: string -> Option<real>,
                       accepted: bool, now: string, nextId: int)
    ensures var r := AddSpec(body, price, parse, accepted, now, nextId);
            r.Created? <==>
              body.AddRequest? && MissingFrom(body, 0).None? && accepted &&
              ToFloat(body.purchaseValue.value, parse).Some? && ToFloat(body.amount.value, parse).Some? &&
              ToFloat(body.purchaseValue.value, parse) != Some(0.0)
    ensures var r := AddSpec(body, price, parse, accepted, now, nextId);
            r.Created? ==>
              r.row.isin == body.isin.value && r.row.assetName == body.assetName.value &&
              r.row.purchaseValue == ToFloat(body.purchaseValue.value, parse) &&
              r.row.amount == ToFloat(body.amount.value, parse) &&
              r.row.currentValue == Some(price(body.isin.value)) &&
              r.row.investmentType == TypeOf(body.investmentType)
  {
  }

  /** An investment created without a type is stored as "Otros", which
      both views file under renta variable. */
  lemma UntypedIsRentaVariable(row: Investment)
    requires row.investmentType == TypeOf(Absent)
    ensures Tables.TableCategory(row.investmentType) == Buckets.RentaVariable
    ensures PieChart.PieCategory(row.investmentType) == Buckets.RentaVariable
  {
    Tables.TableDefault();
    PieChart.ViewsDivergeOnlyOnDca(row.investmentType);
  }

  /** The stored percentage and money are the shared formulas of the price
      source's module and of `calculate_total_money`. */
  lemma CreatedFollowsFormulas(body: AddBody, price: string -> real, parse: string -> Option<real>,
                               accepted: bool, now: string, nextId: int)
    ensures var r := AddSpec(body, price, parse, accepted, now, nextId);
            r.Created? ==>
              r.row.profitLoss == Some(ProfitLoss(Some(Number(r.row.purchaseValue.value)), Some(Number(r.row.currentValue.value)), parse)) &&
              r.row.totalMoney == Some(TotalMoney(r.row.amount.value, r.row.profitLoss.value))
  {
    var r := AddSpec(body, price, parse, accepted, now, nextId);
    if r.Created? {
      ProfitLossOfNumbers(r.row.purchaseValue.value, r.row.currentValue.value, parse);
    }
  }
}
