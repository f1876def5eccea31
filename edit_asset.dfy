/** `api/edit-asset.py`: change the purchase value and/or the amount of the
    first investment with a given ISIN, or only refresh its price. */
module EditAsset {
  import opened Values
  import opened Records
  import opened Valuation
  import opened InvestmentStore

  /** The request body: not JSON, or the three fields the handler reads. */
  datatype EditBody =
    | Malformed
    | EditRequest(isin: Field<Scalar>, purchaseValue: Field<Scalar>, amount: Field<Scalar>)

  /** The handler's answers. */
  datatype EditResponse =
    | MissingIsin           // 400 "Campo 'isin' requerido"
    | NotFound              // 404 "Activo ... no encontrado"
    | Edited(row: Investment) // 200 with the first updated row
    | UpdateFailed          // 500 "Error al actualizar"
    | Crashed               // 500 from the outer `except`

  function Status(r: EditResponse): int {
    match r
    case MissingIsin => 400
    case NotFound => 404
    case Edited(_) => 200
    case _ => 500
  }

  /** `float(data.get(key, 0))`: a missing key reads 0; `None` when the
      conversion raises. */
  function Supplied(f: Field<Scalar>, parse: string -> Option<real>): Option<real> {
    match f
    case Absent => Some(0.0)
    case Null => None
    case Given(v) => ToFloat(v, parse)
  }

  /** `inv.get("isin") == isin`: only a JSON string equal to the stored
      ISIN matches. */
  predicate Matches(r: Investment, isin: Field<Scalar>) {
    isin == Given(Text(r.isin))
  }

  /** The first row at or after `from` whose ISIN matches. */
  function FirstFrom(rows: seq<Investment>, isin: Field<Scalar>, from: nat): (k: Option<nat>)
    requires from <= |rows|
    ensures k.Some? ==> from <= k.value < |rows| && Matches(rows[k.value], isin) &&
                        forall j | from <= j < k.value :: !Matches(rows[j], isin)
    ensures k.None? ==> forall j | from <= j < |rows| :: !Matches(rows[j], isin)
    decreases |rows| - from
  {
    if from == |rows| then None
    else if Matches(rows[from], isin) then Some(from)
    else FirstFrom(rows, isin, from + 1)
  }

  /** The lookup loop: stop at the first row whose ISIN matches. */
  method FindByIsin(investments: seq<Investment>, isin: Field<Scalar>) returns (index: Option<nat>)
    ensures index == FirstFrom(investments, isin, 0)
  {
    index := None;
    var i := 0;
    while i < |investments|
      invariant 0 <= i <= |investments|
      invariant FirstFrom(investments, isin, i) == FirstFrom(investments, isin, 0)
    {
      if Matches(investments[i], isin) {
        index := Some(i);
        break;
      }
      i := i + 1;
    }
  }

  /** The payload for the found row `r`, given the converted request values
      and the looked-up price: with a positive purchase value or amount the
      recompute branch, which writes both inputs (a value not above 0 keeps
      the stored one); otherwise the price-only branch. `None` when a stored
      value the branch needs is missing, so that `float(...)` raises. */
  function EditPatch(r: Investment, purchase: real, amount: real, current: real, now: string): (p: Option<Patch>)
    ensures p.None? <==> (purchase <= 0.0 && r.purchaseValue.None?) || (amount <= 0.0 && r.amount.None?)
    ensures p.Some? ==>
              var s := Apply(r, p.value);
              Consistent(s) && SameIdentity(s, r) && s.currentValue == Some(current) && s.updatedAt == now &&
              s.purchaseValue == (if purchase > 0.0 then Some(purchase) else r.purchaseValue) &&
              s.amount == (if amount > 0.0 then Some(amount) else r.amount)
    ensures p.Some? && purchase <= 0.0 && amount <= 0.0 ==> p.value.purchaseValue.None? && p.value.amount.None?
    ensures p.Some? && (purchase > 0.0 || amount > 0.0) ==> p.value.purchaseValue.Some? && p.value.amount.Some?
  {
    if purchase > 0.0 || amount > 0.0 then
      var newPurchase := if purchase > 0.0 then Some(purchase) else r.purchaseValue;
      var newAmount := if amount > 0.0 then Some(amount) else r.amount;
      if newPurchase.None? || newAmount.None? then None
      else
        InputsUpdateConsistent(r, newPurchase.value, newAmount.value, current, now);
        Some(InputsUpdate(newPurchase.value, newAmount.value, current, now))
    else if r.purchaseValue.None? || r.amount.None? then None
    else
      PriceUpdateConsistent(r, current, now);
      Some(PriceUpdate(r.purchaseValue.value, r.amount.value, current, now))
  }

  /** The answer and the table after a request. */
  datatype EditOutcome = EditOutcome(response: EditResponse, table: seq<Investment>)

  /** The handler as a function of the table, the request, the price
      source, `float` on strings, the store's acceptance and the clock. */
  function EditSpec(rows: seq<Investment>, body: EditBody, price: string -> real,
                    parse: string -> Option<real>, accepted: bool, now: string): (o: EditOutcome)
    ensures !o.response.Edited? ==> o.table == rows
    ensures o.response == MissingIsin <==> body.EditRequest? && body.isin.Absent?
    ensures o.response == NotFound <==>
              body.EditRequest? && !body.isin.Absent? &&
              Supplied(body.purchaseValue, parse).Some? && Supplied(body.amount, parse).Some? &&
              forall i | 0 <= i < |rows| :: !Matches(rows[i], body.isin)
    ensures o.response.Edited? || o.response == UpdateFailed ==>
              body.EditRequest? && FirstFrom(rows, body.isin, 0).Some?
    ensures o.response == Crashed <==>
              body.Malformed? ||
              (!body.isin.Absent? &&
               (Supplied(body.purchaseValue, parse).None? || Supplied(body.amount, parse).None? ||
                (FirstFrom(rows, body.isin, 0).Some? &&
                 var r := rows[FirstFrom(rows, body.isin, 0).value];
                 EditPatch(r, Supplied(body.purchaseValue, parse).value, Supplied(body.amount, parse).value,
                           price(r.isin), now).None?)))
    ensures body.EditRequest? && !body.isin.Absent? &&
            Supplied(body.purchaseValue, parse).Some? && Supplied(body.amount, parse).Some? &&
            FirstFrom(rows, body.isin, 0).Some? ==>
              var r := rows[FirstFrom(rows, body.isin, 0).value];
              var p := EditPatch(r, Supplied(body.purchaseValue, parse).value, Supplied(body.amount, parse).value,
                                 price(r.isin), now);
              p.Some? ==> (o.response.Edited? <==> accepted) && (!accepted ==> o.response == UpdateFailed)
  {
    match body
    case Malformed => EditOutcome(Crashed, rows)
    case EditRequest(isin, purchaseField, amountField) =>
      if isin.Absent? then EditOutcome(MissingIsin, rows)
      else
        var purchase := Supplied(purchaseField, parse);
        var amount := Supplied(amountField, parse);
        if purchase.None? || amount.None? then EditOutcome(Crashed, rows)
        else match FirstFrom(rows, isin, 0)
          case None => EditOutcome(NotFound, rows)
          case Some(k) =>
            var r := rows[k];
            var patch := EditPatch(r, purchase.value, amount.value, price(r.isin), now);
            if patch.None? then EditOutcome(Crashed, rows)
            else if !accepted then EditOutcome(UpdateFailed, rows)
            else
              var t := UpdateById(rows, r.id, patch.value);
              WithIdMembers(t, r.id);
              assert t[k] in t;
              var data := WithId(t, r.id);
              if data == [] then EditOutcome(UpdateFailed, t)
              else EditOutcome(Edited(data[0]), t)
  }

  /** The handler. */
  method Edit(store: Store, body: EditBody, price: string -> real, parse: string -> Option<real>,
              accepted: bool, now: string) returns (response: EditResponse)
    requires store.Valid()
    modifies store
    ensures store.Valid()
    ensures var o := EditSpec(old(store.rows), body, price, parse, accepted, now);
            response == o.response && store.rows == o.table
  {
    if body.Malformed? {
      return Crashed;
    }
    if body.isin.Absent? {
      return MissingIsin;
    }
    var purchase := Supplied(body.purchaseValue, parse);
    var amount := Supplied(body.amount, parse);
    if purchase.None? || amount.None? {
      return Crashed;
    }
    var investments := store.ListAll();
    var index := FindByIsin(investments, body.isin);
    if index.None? {
      return NotFound;
    }
    var current := investments[index.value];
    var patch := EditPatch(current, purchase.value, amount.value, price(current.isin), now);
    if patch.None? {
      return Crashed;
    }
    var data := store.Update(current.id, patch.value, accepted);
    if Succeeded(data) {
      response := Edited(data.value[0]);
    } else {
      response := UpdateFailed;
    }
  }

  /** A successful edit rewrites the first row with the requested ISIN and
      no other, and answers with that row as rewritten. */
  lemma EditTouchesOnlyTarget(rows: seq<Investment>, body: EditBody, price: string -> real,
                              parse: string -> Option<real>, accepted: bool, now: string)
    requires ById(rows)
    ensures var o := EditSpec(rows, body, price, parse, accepted, now);
            o.response.Edited? ==>
              var k := FirstFrom(rows, body.isin, 0).value;
              o.table == rows[k := o.response.row] &&
              o.response.row == Apply(rows[k], EditPatch(rows[k], Supplied(body.purchaseValue, parse).value,
                                                         Supplied(body.amount, parse).value, price(rows[k].isin), now).value)
  {
    var o := EditSpec(rows, body, price, parse, accepted, now);
    if o.response.Edited? {
      var k := FirstFrom(rows, body.isin, 0).value;
      var p := EditPatch(rows[k], Supplied(body.purchaseValue, parse).value,
                         Supplied(body.amount, parse).value, price(rows[k].isin), now).value;
      UpdateByIdAt(rows, k, p);
      var t := UpdateById(rows, rows[k].id, p);
      assert ById(t) by {
        UpdateByIdKeepsIds(rows, rows[k].id, p);
      }
      WithIdOfRow(t, k);
    }
  }

  /** An edit succeeds exactly when the request names an ISIN, both values
      convert, a row with that ISIN exists, the payload for it can be built
      and the store accepts the update. */
  lemma EditSucceedsIff(rows: seq<Investment>, body: EditBody, price: string -> real,
                        parse: string -> Option<real>, accepted: bool, now: string)
    ensures var o := EditSpec(rows, body, price, parse, accepted, now);
            o.response.Edited? <==>
              body.EditRequest? && !body.isin.Absent? &&
              Supplied(body.purchaseValue, parse).Some? && Supplied(body.amount, parse).Some? &&
              FirstFrom(rows, body.isin, 0).Some? && accepted &&
              var r := rows[FirstFrom(rows, body.isin, 0).value];
              EditPatch(r, Supplied(body.purchaseValue, parse).value, Supplied(body.amount, parse).value,
                        price(r.isin), now).Some?
  {
  }
}
