/** `api/update-assets.py`: refresh every investment's price and the two
    derived columns, skipping the assets that have no market price. */
module UpdateAssets {
  import opened Values
  import opened Text
  import opened Records
  import opened Valuation
  import opened InvestmentStore

  /** The refresh filter: the lower-cased ISIN mentions neither
      crowdfunding nor venture capital. */
  predicate Tradable(isin: string) {
    !Contains(Lower(isin), "crowfounding") && !Contains(Lower(isin), "capital riesgo")
  }

  /** `float(inv["purchase_value"])` and `float(inv["amount"])`, which run
      for every row before the filter, do not raise. */
  predicate Priceable(r: Investment) {
    r.purchaseValue.Some? && r.amount.Some?
  }

  /** The update a row passing the filter receives, its price coming from `price`. */
  function RefreshPatch(r: Investment, price: string -> real, now: string): Patch
    requires Priceable(r)
  {
    PriceUpdate(r.purchaseValue.value, r.amount.value, price(r.isin), now)
  }

  /** The refreshed row is consistent, keeps its identity and both inputs,
      and carries the looked-up price and the request time. */
  lemma RefreshedRow(r: Investment, price: string -> real, now: string)
    requires Priceable(r)
    ensures var s := Apply(r, RefreshPatch(r, price, now));
            Consistent(s) && SameIdentity(s, r) &&
            s.purchaseValue == r.purchaseValue && s.amount == r.amount &&
            s.currentValue == Some(price(r.isin)) && s.updatedAt == now
  {
    PriceUpdateConsistent(r, price(r.isin), now);
  }

  /** The error entry of a row whose update came back empty. */
  function ErrorMessage(assetName: string): string {
    "Error al actualizar " + assetName
  }

  /** The loop's state: the table, `updated_count`, `errors`, the ISINs
      handed to the price source so far, and whether a row has raised. */
  datatype Progress = Progress(table: seq<Investment>, updated: nat, errors: seq<string>,
                               priced: seq<string>, aborted: bool)

  /** One pass of the loop body over row `r`, with `keep` the refresh filter
      (`Tradable` in the handler); the store accepts the update
      of row `id` when `accepts(id)`. */
  function Step(p: Progress, r: Investment, keep: string -> bool, price: string -> real, accepts: int -> bool, now: string): Progress {
    if p.aborted then p
    else if !Priceable(r) then p.(aborted := true)
    else if !keep(r.isin) then p
    else
      var table := if accepts(r.id) then UpdateById(p.table, r.id, RefreshPatch(r, price, now)) else p.table;
      var data := if accepts(r.id) then Some(WithId(table, r.id)) else None;
      if Succeeded(data) then Progress(table, p.updated + 1, p.errors, p.priced + [r.isin], false)
      else Progress(table, p.updated, p.errors + [ErrorMessage(r.assetName)], p.priced + [r.isin], false)
  }

  /** The loop over the rows `rs`, starting from the table `start`. */
  function Run(start: seq<Investment>, rs: seq<Investment>, keep: string -> bool, price: string -> real, accepts: int -> bool, now: string): Progress {
    if rs == [] then Progress(start, 0, [], [], false)
    else Step(Run(start, rs[..|rs| - 1], keep, price, accepts, now), rs[|rs| - 1], keep, price, accepts, now)
  }

  /** The handler's answer: nothing to update (200, count 0), the count and
      the errors (200, `None` for no errors), or a 500 when a row raised. */
  datatype RefreshResponse =
    | NothingToUpdate
    | Refreshed(updatedCount: nat, errors: Option<seq<string>>)
    | Aborted

  function Status(r: RefreshResponse): int {
    if r.Aborted? then 500 else 200
  }

  /** The answer after a finished loop. */
  function Respond(p: Progress): (r: RefreshResponse)
    ensures p.aborted <==> Status(r) == 500
    ensures !p.aborted ==> r.Refreshed? && r.updatedCount == p.updated
    ensures r.Refreshed? ==> (r.errors.None? <==> p.errors == []) && (r.errors.Some? ==> r.errors.value == p.errors)
  {
    if p.aborted then Aborted
    else Refreshed(p.updated, if p.errors == [] then None else Some(p.errors))
  }

  /** The handler after `get_all_investments`. */
  method RefreshAll(store: Store, price: string -> real, accepts: int -> bool, now: string) returns (response: RefreshResponse)
    requires store.Valid()
    modifies store
    ensures store.Valid()
    ensures old(store.rows) == [] ==> response == NothingToUpdate && store.rows == old(store.rows)
    ensures old(store.rows) != [] ==>
              var p := Run(old(store.rows), old(store.rows), Tradable, price, accepts, now);
              store.rows == p.table && response == Respond(p)
  {
    var investments := store.ListAll();
    if investments == [] {
      return NothingToUpdate;
    }
    var updated, errors, raised := RefreshRows(store, investments, Tradable, price, accepts, now);
    if raised {
      return Aborted;
    }
    response := Refreshed(updated, if errors == [] then None else Some(errors));
  }

  /** The loop over the listed rows, which ends the handler at a row that
      raises. */
  method RefreshRows(store: Store, investments: seq<Investment>, keep: string -> bool, price: string -> real, accepts: int -> bool, now: string)
    returns (updated: nat, errors: seq<string>, raised: bool)
    requires store.Valid() && store.rows == investments
    modifies store
    ensures store.Valid()
    ensures var p := Run(investments, investments, keep, price, accepts, now);
            store.rows == p.table && raised == p.aborted && updated == p.updated && errors == p.errors
  {
    updated, errors, raised := 0, [], false;
    ghost var priced := [];
    var i := 0;
    while i < |investments|
      invariant 0 <= i <= |investments|
      invariant store.Valid()
      invariant Run(investments, investments[..i], keep, price, accepts, now) == Progress(store.rows, updated, errors, priced, false)
    {
      RunStep(investments, investments, i + 1, keep, price, accepts, now);
      assert investments[..i + 1 - 1] == investments[..i];
      updated, errors, priced, raised := VisitRow(store, investments[i], keep, price, accepts, now, updated, errors, priced);
      if raised {
        RunAfterAbort(investments, investments, i + 1, |investments|, keep, price, accepts, now);
        assert investments[..|investments|] == investments;
        return;
      }
      i := i + 1;
    }
    assert investments[..i] == investments;
  }

  /** The loop model over the first `n` rows is one step after the model
      over the first `n - 1`. */
  lemma RunStep(start: seq<Investment>, rs: seq<Investment>, n: nat, keep: string -> bool, price: string -> real, accepts: int -> bool, now: string)
    requires 0 < n <= |rs|
    ensures Run(start, rs[..n], keep, price, accepts, now) == Step(Run(start, rs[..n - 1], keep, price, accepts, now), rs[n - 1], keep, price, accepts, now)
  {
    assert rs[..n][..n - 1] == rs[..n - 1];
  }

  /** One pass of the loop body: the `float` conversions, the filter, and
      for a row the filter `keep` passes, the `try` block with its count or error entry. */
  method VisitRow(store: Store, inv: Investment, keep: string -> bool, price: string -> real, accepts: int -> bool, now: string,
                  updated: nat, errors: seq<string>, ghost priced: seq<string>)
    returns (updated': nat, errors': seq<string>, ghost priced': seq<string>, raised: bool)
    requires store.Valid()
    modifies store
    ensures store.Valid()
    ensures Step(Progress(old(store.rows), updated, errors, priced, false), inv, keep, price, accepts, now) ==
            Progress(store.rows, updated', errors', priced', raised)
  {
    updated', errors', priced', raised := updated, errors, priced, false;
    if !Priceable(inv) {
      raised := true;
      return;
    }
    if keep(inv.isin) {
      var patch := RefreshPatch(inv, price, now);
      var data := store.Update(inv.id, patch, accepts(inv.id));
      if Succeeded(data) {
        updated' := updated + 1;
      } else {
        errors' := errors + [ErrorMessage(inv.assetName)];
      }
      priced' := priced + [inv.isin];
    }
  }

  /** Once a row has raised, the later rows change nothing. */
  lemma {:induction false} RunAfterAbort(start: seq<Investment>, rs: seq<Investment>, k: nat, m: nat,
                                         keep: string -> bool, price: string -> real, accepts: int -> bool, now: string)
    requires k <= m <= |rs| && Run(start, rs[..k], keep, price, accepts, now).aborted
    ensures Run(start, rs[..m], keep, price, accepts, now) == Run(start, rs[..k], keep, price, accepts, now)
    decreases m - k
  {
    if m > k {
      RunAfterAbort(start, rs, k, m - 1, keep, price, accepts, now);
      RunStep(start, rs, m, keep, price, accepts, now);
      StepFacts(Run(start, rs[..m - 1], keep, price, accepts, now), rs[m - 1], keep, price, accepts, now);
    }
  }

  /** What one step keeps: an aborted loop stays as it is; a step aborts
      exactly at a row without both inputs; it adds each row to exactly one
      of the count and the errors when it prices it; and it prices only a
      row the filter passes. */
  lemma StepFacts(p: Progress, r: Investment, keep: string -> bool, price: string -> real, accepts: int -> bool, now: string)
    ensures p.aborted ==> Step(p, r, keep, price, accepts, now) == p
    ensures Step(p, r, keep, price, accepts, now).aborted <==> p.aborted || !Priceable(r)
    ensures var q := Step(p, r, keep, price, accepts, now);
            q.updated + |q.errors| - |q.priced| == p.updated + |p.errors| - |p.priced|
    ensures var q := Step(p, r, keep, price, accepts, now);
            q.priced == p.priced || (q.priced == p.priced + [r.isin] && keep(r.isin))
  {
  }

  /** A row once the loop has passed it without raising: refreshed when it
      passes the filter and the store accepts, as it was otherwise. */
  function AfterRefresh(r: Investment, keep: string -> bool, price: string -> real, accepts: int -> bool, now: string): Investment
    requires Priceable(r)
  {
    if keep(r.isin) && accepts(r.id) then Apply(r, RefreshPatch(r, price, now)) else r
  }

  /** How many of `rs` pass the filter `keep` and have an update the store accepts. */
  function Updated(rs: seq<Investment>, keep: string -> bool, accepts: int -> bool): nat {
    if rs == [] then 0
    else Updated(rs[..|rs| - 1], keep, accepts) + (if keep(rs[|rs| - 1].isin) && accepts(rs[|rs| - 1].id) then 1 else 0)
  }

  /** The error entries of the rows of `rs` that pass `keep` and whose update the store
      refuses, in order. */
  function Failures(rs: seq<Investment>, keep: string -> bool, accepts: int -> bool): seq<string> {
    if rs == [] then []
    else Failures(rs[..|rs| - 1], keep, accepts) +
         (if keep(rs[|rs| - 1].isin) && !accepts(rs[|rs| - 1].id) then [ErrorMessage(rs[|rs| - 1].assetName)] else [])
  }

  /** The ISINs of the rows of `rs` that pass `keep`, in order. */
  function PricedIsins(rs: seq<Investment>, keep: string -> bool): seq<string> {
    if rs == [] then []
    else PricedIsins(rs[..|rs| - 1], keep) + (if keep(rs[|rs| - 1].isin) then [rs[|rs| - 1].isin] else [])
  }

  /** Every row the loop reaches without raising ends in exactly one of
      `updated_count` and `errors`, and the loop goes on after a failure. */
  lemma {:induction false} RunBalance(start: seq<Investment>, rs: seq<Investment>,
                                      keep: string -> bool, price: string -> real, accepts: int -> bool, now: string)
    ensures var p := Run(start, rs, keep, price, accepts, now);
            p.updated + |p.errors| == |p.priced|
  {
    if rs != [] {
      RunBalance(start, rs[..|rs| - 1], keep, price, accepts, now);
      StepFacts(Run(start, rs[..|rs| - 1], keep, price, accepts, now), rs[|rs| - 1], keep, price, accepts, now);
    }
  }

  /** Only ISINs that pass the filter reach the price source. */
  lemma {:induction false} RunPricesTradable(start: seq<Investment>, rs: seq<Investment>,
                                             keep: string -> bool, price: string -> real, accepts: int -> bool, now: string)
    ensures forall isin | isin in Run(start, rs, keep, price, accepts, now).priced :: keep(isin)
  {
    if rs != [] {
      RunPricesTradable(start, rs[..|rs| - 1], keep, price, accepts, now);
      StepFacts(Run(start, rs[..|rs| - 1], keep, price, accepts, now), rs[|rs| - 1], keep, price, accepts, now);
    }
  }

  /** The loop raises exactly when some row lacks its purchase value or
      amount, whether or not that row passes the filter. */
  lemma {:induction false} RunAborts(start: seq<Investment>, rs: seq<Investment>,
                                     keep: string -> bool, price: string -> real, accepts: int -> bool, now: string)
    ensures Run(start, rs, keep, price, accepts, now).aborted <==> exists i | 0 <= i < |rs| :: !Priceable(rs[i])
  {
    if rs != [] {
      var init := rs[..|rs| - 1];
      RunAborts(start, init, keep, price, accepts, now);
      StepFacts(Run(start, init, keep, price, accepts, now), rs[|rs| - 1], keep, price, accepts, now);
      if exists i | 0 <= i < |init| :: !Priceable(init[i]) {
        var i :| 0 <= i < |init| && !Priceable(init[i]);
        assert rs[i] == init[i];
      }
      if exists i | 0 <= i < |rs| :: !Priceable(rs[i]) {
        var i :| 0 <= i < |rs| && !Priceable(rs[i]);
        if i < |init| {
          assert init[i] == rs[i];
        }
      }
    }
  }

  /** Sequences of rows with the same ids in the same order are both in id
      order or neither. */
  lemma SameIdsById(a: seq<Investment>, b: seq<Investment>)
    requires ById(a) && |a| == |b| && forall i | 0 <= i < |a| :: a[i].id == b[i].id
    ensures ById(b)
  {
  }

  /** What one step does to a table whose ids are those of `rows`, at a
      row `k` with both inputs that no earlier step has touched. */
  lemma {:induction false} StepAt(rows: seq<Investment>, p: Progress, k: nat, keep: string -> bool, price: string -> real, accepts: int -> bool, now: string)
    requires ById(rows) && k < |rows| && Priceable(rows[k]) && !p.aborted
    requires |p.table| == |rows| && p.table[k] == rows[k]
    requires forall i | 0 <= i < |rows| :: p.table[i].id == rows[i].id
    ensures var r := rows[k];
            var q := Step(p, r, keep, price, accepts, now);
            !q.aborted &&
            q.table == p.table[k := AfterRefresh(r, keep, price, accepts, now)] &&
            q.updated == p.updated + (if keep(r.isin) && accepts(r.id) then 1 else 0) &&
            q.errors == p.errors + (if keep(r.isin) && !accepts(r.id) then [ErrorMessage(r.assetName)] else []) &&
            q.priced == p.priced + (if keep(r.isin) then [r.isin] else [])
  {
    var r := rows[k];
    if keep(r.isin) && accepts(r.id) {
      SameIdsById(rows, p.table);
      RefreshAccepted(rows, p.table, k, price, now);
    } else {
      assert p.table[k := AfterRefresh(r, keep, price, accepts, now)] == p.table;
    }
  }

  /** The loop has passed the first `n` rows of the table `rows` without
      raising: each of them is refreshed exactly when it passes the filter
      and the store accepts, and the later rows are untouched. */
  ghost predicate Midway(p: Progress, rows: seq<Investment>, n: nat, keep: string -> bool, price: string -> real, accepts: int -> bool, now: string)
    requires n <= |rows| && forall i | 0 <= i < n :: Priceable(rows[i])
  {
    !p.aborted && |p.table| == |rows| &&
    forall i | 0 <= i < |rows| :: p.table[i] == if i < n then AfterRefresh(rows[i], keep, price, accepts, now) else rows[i]
  }

  /** A step over the next row of the table keeps the loop midway, one row
      further on. */
  lemma StepMidway(rows: seq<Investment>, p: Progress, n: nat, keep: string -> bool, price: string -> real, accepts: int -> bool, now: string)
    requires ById(rows) && n < |rows| && forall i | 0 <= i <= n :: Priceable(rows[i])
    requires Midway(p, rows, n, keep, price, accepts, now)
    ensures var r := rows[n];
            var q := Step(p, r, keep, price, accepts, now);
            Midway(q, rows, n + 1, keep, price, accepts, now) &&
            q.updated == p.updated + (if keep(r.isin) && accepts(r.id) then 1 else 0) &&
            q.errors == p.errors + (if keep(r.isin) && !accepts(r.id) then [ErrorMessage(r.assetName)] else []) &&
            q.priced == p.priced + (if keep(r.isin) then [r.isin] else [])
  {
    assert p.table[n] == rows[n];
    forall i | 0 <= i < |rows|
      ensures p.table[i].id == rows[i].id
    {
      if i < n {
        assert p.table[i] == AfterRefresh(rows[i], keep, price, accepts, now);
      }
    }
    StepAt(rows, p, n, keep, price, accepts, now);
  }

  /** After the loop has passed the first `k` rows of the table, all of them
      with both inputs, each of those rows is refreshed exactly when it
      passes the filter and the store accepts, the later rows are untouched,
      and the tallies count those rows. */
  lemma {:induction false} RunTable(rows: seq<Investment>, k: nat, keep: string -> bool, price: string -> real, accepts: int -> bool, now: string)
    requires ById(rows) && k <= |rows|
    requires forall i | 0 <= i < k :: Priceable(rows[i])
    ensures var p := Run(rows, rows[..k], keep, price, accepts, now);
            !p.aborted && |p.table| == |rows| &&
            (forall i | 0 <= i < |rows| :: p.table[i] == if i < k then AfterRefresh(rows[i], keep, price, accepts, now) else rows[i]) &&
            p.updated == Updated(rows[..k], keep, accepts) &&
            p.errors == Failures(rows[..k], keep, accepts) &&
            p.priced == PricedIsins(rows[..k], keep)
  {
    RunMidway(rows, rows[..k], keep, price, accepts, now);
    RunTallies(rows, rows[..k], keep, price, accepts, now);
  }

  /** The table part of `RunTable`, over a prefix `rs` of the rows. */
  lemma {:induction false} RunMidway(rows: seq<Investment>, rs: seq<Investment>, keep: string -> bool, price: string -> real, accepts: int -> bool, now: string)
    requires ById(rows) && |rs| <= |rows| && rs == rows[..|rs|]
    requires forall i | 0 <= i < |rs| :: Priceable(rows[i])
    ensures Midway(Run(rows, rs, keep, price, accepts, now), rows, |rs|, keep, price, accepts, now)
  {
    if rs != [] {
      var init := rs[..|rs| - 1];
      assert init == rows[..|init|];
      assert rs[|init|] == rows[|init|];
      RunMidway(rows, init, keep, price, accepts, now);
      StepMidway(rows, Run(rows, init, keep, price, accepts, now), |init|, keep, price, accepts, now);
    }
  }

  /** The tally part of `RunTable`, over a prefix `rs` of the rows. */
  lemma {:induction false} RunTallies(rows: seq<Investment>, rs: seq<Investment>, keep: string -> bool, price: string -> real, accepts: int -> bool, now: string)
    requires ById(rows) && |rs| <= |rows| && rs == rows[..|rs|]
    requires forall i | 0 <= i < |rs| :: Priceable(rows[i])
    ensures var p := Run(rows, rs, keep, price, accepts, now);
            p.updated == Updated(rs, keep, accepts) && p.errors == Failures(rs, keep, accepts) && p.priced == PricedIsins(rs, keep)
  {
    if rs != [] {
      var init := rs[..|rs| - 1];
      assert init == rows[..|init|];
      assert rs[|init|] == rows[|init|];
      RunTallies(rows, init, keep, price, accepts, now);
      RunMidway(rows, init, keep, price, accepts, now);
      StepMidway(rows, Run(rows, init, keep, price, accepts, now), |init|, keep, price, accepts, now);
    }
  }

  /** An accepted update of row `k` of a table whose ids are those of
      `rows` rewrites that row alone and comes back with it. */
  lemma RefreshAccepted(rows: seq<Investment>, table: seq<Investment>, k: nat, price: string -> real, now: string)
    requires ById(table) && |table| == |rows| && k < |rows| && table[k] == rows[k] && Priceable(rows[k])
    requires forall i | 0 <= i < |rows| :: table[i].id == rows[i].id
    ensures var t := UpdateById(table, rows[k].id, RefreshPatch(rows[k], price, now));
            t == table[k := Apply(rows[k], RefreshPatch(rows[k], price, now))] &&
            WithId(t, rows[k].id) != []
  {
    var patch := RefreshPatch(rows[k], price, now);
    UpdateByIdAt(table, k, patch);
    var t := UpdateById(table, rows[k].id, patch);
    SameIdsById(table, t);
    WithIdOfRow(t, k);
  }

  /** When every row has both inputs, the handler answers 200 with one
      outcome per row passing the filter: the count of accepted updates, and one error
      per refused one. */
  lemma {:induction false} RefreshTally(rows: seq<Investment>, keep: string -> bool, price: string -> real, accepts: int -> bool, now: string)
    requires ById(rows) && forall i | 0 <= i < |rows| :: Priceable(rows[i])
    ensures var p := Run(rows, rows, keep, price, accepts, now);
            Respond(p).Refreshed? &&
            p.updated == Updated(rows, keep, accepts) && p.errors == Failures(rows, keep, accepts) &&
            p.updated + |p.errors| == |PricedIsins(rows, keep)|
  {
    RunTable(rows, |rows|, keep, price, accepts, now);
    assert rows[..|rows|] == rows;
    RunBalance(rows, rows, keep, price, accepts, now);
  }

  /** What a refresh may do to a row: keep its identity, purchase value and
      amount, and leave it whole unless it passes the filter and the store
      accepts its update. */
  predicate Spared(after: Investment, before: Investment, keep: string -> bool, accepts: int -> bool) {
    SameIdentity(after, before) &&
    after.purchaseValue == before.purchaseValue && after.amount == before.amount &&
    (!(keep(before.isin) && accepts(before.id)) ==> after == before)
  }

  /** Whatever the store answers and wherever the loop stops, no row
      changes its identity, purchase value or amount, and a row the filter
      rejects or the store refuses does not change at all. */
  lemma {:induction false} RunFrame(rows: seq<Investment>, k: nat, keep: string -> bool, price: string -> real, accepts: int -> bool, now: string)
    requires ById(rows) && k <= |rows|
    ensures var p := Run(rows, rows[..k], keep, price, accepts, now);
            |p.table| == |rows| && forall i | 0 <= i < |rows| :: Spared(p.table[i], rows[i], keep, accepts)
  {
    if k > 0 {
      RunFrame(rows, k - 1, keep, price, accepts, now);
      var p := Run(rows, rows[..k - 1], keep, price, accepts, now);
      var r := rows[k - 1];
      assert rows[..k][..k - 1] == rows[..k - 1];
      var q := Run(rows, rows[..k], keep, price, accepts, now);
      assert q == Step(p, r, keep, price, accepts, now);
      if !p.aborted && Priceable(r) && keep(r.isin) && accepts(r.id) {
        var patch := RefreshPatch(r, price, now);
        assert q.table == UpdateById(p.table, r.id, patch);
        RefreshSparesOthers(rows, p.table, k - 1, patch);
        assert q.table[k - 1] == Apply(p.table[k - 1], patch);
      } else {
        assert q.table == p.table;
      }
    }
  }

  /** The update of row `k` touches no row with another id. */
  lemma RefreshSparesOthers(rows: seq<Investment>, table: seq<Investment>, k: nat, patch: Patch)
    requires ById(rows) && |table| == |rows| && k < |rows|
    requires forall i | 0 <= i < |rows| :: table[i].id == rows[i].id
    ensures forall i | 0 <= i < |rows| && i != k :: UpdateById(table, rows[k].id, patch)[i] == table[i]
  {
    forall i | 0 <= i < |rows| && i != k
      ensures UpdateById(table, rows[k].id, patch)[i] == table[i]
    {
      if i < k {
        assert rows[i].id < rows[k].id;
      } else {
        assert rows[k].id < rows[i].id;
      }
    }
  }

  /** Of two tradable rows, A refused by the store and B accepted: one row
      updated, one error naming A. */
  lemma {:induction false} OneFailsOneSucceeds(price: string -> real, now: string)
    ensures var a := Investment(1, "A1", "A", Some(10.0), Some(100.0), None, None, None, None, "", "");
            var b := Investment(2, "B2", "B", Some(20.0), Some(50.0), None, None, None, None, "", "");
            var p := Run([a, b], [a, b], Tradable, price, id => id == 2, now);
            Respond(p) == Refreshed(1, Some(["Error al actualizar A"]))
  {
    var a := Investment(1, "A1", "A", Some(10.0), Some(100.0), None, None, None, None, "", "");
    var b := Investment(2, "B2", "B", Some(20.0), Some(50.0), None, None, None, None, "", "");
    var accepts := id => id == 2;
    LowerIs("A1", "a1");
    LowerIs("B2", "b2");
    ContainsNeedsChar("a1", "crowfounding", 0);
    ContainsNeedsChar("a1", "capital riesgo", 0);
    ContainsNeedsChar("b2", "crowfounding", 0);
    ContainsNeedsChar("b2", "capital riesgo", 0);
    RunTable([a, b], 2, Tradable, price, accepts, now);
    assert [a, b][..2] == [a, b];
    assert [a, b][..1] == [a];
    assert Tradable(a.isin) && Tradable(b.isin);
    assert Updated([a], Tradable, accepts) == 0;
    assert Failures([a], Tradable, accepts) == [ErrorMessage("A")];
    assert Updated([a, b], Tradable, accepts) == 1;
    assert Failures([a, b], Tradable, accepts) == [ErrorMessage("A")];
    var p := Run([a, b], [a, b], Tradable, price, accepts, now);
    assert p.updated == 1 && p.errors == [ErrorMessage("A")] && !p.aborted;
    assert ErrorMessage("A") == "Error al actualizar A";
  }
}
