/** `api/bank.py`: the fixed list of bank accounts and its totals row. */
module Bank {

  /** A row of `banks`: an account `(name, balance, rate %, note)`, or the
      `TOTALES` row appended at the end. */
  datatype BankRow =
    | Account(name: string, balance: real, rate: real, note: string)
    | TotalsRow(name: string, investment: real, result: real)

  /** The `totals` object of the answer. */
  datatype BankTotals = BankTotals(investment: real, result: real, accounts: int)

  /** The six accounts, as listed in the handler. */
  const Accounts: seq<BankRow> := [
    Account("Kutxabank Nomina", 6295.94, 0.0, ""),
    Account("Kutxabank Conjunta", 391.74, 0.0, ""),
    Account("Trade Republic", 2050.0, 1.71, ""),
    Account("Revolut", 300.0, 1.51, ""),
    Account("Bit2Me", 800.0, 0.0, ""),
    Account("My Investor", 900.0, 0.0, "")
  ]

  /** `sum(bank[1] for bank in banks)` */
  function Invested(rows: seq<BankRow>): real {
    if rows == [] then 0.0
    else (if rows[0].Account? then rows[0].balance else rows[0].investment) + Invested(rows[1..])
  }

  /** One account's balance after a year at its rate. */
  function Grown(row: BankRow): real
    requires row.Account?
  {
    row.balance + (row.balance * row.rate / 100.0)
  }

  /** `sum(balance * (1 + rate/100) for bank in banks if note == "")` */
  function Yielded(rows: seq<BankRow>): real
    requires forall r | r in rows :: r.Account?
  {
    if rows == [] then 0.0
    else (if rows[0].note == "" then Grown(rows[0]) else 0.0) + Yielded(rows[1..])
  }

  /** With no negative balance or rate, an account without a note never
      yields less than it holds, so the result is at least the sum of the
      balances of those accounts. */
  lemma {:induction false} YieldCoversBalances(rows: seq<BankRow>)
    requires forall r | r in rows :: r.Account? && r.balance >= 0.0 && r.rate >= 0.0 && r.note == ""
    ensures Yielded(rows) >= Invested(rows)
  {
    if rows != [] {
      YieldCoversBalances(rows[1..]);
      assert rows[0] in rows;
      assert rows[0].balance * rows[0].rate >= 0.0;
    }
  }

  /** The handler: both sums over the six accounts, then the `TOTALES` row
      appended, so it is counted in neither sum nor in `accounts`. */
  method Report() returns (banks: seq<BankRow>, totals: BankTotals)
    ensures |banks| == 7 && banks[..6] == Accounts
    ensures banks[6] == TotalsRow("TOTALES", totals.investment, totals.result)
    ensures totals.investment == Invested(Accounts) == 10737.68
    ensures totals.result == Yielded(Accounts) == 10777.265
    ensures totals.accounts == |banks| - 1 == 6
  {
    banks := Accounts;
    var investment := Invested(banks);
    var result := Yielded(banks);
    banks := banks + [TotalsRow("TOTALES", investment, result)];
    totals := BankTotals(investment, result, |banks| - 1);
  }
}
