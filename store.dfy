/** The `investments` table behind `utils/supabase_client.py`, as the
    handlers use it: list every row in id order, update the rows with an id,
    insert a row. Whether the remote store accepts a write is not known in
    advance; it is a parameter of each write (`accepted`). */
module InvestmentStore {
  import opened Values
  import opened Records

  /** The rows with id `id`, in table order: what an update filtered on
      that id hands back. */
  function WithId(rows: seq<Investment>, id: int): (matched: seq<Investment>)
    ensures |matched| <= |rows|
  {
    if rows == [] then []
    else (if rows[0].id == id then [rows[0]] else []) + WithId(rows[1..], id)
  }

  /** The rows an update hands back are exactly the table's rows with that
      id. */
  lemma {:induction false} WithIdMembers(rows: seq<Investment>, id: int)
    ensures forall r | r in WithId(rows, id) :: r in rows && r.id == id
    ensures forall r | r in rows && r.id == id :: r in WithId(rows, id)
  {
    if rows != [] {
      WithIdMembers(rows[1..], id);
      assert rows == [rows[0]] + rows[1..];
    }
  }

  /** No row has the id: nothing matches. */
  lemma {:induction false} WithIdAbsent(rows: seq<Investment>, id: int)
    requires forall i | 0 <= i < |rows| :: rows[i].id != id
    ensures WithId(rows, id) == []
  {
    if rows != [] {
      WithIdAbsent(rows[1..], id);
    }
  }

  /** With unique ids, the rows with the id of row `k` are that row alone. */
  lemma {:induction false} WithIdOfRow(rows: seq<Investment>, k: nat)
    requires ById(rows) && k < |rows|
    ensures WithId(rows, rows[k].id) == [rows[k]]
  {
    if k == 0 {
      forall i | 0 <= i < |rows[1..]|
        ensures rows[1..][i].id != rows[0].id
      {
        assert rows[1..][i] == rows[i + 1];
      }
      WithIdAbsent(rows[1..], rows[0].id);
    } else {
      assert rows[0].id < rows[k].id;
      WithIdOfRow(rows[1..], k - 1);
    }
  }

  /** An update changes no id. */
  lemma UpdateByIdKeepsIds(rows: seq<Investment>, id: int, p: Patch)
    ensures forall i | 0 <= i < |rows| :: UpdateById(rows, id, p)[i].id == rows[i].id
  {
  }

  class Store {
    /** The table, in id order. */
    var rows: seq<Investment>
    /** The id the next inserted row receives. */
    var nextId: int

    /** Ids are increasing and all below `nextId`. */
    ghost predicate Valid()
      reads this
    {
      ById(rows) && forall i | 0 <= i < |rows| :: rows[i].id < nextId
    }

    constructor (initial: seq<Investment>, next: int)
      requires ById(initial) && forall i | 0 <= i < |initial| :: initial[i].id < next
      ensures Valid() && rows == initial && nextId == next
    {
      rows := initial;
      nextId := next;
    }

    /** `get_all_investments`: every row, ordered by id. */
    method ListAll() returns (all: seq<Investment>)
      requires Valid()
      ensures all == rows && ById(all)
    {
      all := rows;
    }

    /** `update_investment(id, data)`: when the store accepts, every row
        with that id gets the patch and the updated rows come back; when it
        does not, nothing changes and the answer is `None`. */
    method Update(id: int, patch: Patch, accepted: bool) returns (data: Option<seq<Investment>>)
      requires Valid()
      modifies this
      ensures Valid() && nextId == old(nextId)
      ensures accepted ==> rows == UpdateById(old(rows), id, patch) && data == Some(WithId(rows, id))
      ensures !accepted ==> rows == old(rows) && data == None
    {
      if accepted {
        UpdateByIdKeepsIds(rows, id, patch);
        rows := UpdateById(rows, id, patch);
        data := Some(WithId(rows, id));
      } else {
        data := None;
      }
    }

    /** `add_investment(data)`: when the store accepts, the row is appended
        under the next id and comes back; otherwise nothing changes and the
        answer is `None`. */
    method Insert(fields: Investment, accepted: bool) returns (data: Option<seq<Investment>>)
      requires Valid()
      modifies this
      ensures Valid()
      ensures accepted ==> rows == old(rows) + [fields.(id := old(nextId))] &&
                           nextId == old(nextId) + 1 && data == Some([fields.(id := old(nextId))])
      ensures !accepted ==> rows == old(rows) && nextId == old(nextId) && data == None
    {
      if accepted {
        var stored := fields.(id := nextId);
        rows := rows + [stored];
        nextId := nextId + 1;
        data := Some([stored]);
      } else {
        data := None;
      }
    }
  }

  /** Python truthiness of a store answer: a non-empty list. */
  predicate Succeeded(data: Option<seq<Investment>>) {
    data.Some? && data.value != []
  }
}
