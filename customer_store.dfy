/**
 * The `customers` table of src/database.py, held in memory: a map from the
 * INTEGER PRIMARY KEY to the row, plus the AUTOINCREMENT counter. Queries
 * without ORDER BY are modelled as a scan in ascending id order, which is the
 * order SQLite returns a rowid table in.
 */
module CustomerStore {
  import opened Wrappers

  /** The column default of `call_status`, and the value `fetch_due_customers` selects on. */
  const PENDING := "Pending"

  /** One row; `notes` is None while the column holds NULL (it has no default). */
  datatype Customer = Customer(
    id: int,
    name: string,
    phone: string,
    dueDate: string,
    loanAmount: string,
    callStatus: string,
    notes: Option<string>)

  /** The values a caller supplies for a new row. */
  datatype NewCustomer = NewCustomer(name: string, phone: string, dueDate: string, loanAmount: string)

  type Rows = map<int, Customer>

  /** Every row is stored under its own id. */
  ghost predicate Keyed(rows: Rows) {
    forall id :: id in rows ==> rows[id].id == id
  }

  /** Keyed, and every id lies in [1, nextId), below the AUTOINCREMENT counter. */
  ghost predicate WellFormed(rows: Rows, nextId: int) {
    1 <= nextId && Keyed(rows) && forall id :: id in rows ==> 1 <= id < nextId
  }

  predicate IsPending(c: Customer) {
    c.callStatus == PENDING
  }

  /** A scan of the ids lo .. hi-1 in ascending order, keeping the rows `keep` accepts. */
  function Where(rows: Rows, lo: int, hi: int, keep: Customer -> bool): (r: seq<Customer>)
    requires Keyed(rows)
    ensures forall c :: c in r ==> lo <= c.id < hi && c.id in rows && rows[c.id] == c && keep(c)
    ensures forall id :: lo <= id < hi && id in rows && keep(rows[id]) ==> rows[id] in r
    ensures forall i, j :: 0 <= i < j < |r| ==> r[i].id < r[j].id
    decreases hi - lo
  {
    if hi <= lo then []
    else (if lo in rows && keep(rows[lo]) then [rows[lo]] else []) + Where(rows, lo + 1, hi, keep)
  }

  /** The rows whose phone is `phone`, in ascending id order. */
  function WithPhone(rows: Rows, nextId: int, phone: string): seq<Customer>
    requires Keyed(rows)
  {
    Where(rows, 1, nextId, (c: Customer) => c.phone == phone)
  }

  /** `UPDATE customers SET call_status = ?, notes = ? WHERE id = ?` on a table value. */
  function Logged(rows: Rows, id: int, status: string, notes: string): (r: Rows)
    ensures r.Keys == rows.Keys
    ensures id in rows ==> r[id] == rows[id].(callStatus := status, notes := Some(notes))
    ensures forall k :: k in rows && k != id ==> r[k] == rows[k]
  {
    if id in rows then rows[id := rows[id].(callStatus := status, notes := Some(notes))] else rows
  }

  /** The row a seeded customer is inserted as: status 'Pending' and empty notes, both given explicitly. */
  function SeededRow(id: int, c: NewCustomer): Customer {
    Customer(id, c.name, c.phone, c.dueDate, c.loanAmount, PENDING, Some(""))
  }

  class Database {
    var rows: Rows
    var nextId: int

    ghost predicate Valid()
      reads this
    {
      WellFormed(rows, nextId)
    }

    /** `create_table` on a database file that does not hold the table yet. */
    constructor ()
      ensures Valid()
      ensures rows == map[] && nextId == 1
    {
      rows := map[];
      nextId := 1;
    }

    /**
     * An INSERT naming only name, phone, due_date and loan_amount: the row gets
     * the next id, `call_status` its column default 'Pending' and `notes` NULL.
     */
    method Insert(c: NewCustomer) returns (id: int)
      requires Valid()
      modifies this
      ensures Valid()
      ensures id == old(nextId) && nextId == id + 1 && id !in old(rows)
      ensures rows == old(rows)[id := Customer(id, c.name, c.phone, c.dueDate, c.loanAmount, PENDING, None)]
    {
      id := nextId;
      rows := rows[id := Customer(id, c.name, c.phone, c.dueDate, c.loanAmount, PENDING, None)];
      nextId := nextId + 1;
    }

    /** The `executemany` INSERT of `seed_data`, one row per entry of the batch, in order. */
    method Seed(batch: seq<NewCustomer>)
      requires Valid()
      modifies this
      ensures Valid()
      ensures nextId == old(nextId) + |batch|
      ensures forall id :: id in rows <==> id in old(rows) || old(nextId) <= id < nextId
      ensures forall id :: id in old(rows) ==> rows[id] == old(rows)[id]
      ensures forall k :: 0 <= k < |batch| ==> rows[old(nextId) + k] == SeededRow(old(nextId) + k, batch[k])
    {
      var k := 0;
      while k < |batch|
        invariant 0 <= k <= |batch|
        invariant Valid()
        invariant nextId == old(nextId) + k
        invariant forall id :: id in rows <==> id in old(rows) || old(nextId) <= id < nextId
        invariant forall id :: id in old(rows) ==> rows[id] == old(rows)[id]
        invariant forall j :: 0 <= j < k ==> rows[old(nextId) + j] == SeededRow(old(nextId) + j, batch[j])
      {
        rows := rows[nextId := SeededRow(nextId, batch[k])];
        nextId := nextId + 1;
        k := k + 1;
      }
    }

    /** `fetch_due_customers`: exactly the rows whose status is 'Pending', in ascending id order. */
    function FetchDueCustomers(): (r: seq<Customer>)
      reads this
      requires Valid()
      ensures forall c :: c in r <==> c.id in rows && rows[c.id] == c && c.callStatus == PENDING
      ensures forall i, j :: 0 <= i < j < |r| ==> r[i].id < r[j].id
    {
      Where(rows, 1, nextId, IsPending)
    }

    /** Every row, in ascending id order. */
    function FetchAllCustomers(): (r: seq<Customer>)
      reads this
      requires Valid()
      ensures forall c :: c in r <==> c.id in rows && rows[c.id] == c
      ensures |r| == |rows|
      ensures forall i, j :: 0 <= i < j < |r| ==> r[i].id < r[j].id
    {
      var r := Where(rows, 1, nextId, (c: Customer) => true);
      AllRowsListed(rows, r);
      r
    }

    /** The row with this id, or None. */
    function FetchCustomerById(id: int): (r: Option<Customer>)
      reads this
      ensures r.Some? <==> id in rows
      ensures r.Some? ==> r.value == rows[id]
    {
      if id in rows then Some(rows[id]) else None
    }

    /** The lowest-id row with this phone number, or None when no row has it. */
    function GetCustomerByPhone(phone: string): (r: Option<Customer>)
      reads this
      requires Valid()
      ensures r.None? <==> forall id :: id in rows ==> rows[id].phone != phone
      ensures r.Some? ==> r.value.id in rows && rows[r.value.id] == r.value && r.value.phone == phone
      ensures r.Some? ==> forall id :: id in rows && id < r.value.id ==> rows[id].phone != phone
    {
      var matches := WithPhone(rows, nextId, phone);
      if |matches| == 0 then None else Some(matches[0])
    }

    /** `log_call_outcome`: the row's status and notes are replaced; nothing else changes. */
    method LogCallOutcome(id: int, status: string, notes: string)
      requires Valid()
      modifies this
      ensures Valid()
      ensures rows == Logged(old(rows), id, status, notes) && nextId == old(nextId)
    {
      if id in rows {
        rows := rows[id := rows[id].(callStatus := status, notes := Some(notes))];
      }
    }
  }

  /** The list with the row of customer `id` taken out, order kept. */
  function Without(cs: seq<Customer>, id: int): (r: seq<Customer>)
    ensures forall c :: c in r <==> c in cs && c.id != id
  {
    if cs == [] then []
    else (if cs[0].id == id then [] else [cs[0]]) + Without(cs[1..], id)
  }

  /**
   * Logging a status other than 'Pending' for a customer takes exactly that
   * customer off the due list and leaves the rest of the list, and its order, as it was.
   */
  lemma {:induction false} LoggedLeavesDue(rows: Rows, lo: int, hi: int, id: int, status: string, notes: string)
    requires Keyed(rows) && status != PENDING
    ensures Keyed(Logged(rows, id, status, notes))
    ensures Where(Logged(rows, id, status, notes), lo, hi, IsPending) == Without(Where(rows, lo, hi, IsPending), id)
    decreases hi - lo
  {
    var logged := Logged(rows, id, status, notes);
    if lo < hi {
      LoggedLeavesDue(rows, lo + 1, hi, id, status, notes);
      var rest := Where(rows, lo + 1, hi, IsPending);
      if lo in rows && IsPending(rows[lo]) {
        var c := rows[lo];
        assert Where(rows, lo, hi, IsPending) == [c] + rest;
        WithoutCons(c, rest, id);
        if lo == id {
          assert !IsPending(logged[lo]);
        } else {
          assert logged[lo] == c;
        }
      } else {
        assert Where(rows, lo, hi, IsPending) == rest;
        assert !(lo in logged && IsPending(logged[lo]));
      }
    }
  }

  lemma WithoutCons(c: Customer, cs: seq<Customer>, id: int)
    ensures Without([c] + cs, id) == (if c.id == id then [] else [c]) + Without(cs, id)
  {
    assert ([c] + cs)[1..] == cs;
  }

  /** A scan that keeps everything lists each row once, so its length is the table's size. */
  lemma AllRowsListed(rows: Rows, r: seq<Customer>)
    requires Keyed(rows)
    requires forall c :: c in r <==> c.id in rows && rows[c.id] == c
    requires forall i, j :: 0 <= i < j < |r| ==> r[i].id < r[j].id
    ensures |r| == |rows|
  {
    var ids := set k | 0 <= k < |r| :: r[k].id;
    assert ids == rows.Keys by {
      forall id | id in rows ensures id in ids {
        assert rows[id] in r;
      }
    }
    IdsInjective(r);
  }

  lemma {:induction false} IdsInjective(r: seq<Customer>)
    requires forall i, j :: 0 <= i < j < |r| ==> r[i].id < r[j].id
    ensures |set k | 0 <= k < |r| :: r[k].id| == |r|
  {
    if |r| > 0 {
      var last := |r| - 1;
      IdsInjective(r[..last]);
      var front := set k | 0 <= k < last :: r[..last][k].id;
      var all := set k | 0 <= k < |r| :: r[k].id;
      assert all == front + {r[last].id};
      assert r[last].id !in front;
    }
  }
}
