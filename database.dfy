/** The in-memory SQLite store: its two seeded tables, the seeding that upserts fixed rows
    by primary key, and `execute`, which guards a query and shapes what the driver answers. */
module Database {
  import opened Text
  import opened Guard

  datatype Customer = Customer(id: int, email: string, name: string)

  datatype Order = Order(id: int, createDate: string, shippingCost: real, customerId: int,
                         carrier: string, trackingId: string)

  function CustomerId(c: Customer): int { c.id }

  function OrderId(o: Order): int { o.id }

  /** The customer rows of the seeding `REPLACE INTO 'customer'` statement, in its order. */
  const SeedCustomers: seq<Customer> := [
    Customer(1, "lucas.bill@example.com", "Lucas Bill"),
    Customer(2, "mandy.jones@example.com", "Mandy Jones"),
    Customer(3, "salim.ali@example.com", "Salim Ali"),
    Customer(4, "jane.xiu@example.com", "Jane Xiu"),
    Customer(5, "john.doe@example.com", "John Doe"),
    Customer(6, "jane.smith@example.com", "Jane Smith"),
    Customer(7, "sandeep.bhushan@example.com", "Sandeep Bhushan"),
    Customer(8, "george.han@example.com", "George Han"),
    Customer(9, "asha.kumari@example.com", "Asha Kumari"),
    Customer(10, "salma.khan@example.com", "Salma Khan"),
    Customer(11, "alex.rodriguez@example.com", "Alex Rodriguez"),
    Customer(12, "priya.patel@example.com", "Priya Patel"),
    Customer(13, "david.chen@example.com", "David Chen"),
    Customer(14, "maria.garcia@example.com", "Maria Garcia"),
    Customer(15, "ahmed.hassan@example.com", "Ahmed Hassan"),
    Customer(16, "sophie.martin@example.com", "Sophie Martin"),
    Customer(17, "raj.kumar@example.com", "Raj Kumar"),
    Customer(18, "emma.wilson@example.com", "Emma Wilson"),
    Customer(19, "carlos.lopez@example.com", "Carlos Lopez"),
    Customer(20, "anna.kowalski@example.com", "Anna Kowalski")
  ]

  /** The order rows of the seeding `REPLACE INTO 'order'` statement, in its order. */
  const SeedOrders: seq<Order> := [
    Order(1, "2024-08-05", 3.99, 4, "FedEx", "FX123456789"),
    Order(2, "2024-08-02", 2.99, 6, "UPS", "UP987654321"),
    Order(3, "2024-08-04", 1.99, 10, "USPS", "US555666777"),
    Order(4, "2024-08-03", 4.99, 8, "DHL", "DH111222333"),
    Order(5, "2024-08-10", 3.49, 10, "FedEx", "FX444555666"),
    Order(6, "2024-08-01", 2.99, 3, "UPS", "UP777888999"),
    Order(7, "2024-08-02", 1.99, 4, "USPS", "US222333444"),
    Order(8, "2024-08-04", 5.99, 2, "DHL", "DH666777888"),
    Order(9, "2024-08-07", 3.99, 8, "FedEx", "FX999000111"),
    Order(10, "2024-08-09", 2.49, 9, "UPS", "UP333444555"),
    Order(11, "2024-08-07", 4.49, 7, "USPS", "US888999000"),
    Order(12, "2024-08-03", 3.99, 9, "DHL", "DH444555666"),
    Order(13, "2024-08-06", 2.99, 5, "FedEx", "FX777888999"),
    Order(14, "2024-08-01", 1.99, 2, "UPS", "UP111222333"),
    Order(15, "2024-08-05", 3.49, 3, "USPS", "US666777888"),
    Order(16, "2024-08-02", 4.99, 5, "DHL", "DH222333444"),
    Order(17, "2024-08-03", 2.99, 7, "FedEx", "FX555666777"),
    Order(18, "2024-08-06", 1.99, 6, "UPS", "UP888999000"),
    Order(19, "2024-08-04", 3.99, 1, "USPS", "US444555666"),
    Order(20, "2024-08-01", 2.49, 1, "DHL", "DH777888999"),
    Order(21, "2024-08-08", 5.99, 11, "FedEx", "FX101112131"),
    Order(22, "2024-08-09", 3.49, 12, "UPS", "UP141516171"),
    Order(23, "2024-08-10", 2.99, 13, "USPS", "US181920212"),
    Order(24, "2024-08-11", 4.49, 14, "DHL", "DH222324252"),
    Order(25, "2024-08-12", 1.99, 15, "FedEx", "FX262728293"),
    Order(26, "2024-08-13", 3.99, 16, "UPS", "UP303132333"),
    Order(27, "2024-08-14", 2.49, 17, "USPS", "US343536373"),
    Order(28, "2024-08-15", 5.49, 18, "DHL", "DH383940414"),
    Order(29, "2024-08-16", 3.99, 19, "FedEx", "FX424344454"),
    Order(30, "2024-08-17", 2.99, 20, "UPS", "UP464748495")
  ]

  /** The primary keys a list of rows carries. */
  ghost function Ids<T>(rows: seq<T>, id: T -> int): set<int> {
    set k | 0 <= k < |rows| :: id(rows[k])
  }

  /** No later row of `rows` has the primary key of row `k`. */
  predicate LastWithId<T>(rows: seq<T>, id: T -> int, k: nat)
    requires k < |rows|
  {
    forall j :: k < j < |rows| ==> id(rows[j]) != id(rows[k])
  }

  /** `REPLACE INTO` of `rows`, one after another. */
  function ReplaceAll<T>(table: map<int, T>, rows: seq<T>, id: T -> int): map<int, T>
    decreases |rows|
  {
    if rows == [] then table
    else
      var last := rows[|rows| - 1];
      ReplaceAll(table, rows[..|rows| - 1], id)[id(last) := last]
  }

  /** The keys after `REPLACE INTO` are the old ones and the rows' keys. */
  lemma {:induction false} ReplaceAllKeys<T>(table: map<int, T>, rows: seq<T>, id: T -> int)
    ensures ReplaceAll(table, rows, id).Keys == table.Keys + Ids(rows, id)
    decreases |rows|
  {
    if rows != [] {
      ReplaceAllKeys(table, rows[..|rows| - 1], id);
      IdsOfPrefix(rows, id);
    }
  }

  /** A key no row has keeps its row. */
  lemma {:induction false} ReplaceAllKeeps<T>(table: map<int, T>, rows: seq<T>, id: T -> int, x: int)
    requires x in table && x !in Ids(rows, id)
    ensures x in ReplaceAll(table, rows, id) && ReplaceAll(table, rows, id)[x] == table[x]
    decreases |rows|
  {
    if rows != [] {
      IdsOfPrefix(rows, id);
      ReplaceAllKeeps(table, rows[..|rows| - 1], id, x);
    }
  }

  /** Under a row's key is the last row with that key. */
  lemma {:induction false} ReplaceAllLast<T>(table: map<int, T>, rows: seq<T>, id: T -> int, k: nat)
    requires k < |rows| && LastWithId(rows, id, k)
    ensures id(rows[k]) in ReplaceAll(table, rows, id) && ReplaceAll(table, rows, id)[id(rows[k])] == rows[k]
    decreases |rows|
  {
    var n := |rows| - 1;
    if k < n {
      IdsOfPrefix(rows, id);
      ReplaceAllLast(table, rows[..n], id, k);
      assert rows[..n][k] == rows[k];
    }
  }

  lemma {:induction false} IdsOfPrefix<T>(rows: seq<T>, id: T -> int)
    requires rows != []
    ensures Ids(rows, id) == Ids(rows[..|rows| - 1], id) + {id(rows[|rows| - 1])}
    ensures forall k :: 0 <= k < |rows| - 1 && LastWithId(rows, id, k) ==>
      LastWithId(rows[..|rows| - 1], id, k) && id(rows[k]) != id(rows[|rows| - 1])
  {
    var init := rows[..|rows| - 1];
    forall x | x in Ids(rows, id) ensures x in Ids(init, id) + {id(rows[|rows| - 1])} {
      var k :| 0 <= k < |rows| && id(rows[k]) == x;
      if k < |rows| - 1 {
        assert init[k] == rows[k];
      }
    }
  }

  /** Replacing rows into a table overlays the rows alone on the table. */
  lemma {:induction false} ReplaceAllOverlays<T>(table: map<int, T>, rows: seq<T>, id: T -> int)
    ensures ReplaceAll(table, rows, id) == table + ReplaceAll(map[], rows, id)
    decreases |rows|
  {
    if rows != [] {
      ReplaceAllOverlays(table, rows[..|rows| - 1], id);
    }
  }

  /** Replacing the same rows a second time changes nothing. */
  lemma {:induction false} ReplaceAllTwice<T>(table: map<int, T>, rows: seq<T>, id: T -> int)
    ensures ReplaceAll(ReplaceAll(table, rows, id), rows, id) == ReplaceAll(table, rows, id)
  {
    ReplaceAllOverlays(table, rows, id);
    ReplaceAllOverlays(ReplaceAll(table, rows, id), rows, id);
    var r := ReplaceAll(map[], rows, id);
    assert (table + r) + r == table + r;
  }

  /** Rows whose primary keys run 1, 2, 3, ... fill a table with exactly those keys, row
      `k` under key `k + 1`. */
  lemma {:induction false} NumberedRows<T>(rows: seq<T>, id: T -> int)
    requires forall k :: 0 <= k < |rows| ==> id(rows[k]) == k + 1
    ensures forall i :: i in ReplaceAll(map[], rows, id) <==> 1 <= i <= |rows|
    ensures |ReplaceAll(map[], rows, id)| == |rows|
    ensures forall k :: 0 <= k < |rows| ==> ReplaceAll(map[], rows, id)[k + 1] == rows[k]
    decreases |rows|
  {
    var r := ReplaceAll(map[], rows, id);
    ReplaceAllKeys(map[], rows, id);
    forall i ensures i in r <==> 1 <= i <= |rows| {
      if 1 <= i <= |rows| {
        assert id(rows[i - 1]) == i;
      }
    }
    forall k | 0 <= k < |rows| ensures r[k + 1] == rows[k] {
      assert LastWithId(rows, id, k);
      ReplaceAllLast(map[], rows, id, k);
    }
    if rows != [] {
      var init := rows[..|rows| - 1];
      assert forall k :: 0 <= k < |init| ==> id(init[k]) == k + 1 by {
        forall k | 0 <= k < |init| ensures id(init[k]) == k + 1 { assert init[k] == rows[k]; }
      }
      NumberedRows(init, id);
      var p := ReplaceAll(map[], init, id);
      assert |rows| !in p;
    }
  }

  lemma SeedCustomersNumbered()
    ensures forall k :: 0 <= k < |SeedCustomers| ==> SeedCustomers[k].id == k + 1
  {
  }

  lemma SeedOrdersNumbered()
    ensures forall k :: 0 <= k < |SeedOrders| ==> SeedOrders[k].id == k + 1
  {
  }

  /** Every seeded order names a customer among the seeded ones (ids 1 to 20). */
  lemma SeedOrdersReferToCustomers()
    ensures forall k :: 0 <= k < |SeedOrders| ==> 1 <= SeedOrders[k].customerId <= 20
  {
  }

  /** Seeding an empty customer table leaves exactly customers 1 to 20, each row as listed. */
  lemma {:induction false} SeededCustomers()
    ensures forall i :: i in ReplaceAll(map[], SeedCustomers, CustomerId) <==> 1 <= i <= 20
    ensures |ReplaceAll(map[], SeedCustomers, CustomerId)| == 20
    ensures forall k :: 0 <= k < 20 ==> ReplaceAll(map[], SeedCustomers, CustomerId)[k + 1] == SeedCustomers[k]
  {
    SeedCustomersNumbered();
    NumberedRows(SeedCustomers, CustomerId);
  }

  /** Seeding an empty order table leaves exactly orders 1 to 30, each row as listed. */
  lemma {:induction false} SeededOrders()
    ensures forall i :: i in ReplaceAll(map[], SeedOrders, OrderId) <==> 1 <= i <= 30
    ensures |ReplaceAll(map[], SeedOrders, OrderId)| == 30
    ensures forall k :: 0 <= k < 30 ==> ReplaceAll(map[], SeedOrders, OrderId)[k + 1] == SeedOrders[k]
  {
    SeedOrdersNumbered();
    NumberedRows(SeedOrders, OrderId);
  }

  /** After seeding an empty store, every order's customer is in the customer table. */
  lemma {:induction false} SeededOrdersHaveCustomers()
    ensures var customers := ReplaceAll(map[], SeedCustomers, CustomerId);
            var orders := ReplaceAll(map[], SeedOrders, OrderId);
            forall i :: i in orders ==> orders[i].customerId in customers
  {
    var customers := ReplaceAll(map[], SeedCustomers, CustomerId);
    var orders := ReplaceAll(map[], SeedOrders, OrderId);
    SeededCustomers();
    SeededOrders();
    SeedOrdersReferToCustomers();
    forall i | i in orders ensures orders[i].customerId in customers {
      var k := i - 1;
      assert 0 <= k < 30 && orders[k + 1] == SeedOrders[k];
      assert 1 <= SeedOrders[k].customerId <= 20;
    }
  }

  /** A cell of a result row, as the driver hands it over. */
  datatype Cell = Null | Number(value: int) | Str(text: string)

  /** No column name appears twice. */
  predicate DistinctNames(r: seq<(string, Cell)>) {
    forall i, j :: 0 <= i < j < |r| ==> r[i].0 != r[j].0
  }

  /** A result row: the row object's properties, column name and value, in column order. */
  type Row = r: seq<(string, Cell)> | DistinctNames(r)

  /** What `db.all` does with a query: calls back with rows, calls back with an error, or
      does not call back within the timeout. */
  datatype Answer = Rows(rows: seq<Row>) | SqlFailure(message: string) | Late

  /** What running a query through the driver gives: its answer, and the tables after the
      statement ran (a statement the guard lets through may write). */
  datatype Run = Run(answer: Answer, customers: map<int, Customer>, orders: map<int, Order>)

  /** The driver, as a function of the tables and the query text. */
  type Engine = (map<int, Customer>, map<int, Order>, string) -> Run

  /** What `execute` resolves to: a message string or the result rows, which carry their
      count as `_performance.resultCount`. */
  datatype Value = Message(text: string) | ResultRows(rows: seq<Row>, resultCount: nat)

  /** How the promise `execute` returns settles. */
  datatype Settled = Resolved(value: Value) | Rejected(error: string)

  /** Milliseconds `execute` waits for the driver. */
  const TimeoutMs := 10000

  const TimeoutMessage := "Query timeout: Query took too long to execute"

  const SqlErrorPrefix := "SQL Error: "

  /** How `execute` settles for `sql` when the driver would answer `answer`. */
  function Outcome(sql: string, answer: Answer): (r: Settled)
    ensures IsDangerous(sql) ==> r == Resolved(Message(Refusal))
    ensures r.Rejected? <==> !IsDangerous(sql) && answer.Late?
    ensures r.Rejected? ==> r.error == TimeoutMessage
    ensures r.Resolved? && r.value.ResultRows? <==> !IsDangerous(sql) && answer.Rows?
    ensures r.Resolved? && r.value.ResultRows? ==> answer.rows == r.value.rows && r.value.resultCount == |r.value.rows|
    ensures !IsDangerous(sql) && answer.SqlFailure? ==> r == Resolved(Message(SqlErrorPrefix + answer.message))
  {
    if IsDangerous(sql) then Resolved(Message(Refusal))
    else
      match answer
      case Rows(rows) => Resolved(ResultRows(rows, |rows|))
      case SqlFailure(m) => Resolved(Message(SqlErrorPrefix + m))
      case Late => Rejected(TimeoutMessage)
  }

  /** The single in-memory database: one table of customers and one of orders. */
  class Store {
    var customers: map<int, Customer>
    var orders: map<int, Order>

    /** A fresh `:memory:` database: both tables empty. */
    constructor ()
      ensures customers == map[] && orders == map[]
    {
      customers := map[];
      orders := map[];
    }

    /** One `REPLACE INTO 'customer'` statement over `rows`. */
    method ReplaceCustomers(rows: seq<Customer>)
      modifies this
      ensures customers == ReplaceAll(old(customers), rows, CustomerId)
      ensures orders == old(orders)
    {
      for i := 0 to |rows|
        invariant customers == ReplaceAll(old(customers), rows[..i], CustomerId)
        invariant orders == old(orders)
      {
        assert rows[..i + 1][..i] == rows[..i];
        customers := customers[rows[i].id := rows[i]];
      }
      assert rows[..|rows|] == rows;
    }

    /** One `REPLACE INTO 'order'` statement over `rows`. */
    method ReplaceOrders(rows: seq<Order>)
      modifies this
      ensures orders == ReplaceAll(old(orders), rows, OrderId)
      ensures customers == old(customers)
    {
      for i := 0 to |rows|
        invariant orders == ReplaceAll(old(orders), rows[..i], OrderId)
        invariant customers == old(customers)
      {
        assert rows[..i + 1][..i] == rows[..i];
        orders := orders[rows[i].id := rows[i]];
      }
      assert rows[..|rows|] == rows;
    }

    /** `seed`: the fixed customer rows replaced into `customer`, then the fixed order rows
        into `order`. */
    method Seed()
      modifies this
      ensures customers == ReplaceAll(old(customers), SeedCustomers, CustomerId)
      ensures orders == ReplaceAll(old(orders), SeedOrders, OrderId)
    {
      ReplaceCustomers(SeedCustomers);
      ReplaceOrders(SeedOrders);
    }

    /** `execute(sql)`: a query the guard flags is refused without reaching the driver and
        leaves both tables as they were; otherwise the driver runs it, its answer decides how
        the promise settles, and the tables become what the statement left. The statement
        runs to its end even when its answer comes after the timeout. */
    method Execute(sql: string, engine: Engine) returns (r: Settled)
      modifies this
      ensures r == Outcome(sql, engine(old(customers), old(orders), sql).answer)
      ensures IsDangerous(sql) ==> customers == old(customers) && orders == old(orders)
      ensures !IsDangerous(sql) ==>
        var run := engine(old(customers), old(orders), sql);
        customers == run.customers && orders == run.orders
    {
      if IsDangerous(sql) {
        return Resolved(Message(Refusal));
      }
      var run := engine(customers, orders, sql);
      customers, orders := run.customers, run.orders;
      match run.answer
      case Rows(rows) =>
        r := Resolved(ResultRows(rows, |rows|));
      case SqlFailure(m) =>
        r := Resolved(Message(SqlErrorPrefix + m));
      case Late =>
        r := Rejected(TimeoutMessage);
    }
  }

  /** Seeding a store, whatever it held, and seeding it again gives the same tables as seeding it once. */
  lemma {:induction false} SeedIdempotent(customers: map<int, Customer>, orders: map<int, Order>)
    ensures ReplaceAll(ReplaceAll(customers, SeedCustomers, CustomerId), SeedCustomers, CustomerId)
         == ReplaceAll(customers, SeedCustomers, CustomerId)
    ensures ReplaceAll(ReplaceAll(orders, SeedOrders, OrderId), SeedOrders, OrderId)
         == ReplaceAll(orders, SeedOrders, OrderId)
  {
    ReplaceAllTwice(customers, SeedCustomers, CustomerId);
    ReplaceAllTwice(orders, SeedOrders, OrderId);
  }
}
