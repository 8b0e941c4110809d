/**
 The four tables written by `POST /orders` with the constraints that
 infra/postgres/init/01-schema.sql declares on them.
 */
module Schema {
  import opened Int32

  /** A decoded idempotency key. */
  type Key = nat

  /** The columns a lock statement returns. */
  datatype Row = Row(price: int, stock: int)

  datatype Product = Product(row: Row, category: int)

  datatype Status = Pending | Paid | Shipped | Cancelled

  datatype OrderRow = OrderRow(customer: int, status: Status, total: int, key: Key, createdAt: int)

  datatype ItemRow = ItemRow(order: int, product: int, quantity: int, price: int)

  datatype LedgerRow = LedgerRow(product: int, order: int, delta: int)

  /** Committed contents. Maps are keyed by primary key; `items` and `ledger` are heaps of rows. */
  datatype Database = Database(
    customers: set<int>,
    products: map<int, Product>,
    orders: map<int, OrderRow>,
    items: seq<ItemRow>,
    ledger: seq<LedgerRow>)

  predicate ValidProduct(p: Product) {
    0 <= p.row.price <= INT_MAX && 0 <= p.row.stock <= INT_MAX
  }

  predicate ValidOrder(db: Database, o: OrderRow) {
    0 <= o.total <= INT_MAX && o.customer in db.customers
  }

  predicate ValidItem(db: Database, it: ItemRow) {
    0 < it.quantity <= INT_MAX && 0 <= it.price <= INT_MAX && it.order in db.orders && it.product in db.products
  }

  predicate ValidLedger(db: Database, l: LedgerRow) {
    InRange(l.delta) && l.order in db.orders && l.product in db.products
  }

  predicate KeyUsed(db: Database, key: Key) {
    exists id :: id in db.orders && db.orders[id].key == key
  }

  /** UNIQUE (idempotency_key). */
  predicate UniqueKeys(db: Database) {
    forall a, b :: a in db.orders && b in db.orders && db.orders[a].key == db.orders[b].key ==> a == b
  }

  /** Every CHECK, UNIQUE and REFERENCES clause, and the range of the `integer` columns. */
  predicate Valid(db: Database) {
    && (forall p :: p in db.products ==> ValidProduct(db.products[p]))
    && (forall id :: id in db.orders ==> ValidOrder(db, db.orders[id]))
    && (forall i :: 0 <= i < |db.items| ==> ValidItem(db, db.items[i]))
    && (forall i :: 0 <= i < |db.ledger| ==> ValidLedger(db, db.ledger[i]))
    && UniqueKeys(db)
  }

  /** The columns' bounds, with their numbers. */
  lemma ColumnBounds(db: Database, p: Product, o: OrderRow, it: ItemRow, l: LedgerRow)
    ensures ValidProduct(p) <==> 0 <= p.row.price <= 2147483647 && 0 <= p.row.stock <= 2147483647
    ensures ValidOrder(db, o) <==> 0 <= o.total <= 2147483647 && o.customer in db.customers
    ensures ValidItem(db, it) <==>
              && 1 <= it.quantity <= 2147483647 && 0 <= it.price <= 2147483647
              && it.order in db.orders && it.product in db.products
    ensures ValidLedger(db, l) <==> -2147483648 <= l.delta <= 2147483647 && l.order in db.orders && l.product in db.products
  {
  }

  /** The rows of one order: `SELECT ... FROM order_items WHERE order_id = $1`, in table order. */
  function ItemsOf(rows: seq<ItemRow>, id: int): (own: seq<ItemRow>)
  {
    if rows == [] then []
    else
      var own := ItemsOf(rows[..|rows| - 1], id);
      if rows[|rows| - 1].order == id then own + [rows[|rows| - 1]] else own
  }

  function LedgerOf(rows: seq<LedgerRow>, id: int): (own: seq<LedgerRow>)
  {
    if rows == [] then []
    else
      var own := LedgerOf(rows[..|rows| - 1], id);
      if rows[|rows| - 1].order == id then own + [rows[|rows| - 1]] else own
  }

  /** The summed ledger deltas of one product. */
  function Delta(rows: seq<LedgerRow>, p: int): int {
    if rows == [] then 0
    else Delta(rows[..|rows| - 1], p) + if rows[|rows| - 1].product == p then rows[|rows| - 1].delta else 0
  }

  lemma {:induction false} ItemsOfAppend(a: seq<ItemRow>, b: seq<ItemRow>, id: int)
    ensures ItemsOf(a + b, id) == ItemsOf(a, id) + ItemsOf(b, id)
  {
    if b == [] {
      assert a + b == a;
    } else {
      assert (a + b)[..|a + b| - 1] == a + b[..|b| - 1];
      ItemsOfAppend(a, b[..|b| - 1], id);
    }
  }

  lemma {:induction false} LedgerOfAppend(a: seq<LedgerRow>, b: seq<LedgerRow>, id: int)
    ensures LedgerOf(a + b, id) == LedgerOf(a, id) + LedgerOf(b, id)
  {
    if b == [] {
      assert a + b == a;
    } else {
      assert (a + b)[..|a + b| - 1] == a + b[..|b| - 1];
      LedgerOfAppend(a, b[..|b| - 1], id);
    }
  }

  lemma {:induction false} DeltaAppend(a: seq<LedgerRow>, b: seq<LedgerRow>, p: int)
    ensures Delta(a + b, p) == Delta(a, p) + Delta(b, p)
  {
    if b == [] {
      assert a + b == a;
    } else {
      assert (a + b)[..|a + b| - 1] == a + b[..|b| - 1];
      DeltaAppend(a, b[..|b| - 1], p);
    }
  }

  lemma {:induction false} ItemsOfAll(rows: seq<ItemRow>, id: int)
    requires forall i :: 0 <= i < |rows| ==> rows[i].order == id
    ensures ItemsOf(rows, id) == rows
  {
    if rows != [] {
      ItemsOfAll(rows[..|rows| - 1], id);
    }
  }

  lemma {:induction false} ItemsOfNone(rows: seq<ItemRow>, id: int)
    requires forall i :: 0 <= i < |rows| ==> rows[i].order != id
    ensures ItemsOf(rows, id) == []
  {
    if rows != [] {
      ItemsOfNone(rows[..|rows| - 1], id);
    }
  }

  lemma {:induction false} LedgerOfAll(rows: seq<LedgerRow>, id: int)
    requires forall i :: 0 <= i < |rows| ==> rows[i].order == id
    ensures LedgerOf(rows, id) == rows
  {
    if rows != [] {
      LedgerOfAll(rows[..|rows| - 1], id);
    }
  }

  lemma {:induction false} LedgerOfNone(rows: seq<LedgerRow>, id: int)
    requires forall i :: 0 <= i < |rows| ==> rows[i].order != id
    ensures LedgerOf(rows, id) == []
  {
    if rows != [] {
      LedgerOfNone(rows[..|rows| - 1], id);
    }
  }

  lemma ItemsElsewhere(rows: seq<ItemRow>, added: seq<ItemRow>, id: int)
    requires forall i :: 0 <= i < |added| ==> added[i].order != id
    ensures ItemsOf(rows + added, id) == ItemsOf(rows, id)
  {
    ItemsOfAppend(rows, added, id);
    ItemsOfNone(added, id);
  }

  lemma LedgerElsewhere(rows: seq<LedgerRow>, added: seq<LedgerRow>, id: int)
    requires forall i :: 0 <= i < |added| ==> added[i].order != id
    ensures LedgerOf(rows + added, id) == LedgerOf(rows, id)
  {
    LedgerOfAppend(rows, added, id);
    LedgerOfNone(added, id);
  }
}
