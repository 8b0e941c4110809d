/**
 The atomic specification of `POST /orders`: what one request does to the committed tables and what
 it answers, with the checks in the order the code makes them.
 */
module Orders {
  import opened Int32
  import opened ProductIds
  import opened Schema

  datatype Option<T> = None | Some(value: T)

  datatype Request = Request(key: Key, customer: int, items: seq<Line>)

  /**
   How the 64-bit or unbounded total reaches the `integer` column: Go and Spring keep 32 bits and
   let the value wrap; the others hand the exact value to the server, which refuses it out of range.
   */
  datatype Narrowing = Wrapping | Checked

  function Stored(n: Narrowing, exact: int): Option<int> {
    match n
    case Wrapping => Some(Wrap(exact))
    case Checked => if InRange(exact) then Some(exact) else None
  }

  /** The total reaches the column and meets its CHECK, which comes before the search for the key. */
  predicate Storable(n: Narrowing, exact: int) {
    Stored(n, exact).Some? && Stored(n, exact).value >= 0
  }

  datatype BodyLine = BodyLine(product: int, quantity: int, price: int)

  datatype Response =
    | Placed(id: int, customer: int, status: Status, total: int, items: seq<BodyLine>)  // 201
    | NoItems                                                                            // 400
    | UnknownProduct(product: int)                                                       // 400
    | InsufficientStock(product: int, available: int, requested: int)                    // 409
    | Aborted                                                                            // 500

  /** Equality of responses; the lines of a replayed order come back in no fixed order. */
  ghost predicate SameResponse(a: Response, b: Response) {
    if a.Placed? && b.Placed? then
      && a.id == b.id && a.customer == b.customer && a.status == b.status && a.total == b.total
      && multiset(a.items) == multiset(b.items)
    else a == b
  }

  // ----- the pure passes over the request lines -----

  function SumQuantity(items: seq<Line>, p: int): int {
    if items == [] then 0
    else SumQuantity(items[..|items| - 1], p) +
         if items[|items| - 1].product == p then items[|items| - 1].quantity else 0
  }

  predicate Known(items: seq<Line>, rows: map<int, Row>) {
    forall i :: 0 <= i < |items| ==> items[i].product in rows
  }

  function Total(items: seq<Line>, rows: map<int, Row>): int
    requires Known(items, rows)
  {
    if items == [] then 0
    else
      var last := items[|items| - 1];
      Total(items[..|items| - 1], rows) + rows[last.product].price * last.quantity
  }

  predicate Short(items: seq<Line>, rows: map<int, Row>, i: int)
    requires Known(items, rows) && 0 <= i < |items|
  {
    rows[items[i].product].stock < items[i].quantity
  }

  /** The first line that asks for more than the locked stock. */
  function FirstShort(items: seq<Line>, rows: map<int, Row>): (r: Option<nat>)
    requires Known(items, rows)
    ensures r.None? <==> forall i :: 0 <= i < |items| ==> !Short(items, rows, i)
    ensures r.Some? ==> r.value < |items| && Short(items, rows, r.value)
    ensures r.Some? ==> forall i :: 0 <= i < r.value ==> !Short(items, rows, i)
  {
    if items == [] then None
    else
      var k := |items| - 1;
      var r := FirstShort(items[..k], rows);
      assert forall i :: 0 <= i < k ==> Short(items, rows, i) == Short(items[..k], rows, i);
      if r.Some? then r else if Short(items, rows, k) then Some(k) else None
  }

  /** The first id in lock order that names no product. */
  function FirstMissing(ids: seq<int>, products: map<int, Product>): (r: Option<int>)
    ensures r.None? <==> forall p :: p in ids ==> p in products
    ensures r.Some? ==> exists k :: 0 <= k < |ids| && ids[k] == r.value && r.value !in products
                                    && forall j :: 0 <= j < k ==> ids[j] in products
  {
    if ids == [] then None
    else if ids[0] !in products then
      var p := ids[0];
      assert p in ids;
      Some(p)
    else
      var r := FirstMissing(ids[1..], products);
      assert forall p :: p in ids <==> p == ids[0] || p in ids[1..];
      assert r.Some? ==> exists k :: 0 <= k < |ids| && ids[k] == r.value && r.value !in products
                                     && forall j :: 0 <= j < k ==> ids[j] in products by {
        if r.Some? {
          var k :| 0 <= k < |ids| - 1 && ids[1..][k] == r.value && forall j :: 0 <= j < k ==> ids[1..][j] in products;
          assert ids[k + 1] == r.value;
          assert forall j :: 0 < j < k + 1 ==> ids[j] == ids[1..][j - 1];
        }
      }
      r
  }

  // ----- the rows an order writes -----

  function PriceOf(rows: map<int, Row>, p: int): int {
    if p in rows then rows[p].price else 0
  }

  function ItemRows(id: int, items: seq<Line>, rows: map<int, Row>): (r: seq<ItemRow>)
    ensures |r| == |items|
  {
    seq(|items|, i requires 0 <= i < |items| =>
      ItemRow(id, items[i].product, items[i].quantity, PriceOf(rows, items[i].product)))
  }

  function LedgerRows(id: int, items: seq<Line>): (r: seq<LedgerRow>)
    ensures |r| == |items|
  {
    seq(|items|, i requires 0 <= i < |items| => LedgerRow(items[i].product, id, -items[i].quantity))
  }

  function BodyOf(rows: seq<ItemRow>): (r: seq<BodyLine>)
    ensures |r| == |rows|
  {
    seq(|rows|, i requires 0 <= i < |rows| => BodyLine(rows[i].product, rows[i].quantity, rows[i].price))
  }

  function Sold(products: map<int, Product>, items: seq<Line>): (r: map<int, Product>)
    ensures r.Keys == products.Keys
  {
    map p | p in products ::
      products[p].(row := products[p].row.(stock := products[p].row.stock - SumQuantity(items, p)))
  }

  function Rows(products: map<int, Product>): map<int, Row> {
    map p | p in products :: products[p].row
  }

  // ----- the decision and its effect -----

  datatype Decision =
    | Reject(response: Response)
    | Replay(id: int)
    | Fail
    | Create(total: int)

  ghost function KeyHolder(db: Database, key: Key): (id: int)
    requires KeyUsed(db, key)
    ensures id in db.orders && db.orders[id].key == key
  {
    var id :| id in db.orders && db.orders[id].key == key;
    id
  }

  predicate EnoughForAll(items: seq<Line>, rows: map<int, Row>)
    requires Known(items, rows)
  {
    forall i :: 0 <= i < |items| ==> SumQuantity(items, items[i].product) <= rows[items[i].product].stock
  }

  predicate AllPositive(items: seq<Line>) {
    forall i :: 0 <= i < |items| ==> items[i].quantity > 0
  }

  /** No CHECK or REFERENCES clause refuses the order: total, customer, quantities, remaining stock. */
  predicate Accepted(n: Narrowing, db: Database, req: Request)
    requires Known(req.items, Rows(db.products))
  {
    && Storable(n, Total(req.items, Rows(db.products)))
    && req.customer in db.customers
    && AllPositive(req.items)
    && EnoughForAll(req.items, Rows(db.products))
  }

  /** Rows for every id of the lock order are rows for every line. */
  lemma LockedAreKnown(items: seq<Line>, rows: map<int, Row>)
    requires forall p :: p in SortedIds(items) ==> p in rows
    ensures Known(items, rows)
  {
    forall i | 0 <= i < |items| ensures items[i].product in rows {
      assert Requested(items, items[i].product);
    }
  }

  lemma KnownIfNoneMissing(items: seq<Line>, products: map<int, Product>)
    requires FirstMissing(SortedIds(items), products).None?
    ensures Known(items, Rows(products))
  {
    LockedAreKnown(items, Rows(products));
  }

  ghost function Decide(n: Narrowing, db: Database, req: Request): Decision {
    if req.items == [] then Reject(NoItems)
    else
      var missing := FirstMissing(SortedIds(req.items), db.products);
      if missing.Some? then Reject(UnknownProduct(missing.value))
      else
        var rows := Rows(db.products);
        KnownIfNoneMissing(req.items, db.products);
        var short := FirstShort(req.items, rows);
        if short.Some? then
          var line := req.items[short.value];
          Reject(InsufficientStock(line.product, rows[line.product].stock, line.quantity))
        else if !Storable(n, Total(req.items, rows)) then Fail
        else if KeyUsed(db, req.key) then Replay(KeyHolder(db, req.key))
        else if !Accepted(n, db, req) then Fail
        else Create(Stored(n, Total(req.items, rows)).value)
  }

  function Insertion(db: Database, id: int, order: OrderRow, items: seq<Line>): Database {
    Database(
      db.customers,
      Sold(db.products, items),
      db.orders[id := order],
      db.items + ItemRows(id, items, Rows(db.products)),
      db.ledger + LedgerRows(id, items))
  }

  /** The committed tables after the request, if it is given the fresh id `id` at time `now`. */
  ghost function Effect(n: Narrowing, db: Database, req: Request, id: int, now: int): Database {
    match Decide(n, db, req)
    case Create(total) => Insertion(db, id, OrderRow(req.customer, Pending, total, req.key, now), req.items)
    case _ => db
  }

  function Recorded(db: Database, id: int): Response
    requires id in db.orders
  {
    var o := db.orders[id];
    Placed(id, o.customer, o.status, o.total, BodyOf(ItemsOf(db.items, id)))
  }

  ghost function Answer(n: Narrowing, db: Database, req: Request, id: int): Response {
    match Decide(n, db, req)
    case Reject(response) => response
    case Replay(first) => Recorded(db, first)
    case Fail => Aborted
    case Create(total) =>
      Placed(id, req.customer, Pending, total, BodyOf(ItemRows(id, req.items, Rows(db.products))))
  }
}
