/**
 What a request is promised, said on the tables and the request alone: an independent reference for the
 decisions, answers and effects of the atomic specification.
 */
module Promises {
  import opened Int32
  import opened ProductIds
  import opened Schema
  import opened Orders
  import opened OrderLaws

  // ----- the arithmetic of a request -----

  function PriceIn(products: map<int, Product>, p: int): int {
    if p in products then products[p].row.price else 0
  }

  /** What the lines cost at the committed prices. */
  function Amount(products: map<int, Product>, items: seq<Line>): int {
    if items == [] then 0
    else PriceIn(products, items[0].product) * items[0].quantity + Amount(products, items[1..])
  }

  /** How much of a product the lines ask for together. */
  function Ordered(items: seq<Line>, p: int): int {
    if items == [] then 0
    else (if items[0].product == p then items[0].quantity else 0) + Ordered(items[1..], p)
  }

  /** A non-negative 32-bit value is kept of the amount: the amount itself, or its low 32 bits. */
  predicate CanStore(n: Narrowing, amount: int) {
    match n
    case Checked => 0 <= amount <= 2147483647
    case Wrapping => amount % 4294967296 <= 2147483647
  }

  function KeptAmount(n: Narrowing, amount: int): int {
    match n
    case Checked => amount
    case Wrapping => amount % 4294967296
  }

  // ----- the promise -----

  predicate LinesInStock(db: Database, items: seq<Line>) {
    forall i :: 0 <= i < |items| ==>
      items[i].product in db.products && items[i].quantity <= db.products[items[i].product].row.stock
  }

  predicate KeyTaken(db: Database, key: Key) {
    exists id :: id in db.orders && db.orders[id].key == key
  }

  /** A known customer, positive quantities, and enough stock for the lines of each product together. */
  predicate Acceptable(db: Database, req: Request) {
    && req.customer in db.customers
    && forall i :: 0 <= i < |req.items| ==>
         && req.items[i].quantity > 0
         && req.items[i].product in db.products
         && Ordered(req.items, req.items[i].product) <= db.products[req.items[i].product].row.stock
  }

  function NewLines(products: map<int, Product>, items: seq<Line>): seq<BodyLine> {
    seq(|items|, i requires 0 <= i < |items| =>
      BodyLine(items[i].product, items[i].quantity, PriceIn(products, items[i].product)))
  }

  /** The response shows the stored order of its id: the columns of its row, and its item rows in some order. */
  ghost predicate ShowsOrder(db: Database, response: Response) {
    && response.Placed? && response.id in db.orders
    && response.customer == db.orders[response.id].customer
    && response.status == db.orders[response.id].status
    && response.total == db.orders[response.id].total
    && forall line: BodyLine ::
         multiset(response.items)[line]
         == multiset(db.items)[ItemRow(response.id, line.product, line.quantity, line.price)]
  }

  ghost predicate Promised(n: Narrowing, db: Database, req: Request, response: Response) {
    match response
    case NoItems => req.items == []
    case UnknownProduct(p) =>
      && p !in db.products
      && (exists i :: 0 <= i < |req.items| && req.items[i].product == p)
      && forall i :: 0 <= i < |req.items| && req.items[i].product < p ==> req.items[i].product in db.products
    case InsufficientStock(p, available, requested) =>
      && (forall i :: 0 <= i < |req.items| ==> req.items[i].product in db.products)
      && exists k :: 0 <= k < |req.items| && req.items[k] == Line(p, requested)
           && available == db.products[p].row.stock && available < requested
           && LinesInStock(db, req.items[..k])
    case Placed(id, customer, status, total, lines) =>
      && req.items != [] && LinesInStock(db, req.items) && CanStore(n, Amount(db.products, req.items))
      && if KeyTaken(db, req.key) then
           id in db.orders && db.orders[id].key == req.key && ShowsOrder(db, response)
         else
           && Acceptable(db, req)
           && customer == req.customer && status == Pending
           && total == KeptAmount(n, Amount(db.products, req.items))
           && multiset(lines) == multiset(NewLines(db.products, req.items))
    case Aborted =>
      && req.items != [] && LinesInStock(db, req.items)
      && (CanStore(n, Amount(db.products, req.items)) ==> !KeyTaken(db, req.key) && !Acceptable(db, req))
  }

  predicate Creates(n: Narrowing, db: Database, req: Request) {
    && req.items != [] && LinesInStock(db, req.items) && CanStore(n, Amount(db.products, req.items))
    && !KeyTaken(db, req.key) && Acceptable(db, req)
  }

  /** `after` is `db` with the order written: its row, an item and a ledger row per line, and less stock. */
  ghost predicate Written(n: Narrowing, db: Database, req: Request, id: int, now: int, after: Database) {
    && after.customers == db.customers
    && after.products.Keys == db.products.Keys
    && (forall p :: p in db.products ==>
          after.products[p] == Product(Row(db.products[p].row.price, db.products[p].row.stock - Ordered(req.items, p)),
                                       db.products[p].category))
    && after.orders
       == db.orders[id := OrderRow(req.customer, Pending, KeptAmount(n, Amount(db.products, req.items)), req.key, now)]
    && |after.items| == |db.items| + |req.items| && |after.ledger| == |db.ledger| + |req.items|
    && db.items <= after.items && db.ledger <= after.ledger
    && forall i :: 0 <= i < |req.items| ==>
         var line := req.items[i];
         && after.items[|db.items| + i] == ItemRow(id, line.product, line.quantity, PriceIn(db.products, line.product))
         && after.ledger[|db.ledger| + i] == LedgerRow(line.product, id, -line.quantity)
  }

  // ----- the arithmetic agrees -----

  lemma {:induction false} OrderedSnoc(items: seq<Line>, line: Line, p: int)
    ensures Ordered(items + [line], p) == Ordered(items, p) + if line.product == p then line.quantity else 0
  {
    if items == [] {
      assert (items + [line])[1..] == [];
    } else {
      assert (items + [line])[1..] == items[1..] + [line];
      OrderedSnoc(items[1..], line, p);
    }
  }

  lemma {:induction false} OrderedIsSum(items: seq<Line>, p: int)
    ensures Ordered(items, p) == SumQuantity(items, p)
  {
    if items != [] {
      var k := |items| - 1;
      OrderedIsSum(items[..k], p);
      OrderedSnoc(items[..k], items[k], p);
      assert items[..k] + [items[k]] == items;
    }
  }

  lemma {:induction false} AmountSnoc(products: map<int, Product>, items: seq<Line>, line: Line)
    ensures Amount(products, items + [line]) == Amount(products, items) + PriceIn(products, line.product) * line.quantity
  {
    if items == [] {
      assert (items + [line])[1..] == [];
    } else {
      assert (items + [line])[1..] == items[1..] + [line];
      AmountSnoc(products, items[1..], line);
    }
  }

  lemma {:induction false} AmountIsTotal(products: map<int, Product>, items: seq<Line>)
    requires Known(items, Rows(products))
    ensures Amount(products, items) == Total(items, Rows(products))
  {
    if items != [] {
      var k := |items| - 1;
      AmountIsTotal(products, items[..k]);
      AmountSnoc(products, items[..k], items[k]);
      assert items[..k] + [items[k]] == items;
      assert items[k].product in Rows(products);
    }
  }

  lemma StorableExactly(n: Narrowing, exact: int)
    ensures Storable(n, exact) <==> CanStore(n, exact)
    ensures Storable(n, exact) ==> Stored(n, exact) == Some(KeptAmount(n, exact))
  {
    if n.Wrapping? {
      LowBits(exact);
    }
  }

  // ----- decisions, answers and effects keep the promise -----

  /** The specification's conditions, in the words of the promise. */
  lemma SameConditions(n: Narrowing, db: Database, req: Request)
    ensures KeyTaken(db, req.key) <==> KeyUsed(db, req.key)
    ensures LinesInStock(db, req.items) <==>
              Known(req.items, Rows(db.products)) && FirstShort(req.items, Rows(db.products)).None?
    ensures Known(req.items, Rows(db.products)) <==> FirstMissing(SortedIds(req.items), db.products).None?
    ensures LinesInStock(db, req.items) ==>
              && (CanStore(n, Amount(db.products, req.items)) <==> Storable(n, Total(req.items, Rows(db.products))))
              && (Accepted(n, db, req) <==> CanStore(n, Amount(db.products, req.items)) && Acceptable(db, req))
  {
    var items, rows := req.items, Rows(db.products);
    if FirstMissing(SortedIds(items), db.products).None? {
      KnownIfNoneMissing(items, db.products);
    } else {
      var p := FirstMissing(SortedIds(items), db.products).value;
      assert p in SortedIds(items);
      assert Requested(items, p);
    }
    if Known(items, rows) {
      assert forall i :: 0 <= i < |items| ==> items[i].product in rows;
      assert forall i :: 0 <= i < |items| ==>
               (Short(items, rows, i) <==> db.products[items[i].product].row.stock < items[i].quantity);
      AmountIsTotal(db.products, items);
      StorableExactly(n, Total(items, rows));
      forall i | 0 <= i < |items| ensures Ordered(items, items[i].product) == SumQuantity(items, items[i].product) {
        OrderedIsSum(items, items[i].product);
      }
    }
  }

  lemma DecidedExactly(n: Narrowing, db: Database, req: Request)
    ensures Decide(n, db, req).Create? <==> Creates(n, db, req)
    ensures Decide(n, db, req).Create? ==> Decide(n, db, req).total == KeptAmount(n, Amount(db.products, req.items))
    ensures Decide(n, db, req).Replay? <==>
              && req.items != [] && LinesInStock(db, req.items) && CanStore(n, Amount(db.products, req.items))
              && KeyTaken(db, req.key)
    ensures Decide(n, db, req).Reject? <==> req.items == [] || !LinesInStock(db, req.items)
  {
    hide Accepted, Storable, KeyUsed, KeyTaken, Acceptable, CanStore, Total, Amount, LinesInStock;
    SameConditions(n, db, req);
    if Known(req.items, Rows(db.products)) {
      AmountIsTotal(db.products, req.items);
      StorableExactly(n, Total(req.items, Rows(db.products)));
    }
  }

  lemma {:induction false} ItemsOfCount(rows: seq<ItemRow>, id: int, row: ItemRow)
    ensures multiset(ItemsOf(rows, id))[row] == if row.order == id then multiset(rows)[row] else 0
  {
    if rows != [] {
      var k := |rows| - 1;
      ItemsOfCount(rows[..k], id, row);
      assert rows == rows[..k] + [rows[k]];
    }
  }

  lemma {:induction false} BodyCount(rows: seq<ItemRow>, id: int, line: BodyLine)
    requires forall i :: 0 <= i < |rows| ==> rows[i].order == id
    ensures multiset(BodyOf(rows))[line] == multiset(rows)[ItemRow(id, line.product, line.quantity, line.price)]
  {
    if rows != [] {
      var k := |rows| - 1;
      BodyCount(rows[..k], id, line);
      assert rows == rows[..k] + [rows[k]];
      assert BodyOf(rows) == BodyOf(rows[..k]) + [BodyLine(rows[k].product, rows[k].quantity, rows[k].price)];
    }
  }

  lemma {:induction false} ItemsOfOwn(rows: seq<ItemRow>, id: int)
    ensures forall i :: 0 <= i < |ItemsOf(rows, id)| ==> ItemsOf(rows, id)[i].order == id
  {
    if rows != [] {
      ItemsOfOwn(rows[..|rows| - 1], id);
    }
  }

  /** A response shows order `id` exactly when it is the recorded one up to the order of its lines. */
  lemma ShowsRecorded(db: Database, response: Response, id: int)
    requires id in db.orders && response.Placed? && response.id == id
    ensures SameResponse(response, Recorded(db, id)) <==> ShowsOrder(db, response)
  {
    var own := ItemsOf(db.items, id);
    ItemsOfOwn(db.items, id);
    forall line: BodyLine
      ensures multiset(BodyOf(own))[line]
           == multiset(db.items)[ItemRow(response.id, line.product, line.quantity, line.price)]
    {
      BodyCount(own, id, line);
      ItemsOfCount(db.items, id, ItemRow(id, line.product, line.quantity, line.price));
    }
    if ShowsOrder(db, response) {
      forall line: BodyLine ensures multiset(response.items)[line] == multiset(BodyOf(own))[line] {}
      assert multiset(response.items) == multiset(BodyOf(own));
    }
  }

  ghost predicate LeastMissing(db: Database, items: seq<Line>, p: int) {
    && p !in db.products
    && (exists i :: 0 <= i < |items| && items[i].product == p)
    && forall i :: 0 <= i < |items| && items[i].product < p ==> items[i].product in db.products
  }

  lemma FirstMissingIsLeast(db: Database, items: seq<Line>)
    requires FirstMissing(SortedIds(items), db.products).Some?
    ensures LeastMissing(db, items, FirstMissing(SortedIds(items), db.products).value)
  {
    hide SortedIds, FirstMissing;
    var ids := SortedIds(items);
    var p := FirstMissing(ids, db.products).value;
    var k :| 0 <= k < |ids| && ids[k] == p && p !in db.products && forall j :: 0 <= j < k ==> ids[j] in db.products;
    assert p in ids;
    assert Requested(items, p);
    forall i | 0 <= i < |items| && items[i].product < p ensures items[i].product in db.products {
      assert Requested(items, items[i].product);
      var j :| 0 <= j < |ids| && ids[j] == items[i].product;
      assert j < k;
    }
  }

  /** A 400 for an unknown product names the least requested id without a product. */
  lemma MissingIsLeast(db: Database, items: seq<Line>, p: int)
    ensures FirstMissing(SortedIds(items), db.products) == Some(p) <==> LeastMissing(db, items, p)
  {
    hide SortedIds, FirstMissing;
    var first := FirstMissing(SortedIds(items), db.products);
    if first.Some? {
      FirstMissingIsLeast(db, items);
    } else {
      forall i | 0 <= i < |items| ensures items[i].product in db.products {
        assert Requested(items, items[i].product);
        assert items[i].product in SortedIds(items);
      }
    }
  }

  /** A 409 names the first line that asks for more than there is. */
  lemma ShortIsFirst(db: Database, items: seq<Line>, p: int, available: int, requested: int)
    requires Known(items, Rows(db.products))
    ensures (exists k :: 0 <= k < |items| && items[k] == Line(p, requested)
               && p in db.products && available == db.products[p].row.stock && available < requested
               && LinesInStock(db, items[..k])) <==>
            var short := FirstShort(items, Rows(db.products));
            short.Some? && var line := items[short.value];
            line == Line(p, requested) && Rows(db.products)[p].stock == available
  {
    var rows := Rows(db.products);
    assert forall i :: 0 <= i < |items| ==> items[i].product in rows;
    assert forall i :: 0 <= i < |items| ==>
             (Short(items, rows, i) <==> db.products[items[i].product].row.stock < items[i].quantity);
    assert forall k, i :: 0 <= i < k < |items| ==> items[..k][i] == items[i];
    var short := FirstShort(items, rows);
    if short.Some? {
      assert LinesInStock(db, items[..short.value]);
    }
    forall k | 0 <= k < |items| && LinesInStock(db, items[..k]) && Short(items, rows, k)
      ensures short == Some(k)
    {
      assert forall i :: 0 <= i < k ==> items[..k][i] == items[i] && !Short(items, rows, i);
    }
  }

  /** The answers of the specification are exactly the promised ones. */
  lemma AnswerIsPromised(n: Narrowing, db: Database, req: Request, response: Response)
    requires UniqueKeys(db)
    ensures Promised(n, db, req, response) <==>
            SameResponse(response, Answer(n, db, req, if response.Placed? then response.id else 0))
  {
    hide SortedIds, FirstMissing, FirstShort, Total, Amount, CanStore, Accepted, Acceptable, ItemsOf;
    DecidedExactly(n, db, req);
    match response
    case NoItems =>
    case UnknownProduct(p) => MissingAnswer(n, db, req, p);
    case InsufficientStock(p, available, requested) => ShortAnswer(n, db, req, p, available, requested);
    case Placed(_, _, _, _, _) => PlacedAnswer(n, db, req, response);
    case Aborted =>
  }

  lemma MissingAnswer(n: Narrowing, db: Database, req: Request, p: int)
    ensures Promised(n, db, req, UnknownProduct(p)) <==> UnknownProduct(p) == Answer(n, db, req, 0)
  {
    hide SortedIds, FirstMissing, FirstShort, Total, Amount, CanStore, Accepted, Acceptable, ItemsOf;
    DecidedExactly(n, db, req);
    MissingIsLeast(db, req.items, p);
  }

  lemma ShortAnswer(n: Narrowing, db: Database, req: Request, p: int, available: int, requested: int)
    ensures Promised(n, db, req, InsufficientStock(p, available, requested)) <==>
            InsufficientStock(p, available, requested) == Answer(n, db, req, 0)
  {
    hide SortedIds, FirstMissing, FirstShort, Total, Amount, CanStore, Accepted, Acceptable, ItemsOf;
    DecidedExactly(n, db, req);
    SameConditions(n, db, req);
    if Known(req.items, Rows(db.products)) {
      assert forall i :: 0 <= i < |req.items| ==> req.items[i].product in Rows(db.products);
      ShortIsFirst(db, req.items, p, available, requested);
    }
  }

  lemma PlacedAnswer(n: Narrowing, db: Database, req: Request, response: Response)
    requires UniqueKeys(db) && response.Placed?
    ensures Promised(n, db, req, response) <==> SameResponse(response, Answer(n, db, req, response.id))
  {
    hide SortedIds, FirstMissing, FirstShort, Total, Amount, CanStore, Accepted, Acceptable, ItemsOf;
    DecidedExactly(n, db, req);
    if KeyTaken(db, req.key) {
      if response.id in db.orders {
        ShowsRecorded(db, response, response.id);
      }
    } else {
      assert BodyOf(ItemRows(response.id, req.items, Rows(db.products))) == NewLines(db.products, req.items);
    }
  }

  /** A created order is answered with its id, the request's customer, `pending`, its total and its lines in order. */
  lemma CreatedAnswer(n: Narrowing, db: Database, req: Request, id: int)
    requires Creates(n, db, req)
    ensures Answer(n, db, req, id)
         == Placed(id, req.customer, Pending, KeptAmount(n, Amount(db.products, req.items)), NewLines(db.products, req.items))
  {
    hide SortedIds, FirstMissing, FirstShort, Total, Amount, CanStore, Accepted, Acceptable, ItemsOf;
    DecidedExactly(n, db, req);
    assert BodyOf(ItemRows(id, req.items, Rows(db.products))) == NewLines(db.products, req.items);
  }

  /** The tables after a request hold the new order in full when it is created, and are untouched otherwise. */
  lemma EffectIsPromised(n: Narrowing, db: Database, req: Request, id: int, now: int)
    ensures Creates(n, db, req) ==> Written(n, db, req, id, now, Effect(n, db, req, id, now))
    ensures !Creates(n, db, req) ==> Effect(n, db, req, id, now) == db
  {
    hide Insertion, Written, Creates;
    DecidedExactly(n, db, req);
    if Creates(n, db, req) {
      InsertionIsWritten(n, db, req, id, now);
    }
  }

  lemma InsertionIsWritten(n: Narrowing, db: Database, req: Request, id: int, now: int)
    requires Creates(n, db, req)
    ensures var order := OrderRow(req.customer, Pending, KeptAmount(n, Amount(db.products, req.items)), req.key, now);
            Written(n, db, req, id, now, Insertion(db, id, order, req.items))
  {
    hide Creates, Ordered, SumQuantity, Amount;
    forall p ensures Ordered(req.items, p) == SumQuantity(req.items, p) {
      OrderedIsSum(req.items, p);
    }
  }

  /** The specification, answer and tables together, keeps the promise for every request. */
  lemma AtomicIsPromised(n: Narrowing, db: Database, req: Request, id: int, now: int)
    requires UniqueKeys(db)
    ensures Promised(n, db, req, Answer(n, db, req, id))
    ensures if Creates(n, db, req) then
              && Written(n, db, req, id, now, Effect(n, db, req, id, now))
              && Answer(n, db, req, id)
                 == Placed(id, req.customer, Pending, KeptAmount(n, Amount(db.products, req.items)),
                           NewLines(db.products, req.items))
            else Effect(n, db, req, id, now) == db
  {
    hide Written, Promised, Creates;
    var response := Answer(n, db, req, id);
    EffectIsPromised(n, db, req, id, now);
    if Creates(n, db, req) {
      CreatedAnswer(n, db, req, id);
    }
    SameAnswerTwice(n, db, req, id);
    AnswerIsPromised(n, db, req, response);
  }

  lemma SameAnswerTwice(n: Narrowing, db: Database, req: Request, id: int)
    ensures var response := Answer(n, db, req, id);
            SameResponse(response, Answer(n, db, req, if response.Placed? then response.id else 0))
  {
  }
}
