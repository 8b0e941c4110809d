/**
 Go's `createOrder` statement by statement on one connection, with no other request running, proved
 to do exactly what the atomic specification says.
 */
module Handler {
  import opened Int32
  import opened ProductIds
  import opened Schema
  import opened Orders
  import opened OrderLaws
  import opened Pricing
  import opened Promises

  datatype Inserted = Conflict | Refused | Inserted(id: int)

  function Decremented(db: Database, p: int, quantity: int): Database
    requires p in db.products
  {
    db.(products := db.products[p := db.products[p].(row := db.products[p].row.(stock := db.products[p].row.stock - quantity))])
  }

  predicate EnoughSoFar(items: seq<Line>, rows: map<int, Row>) {
    forall p :: p in rows ==> SumQuantity(items, p) <= rows[p].stock
  }

  /** Decisions on the locked rows are the atomic decisions, case by case. */
  lemma DecisionOnLockedRows(db: Database, req: Request, prices: map<int, Row>)
    requires req.items != [] && FirstMissing(SortedIds(req.items), db.products).None?
    requires Known(req.items, prices)
    requires forall p :: p in prices ==> p in db.products && prices[p] == db.products[p].row
    ensures var short, total := FirstShort(req.items, prices), Wrap(Total(req.items, prices));
            Decide(Wrapping, db, req) ==
            if short.Some? then
              var line := req.items[short.value];
              Reject(InsufficientStock(line.product, prices[line.product].stock, line.quantity))
            else if total < 0 then Fail
            else if KeyUsed(db, req.key) then Replay(KeyHolder(db, req.key))
            else if req.customer !in db.customers
                    || !AllPositive(req.items) || !EnoughForAll(req.items, prices) then Fail
            else Create(total)
  {
    KnownIfNoneMissing(req.items, db.products);
    SnapshotPrices(req.items, prices, Rows(db.products));
    assert forall i :: 0 <= i < |req.items| ==> req.items[i].product in prices;
    assert EnoughForAll(req.items, prices) <==> EnoughForAll(req.items, Rows(db.products));
    assert forall i :: 0 <= i < |req.items| ==> (Short(req.items, prices, i) <==> Short(req.items, Rows(db.products), i));
  }

  lemma NothingInserted(db: Database, id: int, order: OrderRow)
    ensures Insertion(db, id, order, []) == db.(orders := db.orders[id := order])
  {
    assert Sold(db.products, []) == db.products;
  }

  lemma OneMoreLine(db: Database, id: int, order: OrderRow, items: seq<Line>, i: nat)
    requires i < |items| && items[i].product in db.products
    ensures items[i].product in Insertion(db, id, order, items[..i]).products
    ensures var line, before := items[i], Insertion(db, id, order, items[..i]);
            var row := ItemRow(id, line.product, line.quantity, db.products[line.product].row.price);
            Insertion(db, id, order, items[..i + 1]) ==
            Decremented(before.(items := before.items + [row],
                                ledger := before.ledger + [LedgerRow(line.product, id, -line.quantity)]),
                        line.product, line.quantity)
  {
    assert items[..i + 1][..i] == items[..i];
    var p := items[i].product;
    var before, after := Insertion(db, id, order, items[..i]), Insertion(db, id, order, items[..i + 1]);
    assert after.items == before.items + [ItemRow(id, p, items[i].quantity, db.products[p].row.price)];
    assert after.ledger == before.ledger + [LedgerRow(p, id, -items[i].quantity)];
    assert after.products == Decremented(before, p, items[i].quantity).products;
  }

  /** One pooled connection: the committed tables, and the open transaction's view of them. */
  class Connection {
    var db: Database
    var next: int
    var work: Database
    var inTx: bool

    constructor (db: Database, next: int)
      ensures this.db == db && this.next == next && !inTx
    {
      this.db := db;
      this.next := next;
      work := db;
      inTx := false;
    }

    predicate Consistent()
      reads this
    {
      Schema.Valid(db) && forall id :: id in db.orders ==> id < next
    }

    method Begin()
      requires !inTx
      modifies this`work, this`inTx
      ensures inTx && work == db
    {
      work, inTx := db, true;
    }

    method Commit()
      requires inTx
      modifies this`db, this`inTx
      ensures !inTx && db == work
    {
      db, inTx := work, false;
    }

    method Rollback()
      modifies this`work, this`inTx
      ensures !inTx && work == db
    {
      work, inTx := db, false;
    }

    method SelectForUpdate(p: int) returns (row: Option<Row>)
      requires inTx
      ensures row == if p in work.products then Some(work.products[p].row) else None
    {
      row := if p in work.products then Some(work.products[p].row) else None;
    }

    /**
     INSERT INTO orders ... ON CONFLICT (idempotency_key) DO NOTHING RETURNING id. The CHECK on the row
     comes before the search for the key; the customer reference is looked up after the row is in.
     */
    method InsertOrder(order: OrderRow) returns (r: Inserted)
      requires inTx
      modifies this`work, this`next
      ensures next == old(next) + 1
      ensures r == if !(0 <= order.total <= INT_MAX) then Refused
                   else if KeyUsed(old(work), order.key) then Conflict
                   else if !ValidOrder(old(work), order) then Refused
                   else Inserted(old(next))
      ensures work == if r.Inserted? then old(work).(orders := old(work).orders[r.id := order]) else old(work)
    {
      var id := next;
      next := next + 1;
      if !(0 <= order.total <= INT_MAX) {
        return Refused;
      }
      if KeyUsed(work, order.key) {
        return Conflict;
      }
      if !ValidOrder(work, order) {
        return Refused;
      }
      work := work.(orders := work.orders[id := order]);
      r := Inserted(id);
    }

    method InsertItem(row: ItemRow) returns (ok: bool)
      requires inTx
      modifies this`work
      ensures ok == ValidItem(old(work), row)
      ensures work == if ok then old(work).(items := old(work).items + [row]) else old(work)
    {
      ok := ValidItem(work, row);
      if ok {
        work := work.(items := work.items + [row]);
      }
    }

    method InsertLedger(row: LedgerRow) returns (ok: bool)
      requires inTx
      modifies this`work
      ensures ok == ValidLedger(old(work), row)
      ensures work == if ok then old(work).(ledger := old(work).ledger + [row]) else old(work)
    {
      ok := ValidLedger(work, row);
      if ok {
        work := work.(ledger := work.ledger + [row]);
      }
    }

    /** UPDATE products SET stock = stock - $1 WHERE id = $2 */
    method DecrementStock(quantity: int, p: int) returns (ok: bool)
      requires inTx && p in work.products
      modifies this`work
      ensures var row := old(work).products[p].row;
              && ok == (0 <= row.stock - quantity <= INT_MAX)
              && work == if ok then Decremented(old(work), p, quantity) else old(work)
    {
      var left := work.products[p].row.stock - quantity;
      ok := 0 <= left <= INT_MAX;
      if ok {
        work := work.(products := work.products[p := work.products[p].(row := work.products[p].row.(stock := left))]);
      }
    }

    /** `returnExistingOrder`: read the order stored under the key, then its items. */
    method ReturnExistingOrder(key: Key) returns (response: Response)
      requires !inTx && UniqueKeys(db)
      ensures response == if KeyUsed(db, key) then Recorded(db, KeyHolder(db, key)) else Aborted
      ensures (exists id :: id in db.orders && db.orders[id].key == key) ==>
                response.Placed? && response.id in db.orders && db.orders[response.id].key == key
      ensures response.Placed? ==> ShowsOrder(db, response)
    {
      if id :| id in db.orders && db.orders[id].key == key {
        assert KeyUsed(db, key) && KeyHolder(db, key) == id;
        var row := db.orders[id];
        var rows := ItemsOf(db.items, id);
        response := Placed(id, row.customer, row.status, row.total, BodyOf(rows));
        ShowsRecorded(db, response, id);
      } else {
        response := Aborted;
      }
    }

    /** The rows of every id in `ids`, locked in that order, or the first id that names no product. */
    method LockProducts(ids: seq<int>) returns (missing: Option<int>, prices: map<int, Row>)
      requires inTx
      ensures missing == FirstMissing(ids, work.products)
      ensures forall p :: p in prices ==> p in ids
      ensures missing.None? ==> forall p :: p in ids ==> p in prices && p in work.products && prices[p] == work.products[p].row
    {
      prices := map[];
      for k := 0 to |ids|
        invariant forall j :: 0 <= j < k ==> ids[j] in work.products
        invariant forall p :: p in prices ==> p in ids
        invariant forall j :: 0 <= j < k ==> ids[j] in prices && prices[ids[j]] == work.products[ids[j]].row
      {
        var row := SelectForUpdate(ids[k]);
        if row.None? {
          FirstMissingAt(ids, work.products, k);
          return Some(ids[k]), prices;
        }
        prices := prices[ids[k] := row.value];
      }
      missing := None;
    }

    ghost predicate WroteUpTo(id: int, order: OrderRow, items: seq<Line>, prices: map<int, Row>, i: nat)
      requires i <= |items|
      reads this
    {
      && inTx && work == Insertion(db, id, order, items[..i])
      && AllPositive(items[..i]) && EnoughSoFar(items[..i], prices)
    }

    /** The three statements of line `i`; false when a constraint refuses one of them. */
    method WriteLine(id: int, order: OrderRow, items: seq<Line>, prices: map<int, Row>, i: nat) returns (ok: bool)
      requires i < |items| && WroteUpTo(id, order, items, prices, i)
      requires Known(items, prices) && !Short(items, prices, i)
      requires forall p :: p in prices ==> p in db.products && prices[p] == db.products[p].row && ValidProduct(db.products[p])
      modifies this`work
      ensures ok ==> WroteUpTo(id, order, items, prices, i + 1)
      ensures !ok ==> !(AllPositive(items) && EnoughForAll(items, prices))
    {
      var line := items[i];
      assert items[..i + 1][..i] == items[..i];
      OneMoreLine(db, id, order, items, i);
      ok := InsertItem(ItemRow(id, line.product, line.quantity, prices[line.product].price));
      if !ok {
        return;
      }
      ok := InsertLedger(LedgerRow(line.product, id, -line.quantity));
      assert ok;
      ok := DecrementStock(line.quantity, line.product);
      SumNonNegative(items[..i + 1], line.product);
      if !ok {
        OverdrawnPrefix(items, prices, i);
      }
    }

    /** Item, ledger and stock statements of every line; stops at the first one that is refused. */
    method WriteLines(id: int, order: OrderRow, items: seq<Line>, prices: map<int, Row>) returns (ok: bool)
      requires inTx && work == db.(orders := db.orders[id := order])
      requires Known(items, prices) && FirstShort(items, prices).None?
      requires forall p :: p in prices ==> p in db.products && prices[p] == db.products[p].row && ValidProduct(db.products[p])
      modifies this`work
      ensures ok <==> AllPositive(items) && EnoughForAll(items, prices)
      ensures ok ==> work == Insertion(db, id, order, items)
    {
      NothingInserted(db, id, order);
      assert items[..0] == [];
      for i := 0 to |items|
        invariant WroteUpTo(id, order, items, prices, i)
      {
        var wrote := WriteLine(id, order, items, prices, i);
        if !wrote {
          return false;
        }
      }
      assert items[..|items|] == items;
      ok := true;
    }

    /** The handler from the stock check on, with every row locked. */
    method PlaceLocked(req: Request, prices: map<int, Row>, now: int) returns (response: Response)
      requires inTx && work == db && Consistent() && req.items != []
      requires FirstMissing(SortedIds(req.items), db.products).None?
      requires Known(req.items, prices)
      requires forall p :: p in prices ==> p in db.products && prices[p] == db.products[p].row
      modifies this
      ensures !inTx
      ensures response == Answer(Wrapping, old(db), req, old(next))
      ensures db == Effect(Wrapping, old(db), req, old(next), now)
      ensures next == old(next) || next == old(next) + 1
      ensures db != old(db) ==> next == old(next) + 1
    {
      DecisionOnLockedRows(db, req, prices);
      var short, total := CheckAndTotal(req.items, prices);
      if short.Some? {
        Rollback();
        var line := req.items[short.value];
        return InsufficientStock(line.product, prices[line.product].stock, line.quantity);
      }
      var order := OrderRow(req.customer, Pending, total, req.key, now);
      var inserted := InsertOrder(order);
      if inserted.Conflict? {
        Rollback();
        response := ReturnExistingOrder(req.key);
        return;
      }
      if inserted.Refused? {
        Rollback();
        return Aborted;
      }
      var written := WriteLines(inserted.id, order, req.items, prices);
      if !written {
        Rollback();
        return Aborted;
      }
      SnapshotItems(inserted.id, req.items, prices, Rows(db.products));
      Commit();
      response := Placed(inserted.id, req.customer, Pending, total, BodyOf(ItemRows(inserted.id, req.items, prices)));
    }

    /** The transaction of a non-empty request. */
    method RunTransaction(req: Request, now: int) returns (response: Response)
      requires !inTx && Consistent() && req.items != []
      modifies this
      ensures !inTx && Consistent()
      ensures response == Answer(Wrapping, old(db), req, old(next))
      ensures db == Effect(Wrapping, old(db), req, old(next), now)
    {
      EffectKeepsConstraints(Wrapping, db, req, next, now);
      Begin();
      var productIDs := GoLockOrder(req.items);
      var missing, prices := LockProducts(productIDs);
      if missing.Some? {
        Rollback();
        return UnknownProduct(missing.value);
      }
      LockedAreKnown(req.items, prices);
      response := PlaceLocked(req, prices, now);
    }

    /**
     The whole handler: the answer and the committed tables are those of the atomic specification, which
     are the promised ones; every constraint still holds, and no transaction stays open.
     */
    method CreateOrder(req: Request, now: int) returns (response: Response)
      requires !inTx && Consistent()
      modifies this
      ensures !inTx && Consistent()
      ensures response == Answer(Wrapping, old(db), req, old(next))
      ensures db == Effect(Wrapping, old(db), req, old(next), now)
      ensures Promised(Wrapping, old(db), req, response)
      ensures if Creates(Wrapping, old(db), req) then
                Written(Wrapping, old(db), req, old(next), now, db) && response.Placed? && response.id == old(next)
                && response.items == NewLines(old(db).products, req.items)
              else db == old(db)
    {
      hide Promised, Written, Creates;
      AtomicIsPromised(Wrapping, db, req, next, now);
      if req.items == [] {
        return NoItems;
      }
      response := RunTransaction(req, now);
    }
  }
}
