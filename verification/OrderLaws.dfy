/** Laws of the atomic specification, for every database, request and id. */
module OrderLaws {
  import opened Int32
  import opened ProductIds
  import opened Schema
  import opened Orders

  // ----- sums over request lines -----

  lemma {:induction false} UnrequestedSum(items: seq<Line>, p: int)
    requires !Requested(items, p)
    ensures SumQuantity(items, p) == 0
  {
    if items != [] {
      var k := |items| - 1;
      assert items[..k + 1] == items;
      RequestedPrefix(items, k);
      UnrequestedSum(items[..k], p);
    }
  }

  lemma {:induction false} SumNonNegative(items: seq<Line>, p: int)
    requires AllPositive(items)
    ensures SumQuantity(items, p) >= 0
  {
    if items != [] {
      SumNonNegative(items[..|items| - 1], p);
    }
  }

  lemma {:induction false} SumMonotone(items: seq<Line>, k: nat, p: int)
    requires AllPositive(items) && k <= |items|
    ensures SumQuantity(items[..k], p) <= SumQuantity(items, p)
    decreases |items| - k
  {
    if k == |items| {
      assert items[..k] == items;
    } else {
      assert items[..k + 1][..k] == items[..k];
      SumMonotone(items, k + 1, p);
    }
  }

  /** A line never asks for more than the request's sum for its product. */
  lemma LineWithinSum(items: seq<Line>, i: nat)
    requires AllPositive(items) && i < |items|
    ensures items[i].quantity <= SumQuantity(items, items[i].product)
  {
    var p := items[i].product;
    assert items[..i + 1][..i] == items[..i];
    SumNonNegative(items[..i], p);
    SumMonotone(items, i + 1, p);
  }

  /** A prefix that overdraws a row cannot be made good by later lines of positive quantity. */
  lemma OverdrawnPrefix(items: seq<Line>, rows: map<int, Row>, i: nat)
    requires Known(items, rows) && i < |items|
    requires SumQuantity(items[..i + 1], items[i].product) > rows[items[i].product].stock
    ensures !(AllPositive(items) && EnoughForAll(items, rows))
  {
    if AllPositive(items) {
      SumMonotone(items, i + 1, items[i].product);
    }
  }

  predicate DistinctProducts(items: seq<Line>) {
    forall i, j :: 0 <= i < j < |items| ==> items[i].product != items[j].product
  }

  lemma {:induction false} DistinctSum(items: seq<Line>, i: nat)
    requires DistinctProducts(items) && i < |items|
    ensures SumQuantity(items, items[i].product) == items[i].quantity
  {
    var k := |items| - 1;
    if i == k {
      UnrequestedSum(items[..k], items[k].product);
    } else {
      DistinctSum(items[..k], i);
    }
  }

  /** When no product repeats, the per-line check alone keeps every stock CHECK satisfied. */
  lemma DistinctLinesNeverOverdraw(items: seq<Line>, rows: map<int, Row>)
    requires Known(items, rows) && DistinctProducts(items)
    ensures FirstShort(items, rows).None? <==> EnoughForAll(items, rows)
  {
    forall i | 0 <= i < |items|
      ensures SumQuantity(items, items[i].product) == items[i].quantity
    {
      DistinctSum(items, i);
    }
  }

  /** With positive quantities enough stock for the sums passes the per-line check; not conversely. */
  lemma EnoughPassesPerLine(items: seq<Line>, rows: map<int, Row>)
    requires Known(items, rows) && AllPositive(items)
    ensures EnoughForAll(items, rows) ==> FirstShort(items, rows).None?
  {
    forall i | 0 <= i < |items|
      ensures items[i].quantity <= SumQuantity(items, items[i].product)
    {
      LineWithinSum(items, i);
    }
  }

  /** Some single line of each product asks for as much as all its lines together. */
  predicate LargestCovers(items: seq<Line>) {
    forall i :: 0 <= i < |items| ==> CoveredByOneLine(items, items[i].product)
  }

  predicate CoveredByOneLine(items: seq<Line>, p: int) {
    exists j :: 0 <= j < |items| && items[j].product == p && SumQuantity(items, p) <= items[j].quantity
  }

  /** On every stock the schema allows, passing the per-line check means there is enough for the sums. */
  ghost predicate PerLineCheckSuffices(items: seq<Line>) {
    forall rows: map<int, Row> ::
      (Known(items, rows) && InStock(rows) && FirstShort(items, rows).None?) ==> EnoughForAll(items, rows)
  }

  predicate InStock(rows: map<int, Row>) {
    forall p :: p in rows ==> rows[p].stock >= 0
  }

  function LargestQuantity(items: seq<Line>): (q: nat)
    ensures forall i :: 0 <= i < |items| ==> items[i].quantity <= q
  {
    if items == [] then 0
    else
      var last := items[|items| - 1].quantity;
      var q := LargestQuantity(items[..|items| - 1]);
      assert forall i :: 0 <= i < |items| - 1 ==> items[i] == items[..|items| - 1][i];
      if last > q then last else q
  }

  /** Lines that only give back sum to no more than any one of them. */
  lemma {:induction false} NegativeLines(items: seq<Line>, p: int)
    requires forall i :: 0 <= i < |items| && items[i].product == p ==> items[i].quantity < 0
    ensures SumQuantity(items, p) <= 0
    ensures forall i :: 0 <= i < |items| && items[i].product == p ==> SumQuantity(items, p) <= items[i].quantity
  {
    if items != [] {
      var k := |items| - 1;
      NegativeLines(items[..k], p);
      assert forall i :: 0 <= i < k ==> items[i] == items[..k][i];
    }
  }

  /** One unit less than the sum for the product of line `i`, plenty of everything else. */
  function OneShort(items: seq<Line>, i: nat): map<int, Row>
    requires i < |items|
  {
    var p := items[i].product;
    map q | q in SortedIds(items) ::
      Row(0, if q == p then SumQuantity(items, p) - 1 else LargestQuantity(items))
  }

  lemma OneShortPassesPerLine(items: seq<Line>, i: nat)
    requires i < |items|
    requires forall j :: 0 <= j < |items| && items[j].product == items[i].product ==>
               items[j].quantity < SumQuantity(items, items[i].product)
    ensures !PerLineCheckSuffices(items)
  {
    var p, rows := items[i].product, OneShort(items, i);
    LockedAreKnown(items, rows);
    if SumQuantity(items, p) <= 0 {
      NegativeLines(items, p);
    }
    assert InStock(rows);
    assert forall k :: 0 <= k < |items| ==> !Short(items, rows, k);
    assert rows[items[i].product].stock < SumQuantity(items, p);
    assert !EnoughForAll(items, rows);
  }

  /** The per-line check keeps stock safe exactly for bodies in which no product's lines outgrow its largest one. */
  lemma PerLineCheckSufficesExactly(items: seq<Line>)
    ensures PerLineCheckSuffices(items) <==> LargestCovers(items)
  {
    hide SumQuantity, FirstShort;
    if LargestCovers(items) {
      forall rows: map<int, Row> | Known(items, rows) && InStock(rows) && FirstShort(items, rows).None?
        ensures EnoughForAll(items, rows)
      {
        CoveredIsEnough(items, rows);
      }
    } else {
      var i :| 0 <= i < |items| && !CoveredByOneLine(items, items[i].product);
      OneShortPassesPerLine(items, i);
    }
  }

  lemma CoveredIsEnough(items: seq<Line>, rows: map<int, Row>)
    requires LargestCovers(items) && Known(items, rows) && FirstShort(items, rows).None?
    ensures EnoughForAll(items, rows)
  {
    hide SumQuantity, FirstShort;
    forall i | 0 <= i < |items|
      ensures SumQuantity(items, items[i].product) <= rows[items[i].product].stock
    {
      var p := items[i].product;
      assert CoveredByOneLine(items, p);
      var j :| 0 <= j < |items| && items[j].product == p && SumQuantity(items, p) <= items[j].quantity;
      assert !Short(items, rows, j);
    }
  }

  /** Two lines of one product together ask for no more than its sum. */
  lemma PairWithinSum(items: seq<Line>, i: nat, j: nat)
    requires AllPositive(items) && i < j < |items| && items[i].product == items[j].product
    ensures items[i].quantity + items[j].quantity <= SumQuantity(items, items[i].product)
  {
    var p := items[i].product;
    LineWithinSum(items[..j], i);
    assert items[..j + 1][..j] == items[..j];
    assert SumQuantity(items[..j + 1], p) == SumQuantity(items[..j], p) + items[j].quantity;
    SumMonotone(items, j + 1, p);
  }

  /** With positive quantities those are exactly the bodies whose lines name distinct products. */
  lemma DistinctExactlySuffices(items: seq<Line>)
    requires AllPositive(items)
    ensures PerLineCheckSuffices(items) <==> DistinctProducts(items)
  {
    PerLineCheckSufficesExactly(items);
    if DistinctProducts(items) {
      forall i | 0 <= i < |items| ensures SumQuantity(items, items[i].product) <= items[i].quantity {
        DistinctSum(items, i);
      }
    } else {
      var i, j :| 0 <= i < j < |items| && items[i].product == items[j].product;
      forall k | 0 <= k < |items| && items[k].product == items[i].product
        ensures items[k].quantity < SumQuantity(items, items[i].product)
      {
        var other := if k == i then j else i;
        PairWithinSum(items, if k < other then k else other, if k < other then other else k);
      }
    }
  }

  lemma PerLineCheckIsTooWeak()
    ensures var items, rows := [Line(1, 3), Line(1, 3)], map[1 := Row(100, 5)];
            FirstShort(items, rows).None? && AllPositive(items) && !EnoughForAll(items, rows)
  {
    var items := [Line(1, 3), Line(1, 3)];
    assert items[..1] == [Line(1, 3)] && items[..1][..0] == [];
    assert SumQuantity(items[..1], 1) == 3;
    assert SumQuantity(items, items[0].product) == 6;
  }

  // ----- agreement of a snapshot with the committed rows -----

  /** Totals depend on the prices alone. */
  lemma {:induction false} PricesDetermineTotal(items: seq<Line>, a: map<int, Row>, b: map<int, Row>)
    requires Known(items, a) && Known(items, b)
    requires forall p :: p in a && p in b ==> a[p].price == b[p].price
    ensures Total(items, a) == Total(items, b)
  {
    if items != [] {
      PricesDetermineTotal(items[..|items| - 1], a, b);
    }
  }

  lemma {:induction false} SnapshotPrices(items: seq<Line>, seen: map<int, Row>, rows: map<int, Row>)
    requires Known(items, seen)
    requires forall p :: p in seen ==> p in rows && rows[p] == seen[p]
    ensures Known(items, rows)
    ensures Total(items, seen) == Total(items, rows)
    ensures FirstShort(items, seen) == FirstShort(items, rows)
  {
    if items != [] {
      SnapshotPrices(items[..|items| - 1], seen, rows);
    }
  }

  lemma SnapshotItems(id: int, items: seq<Line>, seen: map<int, Row>, rows: map<int, Row>)
    requires Known(items, seen)
    requires forall p :: p in seen ==> p in rows && rows[p] == seen[p]
    ensures ItemRows(id, items, seen) == ItemRows(id, items, rows)
  {
  }

  lemma {:induction false} FirstMissingAt(ids: seq<int>, products: map<int, Product>, k: nat)
    requires k < |ids| && ids[k] !in products
    requires forall j :: 0 <= j < k ==> ids[j] in products
    ensures FirstMissing(ids, products) == Some(ids[k])
  {
    if k > 0 {
      FirstMissingAt(ids[1..], products, k - 1);
    }
  }

  // ----- what Create means -----

  predicate Fresh(db: Database, id: int) {
    id !in db.orders
  }

  lemma CreateFacts(n: Narrowing, db: Database, req: Request)
    requires Decide(n, db, req).Create?
    ensures req.items != []
    ensures Known(req.items, Rows(db.products))
    ensures FirstMissing(SortedIds(req.items), db.products).None?
    ensures FirstShort(req.items, Rows(db.products)).None?
    ensures !KeyUsed(db, req.key)
    ensures Accepted(n, db, req)
    ensures Stored(n, Total(req.items, Rows(db.products))) == Some(Decide(n, db, req).total)
  {
    KnownIfNoneMissing(req.items, db.products);
  }

  lemma StockLeft(items: seq<Line>, products: map<int, Product>, p: int)
    requires Known(items, Rows(products)) && AllPositive(items) && EnoughForAll(items, Rows(products))
    requires p in products && ValidProduct(products[p])
    ensures 0 <= SumQuantity(items, p) <= products[p].row.stock
  {
    SumNonNegative(items, p);
    if Requested(items, p) {
      var i :| 0 <= i < |items| && items[i].product == p;
      assert SumQuantity(items, items[i].product) <= Rows(products)[p].stock;
    } else {
      UnrequestedSum(items, p);
    }
  }

  lemma InsertionKeepsItems(db: Database, id: int, order: OrderRow, items: seq<Line>)
    requires Valid(db) && Known(items, Rows(db.products)) && AllPositive(items)
    requires FirstShort(items, Rows(db.products)).None?
    ensures var db' := Insertion(db, id, order, items); forall i :: 0 <= i < |db'.items| ==> ValidItem(db', db'.items[i])
  {
    var db' := Insertion(db, id, order, items);
    forall i | 0 <= i < |db'.items| ensures ValidItem(db', db'.items[i]) {
      if i < |db.items| {
        assert ValidItem(db, db.items[i]);
      } else {
        NewLineInRange(db, items, i - |db.items|);
        assert db'.items[i] == ItemRows(id, items, Rows(db.products))[i - |db.items|];
      }
    }
  }

  lemma InsertionKeepsLedger(db: Database, id: int, order: OrderRow, items: seq<Line>)
    requires Valid(db) && Known(items, Rows(db.products)) && AllPositive(items)
    requires FirstShort(items, Rows(db.products)).None?
    ensures var db' := Insertion(db, id, order, items); forall i :: 0 <= i < |db'.ledger| ==> ValidLedger(db', db'.ledger[i])
  {
    var db' := Insertion(db, id, order, items);
    forall i | 0 <= i < |db'.ledger| ensures ValidLedger(db', db'.ledger[i]) {
      if i < |db.ledger| {
        assert ValidLedger(db, db.ledger[i]);
      } else {
        NewLineInRange(db, items, i - |db.ledger|);
        assert db'.ledger[i] == LedgerRows(id, items)[i - |db.ledger|];
      }
    }
  }

  lemma NewLineInRange(db: Database, items: seq<Line>, i: nat)
    requires Valid(db) && Known(items, Rows(db.products)) && AllPositive(items) && i < |items|
    requires FirstShort(items, Rows(db.products)).None?
    ensures 0 < items[i].quantity <= INT_MAX
    ensures items[i].product in db.products && ValidProduct(db.products[items[i].product])
  {
    assert items[i].product in Rows(db.products);
    assert !Short(items, Rows(db.products), i);
  }

  lemma InsertionKeepsKeys(db: Database, id: int, order: OrderRow, items: seq<Line>)
    requires UniqueKeys(db) && Fresh(db, id) && !KeyUsed(db, order.key)
    ensures UniqueKeys(Insertion(db, id, order, items))
  {
    forall a | a in db.orders ensures db.orders[a].key != order.key {}
  }

  lemma InsertionKeepsProducts(db: Database, id: int, order: OrderRow, items: seq<Line>)
    requires forall p :: p in db.products ==> ValidProduct(db.products[p])
    requires Known(items, Rows(db.products)) && AllPositive(items) && EnoughForAll(items, Rows(db.products))
    ensures var db' := Insertion(db, id, order, items);
            forall p :: p in db'.products ==> ValidProduct(db'.products[p])
  {
    forall p | p in db.products ensures 0 <= SumQuantity(items, p) <= db.products[p].row.stock {
      StockLeft(items, db.products, p);
    }
  }

  /** Every CHECK, UNIQUE and foreign key still holds after a request. */
  lemma EffectKeepsConstraints(n: Narrowing, db: Database, req: Request, id: int, now: int)
    requires Valid(db) && Fresh(db, id)
    ensures Valid(Effect(n, db, req, id, now))
  {
    if Decide(n, db, req).Create? {
      CreateFacts(n, db, req);
      var order := OrderRow(req.customer, Pending, Decide(n, db, req).total, req.key, now);
      var db' := Insertion(db, id, order, req.items);
      assert db' == Effect(n, db, req, id, now);
      InsertionKeepsProducts(db, id, order, req.items);
      InsertionKeepsKeys(db, id, order, req.items);
      InsertionKeepsItems(db, id, order, req.items);
      InsertionKeepsLedger(db, id, order, req.items);
    }
  }

  // ----- conservation and the rows of an order -----

  lemma {:induction false} DeltaOfLines(id: int, items: seq<Line>, p: int)
    ensures Delta(LedgerRows(id, items), p) == -SumQuantity(items, p)
  {
    if items != [] {
      var k := |items| - 1;
      assert LedgerRows(id, items)[..k] == LedgerRows(id, items[..k]);
      DeltaOfLines(id, items[..k], p);
    }
  }

  /** Stock minus summed ledger deltas never changes, whatever the request's outcome. */
  lemma Conservation(n: Narrowing, db: Database, req: Request, id: int, now: int, p: int)
    requires p in db.products
    ensures var db' := Effect(n, db, req, id, now);
            && p in db'.products
            && db'.products[p].row.stock - Delta(db'.ledger, p) == db.products[p].row.stock - Delta(db.ledger, p)
            && db'.products[p].row.price == db.products[p].row.price
            && db'.products[p].category == db.products[p].category
  {
    if Decide(n, db, req).Create? {
      DeltaAppend(db.ledger, LedgerRows(id, req.items), p);
      DeltaOfLines(id, req.items, p);
    }
  }

  /** What an order's own item rows add up to. */
  function Worth(rows: seq<ItemRow>): int {
    if rows == [] then 0
    else Worth(rows[..|rows| - 1]) + rows[|rows| - 1].price * rows[|rows| - 1].quantity
  }

  lemma {:induction false} WorthOfLines(id: int, items: seq<Line>, rows: map<int, Row>)
    requires Known(items, rows)
    ensures Worth(ItemRows(id, items, rows)) == Total(items, rows)
  {
    if items != [] {
      var k := |items| - 1;
      assert ItemRows(id, items, rows)[..k] == ItemRows(id, items[..k], rows);
      WorthOfLines(id, items[..k], rows);
    }
  }

  lemma NoRowsBeforeInsertion(db: Database, id: int)
    requires Valid(db) && Fresh(db, id)
    ensures ItemsOf(db.items, id) == [] && LedgerOf(db.ledger, id) == []
  {
    ItemsOfNone(db.items, id);
    LedgerOfNone(db.ledger, id);
  }

  lemma AppendedItems(before: seq<ItemRow>, id: int, items: seq<Line>, rows: map<int, Row>)
    requires ItemsOf(before, id) == []
    ensures ItemsOf(before + ItemRows(id, items, rows), id) == ItemRows(id, items, rows)
  {
    var added := ItemRows(id, items, rows);
    ItemsOfAppend(before, added, id);
    ItemsOfAll(added, id);
  }

  lemma AppendedMoves(before: seq<LedgerRow>, id: int, items: seq<Line>)
    requires LedgerOf(before, id) == []
    ensures LedgerOf(before + LedgerRows(id, items), id) == LedgerRows(id, items)
  {
    var moves := LedgerRows(id, items);
    LedgerOfAppend(before, moves, id);
    LedgerOfAll(moves, id);
  }

  lemma RowsOfNewOrder(db: Database, id: int, order: OrderRow, items: seq<Line>)
    requires Valid(db) && Fresh(db, id)
    ensures var db' := Insertion(db, id, order, items);
            && ItemsOf(db'.items, id) == ItemRows(id, items, Rows(db.products))
            && LedgerOf(db'.ledger, id) == LedgerRows(id, items)
  {
    NoRowsBeforeInsertion(db, id);
    AppendedItems(db.items, id, items, Rows(db.products));
    AppendedMoves(db.ledger, id, items);
  }

  /**
   A created order is stored as pending under the request's customer and key with one item row and one
   ledger row per line, at the committed prices, with opposite quantities; its total is what those rows
   are worth exactly when that fits in 32 bits. No other order changes.
   */
  lemma CreatedOrderIsWhole(n: Narrowing, db: Database, req: Request, id: int, now: int)
    requires Valid(db) && Fresh(db, id) && Decide(n, db, req).Create?
    ensures var db' := Effect(n, db, req, id, now);
            var own, moves := ItemsOf(db'.items, id), LedgerOf(db'.ledger, id);
            && |own| == |moves| == |req.items|
            && (forall i :: 0 <= i < |req.items| ==>
                  && req.items[i].product in db.products
                  && own[i] == ItemRow(id, req.items[i].product, req.items[i].quantity,
                                       db.products[req.items[i].product].row.price)
                  && moves[i] == LedgerRow(req.items[i].product, id, -own[i].quantity))
            && db'.orders.Keys == db.orders.Keys + {id}
            && (forall o :: o in db.orders ==> db'.orders[o] == db.orders[o])
            && db'.orders[id].customer == req.customer && db'.orders[id].status == Pending
            && db'.orders[id].key == req.key && db'.orders[id].createdAt == now
            && db'.orders[id].total == Wrap(Worth(own))
            && (db'.orders[id].total == Worth(own) <==> InRange(Worth(own)))
            && (n.Checked? ==> db'.orders[id].total == Worth(own))
  {
    CreateFacts(n, db, req);
    var order := OrderRow(req.customer, Pending, Decide(n, db, req).total, req.key, now);
    RowsOfNewOrder(db, id, order, req.items);
    WorthOfLines(id, req.items, Rows(db.products));
    forall i | 0 <= i < |req.items| ensures req.items[i].product in Rows(db.products) {}
  }

  /** The summed quantity of each product is at most the stock there was. */
  lemma CreatedOrderWithinStock(n: Narrowing, db: Database, req: Request, p: int)
    requires Valid(db) && Decide(n, db, req).Create? && p in db.products
    ensures 0 <= SumQuantity(req.items, p) <= db.products[p].row.stock
  {
    CreateFacts(n, db, req);
    StockLeft(req.items, db.products, p);
  }

  // ----- idempotency -----

  /**
   A used key is replayed exactly when the repeated body still passes the product and stock checks and
   its own total could be stored; the database refuses that total before it looks for the key.
   */
  lemma ReplayedExactly(n: Narrowing, db: Database, req: Request)
    requires Valid(db) && KeyUsed(db, req.key)
    ensures Decide(n, db, req).Replay? <==>
            && req.items != []
            && (forall i :: 0 <= i < |req.items| ==>
                  && req.items[i].product in db.products
                  && req.items[i].quantity <= db.products[req.items[i].product].row.stock)
            && Known(req.items, Rows(db.products)) && Storable(n, Total(req.items, Rows(db.products)))
    ensures Decide(n, db, req).Replay? ==>
            forall id :: id in db.orders && db.orders[id].key == req.key ==> Decide(n, db, req) == Replay(id)
  {
    var missing := FirstMissing(SortedIds(req.items), db.products);
    if missing.None? {
      KnownIfNoneMissing(req.items, db.products);
      assert forall i :: 0 <= i < |req.items| ==> req.items[i].product in Rows(db.products);
      assert forall i :: 0 <= i < |req.items| ==> (Short(req.items, Rows(db.products), i)
          <==> db.products[req.items[i].product].row.stock < req.items[i].quantity);
    } else {
      assert missing.value in SortedIds(req.items);
      assert Requested(req.items, missing.value);
    }
  }

  /**
   The promised replay of the original 201 fails for an immediate retry exactly when the order itself
   left too little stock for one of its own lines.
   */
  lemma ImmediateRetry(n: Narrowing, db: Database, req: Request, id: int, now: int)
    requires Valid(db) && Fresh(db, id) && Decide(n, db, req).Create?
    ensures var db' := Effect(n, db, req, id, now);
            Decide(n, db', req) == Replay(id) <==>
            forall i :: 0 <= i < |req.items| ==>
              && req.items[i].product in db.products
              && SumQuantity(req.items, req.items[i].product) + req.items[i].quantity
                 <= db.products[req.items[i].product].row.stock
    ensures var db' := Effect(n, db, req, id, now);
            Decide(n, db', req) == Replay(id) ==>
            Answer(n, db', req, id) == Answer(n, db, req, id)
    ensures var db' := Effect(n, db, req, id, now);
            Decide(n, db', req) != Replay(id) ==> Answer(n, db', req, id).InsufficientStock?
  {
    hide Valid, Total, SumQuantity, Accepted, ItemsOf, LedgerOf, FirstShort, FirstMissing, SortedIds;
    CreateFacts(n, db, req);
    EffectKeepsConstraints(n, db, req, id, now);
    var order := OrderRow(req.customer, Pending, Decide(n, db, req).total, req.key, now);
    var db' := Insertion(db, id, order, req.items);
    assert id in db'.orders && db'.orders[id].key == req.key;
    assert KeyUsed(db', req.key);
    RowsOfNewOrder(db, id, order, req.items);
    PricesDetermineTotal(req.items, Rows(db.products), Rows(db'.products));
    ReplayedExactly(n, db', req);
    assert forall i :: 0 <= i < |req.items| ==> req.items[i].product in Rows(db.products);
  }

  /** A stored key repeated with a line that gives a unit back: the negative total is refused, not replayed. */
  lemma NegativeRepeatIsNotReplayed(n: Narrowing)
    ensures var db := Database({1}, map[7 := Product(Row(250, 2), 1)], map[1 := OrderRow(1, Pending, 500, 5, 0)], [], []);
            var req := Request(5, 1, [Line(7, -1)]);
            && Valid(db) && KeyUsed(db, req.key)
            && Known(req.items, Rows(db.products)) && FirstShort(req.items, Rows(db.products)).None?
            && Decide(n, db, req) == Fail
  {
    var db := Database({1}, map[7 := Product(Row(250, 2), 1)], map[1 := OrderRow(1, Pending, 500, 5, 0)], [], []);
    var req := Request(5, 1, [Line(7, -1)]);
    assert req.items[..0] == [];
    assert 1 in db.orders && db.orders[1].key == 5;
    assert Known(req.items, Rows(db.products));
    assert Total(req.items, Rows(db.products)) == -250;
    assert SortedIds(req.items) == [7];
    assert FirstMissing([7], db.products).None?;
    assert FirstShort(req.items, Rows(db.products)).None?;
  }

  const LAST_TWO := Database({1}, map[7 := Product(Row(250, 2), 1)], map[], [], [])
  const BOTH := Request(5, 1, [Line(7, 2)])

  lemma SellsOut()
    ensures Valid(LAST_TWO) && Known(BOTH.items, Rows(LAST_TWO.products))
    ensures Decide(Checked, LAST_TWO, BOTH) == Create(500)
    ensures SumQuantity(BOTH.items, 7) == 2
  {
    var rows := Rows(LAST_TWO.products);
    assert BOTH.items[..0] == [];
    assert SortedIds(BOTH.items) == [7];
    assert FirstMissing([7], LAST_TWO.products).None?;
    assert Known(BOTH.items, rows) && FirstShort(BOTH.items, rows).None?;
    assert Total(BOTH.items, rows) == 500;
    assert SumQuantity(BOTH.items, BOTH.items[0].product) == 2;
    assert EnoughForAll(BOTH.items, rows);
    assert !KeyUsed(LAST_TWO, BOTH.key);
    assert Accepted(Checked, LAST_TWO, BOTH);
  }

  /** Selling out: the first request is created, its retry with the same key gets 409. */
  lemma RetryAfterSellingOut()
    ensures Valid(LAST_TWO) && Decide(Checked, LAST_TWO, BOTH) == Create(500)
    ensures Answer(Checked, Effect(Checked, LAST_TWO, BOTH, 1, 0), BOTH, 2) == InsufficientStock(7, 0, 2)
  {
    SellsOut();
    var products := Effect(Checked, LAST_TWO, BOTH, 1, 0).products;
    assert products[7].row.stock == 0;
    assert SortedIds(BOTH.items) == [7];
    assert FirstMissing([7], products).None?;
    assert Known(BOTH.items, Rows(products)) && Short(BOTH.items, Rows(products), 0);
    assert FirstShort(BOTH.items, Rows(products)) == Some(0);
  }
}
