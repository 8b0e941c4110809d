/**
 The pass over the locked rows that checks stock and adds up the total: Go's fused 32-bit loop, and
 Phoenix's two separate passes over unbounded integers.
 */
module Pricing {
  import opened Int32
  import opened ProductIds
  import opened Schema
  import opened Orders

  // ----- Go: one loop, early exit, int32 accumulator -----

  /** The value of Go's `total` after the lines in `items`. */
  function RunningTotal(items: seq<Line>, rows: map<int, Row>): int
    requires Known(items, rows)
  {
    if items == [] then 0
    else
      var last := items[|items| - 1];
      Wrap(RunningTotal(items[..|items| - 1], rows) + Wrap(rows[last.product].price * last.quantity))
  }

  /** Wrapping at every step gives the exact total wrapped once, which is Spring's cast of its long. */
  lemma {:induction false} RunningTotalWrapsOnce(items: seq<Line>, rows: map<int, Row>)
    requires Known(items, rows)
    ensures RunningTotal(items, rows) == Wrap(Total(items, rows))
  {
    if items != [] {
      var k := |items| - 1;
      RunningTotalWrapsOnce(items[..k], rows);
      WrapStep(Total(items[..k], rows), rows[items[k].product].price * items[k].quantity);
    }
  }

  method CheckAndTotal(items: seq<Line>, prices: map<int, Row>) returns (short: Option<nat>, total: int)
    requires Known(items, prices)
    ensures short == FirstShort(items, prices)
    ensures short.None? ==> total == Wrap(Total(items, prices))
  {
    total := 0;
    for i := 0 to |items|
      invariant forall k :: 0 <= k < i ==> !Short(items, prices, k)
      invariant total == RunningTotal(items[..i], prices)
    {
      var p := prices[items[i].product];
      if p.stock < items[i].quantity {
        assert Short(items, prices, i);
        return Some(i), total;
      }
      assert items[..i + 1][..i] == items[..i];
      total := Wrap(total + Wrap(p.price * items[i].quantity));
    }
    assert items[..|items|] == items;
    RunningTotalWrapsOnce(items, prices);
    short := None;
  }

  // ----- Phoenix: reduce_while for stock, then reduce for the total -----

  datatype StockError = StockError(product: int, available: int, requested: int)

  function CheckStock(items: seq<Line>, prices: map<int, Row>): Option<StockError>
    requires Known(items, prices)
  {
    if items == [] then None
    else if prices[items[0].product].stock >= items[0].quantity then CheckStock(items[1..], prices)
    else Some(StockError(items[0].product, prices[items[0].product].stock, items[0].quantity))
  }

  function ComputeTotal(items: seq<Line>, prices: map<int, Row>, acc: int): int
    requires Known(items, prices)
  {
    if items == [] then acc
    else ComputeTotal(items[1..], prices, acc + prices[items[0].product].price * items[0].quantity)
  }

  lemma {:induction false} CheckStockFindsFirst(items: seq<Line>, prices: map<int, Row>, k: nat)
    requires Known(items, prices) && k <= |items|
    requires forall i :: 0 <= i < k ==> !Short(items, prices, i)
    ensures CheckStock(items[k..], prices) ==
            match FirstShort(items, prices)
            case None => None
            case Some(i) => Some(StockError(items[i].product, prices[items[i].product].stock, items[i].quantity))
    decreases |items| - k
  {
    if k < |items| {
      assert items[k..][0] == items[k] && items[k..][1..] == items[k + 1..];
      if !Short(items, prices, k) {
        CheckStockFindsFirst(items, prices, k + 1);
      }
    }
  }

  lemma {:induction false} ComputeTotalFolds(items: seq<Line>, prices: map<int, Row>, k: nat)
    requires Known(items, prices) && k <= |items|
    ensures ComputeTotal(items[k..], prices, Total(items[..k], prices)) == Total(items, prices)
    decreases |items| - k
  {
    if k == |items| {
      assert items[..k] == items;
    } else {
      assert items[k..][0] == items[k] && items[k..][1..] == items[k + 1..];
      assert items[..k + 1][..k] == items[..k];
      ComputeTotalFolds(items, prices, k + 1);
    }
  }

  /** Two passes report the same first failing line, or the same total, as one loop with early exit. */
  lemma TwoPassesAgreeWithOne(items: seq<Line>, prices: map<int, Row>)
    requires Known(items, prices)
    ensures CheckStock(items, prices) ==
            match FirstShort(items, prices)
            case None => None
            case Some(i) => Some(StockError(items[i].product, prices[items[i].product].stock, items[i].quantity))
    ensures ComputeTotal(items, prices, 0) == Total(items, prices)
  {
    assert items[0..] == items && items[..0] == [];
    CheckStockFindsFirst(items, prices, 0);
    ComputeTotalFolds(items, prices, 0);
  }

  // ----- where the 32-bit loop is exact -----

  const MAX_LINES := 20
  const MAX_QUANTITY := 1000
  const MAX_EXACT_PRICE := 107374

  predicate WithinContract(items: seq<Line>) {
    && |items| <= MAX_LINES
    && forall i :: 0 <= i < |items| ==> 1 <= items[i].quantity <= MAX_QUANTITY
  }

  predicate PricedAtMost(items: seq<Line>, rows: map<int, Row>, limit: int)
    requires Known(items, rows)
  {
    forall i :: 0 <= i < |items| ==> 0 <= rows[items[i].product].price <= limit
  }

  lemma MulMonotone(a: int, b: int, c: int)
    requires a >= 0 && 0 <= b <= c
    ensures 0 <= a * b <= a * c
  {
    assert a * c - a * b == a * (c - b);
  }

  lemma LineValue(price: int, quantity: int)
    requires 0 <= price <= MAX_EXACT_PRICE && 1 <= quantity <= MAX_QUANTITY
    ensures 0 <= price * quantity <= MAX_EXACT_PRICE * MAX_QUANTITY
  {
    MulMonotone(price, quantity, MAX_QUANTITY);
  }

  lemma {:induction false} TotalBound(items: seq<Line>, rows: map<int, Row>)
    requires Known(items, rows) && PricedAtMost(items, rows, MAX_EXACT_PRICE)
    requires forall i :: 0 <= i < |items| ==> 1 <= items[i].quantity <= MAX_QUANTITY
    ensures 0 <= Total(items, rows) <= |items| * (MAX_EXACT_PRICE * MAX_QUANTITY)
  {
    if items != [] {
      var k := |items| - 1;
      TotalBound(items[..k], rows);
      LineValue(rows[items[k].product].price, items[k].quantity);
    }
  }

  /** Every product and every prefix sum of the 32-bit loop is the exact value. */
  lemma ExactUnderContract(items: seq<Line>, rows: map<int, Row>)
    requires Known(items, rows) && WithinContract(items) && PricedAtMost(items, rows, MAX_EXACT_PRICE)
    ensures forall k :: 0 <= k < |items| ==>
              Wrap(rows[items[k].product].price * items[k].quantity) == rows[items[k].product].price * items[k].quantity
    ensures forall k :: 0 <= k <= |items| ==> RunningTotal(items[..k], rows) == Total(items[..k], rows)
    ensures Stored(Wrapping, Total(items, rows)) == Stored(Checked, Total(items, rows)) == Some(Total(items, rows))
  {
    forall k | 0 <= k < |items|
      ensures InRange(rows[items[k].product].price * items[k].quantity)
    {
      LineValue(rows[items[k].product].price, items[k].quantity);
    }
    forall k | 0 <= k <= |items|
      ensures RunningTotal(items[..k], rows) == Total(items[..k], rows) && InRange(Total(items[..k], rows))
    {
      TotalBound(items[..k], rows);
      RunningTotalWrapsOnce(items[..k], rows);
    }
    assert items[..|items|] == items;
  }

  /** Under the contract's bounds the two ways of narrowing decide, answer and write the same. */
  lemma ServicesAgreeUnderContract(db: Database, req: Request, id: int, now: int)
    requires WithinContract(req.items)
    requires forall p :: p in db.products ==> 0 <= db.products[p].row.price <= MAX_EXACT_PRICE
    ensures Decide(Wrapping, db, req) == Decide(Checked, db, req)
    ensures Answer(Wrapping, db, req, id) == Answer(Checked, db, req, id)
    ensures Effect(Wrapping, db, req, id, now) == Effect(Checked, db, req, id, now)
    ensures Known(req.items, Rows(db.products)) ==> Storable(Wrapping, Total(req.items, Rows(db.products)))
  {
    var rows := Rows(db.products);
    if FirstMissing(SortedIds(req.items), db.products).None? {
      KnownIfNoneMissing(req.items, db.products);
    }
    if Known(req.items, rows) {
      assert PricedAtMost(req.items, rows, MAX_EXACT_PRICE);
      ExactUnderContract(req.items, rows);
      TotalBound(req.items, rows);
    }
  }

  lemma {:induction false} RepeatedLine(n: nat, line: Line, rows: map<int, Row>)
    requires line.product in rows
    ensures Total(seq(n, _ => line), rows) == n * (rows[line.product].price * line.quantity)
    ensures SumQuantity(seq(n, _ => line), line.product) == n * line.quantity
  {
    if n > 0 {
      assert seq(n, _ => line)[..n - 1] == seq(n - 1, _ => line);
      RepeatedLine(n - 1, line, rows);
      assert n * (rows[line.product].price * line.quantity)
          == (n - 1) * (rows[line.product].price * line.quantity) + rows[line.product].price * line.quantity;
      assert n * line.quantity == (n - 1) * line.quantity + line.quantity;
    }
  }

  /** The price bound is tight: one cent more and a request within the contract wraps negative. */
  lemma OneCentMoreOverflows()
    ensures var items, rows := seq(MAX_LINES, _ => Line(1, MAX_QUANTITY)), map[1 := Row(MAX_EXACT_PRICE + 1, 50000)];
            && WithinContract(items) && Known(items, rows) && FirstShort(items, rows).None?
            && RunningTotal(items, rows) < 0 < Total(items, rows)
            && Stored(Checked, Total(items, rows)).None?
  {
    var items, rows := seq(MAX_LINES, _ => Line(1, MAX_QUANTITY)), map[1 := Row(MAX_EXACT_PRICE + 1, 50000)];
    RepeatedLine(MAX_LINES, Line(1, MAX_QUANTITY), rows);
    RunningTotalWrapsOnce(items, rows);
    assert Total(items, rows) == 2147500000;
  }

  /**
   Above the bound a wrapped total can come back positive: Go and Spring then commit an order whose
   stored total is wrong, where the other services abort.
   */
  lemma WrappedTotalCanBeCommitted()
    ensures var db := Database({1}, map[9 := Product(Row(4294968, 1000), 1)], map[], [], []);
            var req := Request(3, 1, [Line(9, 1000)]);
            && Valid(db) && WithinContract(req.items)
            && Decide(Wrapping, db, req) == Create(704)
            && Decide(Checked, db, req) == Fail
            && Known(req.items, Rows(db.products)) && Total(req.items, Rows(db.products)) == 4294968000
  {
    var db := Database({1}, map[9 := Product(Row(4294968, 1000), 1)], map[], [], []);
    var req := Request(3, 1, [Line(9, 1000)]);
    var rows := Rows(db.products);
    assert req.items[..0] == [];
    assert SortedIds(req.items) == [9];
    assert FirstMissing([9], db.products).None? by { assert FirstMissing([9][1..], db.products).None?; }
    assert Known(req.items, rows) && FirstShort(req.items, rows).None?;
    assert Total(req.items, rows) == 4294968000;
    Congruent704();
    assert SumQuantity(req.items, req.items[0].product) == 1000;
    assert EnoughForAll(req.items, rows);
    assert !KeyUsed(db, req.key);
    assert Accepted(Wrapping, db, req);
    assert !Accepted(Checked, db, req);
  }

  lemma Congruent704()
    ensures Wrap(4294968000) == 704
  {
  }

  /**
   Seeded prices are `100 + rng.randrange(99_900)`; on them every body within the contract gets its exact
   total from the 32-bit loop.
   */
  lemma SeededOrdersAreExact(items: seq<Line>, rows: map<int, Row>)
    requires Known(items, rows) && WithinContract(items)
    requires forall i :: 0 <= i < |items| ==> 100 <= rows[items[i].product].price < 100 + 99_900
    ensures RunningTotal(items, rows) == Total(items, rows) && InRange(Total(items, rows))
  {
    assert PricedAtMost(items, rows, MAX_EXACT_PRICE);
    ExactUnderContract(items, rows);
    assert items[..|items|] == items;
  }
}
