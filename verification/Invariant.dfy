/** What every reachable state of the protocol keeps. */
module Invariant {
  import opened ProductIds
  import opened Schema
  import opened Orders
  import opened OrderLaws
  import opened Protocol

  /** Every locked row still has the price and stock that were read. */
  ghost predicate SnapshotCurrent(db: Database, seen: map<int, Row>) {
    forall p :: p in seen ==> p in db.products && db.products[p].row == seen[p]
  }

  ghost predicate AllLocked(req: Request, seen: map<int, Row>) {
    forall p :: p in seen <==> p in SortedIds(req.items)
  }

  /** Locked everything and passed the stock check. */
  ghost predicate PassedChecks(req: Request, seen: map<int, Row>) {
    && AllLocked(req, seen)
    && Known(req.items, seen)
    && FirstShort(req.items, seen).None?
  }

  /** The draft holds exactly the statements executed so far. */
  ghost predicate DraftMatches(c: Config, req: Request, ph: Phase)
    requires ph.Writing?
  {
    var d := ph.draft;
    && ph.line <= |req.items| && ph.stmt < 3 && (ph.stmt > 0 ==> ph.line < |req.items|)
    && var inserted := if ph.stmt > 0 then ph.line + 1 else ph.line;
    && var moved := if ph.stmt > 1 then ph.line + 1 else ph.line;
    && d.items == ItemRows(d.id, req.items[..inserted], ph.seen)
    && d.ledger == LedgerRows(d.id, req.items[..moved])
    && AllPositive(req.items[..inserted])
    && d.stock.Keys == ph.seen.Keys
    && (forall p :: p in ph.seen ==>
          d.stock[p] == ph.seen[p].stock - SumQuantity(req.items[..ph.line], p) && d.stock[p] >= 0)
  }

  ghost predicate DraftOrder(c: Config, db: Database, next: int, req: Request, ph: Phase)
    requires ph.Writing?
  {
    var o := ph.draft.order;
    && Known(req.items, ph.seen)
    && Stored(c.narrowing, Total(req.items, ph.seen)) == Some(o.total) && 0 <= o.total
    && o == OrderRow(req.customer, Pending, o.total, req.key, o.createdAt)
    && req.customer in db.customers
    && ph.draft.id < next && Fresh(db, ph.draft.id)
  }

  /** A 201 body is the order stored under the request's own key. */
  ghost predicate AnswerStands(db: Database, req: Request, response: Response) {
    response.Placed? ==>
      && response.id in db.orders && db.orders[response.id].key == req.key
      && SameResponse(response, Recorded(db, response.id))
  }

  ghost predicate PhaseOk(c: Config, db: Database, next: int, req: Request, ph: Phase) {
    match ph
    case Waiting => req.items != []
    case Locking(seen, held) =>
      && req.items != [] && held <= |SortedIds(req.items)|
      && forall p :: p in seen <==> p in SortedIds(req.items)[..held]
    case Priced(seen, exact) =>
      req.items != [] && PassedChecks(req, seen) && exact == Total(req.items, seen)
    case Writing(seen, _, _, _) =>
      req.items != [] && PassedChecks(req, seen) && !KeyUsed(db, req.key)
      && DraftMatches(c, req, ph) && DraftOrder(c, db, next, req, ph)
    case Conflicted(_) => KeyUsed(db, req.key)
    case ReadingOrder(seen, _) => KeyUsed(db, req.key) && seen == Kept(c, seen)
    case ReadingItems(seen, _, id, row) =>
      id in db.orders && db.orders[id] == row && row.key == req.key && seen == Kept(c, seen)
    case Done(response) => AnswerStands(db, req, response)
  }

  ghost predicate ProcOk(c: Config, db: Database, next: int, p: Proc) {
    SnapshotCurrent(db, Seen(p.phase)) && PhaseOk(c, db, next, p.req, p.phase)
  }

  /** No row is locked twice. */
  ghost predicate LocksExclusive(s: State) {
    forall a, b, p ::
      (a in s.procs && b in s.procs && a != b && p in Seen(s.procs[a].phase)) ==> p !in Seen(s.procs[b].phase)
  }

  /** No two transactions hold the same key, or the same order id. */
  ghost predicate KeysExclusive(s: State) {
    forall a, b ::
      (a in s.procs && b in s.procs && a != b && s.procs[a].phase.Writing? && s.procs[b].phase.Writing?) ==>
      s.procs[a].req.key != s.procs[b].req.key && s.procs[a].phase.draft.id != s.procs[b].phase.draft.id
  }

  ghost predicate IdsBelow(s: State) {
    forall id :: id in s.db.orders ==> id < s.next
  }

  ghost predicate AllOk(c: Config, s: State) {
    forall r :: r in s.procs ==> ProcOk(c, s.db, s.next, s.procs[r])
  }

  ghost predicate Inv(c: Config, s: State) {
    && Valid(s.db) && IdsBelow(s)
    && AllOk(c, s)
    && LocksExclusive(s)
    && KeysExclusive(s)
    && Used(c, s) <= c.pool
  }

  // ----- the snapshot against the committed rows -----

  lemma NoneMissing(req: Request, db: Database, seen: map<int, Row>)
    requires AllLocked(req, seen) && SnapshotCurrent(db, seen)
    ensures FirstMissing(SortedIds(req.items), db.products).None?
  {
  }

  // ----- one request's own step keeps its own part -----

  lemma LockKeeps(c: Config, db: Database, next: int, req: Request, ph: Phase)
    requires ph.Locking? && ph.held < |SortedIds(req.items)|
    requires ProcOk(c, db, next, Proc(req, ph))
    ensures ProcOk(c, db, next, Proc(req, LockRow(db, req, ph)))
  {
    var ids := SortedIds(req.items);
    assert ids[..ph.held + 1] == ids[..ph.held] + [ids[ph.held]];
  }

  lemma PriceKeeps(c: Config, db: Database, next: int, req: Request, ph: Phase)
    requires ph.Locking? && ph.held == |SortedIds(req.items)|
    requires ProcOk(c, db, next, Proc(req, ph))
    ensures ProcOk(c, db, next, Proc(req, PriceLines(req, ph.seen)))
    ensures AllLocked(req, ph.seen) && Known(req.items, ph.seen)
  {
    assert SortedIds(req.items)[..ph.held] == SortedIds(req.items);
    LockedAreKnown(req.items, ph.seen);
  }

  lemma InsertOrderKeeps(c: Config, s: State, req: Request, ph: Phase, now: int)
    requires ph.Priced? && IdsBelow(s)
    requires ProcOk(c, s.db, s.next, Proc(req, ph)) && Valid(s.db)
    ensures ProcOk(c, s.db, s.next + 1, Proc(req, InsertOrderRow(c, s, req, ph, now)))
  {
    var ph' := InsertOrderRow(c, s, req, ph, now);
    if ph'.Writing? {
      assert req.items[..0] == [];
      assert SnapshotCurrent(s.db, ph.seen);
      forall p | p in ph.seen ensures ph'.draft.stock[p] >= 0 {
        assert ValidProduct(s.db.products[p]);
      }
      assert DraftMatches(c, req, ph');
    }
  }

  lemma ItemRowsSnoc(id: int, items: seq<Line>, k: nat, rows: map<int, Row>)
    requires k < |items|
    ensures ItemRows(id, items[..k + 1], rows) == ItemRows(id, items[..k], rows)
              + [ItemRow(id, items[k].product, items[k].quantity, PriceOf(rows, items[k].product))]
    ensures LedgerRows(id, items[..k + 1]) == LedgerRows(id, items[..k])
              + [LedgerRow(items[k].product, id, -items[k].quantity)]
  {
  }

  lemma InsertItemMatches(c: Config, req: Request, ph: Phase)
    requires ph.Writing? && ph.line < |req.items| && ph.stmt == 0 && DraftMatches(c, req, ph)
    ensures var ph' := InsertItemRow(req, ph); ph'.Writing? ==> DraftMatches(c, req, ph')
  {
    var k := ph.line;
    ItemRowsSnoc(ph.draft.id, req.items, k, ph.seen);
    assert req.items[..k + 1] == req.items[..k] + [req.items[k]];
  }

  lemma InsertLedgerMatches(c: Config, req: Request, ph: Phase)
    requires ph.Writing? && ph.line < |req.items| && ph.stmt == 1 && DraftMatches(c, req, ph)
    ensures DraftMatches(c, req, InsertLedgerRow(req, ph))
  {
    ItemRowsSnoc(ph.draft.id, req.items, ph.line, ph.seen);
  }

  lemma DecrementMatches(c: Config, req: Request, ph: Phase)
    requires ph.Writing? && ph.line < |req.items| && ph.stmt == 2 && DraftMatches(c, req, ph)
    ensures var ph' := DecrementRow(req, ph); ph'.Writing? ==> DraftMatches(c, req, ph')
  {
    var k := ph.line;
    assert req.items[..k + 1][..k] == req.items[..k];
    assert forall p :: (SumQuantity(req.items[..k + 1], p)
      == SumQuantity(req.items[..k], p) + if req.items[k].product == p then req.items[k].quantity else 0);
  }

  /** The three statements of a line keep the draft equal to what has been executed. */
  lemma WriteKeeps(c: Config, db: Database, next: int, req: Request, ph: Phase)
    requires ph.Writing? && ph.line < |req.items|
    requires ProcOk(c, db, next, Proc(req, ph))
    ensures ph.stmt == 0 ==> ProcOk(c, db, next, Proc(req, InsertItemRow(req, ph)))
    ensures ph.stmt == 1 ==> ProcOk(c, db, next, Proc(req, InsertLedgerRow(req, ph)))
    ensures ph.stmt == 2 ==> ProcOk(c, db, next, Proc(req, DecrementRow(req, ph)))
  {
    if ph.stmt == 0 {
      InsertItemMatches(c, req, ph);
    } else if ph.stmt == 1 {
      InsertLedgerMatches(c, req, ph);
    } else {
      DecrementMatches(c, req, ph);
    }
  }

  // ----- the commit -----

  lemma StockSuffices(req: Request, ph: Phase)
    requires ph.Writing? && ph.line == |req.items| && Known(req.items, ph.seen)
    requires forall p :: p in ph.seen ==>
               p in ph.draft.stock
               && ph.draft.stock[p] == ph.seen[p].stock - SumQuantity(req.items[..ph.line], p) && ph.draft.stock[p] >= 0
    ensures EnoughForAll(req.items, ph.seen)
  {
    assert req.items[..ph.line] == req.items;
    forall i | 0 <= i < |req.items| ensures SumQuantity(req.items, req.items[i].product) <= ph.seen[req.items[i].product].stock {
      assert req.items[i].product in ph.seen;
    }
  }

  /** At its commit a request is decided as Create, with the total it inserted. */
  lemma CommitIsCreate(c: Config, db: Database, next: int, req: Request, ph: Phase)
    requires ph.Writing? && ph.line == |req.items|
    requires ProcOk(c, db, next, Proc(req, ph))
    ensures Decide(c.narrowing, db, req) == Create(ph.draft.order.total)
  {
    var rows := Rows(db.products);
    assert req.items[..ph.line] == req.items;
    assert forall p :: p in ph.seen ==> p in rows && rows[p] == ph.seen[p];
    NoneMissing(req, db, ph.seen);
    KnownIfNoneMissing(req.items, db.products);
    SnapshotPrices(req.items, ph.seen, rows);
    StockSuffices(req, ph);
    assert EnoughForAll(req.items, rows);
    assert Accepted(c.narrowing, db, req);
  }

  lemma PublishedProducts(c: Config, db: Database, next: int, req: Request, ph: Phase)
    requires ph.Writing? && ph.line == |req.items|
    requires ProcOk(c, db, next, Proc(req, ph))
    ensures Published(db, ph.draft).products == Sold(db.products, req.items)
  {
    assert req.items[..ph.line] == req.items;
    forall p | p in db.products
      ensures Published(db, ph.draft).products[p] == Sold(db.products, req.items)[p]
    {
      if p !in ph.seen {
        assert !Requested(req.items, p) by { assert p !in SortedIds(req.items); }
        UnrequestedSum(req.items, p);
      }
    }
  }

  /** Publishing a finished draft is the atomic effect, and the 201 it sends is the atomic answer. */
  lemma CommitIsAtomic(c: Config, db: Database, next: int, req: Request, ph: Phase)
    requires ph.Writing? && ph.line == |req.items|
    requires ProcOk(c, db, next, Proc(req, ph))
    ensures Decide(c.narrowing, db, req) == Create(ph.draft.order.total)
    ensures Published(db, ph.draft) == Effect(c.narrowing, db, req, ph.draft.id, ph.draft.order.createdAt)
    ensures CreatedBody(req, ph) == Answer(c.narrowing, db, req, ph.draft.id)
  {
    assert req.items[..ph.line] == req.items;
    CommitIsCreate(c, db, next, req, ph);
    PublishedProducts(c, db, next, req, ph);
    SnapshotItems(ph.draft.id, req.items, ph.seen, Rows(db.products));
  }
}
