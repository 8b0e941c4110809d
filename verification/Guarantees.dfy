/** What every history of the protocol guarantees: idempotency, conservation, whole orders, stable locks. */
module Guarantees {
  import opened Int32
  import opened Schema
  import opened Orders
  import opened OrderLaws
  import opened Protocol
  import opened Invariant
  import opened Preservation
  import opened Histories
  import opened Promises

  // ----- orders are permanent -----

  lemma {:induction false} OrderIsPermanent(c: Config, run: Run, i: nat, n: nat, id: int)
    requires IsRun(c, run) && i <= n < |run.states| && id in run.states[i].db.orders
    ensures var then', now := run.states[i].db, run.states[n].db;
            && id in now.orders && now.orders[id] == then'.orders[id]
            && Recorded(now, id) == Recorded(then', id)
            && ItemsOf(now.items, id) == ItemsOf(then'.items, id)
            && LedgerOf(now.ledger, id) == LedgerOf(then'.ledger, id)
    decreases n - i
  {
    if i < n {
      OrderIsPermanent(c, run, i, n - 1, id);
      RunKeepsInv(c, run, n - 1);
      assert Enabled(c, run.states[n - 1], run.events[n - 1]);
      OrderStays(c, run.states[n - 1], run.events[n - 1], id);
    }
  }

  lemma RequestStays(c: Config, run: Run, i: nat, n: nat, r: nat)
    requires IsRun(c, run) && i <= n < |run.states| && r in run.states[i].procs
    ensures r in run.states[n].procs && run.states[n].procs[r].req == run.states[i].procs[r].req
    ensures run.states[i].procs[r].phase.Done? ==> run.states[n].procs[r] == run.states[i].procs[r]
    decreases n - i
  {
    if i < n {
      RequestStays(c, run, i, n - 1, r);
      assert Enabled(c, run.states[n - 1], run.events[n - 1]);
    }
  }

  // ----- idempotency -----

  /** Once a key is stored no later step commits an order under it, whatever its body. */
  lemma UsedKeyNeverCommitsAgain(c: Config, run: Run, i: nat, n: nat, key: Key)
    requires IsRun(c, run) && i <= n < |run.events| && KeyUsed(run.states[i].db, key)
    ensures Enabled(c, run.states[n], run.events[n])
    ensures run.events[n].Commit? ==> run.states[n].procs[run.events[n].r].req.key != key
  {
    var id := KeyHolder(run.states[i].db, key);
    OrderIsPermanent(c, run, i, n, id);
    assert KeyUsed(run.states[n].db, key);
    RunKeepsInv(c, run, n);
    assert Enabled(c, run.states[n], run.events[n]);
    var r := run.events[n].r;
    assert r in run.states[n].procs ==> ProcOk(c, run.states[n].db, run.states[n].next, run.states[n].procs[r]);
  }

  /** A commit step, as the atomic specification sees it. */
  lemma RunCommit(c: Config, run: Run, i: nat)
    requires IsRun(c, run) && i < |run.events| && run.events[i].Commit?
    ensures Enabled(c, run.states[i], run.events[i])
    ensures var w := CommittedBy(run.states[i], run.events[i]);
            var before := run.states[i].db;
            && Valid(before) && Fresh(before, w.id)
            && Decide(c.narrowing, before, w.req).Create?
            && run.states[i + 1].db == Effect(c.narrowing, before, w.req, w.id, w.now)
            && KeyUsed(run.states[i + 1].db, w.req.key)
  {
    RunStepIsAtomic(c, run, i);
    RunKeepsInv(c, run, i);
    var w := CommittedBy(run.states[i], run.events[i]);
    assert ProcOk(c, run.states[i].db, run.states[i].next, run.states[i].procs[run.events[i].r]);
    assert run.states[i + 1].db.orders[w.id].key == w.req.key;
  }

  /** Over a whole run each key is committed at most once. */
  lemma KeyCommitsOnce(c: Config, run: Run, i: nat, j: nat)
    requires IsRun(c, run) && i < j < |run.events| && run.events[i].Commit? && run.events[j].Commit?
    ensures run.events[i].r in run.states[i].procs && run.events[j].r in run.states[j].procs
    ensures run.states[i].procs[run.events[i].r].req.key != run.states[j].procs[run.events[j].r].req.key
  {
    RunCommit(c, run, i);
    UsedKeyNeverCommitsAgain(c, run, i + 1, j, CommittedBy(run.states[i], run.events[i]).req.key);
  }

  /** All 201 answers given under one key carry the same order: id, customer, status, total and lines. */
  lemma SameKeySameOrder(c: Config, run: Run, n: nat, a: nat, b: nat)
    requires IsRun(c, run) && n < |run.states| && a in run.states[n].procs && b in run.states[n].procs
    requires var p, q := run.states[n].procs[a], run.states[n].procs[b];
             p.req.key == q.req.key && p.phase.Done? && q.phase.Done? && p.phase.response.Placed? && q.phase.response.Placed?
    ensures SameResponse(run.states[n].procs[a].phase.response, run.states[n].procs[b].phase.response)
  {
    RunKeepsInv(c, run, n);
    var s := run.states[n];
    assert ProcOk(c, s.db, s.next, s.procs[a]) && ProcOk(c, s.db, s.next, s.procs[b]);
  }

  /**
   A finished request whose key names order `id` was answered with that order as it was stored (its
   columns, and its item rows in some order), or with a 400, a 409 or a failure.
   */
  lemma RepeatedKeyAnswer(c: Config, run: Run, i: nat, n: nat, r: nat, id: int)
    requires IsRun(c, run) && i <= n < |run.states| && id in run.states[i].db.orders
    requires r in run.states[n].procs && run.states[n].procs[r].phase.Done?
    requires run.states[n].procs[r].req.key == run.states[i].db.orders[id].key
    ensures var response := run.states[n].procs[r].phase.response;
            || (response.Placed? && response.id == id && ShowsOrder(run.states[i].db, response))
            || response.NoItems? || response.UnknownProduct? || response.InsufficientStock? || response.Aborted?
  {
    OrderIsPermanent(c, run, i, n, id);
    RunKeepsInv(c, run, n);
    var s := run.states[n];
    assert ProcOk(c, s.db, s.next, s.procs[r]);
    var response := s.procs[r].phase.response;
    if response.Placed? {
      ShowsRecorded(run.states[i].db, response, id);
    }
  }

  /** Every 201 ever given shows the order stored under the request's own key, then and ever after. */
  lemma EveryPlacedIsStored(c: Config, run: Run, n: nat, r: nat)
    requires IsRun(c, run) && n < |run.states| && r in run.states[n].procs
    requires run.states[n].procs[r].phase.Done? && run.states[n].procs[r].phase.response.Placed?
    ensures var db, p := run.states[n].db, run.states[n].procs[r];
            var response := p.phase.response;
            && ShowsOrder(db, response) && db.orders[response.id].key == p.req.key
  {
    RunKeepsInv(c, run, n);
    var s := run.states[n];
    assert ProcOk(c, s.db, s.next, s.procs[r]);
    ShowsRecorded(s.db, s.procs[r].phase.response, s.procs[r].phase.response.id);
  }

  /**
   Every answer is the promised one on the committed tables at some instant while the request was being
   handled, a 500 included, unless the request was cut short and answered 500.
   */
  lemma EveryAnswerIsPromised(c: Config, run: Run, n: nat, r: nat)
    requires IsRun(c, run) && n < |run.states|
    requires r in run.states[n].procs && run.states[n].procs[r].phase.Done?
    ensures exists i: nat :: i < n && During(run, i, r) && PromisedAt(c, run, i, r, run.states[n].procs[r])
  {
    EveryAnswerIsAtomic(c, run, n, r);
    var p := run.states[n].procs[r];
    var i: nat :| i < n && AnsweredAt(c, run, i, r, p.req, p.phase.response);
    RunKeepsInv(c, run, i);
    AnswerIsPromised(c.narrowing, run.states[i].db, p.req, p.phase.response);
    assert During(run, i, r) && PromisedAt(c, run, i, r, p);
  }

  ghost predicate PromisedAt(c: Config, run: Run, i: nat, r: nat, p: Proc)
    requires i < |run.events| < |run.states| && p.phase.Done?
  {
    || Promised(c.narrowing, run.states[i].db, p.req, p.phase.response)
    || (p.phase.response.Aborted? && (run.events[i] == Abort(r) || run.events[i] == Commit(r, false)))
  }

  // ----- conservation -----

  lemma ConservationStep(c: Config, run: Run, n: nat, p: int)
    requires IsRun(c, run) && n < |run.events| && p in run.states[n].db.products
    ensures var before, after := run.states[n].db, run.states[n + 1].db;
            && p in after.products
            && after.products[p].row.stock - Delta(after.ledger, p) == before.products[p].row.stock - Delta(before.ledger, p)
            && after.products[p].row.price == before.products[p].row.price
            && after.products[p].category == before.products[p].category
  {
    RunStepIsAtomic(c, run, n);
    if run.events[n].Commit? {
      var w := CommittedBy(run.states[n], run.events[n]);
      Conservation(c.narrowing, run.states[n].db, w.req, w.id, w.now, p);
    }
  }

  /**
   In every committed state the stock of a product is its initial stock plus the ledger deltas written
   since, and it is not negative.
   */
  lemma {:induction false} StockIsConserved(c: Config, run: Run, n: nat, p: int)
    requires IsRun(c, run) && n < |run.states| && p in run.states[0].db.products
    ensures var start, now := run.states[0].db, run.states[n].db;
            && p in now.products
            && now.products[p].row.stock
               == start.products[p].row.stock + (Delta(now.ledger, p) - Delta(start.ledger, p))
            && now.products[p].row.stock >= 0
            && now.products[p].row.price == start.products[p].row.price
            && now.products[p].category == start.products[p].category
  {
    RunKeepsInv(c, run, n);
    if n > 0 {
      StockIsConserved(c, run, n - 1, p);
      ConservationStep(c, run, n - 1, p);
    }
  }

  // ----- whole orders -----

  /**
   `now` holds the order of `w` with exactly one item row and one ledger row per requested line, at the
   prices of `before`, within its stock, and with the exact total whenever that fits.
   */
  ghost predicate WholeOrder(before: Database, now: Database, w: Committed) {
    var own, moves := ItemsOf(now.items, w.id), LedgerOf(now.ledger, w.id);
    && w.id !in before.orders && w.id in now.orders && now.orders[w.id].key == w.req.key
    && now.orders[w.id].customer == w.req.customer && now.orders[w.id].status == Pending
    && now.orders[w.id].createdAt == w.now
    && |own| == |moves| == |w.req.items|
    && (forall k :: 0 <= k < |w.req.items| ==>
          && w.req.items[k].product in before.products
          && own[k] == ItemRow(w.id, w.req.items[k].product, w.req.items[k].quantity,
                               before.products[w.req.items[k].product].row.price)
          && moves[k] == LedgerRow(w.req.items[k].product, w.id, -own[k].quantity))
    && (now.orders[w.id].total == Worth(own) <==> InRange(Worth(own)))
    && (forall p :: p in before.products ==> SumQuantity(w.req.items, p) <= before.products[p].row.stock)
  }

  lemma CreateIsWhole(n: Narrowing, before: Database, w: Committed)
    requires Valid(before) && Fresh(before, w.id) && Decide(n, before, w.req).Create?
    ensures WholeOrder(before, Effect(n, before, w.req, w.id, w.now), w)
  {
    CreatedOrderIsWhole(n, before, w.req, w.id, w.now);
    forall p | p in before.products ensures SumQuantity(w.req.items, p) <= before.products[p].row.stock {
      CreatedOrderWithinStock(n, before, w.req, p);
    }
  }

  lemma RunCommitIsWhole(c: Config, run: Run, i: nat)
    requires IsRun(c, run) && i < |run.events| && run.events[i].Commit?
    ensures Enabled(c, run.states[i], run.events[i])
    ensures WholeOrder(run.states[i].db, run.states[i + 1].db, CommittedBy(run.states[i], run.events[i]))
  {
    RunCommit(c, run, i);
    CreateIsWhole(c.narrowing, run.states[i].db, CommittedBy(run.states[i], run.events[i]));
  }

  lemma WholeStays(before: Database, mid: Database, now: Database, w: Committed)
    requires WholeOrder(before, mid, w)
    requires w.id in now.orders && now.orders[w.id] == mid.orders[w.id]
    requires ItemsOf(now.items, w.id) == ItemsOf(mid.items, w.id)
    requires LedgerOf(now.ledger, w.id) == LedgerOf(mid.ledger, w.id)
    ensures WholeOrder(before, now, w)
  {
  }

  /** An order committed at step `i` is whole at every later time. */
  lemma CommittedOrderIsWhole(c: Config, run: Run, i: nat, n: nat)
    requires IsRun(c, run) && i < n < |run.states| && run.events[i].Commit?
    ensures Enabled(c, run.states[i], run.events[i])
    ensures WholeOrder(run.states[i].db, run.states[n].db, CommittedBy(run.states[i], run.events[i]))
  {
    RunCommitIsWhole(c, run, i);
    var w := CommittedBy(run.states[i], run.events[i]);
    OrderIsPermanent(c, run, i + 1, n, w.id);
    WholeStays(run.states[i].db, run.states[i + 1].db, run.states[n].db, w);
  }

  ghost predicate CommitsOrder(run: Run, i: nat, id: int)
    requires i < |run.events| < |run.states|
  {
    var s, e := run.states[i], run.events[i];
    e.Commit? && e.r in s.procs && s.procs[e.r].phase.Writing? && s.procs[e.r].phase.draft.id == id
  }

  ghost predicate CommittedWithin(run: Run, n: nat, id: int)
    requires n <= |run.events| < |run.states|
  {
    exists i: nat :: i < n && CommitsOrder(run, i, id)
  }

  /** Every row of `now` beyond those of `start` belongs to an order committed within the first `n` steps. */
  ghost predicate Accounted(run: Run, n: nat, start: Database, now: Database)
    requires n <= |run.events| < |run.states|
  {
    && (forall id :: id in now.orders && id !in start.orders ==> CommittedWithin(run, n, id))
    && start.items <= now.items && start.ledger <= now.ledger
    && (forall k :: |start.items| <= k < |now.items| ==> CommittedWithin(run, n, now.items[k].order))
    && (forall k :: |start.ledger| <= k < |now.ledger| ==> CommittedWithin(run, n, now.ledger[k].order))
  }

  lemma StillCommitted(run: Run, n: nat)
    requires n < |run.events| < |run.states|
    ensures forall id :: CommittedWithin(run, n, id) ==> CommittedWithin(run, n + 1, id)
  {
    forall id | CommittedWithin(run, n, id) ensures CommittedWithin(run, n + 1, id) {
      var i: nat :| i < n && CommitsOrder(run, i, id);
    }
  }

  lemma CommitWritesOwnRows(c: Config, run: Run, n: nat)
    requires IsRun(c, run) && n < |run.events| && run.events[n].Commit?
    ensures Enabled(c, run.states[n], run.events[n])
    ensures var d := run.states[n].procs[run.events[n].r].phase.draft;
            var before, after := run.states[n].db, run.states[n + 1].db;
            && after.items == before.items + d.items && after.ledger == before.ledger + d.ledger
            && after.orders == before.orders[d.id := d.order]
            && (forall k :: 0 <= k < |d.items| ==> d.items[k].order == d.id)
            && (forall k :: 0 <= k < |d.ledger| ==> d.ledger[k].order == d.id)
  {
    var s, e := run.states[n], run.events[n];
    assert Enabled(c, s, e);
    RunKeepsInv(c, run, n);
    assert ProcOk(c, s.db, s.next, s.procs[e.r]);
  }

  lemma AccountedStep(c: Config, run: Run, n: nat)
    requires IsRun(c, run) && n < |run.events|
    requires Accounted(run, n, run.states[0].db, run.states[n].db)
    ensures Accounted(run, n + 1, run.states[0].db, run.states[n + 1].db)
  {
    var s, e := run.states[n], run.events[n];
    assert Enabled(c, s, e);
    StillCommitted(run, n);
    if e.Commit? {
      CommitWritesOwnRows(c, run, n);
      assert CommitsOrder(run, n, s.procs[e.r].phase.draft.id);
    }
  }

  /**
   Nothing but a commit leaves a trace: whatever was aborted, refused or replayed, every order, item row
   and ledger row beyond the initial ones belongs to an order that some step committed.
   */
  lemma {:induction false} OnlyCommitsLeaveTraces(c: Config, run: Run, n: nat)
    requires IsRun(c, run) && n < |run.states|
    ensures Accounted(run, n, run.states[0].db, run.states[n].db)
  {
    if n > 0 {
      OnlyCommitsLeaveTraces(c, run, n - 1);
      AccountedStep(c, run, n - 1);
    }
  }

  // ----- the locked snapshot -----

  ghost predicate HoldsLock(run: Run, k: nat, r: nat, p: int)
    requires k < |run.states|
  {
    r in run.states[k].procs && p in Seen(run.states[k].procs[r].phase)
  }

  lemma LockedRowStep(c: Config, run: Run, n: nat, r: nat, p: int)
    requires IsRun(c, run) && n < |run.events| && HoldsLock(run, n, r, p) && HoldsLock(run, n + 1, r, p)
    ensures p in run.states[n].db.products && p in run.states[n + 1].db.products
    ensures run.states[n + 1].db.products[p] == run.states[n].db.products[p]
    ensures Seen(run.states[n + 1].procs[r].phase)[p] == Seen(run.states[n].procs[r].phase)[p]
  {
    var s, e := run.states[n], run.events[n];
    assert Enabled(c, s, e);
    RunKeepsInv(c, run, n);
    RunKeepsInv(c, run, n + 1);
    assert ProcOk(c, s.db, s.next, s.procs[r]);
    assert ProcOk(c, run.states[n + 1].db, run.states[n + 1].next, run.states[n + 1].procs[r]);
    if e.Commit? {
      assert ProcOk(c, s.db, s.next, s.procs[e.r]);
      assert p !in s.procs[e.r].phase.draft.stock;
    }
  }

  /**
   From the read under lock until the lock is given up, no step of any request changes the committed
   row, and it is the row that was read.
   */
  lemma {:induction false} LockedRowIsStable(c: Config, run: Run, i: nat, j: nat, r: nat, p: int)
    requires IsRun(c, run) && i <= j < |run.states|
    requires forall k :: i <= k <= j ==> HoldsLock(run, k, r, p)
    ensures HoldsLock(run, i, r, p)
    ensures p in run.states[i].db.products && p in run.states[j].db.products
    ensures run.states[j].db.products[p] == run.states[i].db.products[p]
    ensures run.states[j].db.products[p].row == Seen(run.states[i].procs[r].phase)[p]
    decreases j - i
  {
    if i == j {
      RunKeepsInv(c, run, i);
      assert HoldsLock(run, i, r, p);
      assert ProcOk(c, run.states[i].db, run.states[i].next, run.states[i].procs[r]);
    } else {
      LockedRowIsStable(c, run, i, j - 1, r, p);
      assert HoldsLock(run, j - 1, r, p) && HoldsLock(run, j - 1 + 1, r, p);
      LockedRowStep(c, run, j - 1, r, p);
    }
  }
}
