/** Whole runs: refinement to the atomic specification, and what every history guarantees. */
module Histories {
  import opened ProductIds
  import opened Schema
  import opened Orders
  import opened OrderLaws
  import opened Protocol
  import opened Invariant
  import opened Preservation

  // ----- the committed tables are the atomic effects in commit order -----

  datatype Committed = Committed(req: Request, id: int, now: int)

  ghost function CommittedBy(s: State, e: Event): Committed
    requires e.r in s.procs && s.procs[e.r].phase.Writing?
  {
    var p := s.procs[e.r];
    Committed(p.req, p.phase.draft.id, p.phase.draft.order.createdAt)
  }

  /** The commits among the first `n` steps, in order. */
  ghost function Commits(c: Config, run: Run, n: nat): seq<Committed>
    requires IsRun(c, run) && n < |run.states|
  {
    if n == 0 then []
    else
      var e := run.events[n - 1];
      Commits(c, run, n - 1) + if e.Commit? then [CommittedBy(run.states[n - 1], e)] else []
  }

  ghost function ApplyAll(n: Narrowing, db: Database, log: seq<Committed>): Database {
    if log == [] then db
    else
      var last := log[|log| - 1];
      Effect(n, ApplyAll(n, db, log[..|log| - 1]), last.req, last.id, last.now)
  }

  /** Each entry of the log, in its turn, is decided as Create. */
  ghost predicate AllCreate(n: Narrowing, db: Database, log: seq<Committed>) {
    log != [] ==>
      && AllCreate(n, db, log[..|log| - 1])
      && Decide(n, ApplyAll(n, db, log[..|log| - 1]), log[|log| - 1].req).Create?
  }

  lemma StepIsAtomic(c: Config, s: State, e: Event)
    requires Inv(c, s) && Enabled(c, s, e)
    ensures e.Commit? ==>
              var w := CommittedBy(s, e);
              && Decide(c.narrowing, s.db, w.req).Create?
              && Step(c, s, e).db == Effect(c.narrowing, s.db, w.req, w.id, w.now)
    ensures !e.Commit? ==> Step(c, s, e).db == s.db
  {
    if e.Commit? {
      var p := s.procs[e.r];
      assert ProcOk(c, s.db, s.next, p);
      CommitIsAtomic(c, s.db, s.next, p.req, p.phase);
    }
  }

  lemma RunStepIsAtomic(c: Config, run: Run, n: nat)
    requires IsRun(c, run) && n < |run.events|
    ensures Enabled(c, run.states[n], run.events[n])
    ensures run.events[n].Commit? ==>
              var w := CommittedBy(run.states[n], run.events[n]);
              && Decide(c.narrowing, run.states[n].db, w.req).Create?
              && run.states[n + 1].db == Effect(c.narrowing, run.states[n].db, w.req, w.id, w.now)
    ensures !run.events[n].Commit? ==> run.states[n + 1].db == run.states[n].db
  {
    RunKeepsInv(c, run, n);
    StepIsAtomic(c, run.states[n], run.events[n]);
  }

  lemma ApplyOneMore(n: Narrowing, db: Database, log: seq<Committed>, w: Committed)
    requires AllCreate(n, db, log) && Decide(n, ApplyAll(n, db, log), w.req).Create?
    ensures AllCreate(n, db, log + [w])
    ensures ApplyAll(n, db, log + [w]) == Effect(n, ApplyAll(n, db, log), w.req, w.id, w.now)
  {
    assert (log + [w])[..|log|] == log;
  }

  lemma CommitsOneMore(c: Config, run: Run, n: nat)
    requires IsRun(c, run) && n < |run.events|
    ensures Commits(c, run, n + 1) ==
            Commits(c, run, n) + if run.events[n].Commit? then [CommittedBy(run.states[n], run.events[n])] else []
  {
  }

  ghost predicate Refined(n: Narrowing, start: Database, now: Database, log: seq<Committed>) {
    now == ApplyAll(n, start, log) && AllCreate(n, start, log)
  }

  lemma RefinedStart(c: Config, run: Run)
    requires IsRun(c, run)
    ensures Refined(c.narrowing, run.states[0].db, run.states[0].db, Commits(c, run, 0))
  {
  }

  lemma RefinedStep(c: Config, run: Run, n: nat)
    requires IsRun(c, run) && n < |run.events|
    requires Refined(c.narrowing, run.states[0].db, run.states[n].db, Commits(c, run, n))
    ensures Refined(c.narrowing, run.states[0].db, run.states[n + 1].db, Commits(c, run, n + 1))
  {
    RunStepIsAtomic(c, run, n);
    CommitsOneMore(c, run, n);
    var log := Commits(c, run, n);
    if run.events[n].Commit? {
      ApplyOneMore(c.narrowing, run.states[0].db, log, CommittedBy(run.states[n], run.events[n]));
    } else {
      assert log + [] == log;
    }
  }

  /** For every interleaving, the tables equal PlaceOrder applied to the committed requests in commit order. */
  lemma {:induction false} RefinesAtomicOrders(c: Config, run: Run, n: nat)
    requires IsRun(c, run) && n < |run.states|
    ensures Refined(c.narrowing, run.states[0].db, run.states[n].db, Commits(c, run, n))
  {
    hide Refined;
    if n == 0 {
      RefinedStart(c, run);
    } else {
      var k: nat := n - 1;
      RefinesAtomicOrders(c, run, k);
      RefinedStep(c, run, k);
    }
  }

  // ----- every answer is the atomic answer at some instant of its request -----

  /** What PlaceOrder answers on these tables. */
  ghost predicate Allows(n: Narrowing, db: Database, req: Request, response: Response) {
    SameResponse(response, Answer(n, db, req, if response.Placed? then response.id else 0))
  }

  /** The request was cut short from outside: a statement failed, or its commit was not acknowledged. */
  predicate CutShort(e: Event, r: nat) {
    e == Abort(r) || e == Commit(r, false)
  }

  /** `r` is being handled at state `i`: it arrives there or is unanswered. */
  ghost predicate During(run: Run, i: nat, r: nat)
    requires i < |run.events| < |run.states|
  {
    if r in run.states[i].procs then !run.states[i].procs[r].phase.Done?
    else run.events[i].Arrive? && run.events[i].r == r
  }

  lemma LockAnswers(n: Narrowing, db: Database, req: Request, ph: Phase)
    requires ph.Locking? && ph.held < |SortedIds(req.items)| && req.items != []
    requires forall p :: p in SortedIds(req.items)[..ph.held] ==> p in db.products
    requires SortedIds(req.items)[ph.held] !in db.products
    ensures Decide(n, db, req) == Reject(UnknownProduct(SortedIds(req.items)[ph.held]))
  {
    var ids := SortedIds(req.items);
    assert forall j :: 0 <= j < ph.held ==> ids[..ph.held][j] == ids[j] && ids[j] in ids[..ph.held];
    FirstMissingAt(ids, db.products, ph.held);
  }

  /** Decisions taken on a complete locked snapshot are the atomic decisions on the current tables. */
  lemma SnapshotDecides(n: Narrowing, db: Database, req: Request, seen: map<int, Row>)
    requires req.items != [] && AllLocked(req, seen) && SnapshotCurrent(db, seen) && Known(req.items, seen)
    ensures FirstMissing(SortedIds(req.items), db.products).None?
    ensures Known(req.items, Rows(db.products))
    ensures FirstShort(req.items, Rows(db.products)) == FirstShort(req.items, seen)
    ensures Total(req.items, Rows(db.products)) == Total(req.items, seen)
  {
    NoneMissing(req, db, seen);
    KnownIfNoneMissing(req.items, db.products);
    SnapshotPrices(req.items, seen, Rows(db.products));
  }

  lemma PriceAnswers(c: Config, db: Database, next: int, req: Request, ph: Phase)
    requires ProcOk(c, db, next, Proc(req, ph)) && ph.Locking? && ph.held == |SortedIds(req.items)|
    requires PriceLines(req, ph.seen).Done?
    ensures Decide(c.narrowing, db, req) == Reject(PriceLines(req, ph.seen).response)
  {
    PriceKeeps(c, db, next, req, ph);
    SnapshotDecides(c.narrowing, db, req, ph.seen);
    var i := FirstShort(req.items, ph.seen).value;
    assert req.items[i].product in ph.seen;
  }

  lemma CommitAnswers(c: Config, db: Database, next: int, req: Request, ph: Phase)
    requires ProcOk(c, db, next, Proc(req, ph)) && ph.Writing? && ph.line == |req.items|
    ensures Allows(c.narrowing, db, req, CreatedBody(req, ph))
  {
    CommitIsAtomic(c, db, next, req, ph);
  }

  /** Locked everything and passed the checks, but some constraint refuses the order. */
  lemma RefusalIsFail(n: Narrowing, db: Database, req: Request, seen: map<int, Row>)
    requires req.items != [] && PassedChecks(req, seen) && SnapshotCurrent(db, seen)
    requires Storable(n, Total(req.items, seen)) ==>
               && !KeyUsed(db, req.key)
               && !(req.customer in db.customers && AllPositive(req.items) && EnoughForAll(req.items, seen))
    ensures Decide(n, db, req) == Fail
  {
    SnapshotDecides(n, db, req, seen);
    assert forall i :: 0 <= i < |req.items| ==> req.items[i].product in seen;
  }

  lemma InsertOrderAnswers(c: Config, s: State, req: Request, ph: Phase, now: int)
    requires ph.Priced? && ProcOk(c, s.db, s.next, Proc(req, ph)) && InsertOrderRow(c, s, req, ph, now).Done?
    ensures InsertOrderRow(c, s, req, ph, now) == Done(Aborted) && Decide(c.narrowing, s.db, req) == Fail
  {
    RefusalIsFail(c.narrowing, s.db, req, ph.seen);
  }

  lemma InsertItemAnswers(c: Config, db: Database, next: int, req: Request, ph: Phase)
    requires ph.Writing? && ph.line < |req.items| && ProcOk(c, db, next, Proc(req, ph))
    requires InsertItemRow(req, ph).Done?
    ensures InsertItemRow(req, ph) == Done(Aborted) && Decide(c.narrowing, db, req) == Fail
  {
    assert req.items[ph.line].quantity <= 0;
    RefusalIsFail(c.narrowing, db, req, ph.seen);
  }

  /** A refused decrement means that the lines so far outgrow the stock, and no later line can help. */
  lemma DecrementAnswers(c: Config, db: Database, next: int, req: Request, ph: Phase)
    requires ph.Writing? && ph.line < |req.items| && ProcOk(c, db, next, Proc(req, ph))
    requires DecrementRow(req, ph).Done?
    ensures DecrementRow(req, ph) == Done(Aborted) && Decide(c.narrowing, db, req) == Fail
  {
    var i, p := ph.line, req.items[ph.line].product;
    assert p in ph.seen;
    assert req.items[..i + 1][..i] == req.items[..i];
    assert SumQuantity(req.items[..i + 1], p) == SumQuantity(req.items[..i], p) + req.items[i].quantity;
    OverdrawnPrefix(req.items, ph.seen, i);
    RefusalIsFail(c.narrowing, db, req, ph.seen);
  }

  /** Answers given without a replay are the atomic answer at the moment they are given, failures included. */
  lemma AnswerNow(c: Config, s: State, e: Event)
    requires AllOk(c, s) && Enabled(c, s, e) && !e.ReadItems? && Move(c, s, e).Done? && !CutShort(e, e.r)
    ensures Allows(c.narrowing, s.db, RequestOf(s, e), Move(c, s, e).response)
  {
    if !e.Arrive? {
      var p := s.procs[e.r];
      assert ProcOk(c, s.db, s.next, p);
      match e
      case Lock(_) => LockAnswers(c.narrowing, s.db, p.req, p.phase);
      case Price(_) => PriceAnswers(c, s.db, s.next, p.req, p.phase);
      case InsertOrder(_, now) => InsertOrderAnswers(c, s, p.req, p.phase, now);
      case InsertItem(_) => InsertItemAnswers(c, s.db, s.next, p.req, p.phase);
      case Decrement(_) => DecrementAnswers(c, s.db, s.next, p.req, p.phase);
      case Commit(_, _) => CommitAnswers(c, s.db, s.next, p.req, p.phase);
      case _ =>
    }
  }

  /** At the moment of a key conflict the atomic decision is to replay. */
  lemma ConflictNow(c: Config, s: State, e: Event)
    requires AllOk(c, s) && Enabled(c, s, e) && e.InsertOrder? && Move(c, s, e).Conflicted?
    ensures Decide(c.narrowing, s.db, RequestOf(s, e)) == Replay(KeyHolder(s.db, RequestOf(s, e).key))
  {
    var p := s.procs[e.r];
    assert ProcOk(c, s.db, s.next, p);
    SnapshotDecides(c.narrowing, s.db, p.req, p.phase.seen);
  }

  ghost predicate Replaying(ph: Phase) {
    ph.Conflicted? || ph.ReadingOrder? || ph.ReadingItems?
  }

  ghost predicate AnsweredAt(c: Config, run: Run, i: nat, r: nat, req: Request, response: Response)
    requires i < |run.events| < |run.states|
  {
    During(run, i, r) &&
    (Allows(c.narrowing, run.states[i].db, req, response) || (response.Aborted? && CutShort(run.events[i], r)))
  }

  /** At `i` the decision was to replay an order that `db` still holds unchanged. */
  ghost predicate ReplayedAt(c: Config, run: Run, i: nat, r: nat, req: Request, db: Database)
    requires i < |run.events| < |run.states|
  {
    var decision := Decide(c.narrowing, run.states[i].db, req);
    && During(run, i, r)
    && decision.Replay?
    && decision.id in db.orders && db.orders[decision.id].key == req.key
    && decision.id in run.states[i].db.orders
    && Recorded(db, decision.id) == Recorded(run.states[i].db, decision.id)
  }

  ghost predicate HasAnswer(c: Config, run: Run, n: nat, r: nat, req: Request, response: Response)
    requires n <= |run.events| < |run.states|
  {
    exists i: nat :: i < n && AnsweredAt(c, run, i, r, req, response)
  }

  ghost predicate HasReplay(c: Config, run: Run, n: nat, r: nat, req: Request, db: Database)
    requires n <= |run.events| < |run.states|
  {
    exists i: nat :: i < n && ReplayedAt(c, run, i, r, req, db)
  }

  ghost predicate Witnessed(c: Config, run: Run, n: nat, r: nat)
    requires IsRun(c, run) && n < |run.states| && r in run.states[n].procs
  {
    var p := run.states[n].procs[r];
    && (p.phase.Done? ==> HasAnswer(c, run, n, r, p.req, p.phase.response))
    && (Replaying(p.phase) ==> HasReplay(c, run, n, r, p.req, run.states[n].db))
  }

  /** A stored order, with its rows, is never changed by a later step. */
  lemma OrderStays(c: Config, s: State, e: Event, id: int)
    requires AllOk(c, s) && Enabled(c, s, e) && id in s.db.orders
    ensures var db' := Step(c, s, e).db;
            && id in db'.orders && db'.orders[id] == s.db.orders[id]
            && Recorded(db', id) == Recorded(s.db, id)
            && ItemsOf(db'.items, id) == ItemsOf(s.db.items, id)
            && LedgerOf(db'.ledger, id) == LedgerOf(s.db.ledger, id)
  {
    if e.Commit? {
      var d := s.procs[e.r].phase.draft;
      assert ProcOk(c, s.db, s.next, s.procs[e.r]);
      ItemsElsewhere(s.db.items, d.items, id);
      LedgerElsewhere(s.db.ledger, d.ledger, id);
    }
  }

  /** A waiting replay's witness survives any step. */
  lemma WitnessStays(c: Config, run: Run, n: nat, r: nat, req: Request)
    requires IsRun(c, run) && n < |run.events|
    requires HasReplay(c, run, n, r, req, run.states[n].db)
    ensures HasReplay(c, run, n + 1, r, req, run.states[n + 1].db)
  {
    var i: nat :| i < n && ReplayedAt(c, run, i, r, req, run.states[n].db);
    RunKeepsInv(c, run, n);
    assert Enabled(c, run.states[n], run.events[n]);
    OrderStays(c, run.states[n], run.events[n], Decide(c.narrowing, run.states[i].db, req).id);
    assert ReplayedAt(c, run, i, r, req, run.states[n + 1].db);
  }

  lemma ReplayMatches(db: Database, next: int, c: Config, req: Request, ph: Phase, rows: seq<ItemRow>, id: int)
    requires UniqueKeys(db) && ph.ReadingItems? && ProcOk(c, db, next, Proc(req, ph))
    requires multiset(rows) == multiset(ItemsOf(db.items, ph.id))
    requires id in db.orders && db.orders[id].key == req.key
    ensures SameResponse(Replayed(ph, rows), Recorded(db, id)) && ph.id == id
  {
    ReadItemsAnswers(db, req, ph, rows);
  }

  /** The last read of a replay returns what the decision promised at the conflict. */
  lemma ReplayAnswers(c: Config, run: Run, n: nat)
    requires IsRun(c, run) && n < |run.events| && run.events[n].ReadItems?
    requires run.events[n].r in run.states[n].procs && Witnessed(c, run, n, run.events[n].r)
    ensures Enabled(c, run.states[n], run.events[n])
    ensures var e := run.events[n]; var p := run.states[n].procs[e.r];
            HasAnswer(c, run, n, e.r, p.req, Replayed(p.phase, e.rows))
  {
    var s, e := run.states[n], run.events[n];
    assert Enabled(c, s, e);
    var p := s.procs[e.r];
    RunKeepsInv(c, run, n);
    assert ProcOk(c, s.db, s.next, p);
    var i: nat :| i < n && ReplayedAt(c, run, i, e.r, p.req, s.db);
    ReplayMatches(s.db, s.next, c, p.req, p.phase, e.rows, Decide(c.narrowing, run.states[i].db, p.req).id);
    assert AnsweredAt(c, run, i, e.r, p.req, Replayed(p.phase, e.rows));
  }

  lemma ActorAnswered(c: Config, run: Run, n: nat)
    requires IsRun(c, run) && n < |run.events|
    requires run.events[n].r in run.states[n].procs ==> Witnessed(c, run, n, run.events[n].r)
    requires Enabled(c, run.states[n], run.events[n]) && Move(c, run.states[n], run.events[n]).Done?
    ensures var s, e := run.states[n], run.events[n];
            HasAnswer(c, run, n + 1, e.r, RequestOf(s, e), Move(c, s, e).response)
  {
    var s, e := run.states[n], run.events[n];
    if e.ReadItems? {
      ReplayAnswers(c, run, n);
      var response := Move(c, s, e).response;
      var i: nat :| i < n && AnsweredAt(c, run, i, e.r, RequestOf(s, e), response);
    } else {
      if !CutShort(e, e.r) {
        RunKeepsInv(c, run, n);
        AnswerNow(c, s, e);
      }
      assert AnsweredAt(c, run, n, e.r, RequestOf(s, e), Move(c, s, e).response);
    }
  }

  lemma ReplayingMove(c: Config, s: State, e: Event)
    requires Enabled(c, s, e) && Replaying(Move(c, s, e))
    ensures e.r in s.procs && RequestOf(s, e) == s.procs[e.r].req && !e.Commit?
    ensures !Replaying(s.procs[e.r].phase) ==> e.InsertOrder? && Move(c, s, e).Conflicted?
  {
  }

  lemma ActorReplaying(c: Config, run: Run, n: nat)
    requires IsRun(c, run) && n < |run.events|
    requires run.events[n].r in run.states[n].procs ==> Witnessed(c, run, n, run.events[n].r)
    requires Enabled(c, run.states[n], run.events[n]) && Replaying(Move(c, run.states[n], run.events[n]))
    ensures var s, e := run.states[n], run.events[n];
            HasReplay(c, run, n + 1, e.r, RequestOf(s, e), run.states[n + 1].db)
  {
    var s, e := run.states[n], run.events[n];
    ReplayingMove(c, s, e);
    if Replaying(s.procs[e.r].phase) {
      WitnessStays(c, run, n, e.r, s.procs[e.r].req);
    } else {
      RunKeepsInv(c, run, n);
      ConflictNow(c, s, e);
      assert ReplayedAt(c, run, n, e.r, RequestOf(s, e), run.states[n + 1].db);
    }
  }

  lemma ActorWitnessed(c: Config, run: Run, n: nat)
    requires IsRun(c, run) && n < |run.events|
    requires run.events[n].r in run.states[n].procs ==> Witnessed(c, run, n, run.events[n].r)
    ensures run.events[n].r in run.states[n + 1].procs && Witnessed(c, run, n + 1, run.events[n].r)
  {
    assert Enabled(c, run.states[n], run.events[n]);
    var ph := Move(c, run.states[n], run.events[n]);
    if ph.Done? {
      ActorAnswered(c, run, n);
    } else if Replaying(ph) {
      ActorReplaying(c, run, n);
    }
  }

  lemma OtherWitnessed(c: Config, run: Run, n: nat, o: nat)
    requires IsRun(c, run) && n < |run.events|
    requires o in run.states[n].procs && o != run.events[n].r && Witnessed(c, run, n, o)
    ensures o in run.states[n + 1].procs && Witnessed(c, run, n + 1, o)
  {
    assert Enabled(c, run.states[n], run.events[n]);
    var p := run.states[n].procs[o];
    assert run.states[n + 1].procs[o] == p;
    if p.phase.Done? {
      var i: nat :| i < n && AnsweredAt(c, run, i, o, p.req, p.phase.response);
    }
    if Replaying(p.phase) {
      WitnessStays(c, run, n, o, p.req);
    }
  }

  lemma {:induction false} AllWitnessed(c: Config, run: Run, n: nat)
    requires IsRun(c, run) && n < |run.states|
    ensures forall r :: r in run.states[n].procs ==> Witnessed(c, run, n, r)
  {
    if n > 0 {
      AllWitnessed(c, run, n - 1);
      assert Enabled(c, run.states[n - 1], run.events[n - 1]);
      forall r | r in run.states[n].procs ensures Witnessed(c, run, n, r) {
        if r == run.events[n - 1].r {
          ActorWitnessed(c, run, n - 1);
        } else {
          OtherWitnessed(c, run, n - 1, r);
        }
      }
    }
  }

  /**
   Every answer is what the atomic specification answers on the committed tables at some instant while
   the request was being handled, failures included, unless the request was cut short and answered 500.
   */
  lemma EveryAnswerIsAtomic(c: Config, run: Run, n: nat, r: nat)
    requires IsRun(c, run) && n < |run.states|
    requires r in run.states[n].procs && run.states[n].procs[r].phase.Done?
    ensures exists i: nat :: i < n
              && AnsweredAt(c, run, i, r, run.states[n].procs[r].req, run.states[n].procs[r].phase.response)
  {
    AllWitnessed(c, run, n);
    var p := run.states[n].procs[r];
    var i: nat :| i < n && AnsweredAt(c, run, i, r, p.req, p.phase.response);
  }
}
