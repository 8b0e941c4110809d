/** Every step of every interleaving keeps the invariant. */
module Preservation {
  import opened Schema
  import opened Orders
  import opened OrderLaws
  import opened Protocol
  import opened Sums
  import opened Invariant

  /** The acting request's own part of the invariant after a step that commits nothing. */
  lemma MoveKeeps(c: Config, s: State, e: Event)
    requires Inv(c, s) && Enabled(c, s, e) && !e.Commit?
    ensures ProcOk(c, s.db, Step(c, s, e).next, Proc(RequestOf(s, e), Move(c, s, e)))
  {
    if !e.Arrive? {
      var p := s.procs[e.r];
      assert ProcOk(c, s.db, s.next, p);
      match e
      case Lock(_) => LockKeeps(c, s.db, s.next, p.req, p.phase);
      case Price(_) => PriceKeeps(c, s.db, s.next, p.req, p.phase);
      case InsertOrder(_, now) => InsertOrderKeeps(c, s, p.req, p.phase, now);
      case InsertItem(_) => WriteKeeps(c, s.db, s.next, p.req, p.phase);
      case InsertLedger(_) => WriteKeeps(c, s.db, s.next, p.req, p.phase);
      case Decrement(_) => WriteKeeps(c, s.db, s.next, p.req, p.phase);
      case ReadItems(_, rows) => ReadItemsAnswers(s.db, p.req, p.phase, rows);
      case _ =>
    }
  }

  function Without<T>(s: seq<T>, k: nat): (r: seq<T>)
    requires k < |s|
    ensures |r| == |s| - 1
  {
    s[..k] + s[k + 1..]
  }

  lemma RemoveAt<T>(s: seq<T>, k: nat)
    requires k < |s|
    ensures multiset(Without(s, k)) == multiset(s) - multiset{s[k]}
    ensures multiset(s) == multiset(Without(s, k)) + multiset{s[k]}
  {
    assert s == s[..k] + [s[k]] + s[k + 1..];
  }

  lemma BodyRemoveAt(rows: seq<ItemRow>, k: nat)
    requires k < |rows|
    ensures multiset(BodyOf(rows)) == multiset(BodyOf(Without(rows, k)))
                                    + multiset{BodyLine(rows[k].product, rows[k].quantity, rows[k].price)}
  {
    RemoveAt(BodyOf(rows), k);
    assert Without(BodyOf(rows), k) == BodyOf(Without(rows, k));
  }

  lemma PositionIn<T>(s: seq<T>, x: T) returns (k: nat)
    requires multiset(s)[x] > 0
    ensures k < |s| && s[k] == x
  {
    assert x in multiset(s);
    assert x in s;
    k :| 0 <= k < |s| && s[k] == x;
  }

  /** Rows listed in another order give the same response body up to order. */
  lemma {:induction false} BodyMultiset(a: seq<ItemRow>, b: seq<ItemRow>)
    requires multiset(a) == multiset(b)
    ensures multiset(BodyOf(a)) == multiset(BodyOf(b))
    decreases |a|
  {
    if a == [] {
      assert |multiset(b)| == 0;
    } else {
      RemoveAt(a, 0);
      var k := PositionIn(b, a[0]);
      RemoveAt(b, k);
      BodyMultiset(Without(a, 0), Without(b, k));
      BodyRemoveAt(a, 0);
      BodyRemoveAt(b, k);
    }
  }

  lemma ReadItemsAnswers(db: Database, req: Request, ph: Phase, rows: seq<ItemRow>)
    requires ph.ReadingItems? && ph.id in db.orders && db.orders[ph.id] == ph.row && ph.row.key == req.key
    requires multiset(rows) == multiset(ItemsOf(db.items, ph.id))
    ensures SameResponse(Replayed(ph, rows), Recorded(db, ph.id))
    ensures AnswerStands(db, req, Replayed(ph, rows))
  {
    BodyMultiset(rows, ItemsOf(db.items, ph.id));
  }

  // ----- locks, keys and slots -----

  /** A step takes at most one new lock, and only one nobody else owns. */
  lemma LocksOfMove(c: Config, s: State, e: Event, p: int)
    requires Enabled(c, s, e) && p in Seen(Move(c, s, e))
    ensures e.r in s.procs
    ensures p in Seen(s.procs[e.r].phase) || !LockedByOther(s, e.r, p)
  {
  }

  lemma LocksStayExclusive(c: Config, s: State, e: Event)
    requires Inv(c, s) && Enabled(c, s, e)
    ensures LocksExclusive(Step(c, s, e))
  {
    var s' := Step(c, s, e);
    forall a, b, p | a in s'.procs && b in s'.procs && a != b && p in Seen(s'.procs[a].phase)
      ensures p !in Seen(s'.procs[b].phase)
    {
      if a == e.r {
        LocksOfMove(c, s, e, p);
      } else if b == e.r {
        if p in Seen(Move(c, s, e)) {
          LocksOfMove(c, s, e, p);
        }
      }
    }
  }

  lemma WritingMove(c: Config, s: State, e: Event)
    requires Enabled(c, s, e) && Move(c, s, e).Writing?
    ensures e.r in s.procs && RequestOf(s, e) == s.procs[e.r].req
    ensures var ph, ph' := s.procs[e.r].phase, Move(c, s, e);
            if ph.Writing? then ph'.draft.id == ph.draft.id
            else !KeyInFlight(s, e.r, s.procs[e.r].req.key) && ph'.draft.id == s.next
  {
  }

  /** A request enters its write phase only with a key nobody is writing and an id nobody has. */
  lemma WritersDiffer(c: Config, s: State, e: Event, o: nat)
    requires AllOk(c, s) && KeysExclusive(s) && Enabled(c, s, e) && Move(c, s, e).Writing?
    requires o in s.procs && o != e.r && s.procs[o].phase.Writing?
    ensures RequestOf(s, e).key != s.procs[o].req.key && Move(c, s, e).draft.id != s.procs[o].phase.draft.id
  {
    WritingMove(c, s, e);
    assert ProcOk(c, s.db, s.next, s.procs[o]);
  }

  lemma KeysStayExclusive(c: Config, s: State, e: Event)
    requires AllOk(c, s) && KeysExclusive(s) && Enabled(c, s, e)
    ensures KeysExclusive(Step(c, s, e))
  {
    var s' := Step(c, s, e);
    forall a, b | a in s'.procs && b in s'.procs && a != b && s'.procs[a].phase.Writing? && s'.procs[b].phase.Writing?
      ensures s'.procs[a].req.key != s'.procs[b].req.key && s'.procs[a].phase.draft.id != s'.procs[b].phase.draft.id
    {
      if a == e.r {
        WritersDiffer(c, s, e, b);
      } else if b == e.r {
        WritersDiffer(c, s, e, a);
      }
    }
  }

  /** Only the two acquiring steps take a slot, one each and only while one is free. */
  lemma SlotsOfMove(c: Config, s: State, e: Event)
    requires Enabled(c, s, e) && !e.Arrive?
    ensures e.Acquire? || e.AcquireExtra? ==>
              Used(c, s) < c.pool && Slots(c, Move(c, s, e)) == Slots(c, s.procs[e.r].phase) + 1
    ensures !e.Acquire? && !e.AcquireExtra? ==> Slots(c, Move(c, s, e)) <= Slots(c, s.procs[e.r].phase)
  {
  }

  lemma SlotsStayBounded(c: Config, s: State, e: Event)
    requires Inv(c, s) && Enabled(c, s, e)
    ensures Used(c, Step(c, s, e)) <= c.pool
  {
    var p' := Proc(RequestOf(s, e), Move(c, s, e));
    SumUpdate(s.procs, SlotsOf(c), e.r, p');
    assert SlotsOf(c)(p') == Slots(c, p'.phase);
    if !e.Arrive? {
      assert SlotsOf(c)(s.procs[e.r]) == Slots(c, s.procs[e.r].phase);
      SlotsOfMove(c, s, e);
    }
  }

  // ----- a commit by one request keeps the others' parts -----

  lemma OthersSnapshots(db: Database, d: Draft, seen: map<int, Row>)
    requires SnapshotCurrent(db, seen)
    requires forall p :: p in d.stock ==> p !in seen
    ensures SnapshotCurrent(Published(db, d), seen)
  {
  }

  lemma RecordedStays(db: Database, d: Draft, id: int)
    requires Fresh(db, d.id) && id in db.orders
    requires forall i :: 0 <= i < |d.items| ==> d.items[i].order == d.id
    ensures id in Published(db, d).orders && Recorded(Published(db, d), id) == Recorded(db, id)
  {
    ItemsElsewhere(db.items, d.items, id);
  }

  lemma KeyStaysUsed(db: Database, d: Draft, key: Key)
    requires Fresh(db, d.id)
    ensures KeyUsed(Published(db, d), key) <==> KeyUsed(db, key) || d.order.key == key
  {
    if KeyUsed(db, key) {
      var id := KeyHolder(db, key);
      assert Published(db, d).orders[id].key == key;
    }
    if d.order.key == key {
      assert Published(db, d).orders[d.id].key == key;
    }
  }

  /** A request that shares no lock, key or id with a published draft is not disturbed by it. */
  lemma UndisturbedBy(c: Config, db: Database, next: int, d: Draft, p: Proc)
    requires ProcOk(c, db, next, p) && Fresh(db, d.id)
    requires forall i :: 0 <= i < |d.items| ==> d.items[i].order == d.id
    requires forall q :: q in d.stock ==> q !in Seen(p.phase)
    requires p.phase.Writing? ==> p.req.key != d.order.key && p.phase.draft.id != d.id
    ensures ProcOk(c, Published(db, d), next, p)
  {
    OthersSnapshots(db, d, Seen(p.phase));
    KeyStaysUsed(db, d, p.req.key);
    if p.phase.Done? && p.phase.response.Placed? {
      RecordedStays(db, d, p.phase.response.id);
    }
  }

  lemma OtherStaysOk(c: Config, s: State, e: Event, o: nat)
    requires AllOk(c, s) && LocksExclusive(s) && KeysExclusive(s)
    requires Enabled(c, s, e) && e.Commit? && o in s.procs && o != e.r
    ensures ProcOk(c, Published(s.db, s.procs[e.r].phase.draft), s.next, s.procs[o])
  {
    var me := s.procs[e.r];
    assert ProcOk(c, s.db, s.next, me) && ProcOk(c, s.db, s.next, s.procs[o]);
    forall p | p in me.phase.draft.stock ensures p !in Seen(s.procs[o].phase) {
      assert p in Seen(me.phase);
    }
    UndisturbedBy(c, s.db, s.next, me.phase.draft, s.procs[o]);
  }

  lemma CommitterAnswers(c: Config, db: Database, next: int, req: Request, ph: Phase)
    requires ProcOk(c, db, next, Proc(req, ph)) && Valid(db)
    requires ph.Writing? && ph.line == |req.items|
    ensures AnswerStands(Published(db, ph.draft), req, CreatedBody(req, ph))
  {
    assert req.items[..ph.line] == req.items;
    NoRowsBeforeInsertion(db, ph.draft.id);
    AppendedItems(db.items, ph.draft.id, req.items, ph.seen);
    assert Recorded(Published(db, ph.draft), ph.draft.id) == CreatedBody(req, ph);
  }

  lemma PublishKeepsTables(c: Config, db: Database, next: int, req: Request, ph: Phase)
    requires ProcOk(c, db, next, Proc(req, ph)) && Valid(db)
    requires ph.Writing? && ph.line == |req.items|
    ensures Valid(Published(db, ph.draft)) && ph.draft.id < next
  {
    CommitIsAtomic(c, db, next, req, ph);
    EffectKeepsConstraints(c.narrowing, db, req, ph.draft.id, ph.draft.order.createdAt);
  }

  lemma CommitKeepsTables(c: Config, s: State, e: Event)
    requires Valid(s.db) && IdsBelow(s) && AllOk(c, s) && Enabled(c, s, e) && e.Commit?
    ensures Valid(Step(c, s, e).db) && IdsBelow(Step(c, s, e))
  {
    assert ProcOk(c, s.db, s.next, s.procs[e.r]);
    PublishKeepsTables(c, s.db, s.next, s.procs[e.r].req, s.procs[e.r].phase);
  }

  lemma AllStayOk(c: Config, s: State, e: Event)
    requires Inv(c, s) && Enabled(c, s, e)
    ensures AllOk(c, Step(c, s, e))
  {
    var s' := Step(c, s, e);
    forall o | o in s'.procs ensures ProcOk(c, s'.db, s'.next, s'.procs[o]) {
      if o != e.r {
        assert ProcOk(c, s.db, s.next, s.procs[o]);
        if e.Commit? {
          OtherStaysOk(c, s, e, o);
        }
      } else if e.Commit? {
        CommitterAnswers(c, s.db, s.next, s.procs[e.r].req, s.procs[e.r].phase);
      } else {
        MoveKeeps(c, s, e);
      }
    }
  }

  /** The invariant holds initially and every step keeps it. */
  lemma StepKeepsInv(c: Config, s: State, e: Event)
    requires Inv(c, s) && Enabled(c, s, e)
    ensures Inv(c, Step(c, s, e))
  {
    AllStayOk(c, s, e);
    LocksStayExclusive(c, s, e);
    KeysStayExclusive(c, s, e);
    SlotsStayBounded(c, s, e);
    if e.Commit? {
      CommitKeepsTables(c, s, e);
    }
  }

  lemma {:induction false} RunKeepsInv(c: Config, run: Run, n: nat)
    requires IsRun(c, run) && n < |run.states|
    ensures Inv(c, run.states[n])
  {
    if n == 0 {
      SumZero(run.states[0].procs, SlotsOf(c));
    } else {
      RunKeepsInv(c, run, n - 1);
      assert Enabled(c, run.states[n - 1], run.events[n - 1]);
      StepKeepsInv(c, run.states[n - 1], run.events[n - 1]);
    }
  }
}
