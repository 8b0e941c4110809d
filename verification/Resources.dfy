/** Who holds which connections and locks, how long, and what a request can be waiting for. */
module Resources {
  import opened ProductIds
  import opened Schema
  import opened Orders
  import opened Protocol
  import opened Sums
  import opened Invariant
  import opened Preservation
  import opened Liveness

  // ----- connections -----

  /** In a transaction: from BEGIN until commit or rollback. */
  predicate InTransaction(ph: Phase) {
    ph.Locking? || ph.Priced? || ph.Writing? || ph.Conflicted?
  }

  /** The transaction's connection, which all but the releasing services keep while they read a replay. */
  predicate HoldsFirst(c: Config, ph: Phase) {
    InTransaction(ph) || ((ph.ReadingOrder? || ph.ReadingItems?) && c.replay != ReleaseFirst)
  }

  /** The connection taken for the replay's queries. */
  predicate HoldsSecond(ph: Phase) {
    (ph.ReadingOrder? || ph.ReadingItems?) && ph.extra
  }

  function Firsts(c: Config, procs: map<nat, Proc>): set<nat> {
    set r | r in procs && HoldsFirst(c, procs[r].phase)
  }

  function Seconds(procs: map<nat, Proc>): set<nat> {
    set r | r in procs && HoldsSecond(procs[r].phase)
  }

  lemma SlotsAreConnections(c: Config, p: Proc)
    ensures SlotsOf(c)(p) == (if HoldsFirst(c, p.phase) then 1 else 0) + (if HoldsSecond(p.phase) then 1 else 0)
  {
  }

  lemma FirstsPick(c: Config, procs: map<nat, Proc>, r: nat)
    requires r in procs
    ensures |Firsts(c, procs)| == |Firsts(c, procs - {r})| + if HoldsFirst(c, procs[r].phase) then 1 else 0
  {
    hide HoldsFirst;
    assert Firsts(c, procs) == Firsts(c, procs - {r}) + if HoldsFirst(c, procs[r].phase) then {r} else {};
  }

  lemma SecondsPick(procs: map<nat, Proc>, r: nat)
    requires r in procs
    ensures |Seconds(procs)| == |Seconds(procs - {r})| + if HoldsSecond(procs[r].phase) then 1 else 0
  {
    hide HoldsSecond;
    assert Seconds(procs) == Seconds(procs - {r}) + if HoldsSecond(procs[r].phase) then {r} else {};
  }

  lemma {:induction false} ConnectionsCounted(c: Config, procs: map<nat, Proc>)
    ensures |Firsts(c, procs)| + |Seconds(procs)| == Sum(procs, SlotsOf(c))
    decreases |procs|
  {
    if procs == map[] {
      assert Firsts(c, procs) == {} && Seconds(procs) == {};
    } else {
      hide Sum, SlotsOf, Firsts, Seconds, HoldsFirst, HoldsSecond;
      var r :| r in procs;
      SumPick(procs, SlotsOf(c), r);
      SlotsAreConnections(c, procs[r]);
      FirstsPick(c, procs, r);
      SecondsPick(procs, r);
      ConnectionsCounted(c, procs - {r});
    }
  }

  /** In every reachable state the connections held, first and second ones together, are at most the pool. */
  lemma ConnectionsWithinPool(c: Config, run: Run, n: nat)
    requires IsRun(c, run) && n < |run.states|
    ensures |Firsts(c, run.states[n].procs)| + |Seconds(run.states[n].procs)| <= c.pool
  {
    RunKeepsInv(c, run, n);
    ConnectionsCounted(c, run.states[n].procs);
  }

  // ----- locks -----

  /**
   A request keeps every lock it has taken until its transaction ends: until it is answered, or until the
   rollback before a replay, after which it holds none (Spring replays inside the transaction).
   */
  lemma LocksKeptToTheEnd(c: Config, s: State, e: Event, p: int)
    requires Enabled(c, s, e) && !e.Arrive? && p in Seen(s.procs[e.r].phase)
    ensures p in Seen(Move(c, s, e)) <==>
              !Move(c, s, e).Done? && (e.BeginReplay? ==> c.replay == SameTransaction)
  {
  }

  // ----- waiting -----

  ghost predicate CanStep(c: Config, s: State, r: nat) {
    exists e :: Progress(e) && e.r == r && Enabled(c, s, e)
  }

  ghost predicate PoolFull(c: Config, s: State) {
    |Firsts(c, s.procs)| + |Seconds(s.procs)| >= c.pool
  }

  /** What can hold a request up: the pool, another request's row, or another transaction's unfinished key. */
  ghost predicate HeldUp(c: Config, s: State, r: nat)
    requires r in s.procs
  {
    var req, ph := s.procs[r].req, s.procs[r].phase;
    || (ph.Waiting? && PoolFull(c, s))
    || (ph.Locking? && ph.held < |SortedIds(req.items)|
        && exists o :: o in s.procs && o != r && SortedIds(req.items)[ph.held] in Seen(s.procs[o].phase))
    || (ph.Priced? && exists o :: o in s.procs && o != r && s.procs[o].phase.Writing? && s.procs[o].req.key == req.key)
    || ((ph.ReadingOrder? || ph.ReadingItems?) && !ph.extra && PoolFull(c, s)
        && (c.replay == ReleaseFirst || c.replay == NestedAcquire))
  }

  lemma FreeCanStep(c: Config, s: State, r: nat)
    requires AllOk(c, s) && Unfinished(s, r) && !HeldUp(c, s, r)
    ensures CanStep(c, s, r)
  {
    var p := s.procs[r];
    assert ProcOk(c, s.db, s.next, p);
    ConnectionsCounted(c, s.procs);
    var e := match p.phase
      case Waiting => Acquire(r)
      case Locking(_, held) => if held < |SortedIds(p.req.items)| then Lock(r) else Price(r)
      case Priced(_, _) => InsertOrder(r, 0)
      case Writing(_, _, line, stmt) =>
        if line == |p.req.items| then Commit(r, true)
        else if stmt == 0 then InsertItem(r)
        else if stmt == 1 then InsertLedger(r)
        else Decrement(r)
      case Conflicted(_) => BeginReplay(r)
      case ReadingOrder(_, extra) => if NeedsExtra(c) && !extra then AcquireExtra(r) else ReadOrder(r)
      case ReadingItems(_, extra, id, _) =>
        if NeedsExtra(c) && !extra then AcquireExtra(r) else ReadItems(r, ItemsOf(s.db.items, id))
      case Done(_) => Abort(r);
    assert Progress(e) && e.r == r && Enabled(c, s, e);
  }

  /** A request waits exactly when one of those holds it up; nothing else ever makes it wait. */
  lemma WaitsExactlyWhenHeldUp(c: Config, s: State, r: nat)
    requires AllOk(c, s) && Unfinished(s, r)
    ensures !CanStep(c, s, r) <==> HeldUp(c, s, r)
  {
    if HeldUp(c, s, r) {
      ConnectionsCounted(c, s.procs);
      forall e | Progress(e) && e.r == r ensures !Enabled(c, s, e) {}
    } else {
      FreeCanStep(c, s, r);
    }
  }

  // ----- what the surroundings may do -----

  /** Any request may arrive at any time under a new name, and takes nothing by arriving. */
  lemma ArrivalsAreFree(c: Config, s: State, r: nat, req: Request)
    requires r !in s.procs
    ensures Enabled(c, s, Arrive(r, req))
    ensures var s' := Step(c, s, Arrive(r, req));
            s'.db == s.db && s'.procs[r].req == req && Slots(c, s'.procs[r].phase) == 0 && Seen(s'.procs[r].phase) == map[]
  {
  }

  /** Any unfinished request may fail at any time: it answers 500, the tables stay, and all it held is free. */
  lemma FailuresAreFree(c: Config, s: State, r: nat)
    requires Unfinished(s, r)
    ensures Enabled(c, s, Abort(r))
    ensures var s' := Step(c, s, Abort(r));
            && s'.db == s.db && s'.procs[r] == Proc(s.procs[r].req, Done(Aborted))
            && r !in Firsts(c, s'.procs) && r !in Seconds(s'.procs) && Seen(s'.procs[r].phase) == map[]
  {
  }

  /** A commit may lose its acknowledgement, and then changes the same tables. */
  lemma AcknowledgementsMayBeLost(c: Config, s: State, r: nat)
    requires Enabled(c, s, Commit(r, true))
    ensures Enabled(c, s, Commit(r, false))
    ensures Step(c, s, Commit(r, false)).db == Step(c, s, Commit(r, true)).db
    ensures Step(c, s, Commit(r, false)).procs[r].phase == Done(Aborted)
  {
  }

  /** An order may be inserted at any clock time, and a replay's rows may come back in any order. */
  lemma ClockAndRowOrderAreFree(c: Config, s: State, r: nat, now: int, later: int, a: seq<ItemRow>, b: seq<ItemRow>)
    requires multiset(a) == multiset(b)
    ensures Enabled(c, s, InsertOrder(r, now)) <==> Enabled(c, s, InsertOrder(r, later))
    ensures Enabled(c, s, ReadItems(r, a)) <==> Enabled(c, s, ReadItems(r, b))
  {
  }
}
