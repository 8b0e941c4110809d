/** Python's nested acquire does wedge: for every pool size there is a run that ends with no way on. */
module Wedge {
  import opened ProductIds
  import opened Schema
  import opened Orders
  import opened Protocol
  import opened Sums
  import opened Preservation
  import opened Liveness

  const STORE := Database({1}, map[1 := Product(Row(100, 5), 1)], map[1 := OrderRow(1, Pending, 100, 5, 0)], [], [])
  const RETRY := Request(5, 1, [Line(1, 1)])

  function Python(pool: nat): Config {
    Config(pool, NestedAcquire, Checked)
  }

  /** `m` retries of the stored key, all past their rollback and holding their first connection. */
  ghost predicate Holding(c: Config, s: State, m: nat) {
    && s.db == STORE
    && Used(c, s) == m
    && (forall r: nat :: r in s.procs <==> r < m)
    && forall r :: r in s.procs ==> s.procs[r] == Proc(RETRY, ReadingOrder(map[], false))
  }

  lemma StoreIsValid()
    ensures Valid(STORE) && SortedIds(RETRY.items) == [1] && KeyUsed(STORE, 5)
  {
    assert RETRY.items[..0] == [];
    assert STORE.orders[1].key == 5;
  }

  ghost predicate OthersHolding(c: Config, s: State, m: nat) {
    && s.db == STORE
    && m in s.procs && s.procs[m].req == RETRY
    && (forall r: nat :: r in s.procs <==> r <= m)
    && forall r: nat :: r < m ==> s.procs[r] == Proc(RETRY, ReadingOrder(map[], false))
  }

  /** One statement of retry `m`, leaving everything else alone. */
  lemma RetryStep(c: Config, run: Run, m: nat, e: Event) returns (longer: Run)
    requires IsRun(c, run) && OthersHolding(c, Last(run), m)
    requires Enabled(c, Last(run), e) && e.r == m && !e.Arrive? && !e.Commit?
    ensures IsRun(c, longer) && OthersHolding(c, Last(longer), m)
    ensures Last(longer).procs[m].phase == Move(c, Last(run), e)
  {
    longer := Extend(c, run, e);
    ExtendIsRun(c, run, e);
  }

  lemma RetryArrives(c: Config, run: Run, m: nat) returns (longer: Run)
    requires c.replay.NestedAcquire? && IsRun(c, run) && Holding(c, Last(run), m) && m < c.pool
    ensures IsRun(c, longer) && OthersHolding(c, Last(longer), m)
    ensures Last(longer).procs[m].phase == Locking(map[], 0)
  {
    var e := Arrive(m, RETRY);
    ExtendIsRun(c, run, e);
    longer := Extend(c, run, e);
    SumUpdate(Last(run).procs, SlotsOf(c), m, Proc(RETRY, Waiting));
    assert Used(c, Last(longer)) == m;
    longer := RetryStep(c, longer, m, Acquire(m));
  }

  const SEEN := map[1 := Row(100, 5)]

  lemma RetryLocks(c: Config, run: Run, m: nat) returns (longer: Run)
    requires c.replay.NestedAcquire? && IsRun(c, run) && OthersHolding(c, Last(run), m)
    requires Last(run).procs[m].phase == Locking(map[], 0)
    ensures IsRun(c, longer) && OthersHolding(c, Last(longer), m)
    ensures Last(longer).procs[m].phase == Priced(SEEN, Total(RETRY.items, SEEN))
  {
    StoreIsValid();
    longer := RetryStep(c, run, m, Lock(m));
    assert Last(longer).procs[m].phase == Locking(SEEN, 1);
    assert FirstShort(RETRY.items, SEEN).None?;
    longer := RetryStep(c, longer, m, Price(m));
  }

  lemma RetryConflicts(c: Config, run: Run, m: nat) returns (longer: Run)
    requires c.replay.NestedAcquire? && IsRun(c, run) && OthersHolding(c, Last(run), m)
    requires Last(run).procs[m].phase == Priced(SEEN, Total(RETRY.items, SEEN))
    ensures IsRun(c, longer) && OthersHolding(c, Last(longer), m)
    ensures Last(longer).procs[m].phase == ReadingOrder(map[], false)
  {
    StoreIsValid();
    longer := RetryStep(c, run, m, InsertOrder(m, 0));
    assert Last(longer).procs[m].phase == Conflicted(SEEN);
    longer := RetryStep(c, longer, m, BeginReplay(m));
  }

  lemma HoldingSlots(c: Config, s: State, before: State, m: nat)
    requires c.replay.NestedAcquire? && Holding(c, before, m) && OthersHolding(c, s, m)
    requires s.procs[m].phase == ReadingOrder(map[], false)
    ensures Holding(c, s, m + 1)
  {
    assert s.procs == before.procs[m := s.procs[m]];
    SumUpdate(before.procs, SlotsOf(c), m, s.procs[m]);
    assert SlotsOf(c)(s.procs[m]) == 1;
  }

  lemma {:induction false} Retries(c: Config, m: nat) returns (run: Run)
    requires c.replay.NestedAcquire? && m <= c.pool
    ensures IsRun(c, run) && Holding(c, Last(run), m)
  {
    if m == 0 {
      StoreIsValid();
      run := Run([State(STORE, 2, map[])], []);
      SumZero(map[], SlotsOf(c));
    } else {
      var shorter := Retries(c, m - 1);
      run := RetryArrives(c, shorter, m - 1);
      run := RetryLocks(c, run, m - 1);
      run := RetryConflicts(c, run, m - 1);
      HoldingSlots(c, Last(run), Last(shorter), m - 1);
    }
  }

  /** For every pool size some run reaches a state with unanswered requests and no possible progress. */
  lemma EveryPoolCanWedge(pool: nat) returns (run: Run)
    requires pool >= 1
    ensures IsRun(Python(pool), run) && Unfinished(Last(run), 0) && !CanProgress(Python(pool), Last(run))
  {
    var c := Python(pool);
    run := Retries(c, pool);
    RunKeepsInv(c, run, |run.states| - 1);
    assert Wedged(c, Last(run)) && Unfinished(Last(run), 0);
    StuckExactlyWhenWedged(c, Last(run));
  }
}
