/** No deadlock, bounded runs, and the exact condition under which nested pool use wedges. */
module Liveness {
  import opened ProductIds
  import opened Schema
  import opened Protocol
  import opened Sums
  import opened Invariant
  import opened Preservation
  import opened Histories
  import opened Promises
  import opened Guarantees

  ghost predicate CanProgress(c: Config, s: State) {
    exists e :: Progress(e) && Enabled(c, s, e)
  }

  predicate Unfinished(s: State, r: nat) {
    r in s.procs && !s.procs[r].phase.Done?
  }

  /** Every slot is held by a request that waits for its second one. */
  ghost predicate Wedged(c: Config, s: State) {
    && c.replay.NestedAcquire?
    && Used(c, s) == c.pool
    && forall r :: r in s.procs && Slots(c, s.procs[r].phase) > 0 ==>
         Reading(s.procs[r].phase) && !s.procs[r].phase.extra
  }

  // ----- who can step -----

  predicate AwaitsLock(p: Proc) {
    p.phase.Locking? && p.phase.held < |SortedIds(p.req.items)|
  }

  predicate AwaitsSlot(c: Config, p: Proc) {
    p.phase.Waiting? || (Reading(p.phase) && !p.phase.extra && NeedsExtra(c))
  }

  lemma ReadyProgresses(c: Config, s: State, r: nat)
    requires AllOk(c, s) && Unfinished(s, r)
    requires !AwaitsLock(s.procs[r]) && !AwaitsSlot(c, s.procs[r]) && !s.procs[r].phase.Priced?
    ensures CanProgress(c, s)
  {
    var p := s.procs[r];
    assert ProcOk(c, s.db, s.next, p);
    var e := match p.phase
      case Locking(_, _) => Price(r)
      case Writing(_, _, line, stmt) =>
        if line == |p.req.items| then Commit(r, true)
        else if stmt == 0 then InsertItem(r)
        else if stmt == 1 then InsertLedger(r)
        else Decrement(r)
      case Conflicted(_) => BeginReplay(r)
      case ReadingOrder(_, _) => ReadOrder(r)
      case ReadingItems(_, _, id, _) => ReadItems(r, ItemsOf(s.db.items, id))
      case _ => Abort(r);
    assert Progress(e) && Enabled(c, s, e);
  }

  /** A request about to insert either can, or waits for a key holder that can step. */
  lemma PricedProgresses(c: Config, s: State, r: nat)
    requires AllOk(c, s) && Unfinished(s, r) && s.procs[r].phase.Priced?
    ensures CanProgress(c, s)
  {
    if KeyInFlight(s, r, s.procs[r].req.key) {
      var o :| o in s.procs && o != r && s.procs[o].phase.Writing? && s.procs[o].req.key == s.procs[r].req.key;
      ReadyProgresses(c, s, o);
    } else {
      assert Progress(InsertOrder(r, 0)) && Enabled(c, s, InsertOrder(r, 0));
    }
  }

  function NextLock(p: Proc): int
    requires AwaitsLock(p)
  {
    SortedIds(p.req.items)[p.phase.held]
  }

  /** Among the requests waiting for a row, one whose row id is largest. */
  lemma {:induction false} LargestWaiter(s: State, rs: set<nat>) returns (best: nat)
    requires rs != {} && forall r :: r in rs ==> r in s.procs && AwaitsLock(s.procs[r])
    ensures best in rs && forall r :: r in rs ==> NextLock(s.procs[r]) <= NextLock(s.procs[best])
  {
    best :| best in rs;
    var rest := rs - {best};
    if rest != {} {
      var other := LargestWaiter(s, rest);
      if NextLock(s.procs[best]) < NextLock(s.procs[other]) {
        best := other;
      }
    }
  }

  /** Rows are taken in ascending order, so nobody stuck behind a row owns a later one. */
  lemma HeldBelowNext(c: Config, s: State, o: nat, p: int)
    requires AllOk(c, s) && o in s.procs && AwaitsLock(s.procs[o]) && p in Seen(s.procs[o].phase)
    ensures p < NextLock(s.procs[o])
  {
    var proc := s.procs[o];
    assert ProcOk(c, s.db, s.next, proc);
    var ids := SortedIds(proc.req.items);
    var k :| 0 <= k < proc.phase.held && ids[..proc.phase.held][k] == p;
    assert ids[k] < ids[proc.phase.held];
  }

  lemma LockWaiterProgresses(c: Config, s: State, r: nat)
    requires AllOk(c, s) && r in s.procs && AwaitsLock(s.procs[r])
    requires forall o :: Unfinished(s, o) ==> AwaitsLock(s.procs[o]) || AwaitsSlot(c, s.procs[o])
    ensures CanProgress(c, s)
  {
    var waiters := set o | o in s.procs && AwaitsLock(s.procs[o]);
    assert r in waiters;
    var best := LargestWaiter(s, waiters);
    var p := NextLock(s.procs[best]);
    if LockedByOther(s, best, p) {
      var o :| o in s.procs && o != best && p in Seen(s.procs[o].phase);
      assert ProcOk(c, s.db, s.next, s.procs[o]);
      assert Unfinished(s, o);
      assert AwaitsLock(s.procs[o]);
      HeldBelowNext(c, s, o, p);
      assert false;
    }
    assert Progress(Lock(best)) && Enabled(c, s, Lock(best));
  }

  lemma SlotWaitersProgress(c: Config, s: State, r: nat)
    requires Inv(c, s) && c.pool >= 1 && Unfinished(s, r) && !Wedged(c, s)
    requires forall o :: Unfinished(s, o) ==> AwaitsSlot(c, s.procs[o])
    ensures CanProgress(c, s)
  {
    if Used(c, s) == c.pool {
      SumPositive(s.procs, SlotsOf(c));
      var o :| o in s.procs && SlotsOf(c)(s.procs[o]) > 0;
      assert Slots(c, s.procs[o].phase) > 0;
      assert Unfinished(s, o);
      assert c.replay.NestedAcquire?;
      forall q | q in s.procs && Slots(c, s.procs[q].phase) > 0
        ensures Reading(s.procs[q].phase) && !s.procs[q].phase.extra
      {
        assert Unfinished(s, q);
      }
      assert Wedged(c, s);
      assert false;
    }
    var e := if s.procs[r].phase.Waiting? then Acquire(r) else AcquireExtra(r);
    assert AwaitsSlot(c, s.procs[r]);
    assert Progress(e) && Enabled(c, s, e);
  }

  lemma UnwedgedProgresses(c: Config, s: State, r: nat)
    requires Inv(c, s) && c.pool >= 1 && Unfinished(s, r) && !Wedged(c, s)
    ensures CanProgress(c, s)
  {
    if o :| Unfinished(s, o) && !AwaitsLock(s.procs[o]) && !AwaitsSlot(c, s.procs[o]) {
      if s.procs[o].phase.Priced? {
        PricedProgresses(c, s, o);
      } else {
        ReadyProgresses(c, s, o);
      }
    } else if o :| Unfinished(s, o) && AwaitsLock(s.procs[o]) {
      LockWaiterProgresses(c, s, o);
    } else {
      SlotWaitersProgress(c, s, r);
    }
  }

  lemma WedgedCannotProgress(c: Config, s: State, e: Event)
    requires Wedged(c, s) && Progress(e)
    ensures !Enabled(c, s, e)
  {
    if e.r in s.procs {
      var ph := s.procs[e.r].phase;
      assert Slots(c, ph) > 0 ==> Reading(ph) && !ph.extra;
    }
  }

  /**
   With an unfinished request some statement can execute, unless replays take a second connection and
   every slot is held by a request waiting for its second.
   */
  lemma StuckExactlyWhenWedged(c: Config, s: State)
    requires Inv(c, s) && c.pool >= 1 && exists r :: Unfinished(s, r)
    ensures CanProgress(c, s) <==> !Wedged(c, s)
  {
    var r :| Unfinished(s, r);
    if Wedged(c, s) {
      forall e | Progress(e) ensures !Enabled(c, s, e) {
        WedgedCannotProgress(c, s, e);
      }
    } else {
      UnwedgedProgresses(c, s, r);
    }
  }

  /** Seven of the eight services never deadlock, with any pool of at least one connection. */
  lemma NoDeadlock(c: Config, run: Run, n: nat)
    requires IsRun(c, run) && n < |run.states| && c.pool >= 1 && !c.replay.NestedAcquire?
    requires exists r :: Unfinished(run.states[n], r)
    ensures CanProgress(c, run.states[n])
  {
    RunKeepsInv(c, run, n);
    StuckExactlyWhenWedged(c, run.states[n]);
  }

  // ----- every run without arrivals is bounded -----

  /** At most this many steps remain for one request. */
  function Remaining(p: Proc): nat {
    var n, lines := |SortedIds(p.req.items)|, |p.req.items|;
    match p.phase
    case Waiting => 9 + 3 * lines + n
    case Locking(_, held) => 8 + 3 * lines + if held <= n then n - held else 0
    case Priced(_, _) => 7 + 3 * lines
    case Writing(_, _, line, stmt) => 1 + if line < lines && stmt < 3 then 3 * (lines - line) - stmt else 0
    case Conflicted(_) => 6
    case ReadingOrder(_, extra) => if extra then 4 else 5
    case ReadingItems(_, extra, _, _) => if extra then 2 else 3
    case Done(_) => 0
  }

  ghost const REMAINING: Proc -> nat := (p: Proc) => Remaining(p)

  predicate WellCounted(p: Proc) {
    && (p.phase.Locking? ==> p.phase.held <= |SortedIds(p.req.items)|)
    && (p.phase.Writing? ==> p.phase.line <= |p.req.items| && p.phase.stmt < 3)
  }

  lemma MoveDecreases(c: Config, s: State, e: Event)
    requires Enabled(c, s, e) && !e.Arrive? && WellCounted(s.procs[e.r])
    ensures Remaining(Proc(s.procs[e.r].req, Move(c, s, e))) < Remaining(s.procs[e.r])
  {
  }

  lemma StepDecreases(c: Config, s: State, e: Event)
    requires AllOk(c, s) && Enabled(c, s, e) && !e.Arrive?
    ensures Sum(Step(c, s, e).procs, REMAINING) < Sum(s.procs, REMAINING)
  {
    var p' := Proc(s.procs[e.r].req, Move(c, s, e));
    SumUpdate(s.procs, REMAINING, e.r, p');
    assert ProcOk(c, s.db, s.next, s.procs[e.r]);
    MoveDecreases(c, s, e);
    assert REMAINING(p') == Remaining(p') && REMAINING(s.procs[e.r]) == Remaining(s.procs[e.r]);
  }

  /** Once requests stop arriving, a run has at most as many steps as remain in all requests together. */
  lemma {:induction false} RunsAreBounded(c: Config, run: Run, i: nat, n: nat)
    requires IsRun(c, run) && i <= n < |run.states|
    requires forall k :: i <= k < n ==> !run.events[k].Arrive?
    ensures n - i + Sum(run.states[n].procs, REMAINING) <= Sum(run.states[i].procs, REMAINING)
    decreases n - i
  {
    if i < n {
      RunsAreBounded(c, run, i, n - 1);
      RunKeepsInv(c, run, n - 1);
      assert Enabled(c, run.states[n - 1], run.events[n - 1]);
      StepDecreases(c, run.states[n - 1], run.events[n - 1]);
    }
  }

  /** Nine steps and four for each line are enough for one request. */
  const STEP_LIMIT: Proc -> nat := (p: Proc) => if p.phase.Done? then 0 else 9 + 4 * |p.req.items|

  lemma {:induction false} IdsWithinLines(items: seq<Line>)
    ensures |SortedIds(items)| <= |items|
  {
    if items != [] {
      IdsWithinLines(items[..|items| - 1]);
    }
  }

  lemma RemainingWithinLimit(p: Proc)
    ensures REMAINING(p) <= STEP_LIMIT(p)
  {
    IdsWithinLines(p.req.items);
  }

  /** Once requests stop arriving, at most nine steps and four for each line remain of every unfinished request. */
  lemma StepsWithinLimit(c: Config, run: Run, i: nat, n: nat)
    requires IsRun(c, run) && i <= n < |run.states|
    requires forall k :: i <= k < n ==> !run.events[k].Arrive?
    ensures n - i <= Sum(run.states[i].procs, STEP_LIMIT)
  {
    RunsAreBounded(c, run, i, n);
    forall r | r in run.states[i].procs
      ensures REMAINING(run.states[i].procs[r]) <= STEP_LIMIT(run.states[i].procs[r])
    {
      RemainingWithinLimit(run.states[i].procs[r]);
    }
    SumMonotone(run.states[i].procs, REMAINING, STEP_LIMIT);
  }

  // ----- every request can be answered -----

  ghost function Extend(c: Config, run: Run, e: Event): Run
    requires |run.states| > 0 && Enabled(c, Last(run), e)
  {
    Run(run.states + [Step(c, Last(run), e)], run.events + [e])
  }

  lemma ExtendIsRun(c: Config, run: Run, e: Event)
    requires IsRun(c, run) && Enabled(c, Last(run), e)
    ensures IsRun(c, Extend(c, run, e)) && Last(Extend(c, run, e)) == Step(c, Last(run), e)
  {
    var run' := Extend(c, run, e);
    forall i | 0 <= i < |run'.events|
      ensures Enabled(c, run'.states[i], run'.events[i]) && run'.states[i + 1] == Step(c, run'.states[i], run'.events[i])
    {
      if i < |run.events| {
        assert Enabled(c, run.states[i], run.events[i]);
      }
    }
  }

  predicate Continues(run: Run, longer: Run) {
    run.states <= longer.states && run.events <= longer.events
  }

  lemma ProgressOnce(c: Config, run: Run, r: nat) returns (e: Event)
    requires IsRun(c, run) && c.pool >= 1 && !c.replay.NestedAcquire? && Unfinished(Last(run), r)
    ensures Progress(e) && Enabled(c, Last(run), e)
    ensures IsRun(c, Extend(c, run, e))
    ensures Sum(Last(Extend(c, run, e)).procs, REMAINING) < Sum(Last(run).procs, REMAINING)
  {
    NoDeadlock(c, run, |run.states| - 1);
    e :| Progress(e) && Enabled(c, Last(run), e);
    RunKeepsInv(c, run, |run.states| - 1);
    StepDecreases(c, Last(run), e);
    ExtendIsRun(c, run, e);
  }

  lemma {:induction false} RunCanBeFinished(c: Config, run: Run) returns (longer: Run)
    requires IsRun(c, run) && c.pool >= 1 && !c.replay.NestedAcquire?
    ensures IsRun(c, longer) && Continues(run, longer)
    ensures forall k :: |run.events| <= k < |longer.events| ==> Progress(longer.events[k])
    ensures forall r :: r in Last(longer).procs ==> Last(longer).procs[r].phase.Done?
    decreases Sum(Last(run).procs, REMAINING)
  {
    if r :| Unfinished(Last(run), r) {
      var e := ProgressOnce(c, run, r);
      var next := Extend(c, run, e);
      longer := RunCanBeFinished(c, next);
      assert next.states[..|run.states|] == run.states && next.events[..|run.events|] == run.events;
      assert longer.events[|run.events|] == next.events[|run.events|] == e;
    } else {
      longer := run;
      forall r | r in Last(run).procs ensures Last(run).procs[r].phase.Done? {
        assert !Unfinished(Last(run), r);
      }
    }
  }

  /**
   Without nested acquires every run can be continued, by progress steps alone, until all requests are
   answered; those that were still waiting get the promised answer, never a 500 without a cause.
   */
  lemma EveryRequestCanBeAnswered(c: Config, run: Run) returns (longer: Run)
    requires IsRun(c, run) && c.pool >= 1 && !c.replay.NestedAcquire?
    ensures IsRun(c, longer) && Continues(run, longer)
    ensures forall k :: |run.events| <= k < |longer.events| ==> Progress(longer.events[k])
    ensures forall r :: r in Last(longer).procs ==> Last(longer).procs[r].phase.Done?
    ensures forall r :: Unfinished(Last(run), r) ==> r in Last(longer).procs && KeptPromise(c, longer, r)
  {
    longer := RunCanBeFinished(c, run);
    forall r | Unfinished(Last(run), r) ensures r in Last(longer).procs && KeptPromise(c, longer, r) {
      UnfinishedGetsPromised(c, run, longer, r);
    }
  }

  ghost predicate KeptPromise(c: Config, run: Run, r: nat)
    requires IsRun(c, run) && r in Last(run).procs && Last(run).procs[r].phase.Done?
  {
    var p := Last(run).procs[r];
    exists i: nat :: i < |run.events| && During(run, i, r)
                     && Promised(c.narrowing, run.states[i].db, p.req, p.phase.response)
  }

  lemma UnfinishedGetsPromised(c: Config, run: Run, longer: Run, r: nat)
    requires IsRun(c, run) && IsRun(c, longer) && Continues(run, longer) && Unfinished(Last(run), r)
    requires forall k :: |run.events| <= k < |longer.events| ==> Progress(longer.events[k])
    requires forall q :: q in Last(longer).procs ==> Last(longer).procs[q].phase.Done?
    ensures r in Last(longer).procs && KeptPromise(c, longer, r)
  {
    var m, n := |run.events|, |longer.events|;
    assert longer.states[m] == Last(run);
    RequestStays(c, longer, m, n, r);
    var p := Last(longer).procs[r];
    EveryAnswerIsPromised(c, longer, n, r);
    var i: nat :| i < n && During(longer, i, r) && PromisedAt(c, longer, i, r, p);
    if longer.events[i] == Abort(r) || longer.events[i] == Commit(r, false) {
      assert !Progress(longer.events[i]);
      assert i < m;
      CutShortIsFinal(c, longer, i, m, r);
    }
  }

  /** A request that was cut short is finished from then on. */
  lemma CutShortIsFinal(c: Config, run: Run, i: nat, m: nat, r: nat)
    requires IsRun(c, run) && i < m < |run.states| && CutShort(run.events[i], r)
    ensures !Unfinished(run.states[m], r)
  {
    assert Enabled(c, run.states[i], run.events[i]);
    assert run.states[i + 1] == Step(c, run.states[i], run.events[i]);
    RequestStays(c, run, i + 1, m, r);
  }
}
