/**
 `POST /orders` as a concurrent step machine. Any number of requests interleave their statements over
 the committed tables; the shared resources are pool slots, product row locks and the unique key.
 A transaction's writes stay in its draft until it commits, as under READ COMMITTED.
 */
module Protocol {
  import opened ProductIds
  import opened Schema
  import opened Orders

  /**
   Where the replayed order is read: after giving the connection back (Go, Node, Rust, Bun, Phoenix),
   on a second pooled connection while the first is kept (Python), on the same connection after the
   rollback (ASP.NET), or inside the still open transaction (Spring).
   */
  datatype ReplayPolicy = ReleaseFirst | NestedAcquire | SameConnection | SameTransaction

  datatype Config = Config(pool: nat, replay: ReplayPolicy, narrowing: Narrowing)

  /** The uncommitted rows of one transaction. */
  datatype Draft = Draft(
    id: int,
    order: OrderRow,
    items: seq<ItemRow>,
    ledger: seq<LedgerRow>,
    stock: map<int, int>)

  /** `seen` holds the locked rows as they were read; its keys are the locks the request owns. */
  datatype Phase =
    | Waiting
    | Locking(seen: map<int, Row>, held: nat)
    | Priced(seen: map<int, Row>, exact: int)
    | Writing(seen: map<int, Row>, draft: Draft, line: nat, stmt: nat)
    | Conflicted(seen: map<int, Row>)
    | ReadingOrder(seen: map<int, Row>, extra: bool)
    | ReadingItems(seen: map<int, Row>, extra: bool, id: int, row: OrderRow)
    | Done(response: Response)

  datatype Proc = Proc(req: Request, phase: Phase)

  /** `next` is the identity sequence of `orders.id`; it moves on whether or not the insert commits. */
  datatype State = State(db: Database, next: int, procs: map<nat, Proc>)

  datatype Event =
    | Arrive(r: nat, req: Request)
    | Acquire(r: nat)
    | Lock(r: nat)
    | Price(r: nat)
    | InsertOrder(r: nat, now: int)
    | InsertItem(r: nat)
    | InsertLedger(r: nat)
    | Decrement(r: nat)
    | Commit(r: nat, acknowledged: bool)
    | BeginReplay(r: nat)
    | AcquireExtra(r: nat)
    | ReadOrder(r: nat)
    | ReadItems(r: nat, rows: seq<ItemRow>)
    | Abort(r: nat)

  // ----- resources -----

  function Seen(ph: Phase): map<int, Row> {
    if ph.Waiting? || ph.Done? then map[] else ph.seen
  }

  predicate Reading(ph: Phase) {
    ph.ReadingOrder? || ph.ReadingItems?
  }

  /** Pool slots a request occupies. */
  function Slots(c: Config, ph: Phase): nat {
    if ph.Waiting? || ph.Done? then 0
    else if Reading(ph) then (if c.replay.ReleaseFirst? then 0 else 1) + (if ph.extra then 1 else 0)
    else 1
  }

  ghost function Sum(procs: map<nat, Proc>, f: Proc -> nat): nat {
    if procs == map[] then 0
    else
      var r :| r in procs;
      f(procs[r]) + Sum(procs - {r}, f)
  }

  ghost function SlotsOf(c: Config): Proc -> nat {
    (p: Proc) => Slots(c, p.phase)
  }

  ghost function Used(c: Config, s: State): nat {
    Sum(s.procs, SlotsOf(c))
  }

  predicate LockedByOther(s: State, r: nat, p: int) {
    exists o :: o in s.procs && o != r && p in Seen(s.procs[o].phase)
  }

  /** Another transaction has inserted this key and not yet finished. */
  predicate KeyInFlight(s: State, r: nat, key: Key) {
    exists o :: o in s.procs && o != r && s.procs[o].phase.Writing? && s.procs[o].req.key == key
  }

  predicate NeedsExtra(c: Config) {
    c.replay.ReleaseFirst? || c.replay.NestedAcquire?
  }

  // ----- steps -----

  ghost predicate Enabled(c: Config, s: State, e: Event) {
    if e.Arrive? then e.r !in s.procs
    else
      && e.r in s.procs
      && var req, ph := s.procs[e.r].req, s.procs[e.r].phase;
      match e
      case Arrive(_, _) => false
      case Acquire(_) => ph.Waiting? && Used(c, s) < c.pool
      case Lock(r) =>
        && ph.Locking? && ph.held < |SortedIds(req.items)|
        && !LockedByOther(s, r, SortedIds(req.items)[ph.held])
      case Price(_) => ph.Locking? && ph.held == |SortedIds(req.items)|
      case InsertOrder(r, _) => ph.Priced? && !KeyInFlight(s, r, req.key)
      case InsertItem(_) => ph.Writing? && ph.line < |req.items| && ph.stmt == 0
      case InsertLedger(_) => ph.Writing? && ph.line < |req.items| && ph.stmt == 1
      case Decrement(_) => ph.Writing? && ph.line < |req.items| && ph.stmt == 2
      case Commit(_, _) => ph.Writing? && ph.line == |req.items|
      case BeginReplay(_) => ph.Conflicted?
      case AcquireExtra(_) => Reading(ph) && !ph.extra && NeedsExtra(c) && Used(c, s) < c.pool
      case ReadOrder(_) => ph.ReadingOrder? && (ph.extra || !NeedsExtra(c))
      case ReadItems(_, rows) =>
        && ph.ReadingItems? && (ph.extra || !NeedsExtra(c))
        && multiset(rows) == multiset(ItemsOf(s.db.items, ph.id))
      case Abort(_) => !ph.Done?
  }

  ghost function UnknownLine(items: seq<Line>, rows: map<int, Row>): (i: nat)
    requires !Known(items, rows)
    ensures i < |items| && items[i].product !in rows
  {
    var i :| 0 <= i < |items| && items[i].product !in rows;
    i
  }

  function LockRow(db: Database, req: Request, ph: Phase): Phase
    requires ph.Locking? && ph.held < |SortedIds(req.items)|
  {
    var p := SortedIds(req.items)[ph.held];
    if p in db.products then Locking(ph.seen[p := db.products[p].row], ph.held + 1)
    else Done(UnknownProduct(p))
  }

  ghost function PriceLines(req: Request, seen: map<int, Row>): Phase {
    if !Known(req.items, seen) then Done(UnknownProduct(req.items[UnknownLine(req.items, seen)].product))
    else
      var short := FirstShort(req.items, seen);
      if short.Some? then
        var line := req.items[short.value];
        Done(InsufficientStock(line.product, seen[line.product].stock, line.quantity))
      else Priced(seen, Total(req.items, seen))
  }

  /** INSERT ... ON CONFLICT DO NOTHING: first the CHECK on the total, then the key, then the customer. */
  function InsertOrderRow(c: Config, s: State, req: Request, ph: Phase, now: int): Phase
    requires ph.Priced?
  {
    var stored := Stored(c.narrowing, ph.exact);
    if !Storable(c.narrowing, ph.exact) then Done(Aborted)
    else if KeyUsed(s.db, req.key) then Conflicted(ph.seen)
    else if req.customer !in s.db.customers then Done(Aborted)
    else
      var order := OrderRow(req.customer, Pending, stored.value, req.key, now);
      Writing(ph.seen, Draft(s.next, order, [], [], map p | p in ph.seen :: ph.seen[p].stock), 0, 0)
  }

  function InsertItemRow(req: Request, ph: Phase): Phase
    requires ph.Writing? && ph.line < |req.items|
  {
    var line, d := req.items[ph.line], ph.draft;
    if line.quantity <= 0 then Done(Aborted)
    else
      var row := ItemRow(d.id, line.product, line.quantity, PriceOf(ph.seen, line.product));
      Writing(ph.seen, d.(items := d.items + [row]), ph.line, 1)
  }

  function InsertLedgerRow(req: Request, ph: Phase): Phase
    requires ph.Writing? && ph.line < |req.items|
  {
    var line, d := req.items[ph.line], ph.draft;
    Writing(ph.seen, d.(ledger := d.ledger + [LedgerRow(line.product, d.id, -line.quantity)]), ph.line, 2)
  }

  function DecrementRow(req: Request, ph: Phase): Phase
    requires ph.Writing? && ph.line < |req.items|
  {
    var line, d := req.items[ph.line], ph.draft;
    if line.product !in d.stock || d.stock[line.product] < line.quantity then Done(Aborted)
    else
      Writing(ph.seen, d.(stock := d.stock[line.product := d.stock[line.product] - line.quantity]), ph.line + 1, 0)
  }

  function Published(db: Database, d: Draft): Database {
    Database(
      db.customers,
      map p | p in db.products ::
        if p in d.stock then db.products[p].(row := db.products[p].row.(stock := d.stock[p])) else db.products[p],
      db.orders[d.id := d.order],
      db.items + d.items,
      db.ledger + d.ledger)
  }

  function CreatedBody(req: Request, ph: Phase): Response
    requires ph.Writing?
  {
    Placed(ph.draft.id, req.customer, Pending, ph.draft.order.total,
           BodyOf(ItemRows(ph.draft.id, req.items, ph.seen)))
  }

  /** The locks a replay keeps: all of them inside Spring's transaction, none after a rollback. */
  function Kept(c: Config, seen: map<int, Row>): map<int, Row> {
    if c.replay.SameTransaction? then seen else map[]
  }

  ghost function Found(s: State, req: Request, ph: Phase): Phase
    requires ph.ReadingOrder?
  {
    if KeyUsed(s.db, req.key) then
      var id := KeyHolder(s.db, req.key);
      ReadingItems(ph.seen, false, id, s.db.orders[id])
    else Done(Aborted)
  }

  function Replayed(ph: Phase, rows: seq<ItemRow>): Response
    requires ph.ReadingItems?
  {
    Placed(ph.id, ph.row.customer, ph.row.status, ph.row.total, BodyOf(rows))
  }

  /** The acting request's next phase. */
  ghost function Move(c: Config, s: State, e: Event): Phase
    requires Enabled(c, s, e)
  {
    if e.Arrive? then (if e.req.items == [] then Done(NoItems) else Waiting)
    else
      var req, ph := s.procs[e.r].req, s.procs[e.r].phase;
      match e
      case Acquire(_) => Locking(map[], 0)
      case Lock(_) => LockRow(s.db, req, ph)
      case Price(_) => PriceLines(req, ph.seen)
      case InsertOrder(_, now) => InsertOrderRow(c, s, req, ph, now)
      case InsertItem(_) => InsertItemRow(req, ph)
      case InsertLedger(_) => InsertLedgerRow(req, ph)
      case Decrement(_) => DecrementRow(req, ph)
      case Commit(_, acknowledged) => Done(if acknowledged then CreatedBody(req, ph) else Aborted)
      case BeginReplay(_) => ReadingOrder(Kept(c, ph.seen), false)
      case AcquireExtra(_) => ph.(extra := true)
      case ReadOrder(_) => Found(s, req, ph)
      case ReadItems(_, rows) => Done(Replayed(ph, rows))
      case Abort(_) => Done(Aborted)
  }

  ghost function RequestOf(s: State, e: Event): Request
    requires !e.Arrive? ==> e.r in s.procs
  {
    if e.Arrive? then e.req else s.procs[e.r].req
  }

  ghost function Step(c: Config, s: State, e: Event): State
    requires Enabled(c, s, e)
  {
    State(
      if e.Commit? then Published(s.db, s.procs[e.r].phase.draft) else s.db,
      if e.InsertOrder? then s.next + 1 else s.next,
      s.procs[e.r := Proc(RequestOf(s, e), Move(c, s, e))])
  }

  /** A statement that does what the handler asked for, rather than a failure or a new request. */
  predicate Progress(e: Event) {
    !e.Arrive? && !e.Abort? && (e.Commit? ==> e.acknowledged)
  }

  predicate Initial(s: State) {
    && Valid(s.db)
    && (forall id :: id in s.db.orders ==> id < s.next)
    && s.procs == map[]
  }

  // ----- runs -----

  datatype Run = Run(states: seq<State>, events: seq<Event>)

  ghost predicate IsRun(c: Config, run: Run) {
    && |run.states| == |run.events| + 1
    && Initial(run.states[0])
    && forall i {:trigger run.events[i]} :: 0 <= i < |run.events| ==>
         Enabled(c, run.states[i], run.events[i])
         && run.states[i + 1] == Step(c, run.states[i], run.events[i])
  }

  function Last(run: Run): State
    requires |run.states| > 0
  {
    run.states[|run.states| - 1]
  }
}
