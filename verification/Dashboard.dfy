/**
 The dashboard's aggregate query, evaluated the way SQL defines it (LEFT JOIN with EXISTS, GROUP BY,
 COUNT, COALESCE(SUM)), against what it is meant to report.
 */
module Dashboard {
  import opened ProductIds
  import opened Schema
  import opened Orders
  import opened OrderLaws
  import opened Protocol
  import opened Histories
  import opened Guarantees

  datatype Category = Category(id: int, name: string)

  /** One row of `orders` as the query scans it. */
  datatype Scanned = Scanned(id: int, row: OrderRow)

  /** One row of the join: the order columns are NULL when the category matches nothing. */
  datatype Joined = Joined(category: Category, order: Option<Scanned>)

  datatype ReportRow = ReportRow(category: Category, count: nat, total: int)

  const SECONDS_PER_DAY := 86400

  predicate HasLine(db: Database, id: int, category: int) {
    exists i :: 0 <= i < |db.items| && db.items[i].order == id && db.items[i].product in db.products
                && db.products[db.items[i].product].category == category
  }

  /** The ON clause. */
  predicate Matches(db: Database, now: int, days: int, c: Category, o: Scanned) {
    && (o.row.status == Paid || o.row.status == Shipped)
    && o.row.createdAt >= now - days * SECONDS_PER_DAY
    && HasLine(db, o.id, c.id)
  }

  // ----- the query -----

  function MatchesOf(db: Database, now: int, days: int, c: Category, orders: seq<Scanned>): seq<Joined> {
    if orders == [] then []
    else
      var last := orders[|orders| - 1];
      MatchesOf(db, now, days, c, orders[..|orders| - 1])
      + if Matches(db, now, days, c, last) then [Joined(c, Some(last))] else []
  }

  /** One category's share of the left join. */
  function JoinRows(db: Database, now: int, days: int, c: Category, orders: seq<Scanned>): seq<Joined> {
    var matches := MatchesOf(db, now, days, c, orders);
    if matches == [] then [Joined(c, None)] else matches
  }

  function LeftJoin(db: Database, now: int, days: int, cs: seq<Category>, orders: seq<Scanned>): seq<Joined> {
    if cs == [] then []
    else
      LeftJoin(db, now, days, cs[..|cs| - 1], orders) + JoinRows(db, now, days, cs[|cs| - 1], orders)
  }

  /** COUNT(o.id) of one group: rows whose order column is not NULL. */
  function CountOf(rows: seq<Joined>, c: Category): nat {
    if rows == [] then 0
    else
      var last := rows[|rows| - 1];
      CountOf(rows[..|rows| - 1], c) + if last.category == c && last.order.Some? then 1 else 0
  }

  /** COALESCE(SUM(o.total_cents), 0) of one group. */
  function SumOf(rows: seq<Joined>, c: Category): int {
    if rows == [] then 0
    else
      var last := rows[|rows| - 1];
      SumOf(rows[..|rows| - 1], c) + if last.category == c && last.order.Some? then last.order.value.row.total else 0
  }

  function InsertCategory(cs: seq<Category>, c: Category): seq<Category> {
    if cs == [] then [c]
    else if cs[0] == c then cs
    else if c.id < cs[0].id then [c] + cs
    else [cs[0]] + InsertCategory(cs[1..], c)
  }

  /** The groups of GROUP BY c.id, c.name, in the order of ORDER BY c.id. */
  function Groups(rows: seq<Joined>): seq<Category> {
    if rows == [] then [] else InsertCategory(Groups(rows[..|rows| - 1]), rows[|rows| - 1].category)
  }

  function Report(db: Database, now: int, days: int, cs: seq<Category>, orders: seq<Scanned>): (r: seq<ReportRow>)
  {
    var rows := LeftJoin(db, now, days, cs, orders);
    var groups := Groups(rows);
    seq(|groups|, i requires 0 <= i < |groups| => ReportRow(groups[i], CountOf(rows, groups[i]), SumOf(rows, groups[i])))
  }

  // ----- what it is meant to report -----

  /** A scan of the orders table: every order once, in any order. */
  ghost predicate ScanOf(db: Database, orders: seq<Scanned>) {
    && (forall i :: 0 <= i < |orders| ==> orders[i].id in db.orders && orders[i].row == db.orders[orders[i].id])
    && (forall id :: id in db.orders ==> exists i :: 0 <= i < |orders| && orders[i].id == id)
    && (forall i, j :: 0 <= i < j < |orders| ==> orders[i].id != orders[j].id)
  }

  /** PRIMARY KEY (id) on categories. */
  predicate DistinctIds(cs: seq<Category>) {
    forall i, j :: 0 <= i < j < |cs| ==> cs[i].id != cs[j].id
  }

  predicate InCategory(db: Database, product: int, category: int) {
    product in db.products && db.products[product].category == category
  }

  /** Paid for, and at most `days` days old. */
  predicate SoldInWindow(db: Database, now: int, days: int, id: int) {
    && id in db.orders && db.orders[id].status in {Paid, Shipped}
    && now - db.orders[id].createdAt <= days * SECONDS_PER_DAY
  }

  /** The distinct paid or shipped orders of the window with a line in the category. */
  function Reported(db: Database, now: int, days: int, c: Category): (ids: set<int>)
    ensures ids <= db.orders.Keys
    ensures forall id :: id in ids <==> id in db.orders && Matches(db, now, days, c, Scanned(id, db.orders[id]))
  {
    set i | 0 <= i < |db.items| && InCategory(db, db.items[i].product, c.id) && SoldInWindow(db, now, days, db.items[i].order)
      :: db.items[i].order
  }

  ghost function TotalOf(db: Database, ids: set<int>): int
    requires ids <= db.orders.Keys
  {
    if exists id :: id in ids then
      var id :| id in ids;
      db.orders[id].total + TotalOf(db, ids - {id})
    else 0
  }

  lemma {:induction false} TotalWithout(db: Database, ids: set<int>, id: int)
    requires ids <= db.orders.Keys && id in ids
    ensures TotalOf(db, ids) == db.orders[id].total + TotalOf(db, ids - {id})
  {
    var k :| k in ids && TotalOf(db, ids) == db.orders[k].total + TotalOf(db, ids - {k});
    if k != id {
      TotalWithout(db, ids - {k}, id);
      TotalWithout(db, ids - {id}, k);
      assert ids - {k} - {id} == ids - {id} - {k};
    }
  }

  // ----- counting the join -----

  lemma {:induction false} CountAppend(a: seq<Joined>, b: seq<Joined>, c: Category)
    ensures CountOf(a + b, c) == CountOf(a, c) + CountOf(b, c)
    ensures SumOf(a + b, c) == SumOf(a, c) + SumOf(b, c)
  {
    if b == [] {
      assert a + b == a;
    } else {
      assert (a + b)[..|a + b| - 1] == a + b[..|b| - 1];
      CountAppend(a, b[..|b| - 1], c);
    }
  }

  lemma {:induction false} OtherCategory(rows: seq<Joined>, c: Category)
    requires forall i :: 0 <= i < |rows| ==> rows[i].category != c
    ensures CountOf(rows, c) == 0 && SumOf(rows, c) == 0
  {
    if rows != [] {
      OtherCategory(rows[..|rows| - 1], c);
    }
  }

  lemma {:induction false} MatchesBelongTo(db: Database, now: int, days: int, c: Category, orders: seq<Scanned>)
    ensures forall i :: 0 <= i < |MatchesOf(db, now, days, c, orders)| ==>
              MatchesOf(db, now, days, c, orders)[i].category == c
  {
    if orders != [] {
      MatchesBelongTo(db, now, days, c, orders[..|orders| - 1]);
    }
  }

  function MatchedIds(db: Database, now: int, days: int, c: Category, orders: seq<Scanned>): set<int> {
    set i | 0 <= i < |orders| && Matches(db, now, days, c, orders[i]) :: orders[i].id
  }

  lemma MatchedIdsStep(db: Database, now: int, days: int, c: Category, orders: seq<Scanned>)
    requires orders != []
    ensures var k := |orders| - 1;
            MatchedIds(db, now, days, c, orders) ==
            MatchedIds(db, now, days, c, orders[..k]) + if Matches(db, now, days, c, orders[k]) then {orders[k].id} else {}
  {
    var k := |orders| - 1;
    assert orders == orders[..k] + [orders[k]];
  }

  /** The matching rows of one category count and sum the distinct matching orders. */
  lemma {:induction false} MatchesCount(db: Database, now: int, days: int, c: Category, orders: seq<Scanned>)
    requires forall i :: 0 <= i < |orders| ==> orders[i].id in db.orders && orders[i].row == db.orders[orders[i].id]
    requires forall i, j :: 0 <= i < j < |orders| ==> orders[i].id != orders[j].id
    ensures var ids := MatchedIds(db, now, days, c, orders);
            && ids <= db.orders.Keys
            && CountOf(MatchesOf(db, now, days, c, orders), c) == |ids|
            && SumOf(MatchesOf(db, now, days, c, orders), c) == TotalOf(db, ids)
  {
    if orders != [] {
      var k := |orders| - 1;
      var last := orders[k];
      MatchesCount(db, now, days, c, orders[..k]);
      MatchedIdsStep(db, now, days, c, orders);
      var before, ids := MatchedIds(db, now, days, c, orders[..k]), MatchedIds(db, now, days, c, orders);
      CountAppend(MatchesOf(db, now, days, c, orders[..k]), [Joined(c, Some(last))], c);
      if Matches(db, now, days, c, last) {
        assert last.id !in before;
        OneMoreMatched(db, before, last.id);
        SingleRow(c, last);
      } else {
        assert ids == before;
        assert MatchesOf(db, now, days, c, orders) == MatchesOf(db, now, days, c, orders[..k]);
      }
    }
  }

  lemma OneMoreMatched(db: Database, before: set<int>, id: int)
    requires before <= db.orders.Keys && id in db.orders && id !in before
    ensures |before + {id}| == |before| + 1
    ensures TotalOf(db, before + {id}) == TotalOf(db, before) + db.orders[id].total
  {
    TotalWithout(db, before + {id}, id);
    assert before + {id} - {id} == before;
  }

  lemma SingleRow(c: Category, o: Scanned)
    ensures CountOf([Joined(c, Some(o))], c) == 1 && SumOf([Joined(c, Some(o))], c) == o.row.total
  {
    assert [Joined(c, Some(o))][..0] == [];
  }

  lemma ScanFindsReported(db: Database, now: int, days: int, c: Category, orders: seq<Scanned>)
    requires ScanOf(db, orders)
    ensures MatchedIds(db, now, days, c, orders) == Reported(db, now, days, c)
  {
    var matched, reported := MatchedIds(db, now, days, c, orders), Reported(db, now, days, c);
    forall id | id in reported ensures id in matched {
      var i :| 0 <= i < |orders| && orders[i].id == id;
      assert orders[i] == Scanned(id, db.orders[id]);
    }
    forall id | id in matched ensures id in reported {
      var i :| 0 <= i < |orders| && Matches(db, now, days, c, orders[i]) && orders[i].id == id;
      assert orders[i] == Scanned(id, db.orders[id]);
    }
  }

  lemma JoinRowsCount(db: Database, now: int, days: int, c: Category, orders: seq<Scanned>, of: Category)
    ensures CountOf(JoinRows(db, now, days, c, orders), of) ==
            if c == of then CountOf(MatchesOf(db, now, days, c, orders), c) else 0
    ensures SumOf(JoinRows(db, now, days, c, orders), of) ==
            if c == of then SumOf(MatchesOf(db, now, days, c, orders), c) else 0
  {
    MatchesBelongTo(db, now, days, c, orders);
    assert [Joined(c, None)][..0] == [];
    if c != of {
      OtherCategory(JoinRows(db, now, days, c, orders), of);
    }
  }

  /** In the whole join each category's group holds exactly its own matches. */
  lemma {:induction false} JoinCounts(db: Database, now: int, days: int, cs: seq<Category>, orders: seq<Scanned>, c: Category)
    requires DistinctIds(cs)
    ensures CountOf(LeftJoin(db, now, days, cs, orders), c) ==
            if c in cs then CountOf(MatchesOf(db, now, days, c, orders), c) else 0
    ensures SumOf(LeftJoin(db, now, days, cs, orders), c) ==
            if c in cs then SumOf(MatchesOf(db, now, days, c, orders), c) else 0
  {
    if cs != [] {
      var k := |cs| - 1;
      assert cs == cs[..k] + [cs[k]];
      assert cs[k] !in cs[..k];
      JoinCounts(db, now, days, cs[..k], orders, c);
      JoinRowsCount(db, now, days, cs[k], orders, c);
      CountAppend(LeftJoin(db, now, days, cs[..k], orders), JoinRows(db, now, days, cs[k], orders), c);
    }
  }

  // ----- the groups -----

  predicate AscendingIds(cs: seq<Category>) {
    forall i, j :: 0 <= i < j < |cs| ==> cs[i].id < cs[j].id
  }

  lemma AscendingTail(cs: seq<Category>)
    requires AscendingIds(cs) && cs != []
    ensures AscendingIds(cs[1..])
    ensures forall d :: d in cs[1..] ==> cs[0].id < d.id
    ensures forall d :: d in cs <==> d == cs[0] || d in cs[1..]
  {
    forall d | d in cs[1..] ensures cs[0].id < d.id {
      var i :| 0 <= i < |cs| - 1 && cs[1..][i] == d;
      assert cs[i + 1] == d;
    }
  }

  lemma AscendingCons(c: Category, rest: seq<Category>)
    requires AscendingIds(rest) && forall d :: d in rest ==> c.id < d.id
    ensures AscendingIds([c] + rest)
  {
    assert forall i :: 0 <= i < |rest| ==> rest[i] in rest;
  }

  lemma {:induction false} InsertCategoryKeeps(cs: seq<Category>, c: Category)
    requires AscendingIds(cs)
    requires forall d :: d in cs && d.id == c.id ==> d == c
    ensures AscendingIds(InsertCategory(cs, c))
    ensures forall d :: d in InsertCategory(cs, c) <==> d == c || d in cs
  {
    if cs != [] {
      AscendingTail(cs);
      assert cs[0] in cs;
      if cs[0] != c {
        if c.id < cs[0].id {
          AscendingCons(c, cs);
        } else {
          InsertCategoryKeeps(cs[1..], c);
          AscendingCons(cs[0], InsertCategory(cs[1..], c));
        }
      }
    }
  }

  predicate OneNamePerId(rows: seq<Joined>) {
    forall i, j :: 0 <= i < |rows| && 0 <= j < |rows| && rows[i].category.id == rows[j].category.id ==>
      rows[i].category == rows[j].category
  }

  ghost predicate Occurs(rows: seq<Joined>, c: Category) {
    exists i :: 0 <= i < |rows| && rows[i].category == c
  }

  lemma {:induction false} GroupsAreOccurring(rows: seq<Joined>)
    requires OneNamePerId(rows)
    ensures AscendingIds(Groups(rows))
    ensures forall c :: c in Groups(rows) <==> Occurs(rows, c)
  {
    if rows != [] {
      var k := |rows| - 1;
      GroupsAreOccurring(rows[..k]);
      forall c ensures Occurs(rows, c) <==> c == rows[k].category || Occurs(rows[..k], c) {
        if Occurs(rows, c) {
          var i :| 0 <= i < |rows| && rows[i].category == c;
          assert i < k ==> rows[..k][i].category == c;
        }
        if Occurs(rows[..k], c) {
          var i :| 0 <= i < k && rows[..k][i].category == c;
          assert rows[i].category == c;
        }
      }
      forall d | d in Groups(rows[..k]) && d.id == rows[k].category.id ensures d == rows[k].category {
        var i :| 0 <= i < k && rows[..k][i].category == d;
        assert rows[i].category == d;
      }
      InsertCategoryKeeps(Groups(rows[..k]), rows[k].category);
    }
  }

  lemma {:induction false} JoinMentionsEveryCategory(db: Database, now: int, days: int, cs: seq<Category>, orders: seq<Scanned>)
    ensures forall c :: Occurs(LeftJoin(db, now, days, cs, orders), c) <==> c in cs
  {
    if cs != [] {
      var k := |cs| - 1;
      var before, added := LeftJoin(db, now, days, cs[..k], orders), JoinRows(db, now, days, cs[k], orders);
      JoinMentionsEveryCategory(db, now, days, cs[..k], orders);
      MatchesBelongTo(db, now, days, cs[k], orders);
      assert added[0].category == cs[k];
      assert cs == cs[..k] + [cs[k]];
      forall c ensures Occurs(before + added, c) <==> Occurs(before, c) || c == cs[k] {
        if Occurs(before, c) {
          var i :| 0 <= i < |before| && before[i].category == c;
          assert (before + added)[i].category == c;
        }
        assert (before + added)[|before|].category == cs[k];
      }
    }
  }

  // ----- the theorem -----

  /**
   The report lists every category exactly once, in id order, with the count and the summed totals of
   the distinct paid or shipped orders of the window that have a line in it; 0 and 0 when there are none.
   */
  lemma ReportIsCorrect(db: Database, now: int, days: int, cs: seq<Category>, orders: seq<Scanned>)
    requires ScanOf(db, orders) && DistinctIds(cs)
    ensures var report := Report(db, now, days, cs, orders);
            && (forall i, j :: 0 <= i < j < |report| ==> report[i].category.id < report[j].category.id)
            && (forall c :: c in cs <==> exists i :: 0 <= i < |report| && report[i].category == c)
            && (forall i :: 0 <= i < |report| ==>
                  && report[i].count == |Reported(db, now, days, report[i].category)|
                  && report[i].total == TotalOf(db, Reported(db, now, days, report[i].category)))
  {
    var rows := LeftJoin(db, now, days, cs, orders);
    var groups, report := Groups(rows), Report(db, now, days, cs, orders);
    JoinMentionsEveryCategory(db, now, days, cs, orders);
    OneNameInJoin(rows, cs);
    GroupsAreOccurring(rows);
    forall i | 0 <= i < |report|
      ensures report[i].count == |Reported(db, now, days, report[i].category)|
      ensures report[i].total == TotalOf(db, Reported(db, now, days, report[i].category))
    {
      var c := groups[i];
      assert c in groups;
      JoinCounts(db, now, days, cs, orders, c);
      MatchesCount(db, now, days, c, orders);
      ScanFindsReported(db, now, days, c, orders);
    }
    forall c ensures c in cs <==> exists i :: 0 <= i < |report| && report[i].category == c {
      if c in groups {
        var i :| 0 <= i < |groups| && groups[i] == c;
        assert report[i].category == c;
      }
    }
  }

  lemma OneNameInJoin(rows: seq<Joined>, cs: seq<Category>)
    requires DistinctIds(cs) && forall c :: Occurs(rows, c) <==> c in cs
    ensures OneNamePerId(rows)
  {
    forall i, j | 0 <= i < |rows| && 0 <= j < |rows| && rows[i].category.id == rows[j].category.id
      ensures rows[i].category == rows[j].category
    {
      assert Occurs(rows, rows[i].category) && Occurs(rows, rows[j].category);
    }
  }

  /** An order is reported for a category exactly when it has a line there, is paid or shipped, and is in time. */
  lemma ReportedExactly(db: Database, now: int, days: int, c: Category, id: int)
    ensures id in Reported(db, now, days, c) <==>
              && id in db.orders
              && (db.orders[id].status == Paid || db.orders[id].status == Shipped)
              && db.orders[id].createdAt + days * 24 * 60 * 60 >= now
              && exists i :: 0 <= i < |db.items| && db.items[i].order == id && db.items[i].product in db.products
                             && db.products[db.items[i].product].category == c.id
  {
    assert days * 24 * 60 * 60 == days * 86400;
  }

  /**
   With a single order that has a line in the only category, the report is one row: the order and its
   total when it is paid or shipped and at most `days` days old, to the second, and zeros otherwise.
   */
  lemma OneOrderReport(c: Category, o: OrderRow, line: ItemRow, product: Product, now: int, days: int)
    requires line.order == 1 && product.category == c.id
    ensures var db := Database({o.customer}, map[line.product := product], map[1 := o], [line], []);
            var shown := (o.status == Paid || o.status == Shipped) && now - o.createdAt <= days * 24 * 60 * 60;
            Report(db, now, days, [c], [Scanned(1, o)]) ==
            [if shown then ReportRow(c, 1, o.total) else ReportRow(c, 0, 0)]
  {
    var db := Database({o.customer}, map[line.product := product], map[1 := o], [line], []);
    var scan := [Scanned(1, o)];
    var report := Report(db, now, days, [c], scan);
    ReportIsCorrect(db, now, days, [c], scan);
    GroupsOfJoin(db, now, days, [c], scan);
    SameCategoriesSameOrder(Groups(LeftJoin(db, now, days, [c], scan)), [c]);
    assert report[0].category == c;
    var reported := Reported(db, now, days, c);
    assert db.items[0] == line;
    forall id ensures id in reported <==> id == 1 && 1 in reported {
      ReportedExactly(db, now, days, c, id);
    }
    ReportedExactly(db, now, days, c, 1);
    if 1 in reported {
      assert reported == {} + {1};
      OneMoreMatched(db, {}, 1);
    } else {
      assert reported == {};
    }
  }

  lemma WiderWindowFindsMore(db: Database, now: int, days: int, more: int, c: Category)
    requires Valid(db) && days <= more
    ensures |Reported(db, now, days, c)| <= |Reported(db, now, more, c)|
    ensures TotalOf(db, Reported(db, now, days, c)) <= TotalOf(db, Reported(db, now, more, c))
  {
    var few, many := Reported(db, now, days, c), Reported(db, now, more, c);
    assert few <= many;
    assert many == few + (many - few);
    SubsetTotals(db, few, many);
  }

  lemma {:induction false} TotalNonNegative(db: Database, ids: set<int>)
    requires Valid(db) && ids <= db.orders.Keys
    ensures TotalOf(db, ids) >= 0
    decreases ids
  {
    if id :| id in ids {
      assert ValidOrder(db, db.orders[id]);
      TotalWithout(db, ids, id);
      TotalNonNegative(db, ids - {id});
    }
  }

  lemma {:induction false} SubsetTotals(db: Database, few: set<int>, many: set<int>)
    requires Valid(db) && few <= many <= db.orders.Keys
    ensures TotalOf(db, few) <= TotalOf(db, many)
    decreases few
  {
    if id :| id in few {
      TotalWithout(db, few, id);
      TotalWithout(db, many, id);
      SubsetTotals(db, few - {id}, many - {id});
    } else {
      TotalNonNegative(db, many);
    }
  }

  // ----- creating orders never shows on the dashboard -----

  ghost predicate SameReported(a: Database, b: Database, now: int, days: int, c: Category) {
    && Reported(a, now, days, c) == Reported(b, now, days, c)
    && TotalOf(a, Reported(a, now, days, c)) == TotalOf(b, Reported(b, now, days, c))
  }

  lemma {:induction false} SameRowsSameTotal(a: Database, b: Database, ids: set<int>)
    requires ids <= a.orders.Keys && ids <= b.orders.Keys
    requires forall id :: id in ids ==> a.orders[id] == b.orders[id]
    ensures TotalOf(a, ids) == TotalOf(b, ids)
  {
    if id :| id in ids {
      TotalWithout(a, ids, id);
      TotalWithout(b, ids, id);
      SameRowsSameTotal(a, b, ids - {id});
    }
  }

  lemma LineSurvives(db: Database, id: int, order: OrderRow, items: seq<Line>, other: int, category: int)
    requires other != id
    ensures HasLine(Insertion(db, id, order, items), other, category) <==> HasLine(db, other, category)
  {
    var db' := Insertion(db, id, order, items);
    if HasLine(db, other, category) {
      var i :| 0 <= i < |db.items| && db.items[i].order == other && db.items[i].product in db.products
               && db.products[db.items[i].product].category == category;
      assert db'.items[i] == db.items[i];
    }
    assert forall k :: |db.items| <= k < |db'.items| ==> db'.items[k].order == id;
    if HasLine(db', other, category) {
      var i :| 0 <= i < |db'.items| && db'.items[i].order == other && db'.items[i].product in db'.products
               && db'.products[db'.items[i].product].category == category;
      assert db.items[i] == db'.items[i];
    }
  }

  lemma EffectKeepsReport(n: Narrowing, db: Database, req: Request, id: int, at: int, now: int, days: int, c: Category)
    requires Fresh(db, id)
    ensures SameReported(db, Effect(n, db, req, id, at), now, days, c)
  {
    var db' := Effect(n, db, req, id, at);
    if Decide(n, db, req).Create? {
      forall other | other in db.orders
        ensures Matches(db', now, days, c, Scanned(other, db'.orders[other]))
                == Matches(db, now, days, c, Scanned(other, db.orders[other]))
      {
        LineSurvives(db, id, db'.orders[id], req.items, other, c.id);
      }
      assert Reported(db, now, days, c) == Reported(db', now, days, c);
      SameRowsSameTotal(db, db', Reported(db, now, days, c));
    }
  }

  lemma SameReflexive(db: Database, now: int, days: int, c: Category)
    ensures SameReported(db, db, now, days, c)
  {
  }

  lemma SameTransitive(x: Database, y: Database, z: Database, now: int, days: int, c: Category)
    requires SameReported(x, y, now, days, c) && SameReported(y, z, now, days, c)
    ensures SameReported(x, z, now, days, c)
  {
  }

  lemma StepKeepsReport(c: Config, run: Run, n: nat, now: int, days: int, cat: Category)
    requires IsRun(c, run) && n < |run.events|
    ensures SameReported(run.states[n].db, run.states[n + 1].db, now, days, cat)
  {
    RunStepIsAtomic(c, run, n);
    if run.events[n].Commit? {
      var w := CommittedBy(run.states[n], run.events[n]);
      RunCommit(c, run, n);
      EffectKeepsReport(c.narrowing, run.states[n].db, w.req, w.id, w.now, now, days, cat);
    }
  }

  /** For a fixed `now`, no run of order creation changes any count or total of the dashboard. */
  lemma {:induction false} RunsKeepReport(c: Config, run: Run, n: nat, now: int, days: int, cat: Category)
    requires IsRun(c, run) && n < |run.states|
    ensures SameReported(run.states[0].db, run.states[n].db, now, days, cat)
  {
    hide SameReported;
    if n == 0 {
      SameReflexive(run.states[0].db, now, days, cat);
    } else {
      RunsKeepReport(c, run, n - 1, now, days, cat);
      StepKeepsReport(c, run, n - 1, now, days, cat);
      SameTransitive(run.states[0].db, run.states[n - 1].db, run.states[n].db, now, days, cat);
    }
  }

  lemma NonEmptyHasMember(cs: seq<Category>)
    ensures cs == [] || exists c :: c in cs
  {
    if cs != [] {
      var c := cs[0];
      assert c in cs;
    }
  }

  lemma {:induction false} SameCategoriesSameOrder(a: seq<Category>, b: seq<Category>)
    requires AscendingIds(a) && AscendingIds(b) && forall c :: c in a <==> c in b
    ensures a == b
  {
    NonEmptyHasMember(a);
    NonEmptyHasMember(b);
    if a != [] {
      AscendingTail(a);
      AscendingTail(b);
      assert a[0] in a && b[0] in b;
      assert a[0] == b[0];
      SameCategoriesSameOrder(a[1..], b[1..]);
    }
  }

  lemma GroupsOfJoin(db: Database, now: int, days: int, cs: seq<Category>, orders: seq<Scanned>)
    requires DistinctIds(cs)
    ensures AscendingIds(Groups(LeftJoin(db, now, days, cs, orders)))
    ensures forall c :: c in Groups(LeftJoin(db, now, days, cs, orders)) <==> c in cs
  {
    JoinMentionsEveryCategory(db, now, days, cs, orders);
    OneNameInJoin(LeftJoin(db, now, days, cs, orders), cs);
    GroupsAreOccurring(LeftJoin(db, now, days, cs, orders));
  }

  /** Widening the window never lowers a count or a total of any row of the report. */
  lemma WiderWindowReportsMore(db: Database, now: int, days: int, more: int, cs: seq<Category>,
                               few: seq<Scanned>, many: seq<Scanned>)
    requires Valid(db) && DistinctIds(cs) && ScanOf(db, few) && ScanOf(db, many) && days <= more
    ensures var a, b := Report(db, now, days, cs, few), Report(db, now, more, cs, many);
            |a| == |b| && forall i :: 0 <= i < |a| ==>
              a[i].category == b[i].category && a[i].count <= b[i].count && a[i].total <= b[i].total
  {
    hide Groups, LeftJoin, CountOf, SumOf, Reported, TotalOf, Valid, ScanOf, DistinctIds;
    var a, b := Report(db, now, days, cs, few), Report(db, now, more, cs, many);
    GroupsOfJoin(db, now, days, cs, few);
    GroupsOfJoin(db, now, more, cs, many);
    SameCategoriesSameOrder(Groups(LeftJoin(db, now, days, cs, few)), Groups(LeftJoin(db, now, more, cs, many)));
    ReportIsCorrect(db, now, days, cs, few);
    ReportIsCorrect(db, now, more, cs, many);
    forall i | 0 <= i < |a|
      ensures a[i].category == b[i].category && a[i].count <= b[i].count && a[i].total <= b[i].total
    {
      WiderWindowFindsMore(db, now, days, more, a[i].category);
    }
  }

  /** The dashboard shows the same rows before and after any run of order creation. */
  lemma RunsKeepDashboard(c: Config, run: Run, n: nat, now: int, days: int, cs: seq<Category>,
                          before: seq<Scanned>, after: seq<Scanned>)
    requires IsRun(c, run) && n < |run.states| && DistinctIds(cs)
    requires ScanOf(run.states[0].db, before) && ScanOf(run.states[n].db, after)
    ensures Report(run.states[0].db, now, days, cs, before) == Report(run.states[n].db, now, days, cs, after)
  {
    var a, b := Report(run.states[0].db, now, days, cs, before), Report(run.states[n].db, now, days, cs, after);
    GroupsOfJoin(run.states[0].db, now, days, cs, before);
    GroupsOfJoin(run.states[n].db, now, days, cs, after);
    SameCategoriesSameOrder(Groups(LeftJoin(run.states[0].db, now, days, cs, before)),
                            Groups(LeftJoin(run.states[n].db, now, days, cs, after)));
    ReportIsCorrect(run.states[0].db, now, days, cs, before);
    ReportIsCorrect(run.states[n].db, now, days, cs, after);
    forall i | 0 <= i < |a| ensures a[i] == b[i] {
      RunsKeepReport(c, run, n, now, days, a[i].category);
    }
  }
}
