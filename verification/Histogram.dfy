/** The Phoenix metrics module: every observation is stored, and the histogram is computed at render time. */
module Histogram {

  datatype Labels = Labels(path: string, verb: string, status: string)

  datatype Key = Key(labels: Labels, ref: nat)

  datatype Entry = Entry(key: Key, value: real)

  datatype Observation = Observation(labels: Labels, seconds: real)

  /** One group of `collect_rows`: a label triple and all its values. */
  datatype Row = Row(labels: Labels, values: seq<real>)

  /** The numbers one row renders to: a count for each bucket bound, the total count, the sum. */
  datatype Series = Series(labels: Labels, buckets: seq<nat>, count: nat, sum: real)

  const BUCKETS: seq<real> := [0.0005, 0.001, 0.002, 0.005, 0.01, 0.02, 0.05, 0.1, 0.2, 0.5, 1.0, 2.0, 5.0]

  // Rendering

  function CountUpTo(values: seq<real>, le: real): nat {
    if values == [] then 0
    else
      var last := |values| - 1;
      CountUpTo(values[..last], le) + if values[last] <= le then 1 else 0
  }

  function Sum(values: seq<real>): real {
    if values == [] then 0.0
    else
      var last := |values| - 1;
      Sum(values[..last]) + values[last]
  }

  function RenderRow(row: Row): Series {
    Series(row.labels, seq(|BUCKETS|, i requires 0 <= i < |BUCKETS| => CountUpTo(row.values, BUCKETS[i])),
           |row.values|, Sum(row.values))
  }

  /** The values grouped under each label triple, in listing order. */
  function Grouped(listing: seq<Entry>): map<Labels, seq<real>> {
    if listing == [] then map[]
    else
      var last := |listing| - 1;
      var groups := Grouped(listing[..last]);
      var labels := listing[last].key.labels;
      groups[labels := (if labels in groups then groups[labels] else []) + [listing[last].value]]
  }

  /** `order` is the order in which the grouping map hands out its keys. */
  ghost predicate Orders(groups: map<Labels, seq<real>>, order: seq<Labels>) {
    && (forall i :: 0 <= i < |order| ==> order[i] in groups)
    && (forall i, j :: 0 <= i < j < |order| ==> order[i] != order[j])
    && (forall labels :: labels in groups ==> labels in order)
  }

  function Rows(groups: map<Labels, seq<real>>, order: seq<Labels>): seq<Row>
    requires forall i :: 0 <= i < |order| ==> order[i] in groups
  {
    seq(|order|, i requires 0 <= i < |order| => Row(order[i], groups[order[i]]))
  }

  /** Byte order on strings. */
  predicate Before(s: string, t: string) {
    if t == [] then false
    else if s == [] then true
    else if s[0] != t[0] then s[0] < t[0]
    else Before(s[1..], t[1..])
  }

  /** Order of the triples (path, method, status). */
  predicate Below(a: Labels, b: Labels) {
    if a.path != b.path then Before(a.path, b.path)
    else if a.verb != b.verb then Before(a.verb, b.verb)
    else Before(a.status, b.status)
  }

  function InsertRow(row: Row, rows: seq<Row>): seq<Row> {
    if rows == [] then [row]
    else if Below(rows[0].labels, row.labels) then [rows[0]] + InsertRow(row, rows[1..])
    else [row] + rows
  }

  function SortRows(rows: seq<Row>): seq<Row> {
    if rows == [] then [] else InsertRow(rows[0], SortRows(rows[1..]))
  }

  function Rendered(listing: seq<Entry>, order: seq<Labels>): seq<Series>
    requires forall i :: 0 <= i < |order| ==> order[i] in Grouped(listing)
  {
    var rows := SortRows(Rows(Grouped(listing), order));
    seq(|rows|, i requires 0 <= i < |rows| => RenderRow(rows[i]))
  }

  // The table

  /** `listing` holds every entry of the table exactly once, in any order. */
  ghost predicate Lists(table: map<Key, real>, listing: seq<Entry>) {
    && (forall i :: 0 <= i < |listing| ==> listing[i].key in table && table[listing[i].key] == listing[i].value)
    && (forall i, j :: 0 <= i < j < |listing| ==> listing[i].key != listing[j].key)
    && (forall key :: key in table ==> Entry(key, table[key]) in listing)
  }

  /** The entries of a history in the order they were observed. */
  function Entries(history: seq<Observation>): seq<Entry> {
    seq(|history|, i requires 0 <= i < |history| =>
      Entry(Key(history[i].labels, i), history[i].seconds))
  }

  /** The in-process state. A reference is a number no earlier call was given. */
  class Metrics {
    var table: map<Key, real>
    var nextRef: nat
    ghost var history: seq<Observation>

    ghost predicate Valid()
      reads this
    {
      nextRef == |history| && Lists(table, Entries(history))
    }

    constructor ()
      ensures Valid() && history == []
    {
      table, nextRef, history := map[], 0, [];
    }

    method Observe(labels: Labels, seconds: real)
      requires Valid()
      modifies this
      ensures Valid() && history == old(history) + [Observation(labels, seconds)]
      ensures forall key :: key in old(table) ==> key in table && table[key] == old(table[key])
      ensures |table| == |old(table)| + 1
    {
      var key := Key(labels, nextRef);
      assert forall k :: k in table ==> Entry(k, table[k]) in Entries(history) && k.ref < nextRef;
      table := table[key := seconds];
      nextRef := nextRef + 1;
      history := history + [Observation(labels, seconds)];
      ListsOneMore(old(table), old(history), labels, seconds);
    }

    /** What a render returns is what counters kept along the way would hold, in label order. */
    method Render(listing: seq<Entry>, order: seq<Labels>) returns (series: seq<Series>)
      requires Valid() && Lists(table, listing) && Orders(Grouped(listing), order)
      ensures Ascending(series) && ShowsCounters(series, history)
    {
      series := Rendered(listing, order);
      RenderShowsCounters(table, history, listing, order);
    }
  }

  lemma ListsOneMore(table: map<Key, real>, history: seq<Observation>, labels: Labels, seconds: real)
    requires Lists(table, Entries(history))
    requires Key(labels, |history|) !in table
    ensures Lists(table[Key(labels, |history|) := seconds], Entries(history + [Observation(labels, seconds)]))
  {
    var key := Key(labels, |history|);
    var grown := table[key := seconds];
    var before, after := Entries(history), Entries(history + [Observation(labels, seconds)]);
    assert after == before + [Entry(key, seconds)];
    forall k | k in grown ensures Entry(k, grown[k]) in after {
      if k != key {
        assert Entry(k, table[k]) in before;
      } else {
        assert after[|history|] == Entry(key, seconds);
      }
    }
  }

  // Counters kept along the way

  ghost predicate WellFormed(s: Series) {
    |s.buckets| == |BUCKETS|
  }

  function NoValues(labels: Labels): (s: Series) {
    Series(labels, seq(|BUCKETS|, i => 0), 0, 0.0)
  }

  /** A cumulative histogram bumps every bucket whose bound the value does not exceed. */
  function Bump(s: Series, value: real): (r: Series)
    requires WellFormed(s)
    ensures WellFormed(r)
  {
    Series(s.labels,
           seq(|BUCKETS|, i requires 0 <= i < |BUCKETS| => s.buckets[i] + if value <= BUCKETS[i] then 1 else 0),
           s.count + 1, s.sum + value)
  }

  /** Counters updated at each observation, as a histogram without stored values would keep them. */
  function Counters(history: seq<Observation>): (c: map<Labels, Series>)
    ensures forall l :: l in c ==> WellFormed(c[l]) && c[l].labels == l
  {
    if history == [] then map[]
    else
      var last := |history| - 1;
      var c := Counters(history[..last]);
      var l := history[last].labels;
      c[l := Bump(if l in c then c[l] else NoValues(l), history[last].seconds)]
  }

  ghost predicate Ascending(series: seq<Series>) {
    forall i, j :: 0 <= i < j < |series| ==> Below(series[i].labels, series[j].labels)
  }

  /** The rendered series are exactly the counters. */
  ghost predicate ShowsCounters(series: seq<Series>, history: seq<Observation>) {
    && (forall i :: 0 <= i < |series| ==>
          series[i].labels in Counters(history) && series[i] == Counters(history)[series[i].labels])
    && (forall l :: l in Counters(history) ==> Counters(history)[l] in series)
  }

  // Rows as running series

  /** The series of one label triple, entry by entry along a listing. */
  function SeriesOf(listing: seq<Entry>, labels: Labels): (s: Series)
    ensures WellFormed(s)
  {
    if listing == [] then NoValues(labels)
    else
      var last := |listing| - 1;
      Include(SeriesOf(listing[..last], labels), listing[last], labels)
  }

  function Include(s: Series, e: Entry, labels: Labels): (r: Series)
    requires WellFormed(s)
    ensures WellFormed(r)
  {
    if e.key.labels == labels then Bump(s, e.value) else s
  }

  ghost predicate Mentions(listing: seq<Entry>, labels: Labels) {
    exists i :: 0 <= i < |listing| && listing[i].key.labels == labels
  }

  lemma RenderBump(labels: Labels, values: seq<real>, v: real)
    ensures WellFormed(RenderRow(Row(labels, values)))
    ensures RenderRow(Row(labels, values + [v])) == Bump(RenderRow(Row(labels, values)), v)
  {
    assert (values + [v])[..|values|] == values;
  }

  /** A rendered group is the series of its label triple. */
  lemma {:induction false} GroupIsSeries(listing: seq<Entry>, labels: Labels)
    ensures labels in Grouped(listing) <==> Mentions(listing, labels)
    ensures labels in Grouped(listing) ==>
              RenderRow(Row(labels, Grouped(listing)[labels])) == SeriesOf(listing, labels)
    ensures labels !in Grouped(listing) ==> SeriesOf(listing, labels) == NoValues(labels)
  {
    if listing != [] {
      var last := |listing| - 1;
      var init := listing[..last];
      GroupIsSeries(init, labels);
      assert forall i :: 0 <= i < last ==> init[i] == listing[i];
      if listing[last].key.labels == labels {
        var values := if labels in Grouped(init) then Grouped(init)[labels] else [];
        assert RenderRow(Row(labels, [])) == NoValues(labels);
        RenderBump(labels, values, listing[last].value);
      }
    }
  }

  lemma IncludeCommutes(s: Series, a: Entry, b: Entry, labels: Labels)
    requires WellFormed(s)
    ensures Include(Include(s, a, labels), b, labels) == Include(Include(s, b, labels), a, labels)
  {
    if a.key.labels == labels == b.key.labels {
      assert Bump(Bump(s, a.value), b.value).buckets == Bump(Bump(s, b.value), a.value).buckets;
    }
  }

  /** An entry may be counted last wherever it stands. */
  lemma {:induction false} CountedLast(left: seq<Entry>, e: Entry, right: seq<Entry>, labels: Labels)
    ensures SeriesOf(left + [e] + right, labels) == Include(SeriesOf(left + right, labels), e, labels)
    decreases |right|
  {
    if right == [] {
      assert left + [e] + right == left + [e] && left + right == left;
      assert (left + [e])[..|left|] == left;
    } else {
      var last := |right| - 1;
      var init := right[..last];
      CountedLast(left, e, init, labels);
      assert (left + [e] + right)[..|left| + 1 + last] == left + [e] + init;
      assert (left + right)[..|left| + last] == left + init;
      IncludeCommutes(SeriesOf(left + init, labels), e, right[last], labels);
    }
  }

  ghost predicate Distinct(listing: seq<Entry>) {
    forall i, j :: 0 <= i < j < |listing| ==> listing[i] != listing[j]
  }

  ghost predicate SameEntries(a: seq<Entry>, b: seq<Entry>) {
    forall e :: e in a <==> e in b
  }

  /** Taking one entry out of two listings leaves the same entries. */
  lemma RestMatches(init: seq<Entry>, left: seq<Entry>, e: Entry, right: seq<Entry>)
    requires Distinct(init + [e]) && Distinct(left + [e] + right)
    requires SameEntries(init + [e], left + [e] + right)
    ensures Distinct(init) && Distinct(left + right) && SameEntries(init, left + right)
  {
    var a, b, rest := init + [e], left + [e] + right, left + right;
    assert forall i :: 0 <= i < |init| ==> init[i] == a[i] && init[i] != a[|init|];
    assert b[|left|] == e;
    forall i | 0 <= i < |rest|
      ensures rest[i] == b[if i < |left| then i else i + 1] && rest[i] != e
    {
    }
    forall x ensures x in init <==> x in rest {
      assert x in a <==> x in init || x == e;
      assert x in b <==> x in rest || x == e;
    }
  }

  /** Where an entry of one listing stands in another one with the same entries. */
  lemma Locate(init: seq<Entry>, e: Entry, b: seq<Entry>) returns (left: seq<Entry>, right: seq<Entry>)
    requires Distinct(init + [e]) && Distinct(b) && SameEntries(init + [e], b)
    ensures b == left + [e] + right
    ensures Distinct(init) && Distinct(left + right) && SameEntries(init, left + right)
  {
    assert e in init + [e];
    var j :| 0 <= j < |b| && b[j] == e;
    left, right := b[..j], b[j + 1..];
    assert b == left + [e] + right;
    RestMatches(init, left, e, right);
  }

  /** Listings with the same entries give the same series. */
  lemma {:induction false} AnyOrderSameSeries(a: seq<Entry>, b: seq<Entry>, labels: Labels)
    requires Distinct(a) && Distinct(b) && SameEntries(a, b)
    ensures SeriesOf(a, labels) == SeriesOf(b, labels)
    decreases |a|
  {
    hide SeriesOf, Include, Distinct;
    assert b == [] || b[0] in a;
    if a == [] {
      assert b == [];
    } else {
      var init, e := a[..|a| - 1], a[|a| - 1];
      assert a == init + [e];
      var left, right := Locate(init, e, b);
      AnyOrderSameSeries(init, left + right, labels);
      CountedLast(left, e, right, labels);
      assert init + [e] + [] == a && init + [] == init;
      CountedLast(init, e, [], labels);
    }
  }

  /** The counters are the series along the history. */
  lemma {:induction false} CountersAreSeries(history: seq<Observation>, labels: Labels)
    ensures labels in Counters(history) <==> Mentions(Entries(history), labels)
    ensures labels in Counters(history) ==> Counters(history)[labels] == SeriesOf(Entries(history), labels)
    ensures labels !in Counters(history) ==> SeriesOf(Entries(history), labels) == NoValues(labels)
  {
    if history != [] {
      var last := |history| - 1;
      CountersAreSeries(history[..last], labels);
      var before, after := Entries(history[..last]), Entries(history);
      assert after[..last] == before;
      assert forall i :: 0 <= i < last ==> after[i] == before[i];
      assert after[last].key.labels == history[last].labels;
    }
  }

  // Order of the rows

  lemma {:induction false} BeforeIsTotal(s: string, t: string)
    ensures s != t ==> Before(s, t) || Before(t, s)
    ensures Before(s, t) ==> s != t && !Before(t, s)
  {
    if s != [] && t != [] && s[0] == t[0] {
      BeforeIsTotal(s[1..], t[1..]);
      assert s == [s[0]] + s[1..] && t == [t[0]] + t[1..];
    }
  }

  lemma {:induction false} BeforeIsTransitive(s: string, t: string, u: string)
    requires Before(s, t) && Before(t, u)
    ensures Before(s, u)
  {
    if s != [] && s[0] == t[0] && t[0] == u[0] {
      BeforeIsTransitive(s[1..], t[1..], u[1..]);
    }
  }

  lemma BelowIsTotal(a: Labels, b: Labels)
    ensures a != b ==> Below(a, b) || Below(b, a)
    ensures Below(a, b) ==> a != b && !Below(b, a)
  {
    BeforeIsTotal(a.path, b.path);
    BeforeIsTotal(a.verb, b.verb);
    BeforeIsTotal(a.status, b.status);
  }

  lemma BelowIsTransitive(a: Labels, b: Labels, c: Labels)
    requires Below(a, b) && Below(b, c)
    ensures Below(a, c)
  {
    BeforeIsTotal(a.path, b.path);
    BeforeIsTotal(b.path, c.path);
    BeforeIsTotal(a.verb, b.verb);
    BeforeIsTotal(b.verb, c.verb);
    if a.path != b.path && b.path != c.path {
      BeforeIsTransitive(a.path, b.path, c.path);
    }
    if a.verb != b.verb && b.verb != c.verb && a.path == b.path == c.path {
      BeforeIsTransitive(a.verb, b.verb, c.verb);
    }
    if a.path == b.path == c.path && a.verb == b.verb == c.verb {
      BeforeIsTransitive(a.status, b.status, c.status);
    }
  }

  /** Strings are ordered at the first character that differs, and a string comes before its extensions. */
  lemma {:induction false} BeforeAtFirstDifference(s: string, t: string, k: nat)
    requires k <= |s| && k < |t| && s[..k] == t[..k]
    requires k == |s| || s[k] < t[k]
    ensures Before(s, t) && !Before(t, s)
  {
    BeforeIsTotal(s, t);
    if k > 0 {
      assert s[0] == s[..k][0] == t[..k][0] == t[0];
      assert s[1..][..k - 1] == s[..k][1..] && t[1..][..k - 1] == t[..k][1..];
      BeforeAtFirstDifference(s[1..], t[1..], k - 1);
    }
  }

  /** Label triples are ordered by path, then by method, then by status. */
  lemma BelowByParts(a: Labels, b: Labels, s: string, t: string, k: nat)
    requires k <= |s| && k < |t| && s[..k] == t[..k] && (k == |s| || s[k] < t[k])
    ensures Below(a.(path := s), b.(path := t))
    ensures a.path == b.path ==> Below(a.(verb := s), b.(verb := t))
    ensures a.path == b.path && a.verb == b.verb ==> Below(a.(status := s), b.(status := t))
  {
    BeforeAtFirstDifference(s, t, k);
    BeforeIsTotal(s, t);
  }

  ghost predicate AscendingRows(rows: seq<Row>) {
    forall i, j :: 0 <= i < j < |rows| ==> Below(rows[i].labels, rows[j].labels)
  }

  lemma {:induction false} InsertRowPlaces(row: Row, rows: seq<Row>)
    requires AscendingRows(rows)
    requires forall i :: 0 <= i < |rows| ==> rows[i].labels != row.labels
    ensures AscendingRows(InsertRow(row, rows))
    ensures forall r :: r in InsertRow(row, rows) <==> r == row || r in rows
  {
    if rows != [] {
      BelowIsTotal(rows[0].labels, row.labels);
      if Below(rows[0].labels, row.labels) {
        InsertRowPlaces(row, rows[1..]);
        var inserted := InsertRow(row, rows[1..]);
        forall j | 0 <= j < |inserted| ensures Below(rows[0].labels, inserted[j].labels) {
          assert inserted[j] in inserted;
        }
      } else {
        forall j | 0 <= j < |rows| ensures Below(row.labels, rows[j].labels) {
          if j > 0 {
            BelowIsTransitive(row.labels, rows[0].labels, rows[j].labels);
          }
        }
      }
    }
  }

  lemma {:induction false} SortRowsSorts(rows: seq<Row>)
    requires forall i, j :: 0 <= i < j < |rows| ==> rows[i].labels != rows[j].labels
    ensures AscendingRows(SortRows(rows))
    ensures forall r :: r in SortRows(rows) <==> r in rows
  {
    if rows != [] {
      SortRowsSorts(rows[1..]);
      var sorted := SortRows(rows[1..]);
      forall i | 0 <= i < |sorted| ensures sorted[i].labels != rows[0].labels {
        assert sorted[i] in sorted;
        assert sorted[i] in rows[1..];
      }
      InsertRowPlaces(rows[0], sorted);
    }
  }

  // Main results

  /** One series for each group, in label order. */
  lemma RenderRows(listing: seq<Entry>, order: seq<Labels>)
    requires Orders(Grouped(listing), order)
    ensures Ascending(Rendered(listing, order))
    ensures forall i :: 0 <= i < |Rendered(listing, order)| ==>
              var s := Rendered(listing, order)[i];
              s.labels in Grouped(listing) && s == RenderRow(Row(s.labels, Grouped(listing)[s.labels]))
    ensures forall l :: l in Grouped(listing) ==>
              RenderRow(Row(l, Grouped(listing)[l])) in Rendered(listing, order)
  {
    hide Grouped, SortRows, Below, CountUpTo, Sum;
    var groups := Grouped(listing);
    var rows := Rows(groups, order);
    SortRowsSorts(rows);
    var sorted, out := SortRows(rows), Rendered(listing, order);
    forall i | 0 <= i < |out|
      ensures out[i].labels in groups && out[i] == RenderRow(Row(out[i].labels, groups[out[i].labels]))
    {
      assert sorted[i] in sorted;
      assert sorted[i] in rows;
    }
    forall l | l in groups ensures RenderRow(Row(l, groups[l])) in out {
      assert l in order;
      var i :| 0 <= i < |order| && order[i] == l;
      assert rows[i] in rows;
      assert rows[i] in sorted;
      var k :| 0 <= k < |sorted| && sorted[k] == rows[i];
      assert out[k] == RenderRow(Row(l, groups[l]));
    }
  }

  /**
   * For every history of observations, every order the table lists its entries in and every
   * order the grouping map hands out its keys, the rendered numbers are those of cumulative
   * counters kept along the way: one series per observed label triple, in label order.
   */
  lemma RenderShowsCounters(table: map<Key, real>, history: seq<Observation>,
                            listing: seq<Entry>, order: seq<Labels>)
    requires Lists(table, Entries(history)) && Lists(table, listing) && Orders(Grouped(listing), order)
    ensures Ascending(Rendered(listing, order))
    ensures ShowsCounters(Rendered(listing, order), history)
  {
    hide Grouped, Counters, SortRows, RenderRow, Entries, Below, Lists;
    RenderRows(listing, order);
    var groups, out := Grouped(listing), Rendered(listing, order);
    forall labels
      ensures labels in groups <==> labels in Counters(history)
      ensures labels in groups ==> RenderRow(Row(labels, groups[labels])) == Counters(history)[labels]
    {
      GroupIsCounter(table, history, listing, labels);
    }
  }

  lemma ListedEntries(table: map<Key, real>, listing: seq<Entry>, e: Entry)
    requires Lists(table, listing)
    ensures e in listing <==> e.key in table && table[e.key] == e.value
  {
  }

  lemma GroupIsCounter(table: map<Key, real>, history: seq<Observation>, listing: seq<Entry>, labels: Labels)
    requires Lists(table, Entries(history)) && Lists(table, listing)
    ensures labels in Grouped(listing) <==> labels in Counters(history)
    ensures labels in Grouped(listing) ==>
              RenderRow(Row(labels, Grouped(listing)[labels])) == Counters(history)[labels]
  {
    hide Grouped, Counters, SeriesOf, RenderRow, Entries;
    var entries := Entries(history);
    forall e ensures e in listing <==> e in entries {
      ListedEntries(table, listing, e);
      ListedEntries(table, entries, e);
    }
    AnyOrderSameSeries(listing, entries, labels);
    GroupIsSeries(listing, labels);
    CountersAreSeries(history, labels);
    if Mentions(listing, labels) {
      var i :| 0 <= i < |listing| && listing[i].key.labels == labels;
      assert listing[i] in entries;
    }
    if Mentions(entries, labels) {
      var i :| 0 <= i < |entries| && entries[i].key.labels == labels;
      assert entries[i] in listing;
    }
  }

  /** Strictly ascending sequences with the same elements are equal. */
  lemma {:induction false} AscendingIsUnique(a: seq<Series>, b: seq<Series>)
    requires Ascending(a) && Ascending(b) && forall s :: s in a <==> s in b
    ensures a == b
    decreases |a|
  {
    assert b == [] || b[0] in a;
    if a == [] {
      assert b == [];
    } else {
      assert a[0] in b;
      assert b[0] in a;
      BelowIsTotal(a[0].labels, b[0].labels);
      assert a[0] == b[0];
      forall s ensures s in a[1..] <==> s in b[1..] {
        BelowIsTotal(a[0].labels, a[0].labels);
        assert a[0] !in a[1..] && b[0] !in b[1..];
        assert s in a <==> s == a[0] || s in a[1..];
        assert s in b <==> s == b[0] || s in b[1..];
      }
      AscendingIsUnique(a[1..], b[1..]);
    }
  }

  /** The rendered rows do not depend on the order of the table or of the grouping map. */
  lemma RenderIgnoresTableOrder(table: map<Key, real>, history: seq<Observation>,
                                a: seq<Entry>, aOrder: seq<Labels>, b: seq<Entry>, bOrder: seq<Labels>)
    requires Lists(table, Entries(history)) && Lists(table, a) && Lists(table, b)
    requires Orders(Grouped(a), aOrder) && Orders(Grouped(b), bOrder)
    ensures Rendered(a, aOrder) == Rendered(b, bOrder)
  {
    hide Grouped, Counters, Rendered, Entries, Below;
    RenderShowsCounters(table, history, a, aOrder);
    RenderShowsCounters(table, history, b, bOrder);
    var x, y := Rendered(a, aOrder), Rendered(b, bOrder);
    forall s ensures s in x <==> s in y {
      assert s in x ==> s.labels in Counters(history) && s == Counters(history)[s.labels];
      assert s in y ==> s.labels in Counters(history) && s == Counters(history)[s.labels];
    }
    AscendingIsUnique(x, y);
  }

  lemma {:induction false} CountIsMonotone(values: seq<real>, low: real, high: real)
    requires low <= high
    ensures CountUpTo(values, low) <= CountUpTo(values, high) <= |values|
  {
    if values != [] {
      CountIsMonotone(values[..|values| - 1], low, high);
    }
  }

  /** In every rendered series the bucket counts never fall as the bound grows, nor exceed the count. */
  lemma BucketsAreCumulative(listing: seq<Entry>, order: seq<Labels>, k: nat, i: nat, j: nat)
    requires Orders(Grouped(listing), order)
    requires k < |Rendered(listing, order)| && i <= j < |BUCKETS|
    ensures var s := Rendered(listing, order)[k];
            s.buckets[i] <= s.buckets[j] <= s.count
  {
    var row := SortRows(Rows(Grouped(listing), order))[k];
    CountIsMonotone(row.values, BUCKETS[i], BUCKETS[j]);
  }

  function TotalCount(series: seq<Series>): nat {
    if series == [] then 0 else series[0].count + TotalCount(series[1..])
  }

  function RowsCount(rows: seq<Row>): nat {
    if rows == [] then 0 else |rows[0].values| + RowsCount(rows[1..])
  }

  function SeriesCount(listing: seq<Entry>, order: seq<Labels>): nat {
    if order == [] then 0 else SeriesOf(listing, order[0]).count + SeriesCount(listing, order[1..])
  }

  lemma {:induction false} InsertKeepsCount(row: Row, rows: seq<Row>)
    ensures RowsCount(InsertRow(row, rows)) == |row.values| + RowsCount(rows)
  {
    if rows != [] && Below(rows[0].labels, row.labels) {
      InsertKeepsCount(row, rows[1..]);
      assert ([rows[0]] + InsertRow(row, rows[1..]))[1..] == InsertRow(row, rows[1..]);
    } else {
      assert ([row] + rows)[1..] == rows;
    }
  }

  lemma {:induction false} SortKeepsCount(rows: seq<Row>)
    ensures RowsCount(SortRows(rows)) == RowsCount(rows)
  {
    if rows != [] {
      SortKeepsCount(rows[1..]);
      InsertKeepsCount(rows[0], SortRows(rows[1..]));
    }
  }

  lemma {:induction false} TotalIsRowsCount(rows: seq<Row>, series: seq<Series>)
    requires |rows| == |series| && forall i :: 0 <= i < |rows| ==> series[i] == RenderRow(rows[i])
    ensures TotalCount(series) == RowsCount(rows)
  {
    if rows != [] {
      TotalIsRowsCount(rows[1..], series[1..]);
    }
  }

  lemma {:induction false} RowsAreSeries(listing: seq<Entry>, order: seq<Labels>)
    requires forall i :: 0 <= i < |order| ==> order[i] in Grouped(listing)
    ensures RowsCount(Rows(Grouped(listing), order)) == SeriesCount(listing, order)
  {
    if order != [] {
      GroupIsSeries(listing, order[0]);
      assert order[0] in Grouped(listing);
      assert Rows(Grouped(listing), order)[1..] == Rows(Grouped(listing), order[1..]);
      RowsAreSeries(listing, order[1..]);
    }
  }

  /** One more entry adds one to the counts of the triples in `order`, if its triple is among them. */
  lemma {:induction false} OneMoreEntry(listing: seq<Entry>, e: Entry, order: seq<Labels>)
    requires forall i, j :: 0 <= i < j < |order| ==> order[i] != order[j]
    ensures SeriesCount(listing + [e], order)
         == SeriesCount(listing, order) + if e.key.labels in order then 1 else 0
  {
    if order != [] {
      OneMoreEntry(listing, e, order[1..]);
      assert (listing + [e])[..|listing|] == listing;
      assert order[0] !in order[1..];
      assert e.key.labels in order <==> e.key.labels == order[0] || e.key.labels in order[1..];
    }
  }

  lemma {:induction false} NothingListed(order: seq<Labels>)
    ensures SeriesCount([], order) == 0
  {
    if order != [] {
      NothingListed(order[1..]);
    }
  }

  lemma {:induction false} EveryEntryCounted(listing: seq<Entry>, order: seq<Labels>)
    requires forall i, j :: 0 <= i < j < |order| ==> order[i] != order[j]
    requires forall i :: 0 <= i < |listing| ==> listing[i].key.labels in order
    ensures SeriesCount(listing, order) == |listing|
  {
    if listing == [] {
      NothingListed(order);
    } else {
      var last := |listing| - 1;
      EveryEntryCounted(listing[..last], order);
      OneMoreEntry(listing[..last], listing[last], order);
      assert listing[..last] + [listing[last]] == listing;
    }
  }

  lemma {:induction false} ListingsHaveOneLength(a: seq<Entry>, b: seq<Entry>)
    requires Distinct(a) && Distinct(b) && SameEntries(a, b)
    ensures |a| == |b|
    decreases |a|
  {
    assert b == [] || b[0] in a;
    if a == [] {
      assert b == [];
    } else {
      var init, e := a[..|a| - 1], a[|a| - 1];
      assert a == init + [e];
      var left, right := Locate(init, e, b);
      ListingsHaveOneLength(init, left + right);
    }
  }

  /** The rendered counts over all label triples add up to the number of observations. */
  lemma CountsAddUp(table: map<Key, real>, history: seq<Observation>, listing: seq<Entry>, order: seq<Labels>)
    requires Lists(table, Entries(history)) && Lists(table, listing) && Orders(Grouped(listing), order)
    ensures TotalCount(Rendered(listing, order)) == |history|
  {
    hide Grouped, SeriesCount, RowsCount, TotalCount, SortRows, Rows;
    var rows := SortRows(Rows(Grouped(listing), order));
    TotalIsRowsCount(rows, Rendered(listing, order));
    SortKeepsCount(Rows(Grouped(listing), order));
    RowsAreSeries(listing, order);
    forall i | 0 <= i < |listing| ensures listing[i].key.labels in order {
      GroupIsSeries(listing, listing[i].key.labels);
      assert Mentions(listing, listing[i].key.labels);
    }
    EveryEntryCounted(listing, order);
    forall e ensures e in listing <==> e in Entries(history) {
      ListedEntries(table, listing, e);
      ListedEntries(table, Entries(history), e);
    }
    ListingsHaveOneLength(listing, Entries(history));
  }

  // ----- what the numbers mean -----

  /** A bucket counts the values that do not exceed its bound. */
  lemma {:induction false} CountIsCardinality(values: seq<real>, le: real)
    ensures CountUpTo(values, le) == |set i | 0 <= i < |values| && values[i] <= le|
  {
    var counted := set i | 0 <= i < |values| && values[i] <= le;
    if values != [] {
      var last := |values| - 1;
      CountIsCardinality(values[..last], le);
      var before := set i | 0 <= i < |values[..last]| && values[..last][i] <= le;
      assert counted == before + if values[last] <= le then {last} else {};
    }
  }

  /** One observation is counted in every bucket from the first bound that it does not exceed. */
  lemma OneObservation(labels: Labels, v: real)
    ensures var s := RenderRow(Row(labels, [v]));
            && s.labels == labels && s.count == 1 && s.sum == v
            && s.buckets ==
               [if v <= 0.0005 then 1 else 0, if v <= 0.001 then 1 else 0, if v <= 0.002 then 1 else 0,
                if v <= 0.005 then 1 else 0, if v <= 0.01 then 1 else 0, if v <= 0.02 then 1 else 0,
                if v <= 0.05 then 1 else 0, if v <= 0.1 then 1 else 0, if v <= 0.2 then 1 else 0,
                if v <= 0.5 then 1 else 0, if v <= 1.0 then 1 else 0, if v <= 2.0 then 1 else 0,
                if v <= 5.0 then 1 else 0]
  {
    assert [v][..0] == [] && Sum([v][..0]) == 0.0;
    assert forall le :: CountUpTo([v], le) == if v <= le then 1 else 0;
  }
}
