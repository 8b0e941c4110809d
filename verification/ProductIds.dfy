/**
 The lock order: the distinct product ids of a request, ascending. Go removes repeats with a `seen`
 map and then sorts in place, Rust sorts first and then drops neighbours, Python sorts a set. All are
 proved to give the one strictly increasing sequence with exactly the requested ids.
 */
module ProductIds {

  datatype Line = Line(product: int, quantity: int)

  predicate Ascending(s: seq<int>) {
    forall i, j :: 0 <= i < j < |s| ==> s[i] < s[j]
  }

  predicate Sorted(s: seq<int>) {
    forall i, j :: 0 <= i < j < |s| ==> s[i] <= s[j]
  }

  predicate Requested(items: seq<Line>, p: int) {
    exists i :: 0 <= i < |items| && items[i].product == p
  }

  lemma RequestedPrefix(items: seq<Line>, k: nat)
    requires k < |items|
    ensures forall p :: Requested(items[..k + 1], p) <==> p == items[k].product || Requested(items[..k], p)
  {
    forall p ensures Requested(items[..k + 1], p) <==> p == items[k].product || Requested(items[..k], p) {
      if p == items[k].product {
        assert items[..k + 1][k].product == p;
      }
      if Requested(items[..k], p) {
        var i :| 0 <= i < k && items[..k][i].product == p;
        assert items[..k + 1][i].product == p;
      }
      if Requested(items[..k + 1], p) {
        var i :| 0 <= i < k + 1 && items[..k + 1][i].product == p;
        assert i < k ==> items[..k][i].product == p;
      }
    }
  }

  /** `ids` lists exactly the requested products. */
  ghost predicate Covers(ids: seq<int>, items: seq<Line>) {
    forall p :: p in ids <==> Requested(items, p)
  }

  function Insert(ids: seq<int>, p: int): (r: seq<int>)
    requires Ascending(ids)
    ensures Ascending(r)
    ensures forall q :: q in r <==> q == p || q in ids
    ensures |r| <= |ids| + 1
  {
    if ids == [] then [p]
    else if ids[0] == p then ids
    else if p < ids[0] then [p] + ids
    else
      var rest := Insert(ids[1..], p);
      assert forall q :: q in ids <==> q == ids[0] || q in ids[1..];
      assert forall k :: 0 <= k < |rest| ==> rest[k] in rest && ids[0] < rest[k];
      [ids[0]] + rest
  }

  /** `sorted({it["product_id"] for it in items})` */
  function SortedIds(items: seq<Line>): (ids: seq<int>)
    ensures Ascending(ids)
    ensures Covers(ids, items)
  {
    if items == [] then []
    else
      var k := |items| - 1;
      var rest := SortedIds(items[..k]);
      assert items[..k + 1] == items;
      RequestedPrefix(items, k);
      Insert(rest, items[k].product)
  }

  lemma NoMembersNoElements(s: seq<int>)
    ensures s == [] || exists p :: p in s
  {
    if s != [] {
      var p := s[0];
      assert p in s;
    }
  }

  lemma {:induction false} SameMembersSameSequence(a: seq<int>, b: seq<int>)
    requires Ascending(a) && Ascending(b)
    requires forall p :: p in a <==> p in b
    ensures a == b
  {
    if a == [] {
      NoMembersNoElements(b);
    } else {
      assert a[0] in a && b[0] in b;
      assert a[0] in b && b[0] in a;
      assert a[0] == b[0];
      assert forall p :: p in a[1..] <==> p in a && p != a[0];
      assert forall p :: p in b[1..] <==> p in b && p != b[0];
      SameMembersSameSequence(a[1..], b[1..]);
    }
  }

  /** Any ascending listing of the requested ids is the lock order. */
  lemma LockOrderIsUnique(ids: seq<int>, items: seq<Line>)
    requires Ascending(ids) && Covers(ids, items)
    ensures ids == SortedIds(items)
  {
    SameMembersSameSequence(ids, SortedIds(items));
  }

  /** Go's insertion sort, swapping neighbours in place. */
  method SortInt32(s: array<int>)
    modifies s
    ensures Sorted(s[..])
    ensures multiset(s[..]) == multiset(old(s[..]))
  {
    var i := 1;
    while i < s.Length
      invariant 1 <= i
      invariant i <= s.Length ==> Sorted(s[..i])
      invariant i > s.Length ==> s.Length == 0
      invariant multiset(s[..]) == multiset(old(s[..]))
    {
      var j := i;
      while j > 0 && s[j - 1] > s[j]
        invariant 0 <= j <= i < s.Length
        invariant forall a, b :: 0 <= a < b <= i && b != j ==> s[a] <= s[b]
        invariant multiset(s[..]) == multiset(old(s[..]))
      {
        s[j - 1], s[j] := s[j], s[j - 1];
        j := j - 1;
      }
      i := i + 1;
    }
    assert s.Length >= 1 ==> s[..i] == s[..];
  }

  lemma SameMultisetSameMembers(a: seq<int>, b: seq<int>)
    requires multiset(a) == multiset(b)
    ensures forall p :: p in a <==> p in b
  {
    forall p ensures p in a <==> p in b {
      assert p in a <==> p in multiset(a);
      assert p in b <==> p in multiset(b);
    }
  }

  predicate Distinct(s: seq<int>) {
    forall i, j :: 0 <= i < j < |s| ==> s[i] != s[j]
  }

  lemma {:induction false} DistinctCount(s: seq<int>, p: int)
    requires Distinct(s)
    ensures multiset(s)[p] <= 1
  {
    if s != [] {
      var k := |s| - 1;
      assert s == s[..k] + [s[k]];
      DistinctCount(s[..k], p);
      if p == s[k] { assert p !in s[..k]; assert p !in multiset(s[..k]); }
    }
  }

  lemma DistinctPermuted(a: seq<int>, b: seq<int>)
    requires multiset(a) == multiset(b) && Distinct(a)
    ensures Distinct(b)
  {
    forall i, j | 0 <= i < j < |b| ensures b[i] != b[j] {
      if b[i] == b[j] {
        assert b == b[..j] + b[j..];
        assert b[i] in b[..j] && b[j] in b[j..];
        assert multiset(b) == multiset(b[..j]) + multiset(b[j..]);
        assert multiset(b[..j])[b[i]] >= 1 && multiset(b[j..])[b[i]] >= 1;
        DistinctCount(a, b[i]);
      }
    }
  }

  /** Go: skip ids already in `seen`, then sort the slice in place. */
  method GoLockOrder(items: seq<Line>) returns (ids: seq<int>)
    ensures ids == SortedIds(items)
  {
    var productIDs: seq<int> := [];
    var seen: set<int> := {};
    for i := 0 to |items|
      invariant forall p :: p in seen <==> p in productIDs
      invariant Distinct(productIDs)
      invariant Covers(productIDs, items[..i])
    {
      var p := items[i].product;
      RequestedPrefix(items, i);
      if p in seen {
        continue;
      }
      seen := seen + {p};
      productIDs := productIDs + [p];
    }
    assert items[..|items|] == items;
    var a := new int[|productIDs|](k requires 0 <= k < |productIDs| => productIDs[k]);
    assert a[..] == productIDs;
    SortInt32(a);
    ids := a[..];
    SameMultisetSameMembers(productIDs, ids);
    DistinctPermuted(productIDs, ids);
    LockOrderIsUnique(ids, items);
  }

  /** Rust: collect every id, sort the vector in place, then remove equal neighbours. */
  method RustLockOrder(items: seq<Line>) returns (ids: seq<int>)
    ensures ids == SortedIds(items)
  {
    var a := new int[|items|](k requires 0 <= k < |items| => items[k].product);
    assert forall p :: p in a[..] <==> Requested(items, p) by {
      assert forall k :: 0 <= k < |items| ==> a[..][k] == items[k].product;
    }
    ghost var collected := a[..];
    SortInt32(a);
    SameMultisetSameMembers(collected, a[..]);
    ids := [];
    for i := 0 to a.Length
      invariant Ascending(ids)
      invariant forall p :: p in ids <==> p in a[..i]
      invariant i == 0 ==> ids == []
      invariant i > 0 ==> ids != [] && ids[|ids| - 1] == a[i - 1]
    {
      assert a[..i + 1] == a[..i] + [a[i]];
      assert forall k :: 0 <= k < i ==> a[..i][k] == a[..][k] && a[..][k] <= a[..][i];
      if ids == [] || ids[|ids| - 1] != a[i] {
        assert i > 0 ==> a[..][i - 1] <= a[..][i];
        ids := ids + [a[i]];
      }
    }
    assert a[..a.Length] == a[..];
    LockOrderIsUnique(ids, items);
  }
}
