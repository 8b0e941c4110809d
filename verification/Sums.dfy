/** Sums of a per-request quantity over all requests. */
module Sums {
  import opened Protocol

  lemma {:induction false} SumPick(m: map<nat, Proc>, f: Proc -> nat, r: nat)
    requires r in m
    ensures Sum(m, f) == f(m[r]) + Sum(m - {r}, f)
  {
    var k :| k in m && Sum(m, f) == f(m[k]) + Sum(m - {k}, f);
    if k != r {
      SumPick(m - {k}, f, r);
      SumPick(m - {r}, f, k);
      assert m - {k} - {r} == m - {r} - {k};
    }
  }

  lemma SumUpdate(m: map<nat, Proc>, f: Proc -> nat, r: nat, p: Proc)
    ensures Sum(m[r := p], f) == Sum(m, f) - (if r in m then f(m[r]) else 0) + f(p)
  {
    SumPick(m[r := p], f, r);
    if r in m {
      SumPick(m, f, r);
      assert m[r := p] - {r} == m - {r};
    } else {
      assert m[r := p] - {r} == m;
    }
  }

  lemma {:induction false} SumZero(m: map<nat, Proc>, f: Proc -> nat)
    requires forall r :: r in m ==> f(m[r]) == 0
    ensures Sum(m, f) == 0
  {
    if m != map[] {
      var k :| k in m && Sum(m, f) == f(m[k]) + Sum(m - {k}, f);
      SumZero(m - {k}, f);
    }
  }

  lemma {:induction false} SumMonotone(m: map<nat, Proc>, f: Proc -> nat, g: Proc -> nat)
    requires forall r :: r in m ==> f(m[r]) <= g(m[r])
    ensures Sum(m, f) <= Sum(m, g)
  {
    if m != map[] {
      var k :| k in m && Sum(m, f) == f(m[k]) + Sum(m - {k}, f);
      SumPick(m, g, k);
      SumMonotone(m - {k}, f, g);
    }
  }

  lemma {:induction false} SumPositive(m: map<nat, Proc>, f: Proc -> nat)
    requires Sum(m, f) > 0
    ensures exists r :: r in m && f(m[r]) > 0
  {
    if forall r :: r in m ==> f(m[r]) == 0 {
      SumZero(m, f);
    }
  }
}
