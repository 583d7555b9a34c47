/** Sums over the values of a map, in whatever order the keys are visited. */
module MapSum {

  ghost function Total(m: map<string, real>): real {
    if m == map[] then 0.0
    else var k :| k in m; m[k] + Total(m - {k})
  }

  lemma {:induction false} TotalRemove(m: map<string, real>, k: string)
    requires k in m
    ensures Total(m) == m[k] + Total(m - {k})
    decreases |m|
  {
    var first :| first in m && Total(m) == m[first] + Total(m - {first});
    if first != k {
      TotalRemove(m - {first}, k);
      TotalRemove(m - {k}, first);
      assert m - {first} - {k} == m - {k} - {first};
    }
  }

  lemma TotalUpdate(m: map<string, real>, k: string, v: real)
    ensures Total(m[k := v]) == Total(m) - (if k in m then m[k] else 0.0) + v
  {
    var m' := m[k := v];
    TotalRemove(m', k);
    assert m' - {k} == m - {k};
    if k in m {
      TotalRemove(m, k);
    } else {
      assert m - {k} == m;
    }
  }

  // Pointwise differences sum to the difference of the sums.
  lemma {:induction false} TotalDifference(a: map<string, real>, b: map<string, real>, d: map<string, real>)
    requires a.Keys == b.Keys == d.Keys
    requires forall k :: k in a ==> d[k] == a[k] - b[k]
    ensures Total(d) == Total(a) - Total(b)
    decreases |a|
  {
    if a != map[] {
      var k :| k in a;
      TotalRemove(a, k);
      TotalRemove(b, k);
      TotalRemove(d, k);
      TotalDifference(a - {k}, b - {k}, d - {k});
    } else {
      assert b == map[] && d == map[];
    }
  }
}
