/** Sums over finite maps. */
module Totals {
  ghost function Total(m: map<string, nat>): nat {
    if m == map[] then 0 else
      var k :| k in m;
      m[k] + Total(m - {k})
  }

  lemma {:induction false} TotalRemove(m: map<string, nat>, k: string)
    requires k in m
    ensures Total(m) == m[k] + Total(m - {k})
    decreases |m|
  {
    var c :| c in m && Total(m) == m[c] + Total(m - {c});
    if c != k {
      TotalRemove(m - {c}, k);
      TotalRemove(m - {k}, c);
      assert m - {c} - {k} == m - {k} - {c};
    }
  }

  lemma TotalUpdate(m: map<string, nat>, k: string, v: nat)
    ensures Total(m[k := v]) + (if k in m then m[k] else 0) == Total(m) + v
  {
    TotalRemove(m[k := v], k);
    if k in m {
      TotalRemove(m, k);
      assert m[k := v] - {k} == m - {k};
    } else {
      assert m[k := v] - {k} == m;
    }
  }

  lemma {:induction false} TotalMonotone(a: map<string, nat>, b: map<string, nat>)
    requires a.Keys == b.Keys && forall k | k in a :: a[k] <= b[k]
    ensures Total(a) <= Total(b)
    ensures (exists k :: k in a && a[k] < b[k]) ==> Total(a) < Total(b)
    decreases |a|
  {
    if a != map[] {
      var k :| k in a && ((exists x :: x in a && a[x] < b[x]) ==> a[k] < b[k]);
      TotalRemove(a, k);
      TotalRemove(b, k);
      TotalMonotone(a - {k}, b - {k});
    } else {
      assert b == map[];
    }
  }

  lemma {:induction false} TotalZero(m: map<string, nat>)
    ensures Total(m) == 0 <==> forall k | k in m :: m[k] == 0
    decreases |m|
  {
    if m != map[] {
      var k :| k in m;
      TotalRemove(m, k);
      var rest := m - {k};
      TotalZero(rest);
      assert forall x | x in m && x != k :: x in rest && rest[x] == m[x];
    }
  }
}
