/** The sort orders of the stores. Each of them compares a primary instant (for lease queries a
    nil-able one, nil first), then a secondary instant, then the id, so one record type serves all. */
module Ranks {
  import opened Types

  datatype Rank = Rank(primary: Option<Time>, secondary: Time, id: string)

  /** Go's `<` on strings: bytewise lexicographic. */
  predicate TextLess(a: string, b: string) {
    |b| > 0 && (|a| == 0 || a[0] < b[0] || (a[0] == b[0] && TextLess(a[1..], b[1..])))
  }

  /** Lexicographic order: at the first place where the texts differ, a has the smaller byte, or a ends there. */
  ghost predicate TextBefore(a: string, b: string) {
    exists n :: 0 <= n <= |a| && n < |b| && a[..n] == b[..n] && (n == |a| || a[n] < b[n])
  }

  lemma {:induction false} TextLessIsLexicographic(a: string, b: string)
    ensures TextLess(a, b) <==> TextBefore(a, b)
    decreases |b|
  {
    if |a| == 0 || |b| == 0 {
      if |b| > 0 { assert a[..0] == b[..0]; }
    } else if a[0] == b[0] {
      TextLessIsLexicographic(a[1..], b[1..]);
      if n :| 0 <= n <= |a[1..]| && n < |b[1..]| && a[1..][..n] == b[1..][..n]
              && (n == |a[1..]| || a[1..][n] < b[1..][n]) {
        assert a[..n + 1] == [a[0]] + a[1..][..n] && b[..n + 1] == [b[0]] + b[1..][..n];
      }
      if n :| 0 <= n <= |a| && n < |b| && a[..n] == b[..n] && (n == |a| || a[n] < b[n]) {
        assert n > 0 && a[1..][..n - 1] == a[..n][1..] && b[1..][..n - 1] == b[..n][1..];
      }
    } else {
      if a[0] < b[0] { assert a[..0] == b[..0]; }
      if n :| 0 < n <= |a| && n < |b| && a[..n] == b[..n] {
        assert a[..n][0] == b[..n][0];
      }
    }
  }

  /** The comparator handed to the sort. */
  predicate Before(a: Rank, b: Rank) {
    if a.primary.None? && b.primary.Some? then true
    else if a.primary.Some? && b.primary.None? then false
    else if a.primary != b.primary then a.primary.value < b.primary.value
    else if a.secondary != b.secondary then a.secondary < b.secondary
    else TextLess(a.id, b.id)
  }

  lemma {:induction false} TextLessTotal(a: string, b: string)
    ensures a == b ==> !TextLess(a, b)
    ensures a == b || TextLess(a, b) || TextLess(b, a)
    ensures !(TextLess(a, b) && TextLess(b, a))
  {
    if a != [] && b != [] {
      TextLessTotal(a[1..], b[1..]);
      assert a == [a[0]] + a[1..] && b == [b[0]] + b[1..];
    }
  }

  lemma {:induction false} TextLessTransitive(a: string, b: string, c: string)
    requires TextLess(a, b) && TextLess(b, c)
    ensures TextLess(a, c)
  {
    if a != [] && a[0] == b[0] && b[0] == c[0] {
      TextLessTransitive(a[1..], b[1..], c[1..]);
    }
  }

  /** Nil-first comparison is a strict total order, so a sorted listing never depends on the
      iteration order of the map it was collected from. */
  lemma BeforeIsStrictTotalOrder(a: Rank, b: Rank, c: Rank)
    ensures !Before(a, a)
    ensures a == b || Before(a, b) || Before(b, a)
    ensures !(Before(a, b) && Before(b, a))
    ensures Before(a, b) && Before(b, c) ==> Before(a, c)
  {
    TextLessTotal(a.id, b.id);
    TextLessTotal(a.id, a.id);
    if TextLess(a.id, b.id) && TextLess(b.id, c.id) {
      TextLessTransitive(a.id, b.id, c.id);
    }
  }

  ghost predicate Ascending(s: seq<Rank>) {
    forall i, j | 0 <= i < j < |s| :: Before(s[i], s[j])
  }

  function Elements(s: seq<Rank>): set<Rank> {
    set i | 0 <= i < |s| :: s[i]
  }

  lemma DistinctPositions(s: seq<Rank>, i: int, j: int)
    requires Ascending(s) && 0 <= i < |s| && 0 <= j < |s|
    ensures s[i] == s[j] <==> i == j
  {
    hide Before;
    BeforeIsStrictTotalOrder(s[i], s[j], s[i]);
  }

  /** An ascending listing is fixed by the set it lists. */
  lemma {:induction false} AscendingUnique(s: seq<Rank>, t: seq<Rank>)
    requires Ascending(s) && Ascending(t)
    requires Elements(s) == Elements(t)
    ensures s == t
  {
    hide Before;
    if s != [] || t != [] {
      assert (s != [] ==> s[0] in Elements(s)) && (t != [] ==> t[0] in Elements(t));
      BeforeIsStrictTotalOrder(s[0], t[0], s[0]);
      SplitElements(s, 1);
      SplitElements(t, 1);
      assert Elements(s[..1]) == {s[0]} && Elements(t[..1]) == {t[0]};
      AscendingUnique(s[1..], t[1..]);
    }
  }

  function Ids(q: seq<Rank>): set<string> {
    set i | 0 <= i < |q| :: q[i].id
  }

  lemma AppendElements(s: seq<Rank>, r: Rank)
    ensures Elements(s + [r]) == Elements(s) + {r}
  {
    var t := s + [r];
    assert t[|s|] == r && forall i | 0 <= i < |s| :: t[i] == s[i];
  }

  lemma SplitElements(s: seq<Rank>, k: nat)
    requires Ascending(s) && k <= |s|
    ensures Elements(s[k..]) == Elements(s) - Elements(s[..k])
  {
    hide Before;
    forall x | x in Elements(s[k..]) ensures x in Elements(s) && x !in Elements(s[..k]) {
      var j :| 0 <= j < |s| - k && s[k..][j] == x;
      assert s[k + j] == x;
      forall i | 0 <= i < k ensures s[..k][i] != x {
        DistinctPositions(s, i, k + j);
      }
    }
    forall x | x in Elements(s) && x !in Elements(s[..k]) ensures x in Elements(s[k..]) {
      var i :| 0 <= i < |s| && s[i] == x;
      assert s == s[..k] + s[k..];
      if i >= k {
        assert s[k..][i - k] == x;
      }
    }
  }

  lemma {:induction false} LeastExists(S: set<Rank>)
    requires S != {}
    ensures exists m :: m in S && forall x | x in S && x != m :: Before(m, x)
  {
    var e :| e in S;
    if S != {e} {
      LeastExists(S - {e});
      var m :| m in S - {e} && forall x | x in S - {e} && x != m :: Before(m, x);
      var least := if Before(e, m) then e else m;
      forall x | x in S && x != least ensures Before(least, x) {
        BeforeIsStrictTotalOrder(e, m, x);
      }
    }
  }

  lemma ConsElements(m: Rank, t: seq<Rank>)
    ensures Elements([m] + t) == {m} + Elements(t)
  {
    var s := [m] + t;
    assert s[0] == m && forall i | 1 <= i < |s| :: s[i] == t[i - 1];
    assert forall i | 0 <= i < |t| :: s[i + 1] == t[i];
  }

  lemma ConsAscends(m: Rank, t: seq<Rank>)
    requires Ascending(t) && forall i | 0 <= i < |t| :: Before(m, t[i])
    ensures Ascending([m] + t)
  {
    hide Before;
  }

  /** The one ascending listing of a set of ranks. */
  ghost function Sorted(S: set<Rank>): (s: seq<Rank>)
    ensures Ascending(s)
    ensures Elements(s) == S
    ensures |s| == |S|
  {
    if S == {} then [] else
      LeastExists(S);
      var m :| m in S && forall x | x in S && x != m :: Before(m, x);
      var rest := Sorted(S - {m});
      ConsElements(m, rest);
      assert forall i | 0 <= i < |rest| :: rest[i] in Elements(rest);
      ConsAscends(m, rest);
      [m] + rest
  }

  lemma SortedIsUnique(s: seq<Rank>)
    requires Ascending(s)
    ensures s == Sorted(Elements(s))
  {
    AscendingUnique(s, Sorted(Elements(s)));
  }

  /** The first entries of the sorted listing come before all others of the set. */
  lemma TakenAreLeast(S: set<Rank>, limit: nat)
    ensures var q := Take(Sorted(S), limit);
      && |q| == Min(|S|, limit) && Ascending(q) && Elements(q) <= S
      && (forall r, i | r in S && r !in Elements(q) && 0 <= i < |q| :: Before(q[i], r))
  {
    hide Ascending; hide Elements; hide Before;
    var s := Sorted(S);
    FrontIsLeast(s, |Take(s, limit)|);
  }

  lemma FrontIsLeast(s: seq<Rank>, k: nat)
    requires Ascending(s) && k <= |s|
    ensures Ascending(s[..k]) && Elements(s[..k]) <= Elements(s)
    ensures forall r, i | r in Elements(s) && r !in Elements(s[..k]) && 0 <= i < k :: Before(s[..k][i], r)
  {
    hide Before;
    forall r, i | r in Elements(s) && r !in Elements(s[..k]) && 0 <= i < k ensures Before(s[..k][i], r) {
      assert forall n | 0 <= n < k :: s[..k][n] == s[n] && s[n] in Elements(s[..k]);
      var m :| 0 <= m < |s| && s[m] == r;
    }
  }

  /** A set of ranks, one for each id, is as large as the set of ids. */
  lemma {:induction false} OneRankEach(ids: set<string>, S: set<Rank>)
    requires forall id | id in ids :: exists r :: r in S && r.id == id
    requires forall r | r in S :: r.id in ids
    requires forall r, r' | r in S && r' in S && r.id == r'.id :: r == r'
    ensures |S| == |ids|
    decreases |S|
  {
    if S == {} {
      assert ids == {};
    } else {
      var r :| r in S;
      OneRankEach(ids - {r.id}, S - {r});
    }
  }

  lemma SortedSingleton(r: Rank)
    ensures Sorted({r}) == [r]
  {
    AppendElements([], r);
    assert [] + [r] == [r];
    SortedIsUnique([r]);
  }

  /** Removing what a prefix listed leaves exactly the rest of the listing. */
  lemma SortedDrop(S: set<Rank>, k: nat)
    requires k <= |Sorted(S)|
    ensures Sorted(S - Elements(Sorted(S)[..k])) == Sorted(S)[k..]
  {
    hide Before;
    SplitElements(Sorted(S), k);
    SortedIsUnique(Sorted(S)[k..]);
  }

  lemma PositionOf(S: set<Rank>, x: Rank) returns (i: nat)
    requires x in S
    ensures i < |Sorted(S)| && Sorted(S)[i] == x
  {
    assert x in Elements(Sorted(S));
    i :| 0 <= i < |Sorted(S)| && Sorted(S)[i] == x;
  }

  /** A down-closed part of a set is listed by a prefix. */
  lemma DownClosedIsPrefix(S: set<Rank>, T: set<Rank>)
    requires T <= S
    requires forall x, y | x in S && y in T && Before(x, y) :: x in T
    ensures |T| <= |Sorted(S)| && Sorted(T) == Sorted(S)[..|T|]
  {
    hide Before;
    var s := Sorted(S);
    assert forall j | 0 <= j < |s| :: s[j] in Elements(s);
    var k := 0;
    while k < |s| && s[k] in T
      invariant k <= |s|
      invariant forall i | 0 <= i < k :: s[i] in T
    {
      k := k + 1;
    }
    PrefixCovers(S, T, k);
    SortedIsUnique(s[..k]);
  }

  lemma PrefixCovers(S: set<Rank>, T: set<Rank>, k: nat)
    requires T <= S && k <= |Sorted(S)|
    requires forall x, y | x in S && y in T && Before(x, y) :: x in T
    requires forall i | 0 <= i < k :: Sorted(S)[i] in T
    requires k < |Sorted(S)| ==> Sorted(S)[k] in S && Sorted(S)[k] !in T
    ensures Elements(Sorted(S)[..k]) == T
  {
    hide Before; hide Sorted;
    var s := Sorted(S);
    forall x | x in T ensures x in Elements(s[..k]) {
      var i := PositionOf(S, x);
      assert i < k;
      assert s[..k][i] == x;
    }
    forall x | x in Elements(s[..k]) ensures x in T {
      var i :| 0 <= i < k && s[..k][i] == x;
    }
  }

  /** Inserting into an ascending slice, one step of the library sort. */
  method Insert(s: seq<Rank>, r: Rank) returns (t: seq<Rank>)
    requires Ascending(s) && r !in Elements(s)
    ensures Ascending(t) && Elements(t) == Elements(s) + {r}
  {
    hide Before;
    var i := 0;
    while i < |s| && Before(s[i], r)
      invariant 0 <= i <= |s|
      invariant forall k | 0 <= k < i :: Before(s[k], r)
    {
      i := i + 1;
    }
    InsertedAt(s, r, i);
    t := s[..i] + [r] + s[i..];
  }

  lemma InsertedAt(s: seq<Rank>, r: Rank, i: nat)
    requires Ascending(s) && r !in Elements(s) && i <= |s|
    requires forall k | 0 <= k < i :: Before(s[k], r)
    requires i < |s| ==> !Before(s[i], r)
    ensures var t := s[..i] + [r] + s[i..];
      Ascending(t) && Elements(t) == Elements(s) + {r}
  {
    hide Before; hide Elements;
    var t := s[..i] + [r] + s[i..];
    InsertedElements(s, r, i);
    forall k | i <= k < |s| ensures Before(r, s[k]) {
      ListedAt(s, i);
      BeforeIsStrictTotalOrder(s[i], r, s[k]);
      BeforeIsStrictTotalOrder(r, s[i], s[k]);
    }
    assert forall k | 0 <= k < |t| :: t[k] == if k < i then s[k] else if k == i then r else s[k - 1];
  }

  lemma ListedAt(s: seq<Rank>, i: nat)
    requires i < |s|
    ensures s[i] in Elements(s)
  {
  }

  lemma InsertedElements(s: seq<Rank>, r: Rank, i: nat)
    requires i <= |s|
    ensures Elements(s[..i] + [r] + s[i..]) == Elements(s) + {r}
  {
    var t := s[..i] + [r] + s[i..];
    assert t[i] == r && (forall k | 0 <= k < i :: t[k] == s[k]) && (forall k | i <= k < |s| :: t[k + 1] == s[k]);
    forall x | x in Elements(t) ensures x in Elements(s) + {r} {
      var k :| 0 <= k < |t| && t[k] == x;
      assert x == if k < i then s[k] else if k == i then r else s[k - 1];
    }
  }

  /** `sort.Slice` over a slice without repetitions: whatever order the elements were collected
      in, the outcome is the same listing. */
  method Sort(s: seq<Rank>) returns (t: seq<Rank>)
    requires forall i, j | 0 <= i < j < |s| :: s[i] != s[j]
    ensures t == Sorted(Elements(s))
  {
    hide Before;
    t := [];
    for i := 0 to |s|
      invariant Ascending(t) && Elements(t) == Elements(s[..i])
    {
      AppendElements(s[..i], s[i]);
      assert s[..i + 1] == s[..i] + [s[i]];
      t := Insert(t, s[i]);
    }
    assert s[..|s|] == s;
    SortedIsUnique(t);
  }
}
