/** Generated identifiers: a prefix that tells deltas from jobs, and a number in decimal. */
module Names {
  function Decimal(n: nat): (s: string)
    ensures |s| > 0
  {
    if n < 10 then [Digit(n)] else Decimal(n / 10) + [Digit(n % 10)]
  }

  function Digit(d: nat): char
    requires d < 10
  {
    "0123456789"[d]
  }

  lemma {:induction false} DecimalInjective(m: nat, n: nat)
    requires Decimal(m) == Decimal(n)
    ensures m == n
  {
    var a, b := Decimal(m), Decimal(n);
    assert a[|a| - 1] == Digit(m % 10) && b[|b| - 1] == Digit(n % 10);
    if m >= 10 && n >= 10 {
      assert a[..|a| - 1] == Decimal(m / 10) && b[..|b| - 1] == Decimal(n / 10);
      DecimalInjective(m / 10, n / 10);
    }
  }

  /** The number a text of decimal digits stands for. */
  function Value(s: string): int {
    if s == "" then 0 else Value(s[..|s| - 1]) * 10 + (s[|s| - 1] as int - '0' as int)
  }

  /** The usual decimal notation: the digits stand for the number, and the first is not zero, but for the text of 0. */
  lemma {:induction false} DecimalReadsBack(n: nat)
    ensures var s := Decimal(n);
      && Value(s) == n && (forall i | 0 <= i < |s| :: '0' <= s[i] <= '9')
      && (if n == 0 then s == "0" else s[0] != '0')
  {
    hide Value;
    if n < 10 {
      ValueAppend("", n);
      assert "" + [Digit(n)] == [Digit(n)];
    } else {
      DecimalReadsBack(n / 10);
      ValueAppend(Decimal(n / 10), n % 10);
    }
  }

  lemma ValueAppend(s: string, d: nat)
    requires d < 10
    ensures Value("") == 0 && Value(s + [Digit(d)]) == Value(s) * 10 + d
  {
    var t := s + [Digit(d)];
    assert t[..|t| - 1] == s;
  }

  function Name(prefix: string, n: nat): string {
    prefix + Decimal(n)
  }

  lemma NameInjective(prefix: string, m: nat, n: nat)
    ensures Name(prefix, m) == Name(prefix, n) <==> m == n
  {
    if Name(prefix, m) == Name(prefix, n) {
      assert Name(prefix, m)[|prefix|..] == Decimal(m);
      assert Name(prefix, n)[|prefix|..] == Decimal(n);
      DecimalInjective(m, n);
    }
  }

  /** The occupied names numbered above n: what a probing loop may still run into. */
  ghost function Above(prefix: string, n: nat, used: set<string>): set<string> {
    set u | u in used && exists i: nat :: i > n && u == Name(prefix, i)
  }

  lemma AboveShrinks(prefix: string, n: nat, used: set<string>)
    requires Name(prefix, n + 1) in used
    ensures Above(prefix, n + 1, used) < Above(prefix, n, used)
  {
    var u := Name(prefix, n + 1);
    assert u in Above(prefix, n, used);
    forall i: nat | i > n + 1 ensures Name(prefix, i) != u {
      NameInjective(prefix, i, n + 1);
    }
    assert u !in Above(prefix, n + 1, used);
  }

  /** The number a probing loop stops at. The loop ends for every finite set of occupied ids. */
  ghost function FirstFree(prefix: string, n: nat, used: set<string>): (m: nat)
    ensures m > n && Name(prefix, m) !in used
    ensures forall i: nat | n < i < m :: Name(prefix, i) in used
    decreases Above(prefix, n, used)
  {
    if Name(prefix, n + 1) in used then
      AboveShrinks(prefix, n, used);
      FirstFree(prefix, n + 1, used)
    else n + 1
  }

  /** Names above the counter are free. */
  ghost predicate FreshAbove(prefix: string, n: nat, used: set<string>) {
    forall i: nat | i > n :: Name(prefix, i) !in used
  }

  lemma NextIsFree(prefix: string, n: nat, used: set<string>)
    requires FreshAbove(prefix, n, used)
    ensures FirstFree(prefix, n, used) == n + 1 && Name(prefix, n + 1) !in used
  {
  }

  lemma AddingKeepsFresh(prefix: string, n: nat, m: nat, used: set<string>)
    requires FreshAbove(prefix, n, used) && m > n
    ensures FreshAbove(prefix, m, used + {Name(prefix, m)})
  {
    forall i: nat | i > m ensures Name(prefix, i) != Name(prefix, m) {
      NameInjective(prefix, i, m);
    }
  }

  /** Probing sees only the names above its starting point. */
  lemma {:induction false} FirstFreeDependsAbove(prefix: string, n: nat, used: set<string>, more: set<string>)
    requires used <= more
    requires forall i: nat | i > n :: Name(prefix, i) in more ==> Name(prefix, i) in used
    ensures FirstFree(prefix, n, more) == FirstFree(prefix, n, used)
  {
    var a, b := FirstFree(prefix, n, used), FirstFree(prefix, n, more);
    assert Name(prefix, a) !in more;
    assert Name(prefix, b) !in used;
  }

  /** The probing loop: count up until a name is free. */
  method Probe(prefix: string, start: nat, used: set<string>) returns (n: nat)
    ensures n == FirstFree(prefix, start, used)
  {
    n := start + 1;
    while Name(prefix, n) in used
      invariant n > start
      invariant FirstFree(prefix, n - 1, used) == FirstFree(prefix, start, used)
      decreases Above(prefix, n - 1, used)
    {
      AboveShrinks(prefix, n - 1, used);
      n := n + 1;
    }
  }
}
