/** Decimal notation, and names that end in a dash and a number. */
module Decimals {
  /** Decimal notation of a natural number. */
  function Decimal(n: nat): (s: string)
    ensures s != [] && forall c :: c in s ==> '0' <= c <= '9'
  {
    if n < 10 then [['0', '1', '2', '3', '4', '5', '6', '7', '8', '9'][n]]
    else Decimal(n / 10) + Decimal(n % 10)
  }

  function Digit(c: char): nat {
    if '0' <= c <= '9' then (c - '0') as nat else 0
  }

  function Value(s: string): nat {
    if s == [] then 0 else 10 * Value(s[..|s| - 1]) + Digit(s[|s| - 1])
  }

  lemma {:induction false} ValueOfDecimal(n: nat)
    ensures Value(Decimal(n)) == n
    decreases n
  {
    var s := Decimal(n);
    if n >= 10 {
      ValueOfDecimal(n / 10);
      assert s == Decimal(n / 10) + Decimal(n % 10);
      assert |Decimal(n % 10)| == 1;
      assert s[..|s| - 1] == Decimal(n / 10);
      assert s[|s| - 1] == Decimal(n % 10)[0];
    } else {
      assert s[..|s| - 1] == [];
    }
  }

  lemma DashAt(a: string, s: string)
    requires '-' !in s
    ensures var w := a + "-" + s;
            w[|a|] == '-' && (forall i :: |a| < i < |w| ==> w[i] != '-') && w[..|a|] == a && w[|a| + 1..] == s
  {
    var w := a + "-" + s;
    forall i | |a| < i < |w|
      ensures w[i] != '-'
    {
      assert w[i] == s[i - |a| - 1];
    }
  }

  /** What stands before and after the last dash of a name. */
  lemma LastDash(a: string, s: string, b: string, t: string)
    requires a + "-" + s == b + "-" + t
    requires '-' !in s && '-' !in t
    ensures a == b && s == t
  {
    DashAt(a, s);
    DashAt(b, t);
    assert |a| == |b|;
  }

  /** A name that ends in a dash and a number determines what precedes them. */
  lemma NumberedNames(a: string, x: nat, b: string, y: nat)
    requires a + "-" + Decimal(x) == b + "-" + Decimal(y)
    ensures a == b && x == y
  {
    LastDash(a, Decimal(x), b, Decimal(y));
    ValueOfDecimal(x);
    ValueOfDecimal(y);
  }
}
