/** Decimal numerals and the event IDs `generation:sequence:index` built from them. */
module EventIds {
  import opened Common

  const DIGITS: string := "0123456789"

  function Decimal(n: nat): string {
    if n < 10 then [DIGITS[n]] else Decimal(n / 10) + [DIGITS[n % 10]]
  }

  lemma DigitsDistinct(i: nat, j: nat)
    requires i < 10 && j < 10 && DIGITS[i] == DIGITS[j]
    ensures i == j
  {
  }

  lemma {:induction false} DecimalNoColon(n: nat)
    ensures ':' !in Decimal(n) && Decimal(n) != []
  {
    assert forall i :: 0 <= i < 10 ==> DIGITS[i] != ':';
    if n >= 10 {
      DecimalNoColon(n / 10);
    }
  }

  lemma {:induction false} DecimalInjective(m: nat, n: nat)
    requires Decimal(m) == Decimal(n)
    ensures m == n
  {
    DecimalNoColon(m / 10);
    DecimalNoColon(n / 10);
    var s := Decimal(m);
    assert s[|s| - 1] == DIGITS[m % 10] && s[|s| - 1] == DIGITS[n % 10];
    DigitsDistinct(m % 10, n % 10);
    if m >= 10 && n >= 10 {
      assert Decimal(m / 10) == s[..|s| - 1] == Decimal(n / 10);
      DecimalInjective(m / 10, n / 10);
    }
  }

  function EventId(generation: string, sequence: nat, index: nat): string {
    generation + ":" + Decimal(sequence) + ":" + Decimal(index)
  }

  lemma LastColon(a: string, x: string)
    requires ':' !in x
    ensures var s := a + ":" + x; s[|a|] == ':' && forall i :: |a| < i < |s| ==> s[i] != ':'
  {
    var s := a + ":" + x;
    forall i | |a| < i < |s| ensures s[i] != ':' {
      assert s[i] == x[i - |a| - 1];
    }
  }

  /** Only the last field may be compared from the right, as the generation may hold colons. */
  lemma LastField(a: string, x: string, b: string, y: string)
    requires a + ":" + x == b + ":" + y && ':' !in x && ':' !in y
    ensures a == b && x == y
  {
    var left, right := a + ":" + x, b + ":" + y;
    LastColon(a, x);
    LastColon(b, y);
    assert left[|b|] == ':' && right[|a|] == ':';
    assert |a| == |b|;
    assert a == left[..|a|] == right[..|b|] == b;
    assert x == left[|a| + 1..] == right[|b| + 1..] == y;
  }

  lemma EventIdInjective(g: string, s: nat, i: nat, g2: string, s2: nat, i2: nat)
    requires EventId(g, s, i) == EventId(g2, s2, i2)
    ensures g == g2 && s == s2 && i == i2
  {
    DecimalNoColon(s);
    DecimalNoColon(i);
    DecimalNoColon(s2);
    DecimalNoColon(i2);
    LastField(g + ":" + Decimal(s), Decimal(i), g2 + ":" + Decimal(s2), Decimal(i2));
    LastField(g, Decimal(s), g2, Decimal(s2));
    DecimalInjective(s, s2);
    DecimalInjective(i, i2);
  }
}
