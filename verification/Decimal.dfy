/** Decimal printing as Python's `str(int)` and `f"{n:02d}"` do it, for the natural numbers. */
module Decimal {

  predicate IsDigit(c: char) {
    '0' <= c <= '9'
  }

  predicate AllDigits(s: string) {
    forall i :: 0 <= i < |s| ==> IsDigit(s[i])
  }

  function Digit(d: nat): (c: char)
    requires d < 10
    ensures IsDigit(c)
  {
    ('0' as int + d) as char
  }

  function Str(n: nat): (s: string)
    ensures s != [] && AllDigits(s)
  {
    if n < 10 then [Digit(n)] else Str(n / 10) + [Digit(n % 10)]
  }

  function Pad2(n: nat): string {
    if n < 10 then "0" + Str(n) else Str(n)
  }

  /** Reading a numeral back: the inverse of `Str`. */
  function Val(s: string): (n: nat)
    requires AllDigits(s)
  {
    if s == [] then 0
    else 10 * Val(s[..|s| - 1]) + (s[|s| - 1] as int - '0' as int)
  }

  lemma {:induction false} ValStr(n: nat)
    ensures Val(Str(n)) == n
  {
    if n < 10 {
      assert Str(n)[..0] == [];
    } else {
      var s := Str(n);
      assert s[..|s| - 1] == Str(n / 10);
      ValStr(n / 10);
    }
  }

  lemma StrInjective(m: nat, n: nat)
    ensures Str(m) == Str(n) ==> m == n
  {
    ValStr(m);
    ValStr(n);
  }

  lemma {:induction false} LeadingDigit(n: nat)
    ensures Str(n)[0] == '0' ==> n == 0
  {
    if n >= 10 {
      LeadingDigit(n / 10);
      assert Str(n)[0] == Str(n / 10)[0];
    }
  }

  lemma Pad2Injective(m: nat, n: nat)
    ensures Pad2(m) == Pad2(n) ==> m == n
  {
    if Pad2(m) == Pad2(n) {
      LeadingDigit(m);
      LeadingDigit(n);
      StrInjective(m, n);
      assert m < 10 <==> Pad2(m)[0] == '0';
      assert n < 10 <==> Pad2(n)[0] == '0';
      if m < 10 {
        assert Pad2(m)[1..] == Str(m);
        assert Pad2(n)[1..] == Str(n);
      }
    }
  }

  /**
   * A numeral that ends a string, after a non-digit, is determined by the string: the two splits
   * of one string into "non-digit-ended prefix, numeral" are the same split.
   */
  lemma SuffixNumeral(a: string, m: string, b: string, n: string)
    requires a != [] && !IsDigit(a[|a| - 1]) && AllDigits(m)
    requires b != [] && !IsDigit(b[|b| - 1]) && AllDigits(n)
    requires a + m == b + n
    ensures a == b && m == n
  {
    var s := a + m;
    assert s[|a| - 1] == a[|a| - 1] && s[|b| - 1] == b[|b| - 1];
    assert |a| == |b|;
    assert a == s[..|a|] == b;
    assert m == s[|a|..] == n;
  }
}
