/** Decimal numbers in generated step names. */
module Names {

  function Digit(d: nat): char
    requires d < 10
  {
    "0123456789"[d]
  }

  /** `%d` for a non-negative number. */
  function Decimal(n: nat): (s: string)
    ensures |s| > 0
  {
    if n < 10 then [Digit(n)] else Decimal(n / 10) + [Digit(n % 10)]
  }

  predicate IsDigit(c: char) {
    '0' <= c <= '9'
  }

  /** The number that digits stand for. */
  function NumberOf(s: string): int {
    if s == "" then 0 else 10 * NumberOf(s[..|s| - 1]) + (s[|s| - 1] as int - '0' as int)
  }

  lemma DigitIs(d: nat)
    requires d < 10
    ensures IsDigit(Digit(d)) && Digit(d) as int - '0' as int == d
  {
    assert "0123456789"[d] as int == '0' as int + d;
  }

  /** A number is printed in digits that stand for it, without a leading zero. */
  lemma {:induction false} DecimalStandsFor(n: nat)
    ensures NumberOf(Decimal(n)) == n
    ensures forall i :: 0 <= i < |Decimal(n)| ==> IsDigit(Decimal(n)[i])
    ensures Decimal(n)[0] == '0' ==> n == 0
  {
    DigitIs(n % 10);
    var s := Decimal(n);
    if n < 10 {
      assert s[..|s| - 1] == "";
    } else {
      DecimalStandsFor(n / 10);
      assert s[..|s| - 1] == Decimal(n / 10) && s[|s| - 1] == Digit(n % 10);
    }
  }

  lemma NoDash(n: nat)
    ensures '-' !in Decimal(n)
  {
    DecimalStandsFor(n);
    assert !IsDigit('-');
  }

  lemma DecimalInjective(m: nat, n: nat)
    requires Decimal(m) == Decimal(n)
    ensures m == n
  {
    DecimalStandsFor(m);
    DecimalStandsFor(n);
  }

  /** A number followed by a dash can be read back from whatever follows. */
  lemma NumberedInjective(m: nat, n: nat, x: string, y: string)
    requires Decimal(m) + "-" + x == Decimal(n) + "-" + y
    ensures m == n && x == y
  {
    NoDash(m);
    NoDash(n);
    var s := Decimal(m) + "-" + x;
    var a, b := |Decimal(m)|, |Decimal(n)|;
    assert s[a] == '-' && s[b] == '-';
    assert forall i :: 0 <= i < a ==> s[i] == Decimal(m)[i] != '-';
    assert forall i :: 0 <= i < b ==> s[i] == Decimal(n)[i] != '-';
    assert Decimal(m) == s[..a] && Decimal(n) == s[..b];
    DecimalInjective(m, n);
    assert x == s[a + 1..] && y == s[b + 1..];
  }
}
