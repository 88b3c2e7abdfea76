/** Machine integers and the division that rounds toward zero. */
module RustInt {
  const U32_RANGE := 0x1_0000_0000
  const I32_MAX := 0x7fff_ffff
  const I32_MIN := -0x8000_0000
  const I64_MAX := 0x7fff_ffff_ffff_ffff
  const I64_MIN := -0x8000_0000_0000_0000

  predicate FitsI32(x: int) {
    I32_MIN <= x <= I32_MAX
  }

  predicate FitsI64(x: int) {
    I64_MIN <= x <= I64_MAX
  }

  function Abs(x: int): nat {
    if x < 0 then -x else x
  }

  /** The quotient of `/`, rounded toward zero. */
  function Quot(a: int, b: int): int
    requires b != 0
  {
    if (a < 0) == (b < 0) then Abs(a) / Abs(b) else -(Abs(a) / Abs(b))
  }

  /** The remainder of `%`, with the sign of the dividend. */
  function Rem(a: int, b: int): int
    requires b != 0
  {
    if a < 0 then -(Abs(a) % Abs(b)) else a % Abs(b)
  }

  lemma QuotRem(a: int, b: int)
    requires b != 0
    ensures a == Quot(a, b) * b + Rem(a, b)
    ensures Abs(Rem(a, b)) < Abs(b)
    ensures (a >= 0 ==> Rem(a, b) >= 0) && (a <= 0 ==> Rem(a, b) <= 0)
  {
  }

  /** Quotient and remainder are determined by their defining laws. */
  lemma QuotIsUnique(a: int, b: int, q: int, r: int)
    requires b != 0 && a == q * b + r && Abs(r) < Abs(b)
    requires (a > 0 ==> r >= 0) && (a < 0 ==> r <= 0) && (a == 0 ==> r == 0)
    ensures q == Quot(a, b) && r == Rem(a, b)
  {
    QuotRem(a, b);
    var d := q - Quot(a, b);
    assert d * b == q * b - Quot(a, b) * b == Rem(a, b) - r;
    if d != 0 {
      assert Abs(d * b) >= Abs(b) by {
        SizeOfProduct(d, b);
      }
    }
  }

  lemma NatProduct(a: nat, b: nat)
    ensures a * b >= 0
    ensures a != 0 ==> a * b >= b
  {
  }

  lemma SizeOfProduct(a: int, b: int)
    ensures Abs(a * b) == Abs(a) * Abs(b)
    ensures a != 0 ==> Abs(a * b) >= Abs(b)
  {
    NatProduct(Abs(a), Abs(b));
    if a >= 0 {
      assert b >= 0 || a * b == -(a * -b);
    } else {
      assert b >= 0 || a * b == -a * -b;
      assert b < 0 || a * b == -(-a * b);
    }
  }

  lemma ProductMonotone(a: int, b: int, k: nat)
    requires a <= b
    ensures a * k <= b * k
  {
  }

  lemma ProductCancels(a: int, b: int, k: nat)
    requires a * k < b * k
    ensures a < b
  {
  }

  lemma EqualProducts(a: int, b: int, k: int)
    requires k != 0
    ensures a * k - b * k == 0 <==> a == b
  {
  }

  lemma SumTimes(a: int, b: int, k: int)
    ensures (a + b) * k == a * k + b * k
  {
  }

  lemma QuotIsNoLarger(a: int, b: int)
    requires b != 0
    ensures Abs(Quot(a, b)) <= Abs(a)
  {
    QuotIsShare(a, b);
    NatProduct(Abs(b), Abs(Quot(a, b)));
  }

  lemma QuotIsShare(a: int, b: int)
    requires b != 0
    ensures Abs(Quot(a, b)) * Abs(b) <= Abs(a)
  {
    var q, r := Abs(a) / Abs(b), Abs(a) % Abs(b);
    assert Abs(Quot(a, b)) == q;
    assert Abs(a) == q * Abs(b) + r;
  }

  function Pow10(n: nat): (p: nat)
    ensures p > 0
  {
    if n == 0 then 1 else 10 * Pow10(n - 1)
  }
}
