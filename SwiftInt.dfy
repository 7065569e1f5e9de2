/**
 * Swift's integer division and remainder on `Int`.
 *
 * Swift's `/` truncates toward zero and `%` takes the sign of the dividend,
 * whereas Dafny's `/` and `%` are Euclidean (the remainder is never negative).
 * Division by zero traps in Swift, so both require a non-zero divisor.
 */
module SwiftInt {
  import Modular

  function Abs(x: int): nat
  {
    if x < 0 then -x else x
  }

  lemma DivIsNatural(n: int, d: int)
    requires n >= 0 && d > 0
    ensures n / d >= 0
  {
  }

  lemma DivModSplit(n: int, d: int)
    requires n >= 0 && d > 0
    ensures n == (n / d) * d + n % d && 0 <= n % d < d
  {
  }

  /** Swift's `a / b`: the quotient truncated toward zero. */
  function Quot(a: int, b: int): (q: int)
    requires b != 0
    ensures Abs(q) == Abs(a) / Abs(b)
    ensures q < 0 ==> (a < 0) != (b < 0)
    ensures q > 0 ==> (a < 0) == (b < 0)
  {
    DivIsNatural(Abs(a), Abs(b));
    if (a < 0) == (b < 0) then Abs(a) / Abs(b) else -(Abs(a) / Abs(b))
  }

  /** `Quot(a, b) * b` is `a` with its remainder toward zero removed. */
  lemma QuotTimesDivisor(a: int, b: int)
    requires b != 0
    ensures Quot(a, b) * b == (if a < 0 then -((Abs(a) / Abs(b)) * Abs(b)) else (Abs(a) / Abs(b)) * Abs(b))
  {
  }

  /** Swift's `a % b`, defined as Swift defines it: `a - (a / b) * b`. */
  function Rem(a: int, b: int): (r: int)
    requires b != 0
    ensures Abs(r) < Abs(b)
    ensures Abs(r) == Abs(a) % Abs(b)
    ensures r < 0 ==> a < 0
    ensures r > 0 ==> a > 0
  {
    QuotTimesDivisor(a, b);
    DivModSplit(Abs(a), Abs(b));
    var r := a - Quot(a, b) * b;
    assert r == (if a < 0 then -(Abs(a) % Abs(b)) else Abs(a) % Abs(b));
    r
  }

  /** On a non-negative dividend and a positive divisor Swift and Dafny agree. */
  lemma RemAgreesWhenNonNegative(a: int, b: int)
    requires a >= 0 && b > 0
    ensures Rem(a, b) == a % b
  {
  }

  /** On a negative dividend that is not a multiple of the divisor they
      differ by the divisor; on a negative multiple both are 0. */
  lemma RemOfNegative(a: int, b: int)
    requires a < 0 && b > 0
    ensures a % b == 0 ==> Rem(a, b) == 0
    ensures a % b != 0 ==> Rem(a, b) == a % b - b
  {
    var q, r := a / b, a % b;
    if r == 0 {
      Modular.ModUnique(-a, b, -q, 0);
    } else {
      Modular.ModUnique(-a, b, -q - 1, b - r);
    }
  }

  /** They can differ: for `-1 % 3` Swift gives -1 where Dafny gives 2. */
  lemma RemDiffersWhenNegative()
    ensures Rem(-1, 3) == -1 && -1 % 3 == 2
  {
  }
}
