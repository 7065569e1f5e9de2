/** Facts about Dafny's Euclidean `%` that the wrap-around proofs use. */
module Modular {

  lemma MulAtLeast(k: int, c: int)
    requires k >= 1 && c > 0
    ensures k * c >= c
  {
  }

  /** A remainder in `[0, c)` of some decomposition is the remainder. */
  lemma ModUnique(a: int, c: int, q: int, r: int)
    requires c > 0 && a == q * c + r && 0 <= r < c
    ensures a % c == r
  {
    var q', r' := a / c, a % c;
    assert (q - q') * c == r' - r;
    if q > q' {
      MulAtLeast(q - q', c);
    } else if q < q' {
      MulAtLeast(q' - q, c);
    }
  }

  /** Adding the modulus does not change the remainder. */
  lemma ShiftByModulus(x: int, c: int)
    requires c > 0
    ensures (x + c) % c == x % c
  {
    ModUnique(x + c, c, x / c + 1, x % c);
  }

  /** Reducing before adding gives the same remainder as adding first. */
  lemma ModOfSum(x: int, d: int, c: int)
    requires c > 0
    ensures (x % c + d) % c == (x + d) % c
  {
    var y := x % c + d;
    assert x == (x / c) * c + x % c;
    assert y == (y / c) * c + y % c;
    assert x + d == (x / c + y / c) * c + y % c by {
      assert (x / c) * c + (y / c) * c == (x / c + y / c) * c;
    }
    ModUnique(x + d, c, x / c + y / c, y % c);
  }

  /** A value already in `[0, c)` is its own remainder. */
  lemma ModOfSmall(x: int, c: int)
    requires 0 <= x < c
    ensures x % c == x
  {
    ModUnique(x, c, 0, x);
  }
}
