/** Integer helpers that reproduce the C++ arithmetic the drawer relies on.
    Dafny's `/` and `%` are Euclidean; C++ `%` truncates toward zero, so the
    remainder takes the sign of the dividend. */
module CppArith {

  function Abs(a: int): (r: nat)
    ensures r == a || r == -a
  {
    if a < 0 then -a else a
  }

  function Min(a: int, b: int): (r: int)
    ensures r <= a && r <= b && (r == a || r == b)
  {
    if a <= b then a else b
  }

  function Max(a: int, b: int): (r: int)
    ensures r >= a && r >= b && (r == a || r == b)
  {
    if a >= b then a else b
  }

  /** C++ `a % b` for a non-zero divisor: the unique r with |r| < |b|, r zero
      or of the sign of a, and a - r a multiple of b. The sign of b plays no
      part. */
  function CppRem(a: int, b: int): (r: int)
    requires b != 0
    ensures Abs(r) < Abs(b)
    ensures r == 0 || (r < 0 <==> a < 0)
    ensures (a - r) % Abs(b) == 0
    ensures a >= 0 ==> r == a % Abs(b)
  {
    var d := Abs(b);
    if a < 0 then
      var m := (-a) % d;
      NegatedMultiple(-a, d);
      assert 0 <= m < d && (a + m) % d == 0;
      -m
    else
      var m := a % d;
      ModUnique(a - m, d, a / d, 0);
      assert 0 <= m < d && (a - m) % d == 0;
      m
  }

  /** Dafny's `%` and `/` are the unique remainder in [0, b) and its quotient. */
  lemma ModUnique(a: int, b: int, q: int, r: int)
    requires b > 0
    requires 0 <= r < b
    requires a == q * b + r
    ensures a % b == r && a / b == q
  {
    var q', r' := a / b, a % b;
    assert a == q' * b + r';
    var d := q - q';
    assert d * b == r' - r;
    NonzeroMultiple(d, b);
  }

  lemma NonzeroMultiple(d: int, b: int)
    requires b > 0
    ensures d != 0 ==> Abs(d * b) >= b
  {
    if d >= 1 {
      assert d * b >= 1 * b;
    } else if d <= -1 {
      assert (-d) * b >= 1 * b;
    }
  }

  /** Removing the remainder of n leaves a multiple of b, and so does its negation. */
  lemma NegatedMultiple(n: int, b: int)
    requires b > 0 && n >= 0
    ensures (-n + n % b) % b == 0
  {
    var q := n / b;
    assert n == q * b + n % b;
    assert -n + n % b == (-q) * b + 0;
    ModUnique(-n + n % b, b, -q, 0);
  }

  /** Monotonicity, cancellation and reassociation of products, for the
      nonlinear steps the solver does not take on its own. */
  lemma MulMono(a: int, b: int, c: int)
    requires a <= b && c >= 0
    ensures a * c <= b * c
  {
  }

  lemma MulCancel(a: int, b: int, c: int)
    requires c > 0
    ensures a * c < b * c ==> a < b
  {
    if a >= b {
      MulMono(b, a, c);
    }
  }

  lemma MulAssoc(a: int, b: int, c: int)
    ensures (a * b) * c == a * (c * b)
  {
  }

  /** The ceiling of a real, as `std::ceil` followed by a conversion to int. */
  function Ceil(y: real): (r: int)
    ensures r as real - 1.0 < y <= r as real
  {
    -((-y).Floor)
  }
}
