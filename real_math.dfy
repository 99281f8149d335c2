/** Facts about real arithmetic used by the dot-grid proofs. The solver
    reasons about products most reliably when a product is handed to a lemma
    as a separate argument (`ab == a * b`), so most lemmas here take their
    products that way. */
module RealMath {

  function Max(a: real, b: real): real { if a < b then b else a }
  function Min(a: real, b: real): real { if a < b then a else b }

  lemma MulLe(a: real, b: real, c: real)
    requires a <= b && 0.0 <= c
    ensures a * c <= b * c
  {
    assert b * c - a * c == (b - a) * c;
  }

  lemma MulLt(a: real, b: real, c: real)
    requires a < b && 0.0 < c
    ensures a * c < b * c
  {
    assert b * c - a * c == (b - a) * c;
  }

  /** Multiplying by a positive k preserves comparisons. */
  lemma MulMono(a: real, b: real, k: real, ak: real, bk: real)
    requires k > 0.0 && ak == a * k && bk == b * k
    ensures a <= b <==> ak <= bk
    ensures a < b <==> ak < bk
  {
    if a < b { MulPos(b - a, k, bk - ak); }
    if b < a { MulPos(a - b, k, ak - bk); }
  }

  lemma MulPos(a: real, b: real, ab: real)
    requires ab == a * b && a > 0.0 && b > 0.0
    ensures ab > 0.0
  {
  }

  lemma SquarePos(a: real, aa: real)
    requires aa == a * a && a != 0.0
    ensures aa > 0.0
  {
    if a > 0.0 { MulPos(a, a, aa); } else { MulPos(-a, -a, aa); }
  }

  lemma SquareNonNeg(a: real, aa: real)
    requires aa == a * a
    ensures aa >= 0.0
  {
    if a != 0.0 { SquarePos(a, aa); }
  }

  lemma SquareZero(a: real, aa: real)
    requires aa == a * a && aa == 0.0
    ensures a == 0.0
  {
    if a != 0.0 { SquarePos(a, aa); }
  }

  /** `s * k == k` with `k > 0` forces `s == 1`. */
  lemma Cancel(s: real, k: real, sk: real)
    requires k > 0.0 && sk == s * k && sk == k
    ensures s == 1.0
  {
    if s < 1.0 { MulPos(1.0 - s, k, k - sk); }
    if s > 1.0 { MulPos(s - 1.0, k, sk - k); }
  }

  lemma ScaledSquare(u: real, d: real, x: real)
    requires u * d == x
    ensures (u * u) * (d * d) == x * x
  {
    assert (u * u) * (d * d) == (u * d) * (u * d);
  }

  /** Scaling a unit vector by `p` gives a vector (qx, qy) of squared length `p * p`. */
  lemma ScaledUnit(ux: real, uy: real, p: real, qx: real, qy: real)
    requires ux * ux + uy * uy == 1.0 && qx == ux * p && qy == uy * p
    ensures qx * qx + qy * qy == p * p
  {
    assert qx * qx + qy * qy == (ux * ux + uy * uy) * (p * p);
  }

  lemma Along(u: real, d: real, x: real, p: real)
    requires d * u == x
    ensures (u * p) * d == x * p
  {
    assert (u * p) * d == (d * u) * p;
  }

  lemma SquareLt(a: real, b: real, aa: real, bb: real)
    requires 0.0 <= a < b && aa == a * a && bb == b * b
    ensures aa < bb
  {
    MulPos(b - a, b + a, bb - aa);
  }

  /** For non-negative a and b, comparing them is comparing their squares. */
  lemma SquareMono(a: real, b: real)
    requires 0.0 <= a && 0.0 <= b
    ensures a <= b <==> a * a <= b * b
    ensures a < b <==> a * a < b * b
  {
    if a < b { SquareLt(a, b, a * a, b * b); } else if b < a { SquareLt(b, a, b * b, a * a); }
  }

  /** Dividing by a positive b preserves comparisons: a / b against c is
      a against c * b. */
  lemma DivCompare(a: real, b: real, c: real)
    requires b > 0.0
    ensures a / b <= c <==> a <= c * b
    ensures a / b < c <==> a < c * b
  {
    var q := a / b;
    assert q * b == a;
    MulMono(q, c, b, a, c * b);
  }

  /** `q ^ n`. */
  function Pow(q: real, n: nat): real {
    if n == 0 then 1.0 else q * Pow(q, n - 1)
  }

  /** For `0 <= q <= 1`, `q ^ n` lies in `[0, 1]` and does not grow with n. */
  lemma {:induction false} PowInUnit(q: real, n: nat)
    requires 0.0 <= q <= 1.0
    ensures 0.0 <= Pow(q, n) <= 1.0
    ensures Pow(q, n + 1) <= Pow(q, n)
  {
    if n > 0 {
      PowInUnit(q, n - 1);
      var p := Pow(q, n - 1);
      MulLe(p, 1.0, q);
      MulLe(0.0, p, q);
    }
    MulLe(q, 1.0, Pow(q, n));
  }

  /** The step of PowDecay's induction, with every product named and
      `r = 1 - q`: from `p * b <= 1` and `p <= 1`, `(q * p) * (b + r) <= 1`. */
  lemma DecayStep(q: real, r: real, p: real, b: real, pb: real, qp: real, c: real)
    requires 0.0 <= q < 1.0 && r == 1.0 - q && 0.0 <= p <= 1.0
    requires pb == p * b && pb <= 1.0 && qp == q * p && c == b + r
    ensures qp * c <= 1.0
  {
    MulAtMost(p, q, p * q);
    var first, second := pb * q, qp * r;
    MulAtMost(pb, q, first);
    MulAtMost(qp, r, second);
    assert qp * c == first + second by {
      assert qp * b == first;
    }
  }

  /** A factor at most 1 does not increase a non-negative number. */
  lemma MulAtMost(a: real, b: real, ab: real)
    requires ab == a * b && a <= 1.0 && 0.0 <= b
    ensures ab <= b
  {
    MulLe(a, 1.0, b);
  }

  /** For `0 <= q < 1`, `q ^ n <= 1 / (1 + n * (1 - q))`: it falls below any
      positive bound once n is large enough. */
  /** `q ^ n <= 1 / (1 + n * (1 - q))`, written without the division. */
  predicate DecayBounded(q: real, n: nat) {
    Pow(q, n) * (1.0 + n as real * (1.0 - q)) <= 1.0
  }

  lemma {:induction false} PowDecay(q: real, n: nat)
    requires 0.0 <= q < 1.0
    ensures Pow(q, n) * (1.0 + n as real * (1.0 - q)) <= 1.0
  {
    if n > 0 {
      PowDecay(q, n - 1);
      PowInUnit(q, n - 1);
      var p, m := Pow(q, n - 1), (n - 1) as real;
      var b := 1.0 + m * (1.0 - q);
      assert n as real * (1.0 - q) == m * (1.0 - q) + (1.0 - q) by {
        assert n as real == m + 1.0;
      }
      DecayStep(q, 1.0 - q, p, b, p * b, q * p, 1.0 + n as real * (1.0 - q));
    }
  }

  /** `(k ^ n) ^ 2 == (k ^ 2) ^ n`. */
  lemma {:induction false} PowSquare(k: real, n: nat)
    ensures Pow(k, n) * Pow(k, n) == Pow(k * k, n)
  {
    if n > 0 {
      PowSquare(k, n - 1);
      var p := Pow(k, n - 1);
      assert (k * p) * (k * p) == (k * k) * (p * p);
    }
  }

  /** No factor at all: `a * k ^ 0 == a`. */
  lemma PowZero(a: real, k: real, n: nat)
    requires n == 0
    ensures a * Pow(k, n) == a
  {
  }

  /** One more factor k: `(a * k ^ m) * k == a * k ^ (m + 1)`. */
  lemma PowNext(a: real, k: real, m: nat, n: nat, aq: real, aqk: real)
    requires n == m + 1 && aq == a * Pow(k, m) && aqk == aq * k
    ensures aqk == a * Pow(k, n)
  {
    var q := Pow(k, m);
    assert Pow(k, n) == k * q;
    assert (a * q) * k == a * (k * q);
  }

  /** Scaling (x, y) by s scales its squared length by `s * s`. */
  lemma ScaledLength(x: real, y: real, s: real, sx: real, sy: real, ss: real)
    requires sx == x * s && sy == y * s && ss == s * s
    ensures sx * sx + sy * sy == (x * x + y * y) * ss
  {
    assert sx * sx == (x * x) * ss && sy * sy == (y * y) * ss;
  }

  /** The squared length of (x, y). */
  function SquaredLength(x: real, y: real): real {
    x * x + y * y
  }

  /** Scaling (x, y) by `k ^ n` with `-1 < k < 1` scales its squared length by
      `(k * k) ^ n`, a factor in [0, 1] that never grows and is at most
      `1 / (1 + n * (1 - k * k))`. */
  lemma PowLength(k: real, q: real, n: nat, x: real, y: real, sx: real, sy: real)
    requires -1.0 < k < 1.0 && q == k * k && sx == x * Pow(k, n) && sy == y * Pow(k, n)
    ensures 0.0 <= q < 1.0 &&
      SquaredLength(sx, sy) == SquaredLength(x, y) * Pow(q, n) &&
      Pow(q, n + 1) <= Pow(q, n) <= 1.0 &&
      DecayBounded(q, n)
  {
    SquareNonNeg(k, q);
    if k >= 0.0 { SquareLt(k, 1.0, q, 1.0); } else { SquareLt(-k, 1.0, q, 1.0); }
    PowSquare(k, n);
    PowInUnit(q, n);
    PowDecay(q, n);
    ScaledLength(x, y, Pow(k, n), sx, sy, Pow(q, n));
  }
}
