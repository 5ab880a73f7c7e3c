/**
 * Python integer operators that differ from Dafny's.  Dafny's `/` and `%`
 * are Euclidean; Python's `%` and `divmod` floor, and `int(a / b)` truncates
 * toward zero.  For a positive divisor Euclidean and floored division agree,
 * so `divmod(x, 100)` and `divmod(x, 60)` are Dafny's `/` and `%` as they are.
 */
module PyArith {

  function Abs(x: int): nat {
    if x < 0 then -x else x
  }

  /** `int(a / b)`: true division, then truncation toward zero. */
  function TruncDiv(a: int, b: int): int
    requires b != 0
  {
    if (a < 0) == (b < 0) then Abs(a) / Abs(b) else -(Abs(a) / Abs(b))
  }

  /** `a % b`: the remainder takes the sign of the divisor. */
  function FloorMod(a: int, b: int): int
    requires b != 0
  {
    if b > 0 then a % b else -((-a) % (-b))
  }

  /** Euclidean quotient and remainder are unique. */
  lemma DivModUnique(a: int, b: int, q: int, r: int)
    requires b > 0 && a == b * q + r && 0 <= r < b
    ensures a / b == q && a % b == r
  {
    var q', r' := a / b, a % b;
    assert b * (q - q') == r' - r;
    if q > q' {
      MulAtLeast(b, q - q');
    } else if q < q' {
      MulAtLeast(b, q' - q);
    }
  }

  lemma MulAtLeast(b: int, k: int)
    requires b > 0 && k >= 1
    ensures b * k >= b
  {
    assert b * k == b + b * (k - 1);
  }

  /** A Python remainder is zero exactly when the absolute divisor divides. */
  lemma FloorModZeroIff(a: int, b: int)
    requires b != 0
    ensures FloorMod(a, b) == 0 <==> a % Abs(b) == 0
  {
    if b < 0 {
      var n := -b;
      if a % n == 0 {
        DivModUnique(-a, n, -(a / n), 0);
      }
      if (-a) % n == 0 {
        DivModUnique(a, n, -((-a) / n), 0);
      }
    }
  }

  /** `int(m * b / b)` is `m`. */
  lemma TruncDivExact(m: int, b: int)
    requires b != 0
    ensures TruncDiv(m * b, b) == m
  {
    var n := Abs(b);
    assert Abs(m * b) == Abs(m) * n by {
      if m < 0 && b < 0 { assert m * b == (-m) * (-b); }
      else if m < 0 { assert -(m * b) == (-m) * b; }
      else if b < 0 { assert -(m * b) == m * (-b); }
    }
    DivModUnique(Abs(m) * n, n, Abs(m), 0);
    if m != 0 {
      assert (m * b < 0) <==> ((m < 0) != (b < 0)) by {
        if m > 0 && b > 0 { MulAtLeast(b, m); }
        else if m > 0 { MulAtLeast(-b, m); assert m * b == -(m * (-b)); }
        else if b > 0 { MulAtLeast(b, -m); assert m * b == -((-m) * b); }
        else { MulAtLeast(-b, -m); assert m * b == (-m) * (-b); }
      }
    }
  }

  /** For a positive divisor, truncating division is Euclidean division on a non-negative dividend. */
  lemma TruncDivNonNeg(a: int, b: int)
    requires a >= 0 && b > 0
    ensures TruncDiv(a, b) == a / b
  {
  }

  /** `j * b <= a` exactly when `j <= a / b`, for a positive divisor. */
  lemma MulLeIffLeDiv(j: int, a: int, b: int)
    requires b > 0
    ensures j * b <= a <==> j <= a / b
  {
    var q := a / b;
    assert a == b * q + a % b;
    if j <= q {
      MulMono(j, q, b);
    } else {
      MulMono(q + 1, j, b);
    }
  }

  lemma MulMono(x: int, y: int, b: int)
    requires x <= y && b >= 0
    ensures x * b <= y * b
  {
    if x < y && b > 0 {
      MulAtLeast(b, y - x);
      assert y * b - x * b == b * (y - x);
    }
  }
}
