/** The integer helpers of src/utils/math.go. */
module MathUtil {

  function Abs(n: int): nat
  {
    if n < 0 then -n else n
  }

  /** Go's `%` operator: the remainder of division truncated toward zero.
      It has the sign of the dividend, is smaller than the divisor in
      magnitude, and leaves a difference that the divisor divides. */
  function GoRem(d: int, m: int): (r: int)
    requires m != 0
    ensures d >= 0 ==> 0 <= r
    ensures d <= 0 ==> r <= 0
    ensures Abs(r) < Abs(m)
    ensures (d - r) % m == 0
  {
    if d >= 0 then
      DivMod(d, m);
      DivisibleDifference(d, m);
      d % m
    else
      var q := (-d) % m;
      DivMod(-d, m);
      DivisibleDifference(-d, m);
      NegateMultiple(-d - q, m);
      assert d - -q == -(-d - q);
      -q
  }

  lemma DivMod(d: int, m: int)
    requires m != 0
    ensures d == (d / m) * m + d % m
    ensures 0 <= d % m < Abs(m)
  {
  }

  lemma MulNonNeg(a: int, b: int) requires a >= 0 && b >= 0 ensures a * b >= 0 {}
  lemma MulNonPos(a: int, b: int) requires a >= 0 && b <= 0 ensures a * b <= 0 {}
  lemma MulNegNeg(a: int, b: int) requires a <= 0 && b <= 0 ensures a * b >= 0 {}

  /** A nonzero multiple of m is at least |m| in magnitude. */
  lemma MulMagnitude(k: int, m: int)
    requires k != 0 && m != 0
    ensures Abs(k * m) >= Abs(m)
  {
    if k > 0 && m > 0 { assert k * m == (k - 1) * m + m; MulNonNeg(k - 1, m); }
    else if k > 0 { assert k * m == (k - 1) * m + m; MulNonPos(k - 1, m); }
    else if m > 0 { assert k * m == (k + 1) * m - m; MulNonPos(m, k + 1); }
    else { assert k * m == (k + 1) * m - m; MulNegNeg(k + 1, m); }
  }

  lemma MultipleMod(k: int, m: int)
    requires m != 0
    ensures (k * m) % m == 0
  {
    var q, r := (k * m) / m, (k * m) % m;
    DivMod(k * m, m);
    assert r == (k - q) * m;
    if k - q != 0 { MulMagnitude(k - q, m); }
  }

  lemma DivisibleDifference(d: int, m: int)
    requires m != 0
    ensures (d - d % m) % m == 0
  {
    DivMod(d, m);
    assert d - d % m == (d / m) * m;
    MultipleMod(d / m, m);
  }

  lemma NegateMultiple(a: int, m: int)
    requires m != 0
    requires a % m == 0
    ensures (-a) % m == 0
  {
    DivMod(a, m);
    assert -a == (-(a / m)) * m;
    MultipleMod(-(a / m), m);
  }

  /** Mod of a number, "the Python way": the result takes the sign of the
      divisor. A zero divisor is a run-time panic in the source, hence the
      precondition. */
  function Mod(d: int, m: int): (r: int)
    requires m != 0
    ensures m > 0 ==> 0 <= r < m
    ensures m < 0 ==> m < r <= 0
    ensures (d - r) % m == 0
  {
    var res := GoRem(d, m);
    if (res < 0 && m > 0) || (res > 0 && m < 0) then
      assert (d - (res + m)) % m == 0 by { ShiftMultiple(d - res, m); }
      res + m
    else
      res
  }

  lemma ShiftMultiple(a: int, m: int)
    requires m != 0
    requires a % m == 0
    ensures (a - m) % m == 0
  {
    DivMod(a, m);
    assert a - m == (a / m - 1) * m;
    MultipleMod(a / m - 1, m);
  }

  /** Two remainders in [0, m) of numbers congruent modulo m agree. */
  lemma RemainderUnique(d: int, m: int, r: int, s: int)
    requires m > 0
    requires 0 <= r < m && 0 <= s < m
    requires (d - r) % m == 0 && (d - s) % m == 0
    ensures r == s
  {
    DivMod(d - r, m);
    DivMod(d - s, m);
    var a, b := (d - r) / m, (d - s) / m;
    assert s - r == (a - b) * m;
    if a - b != 0 { MulMagnitude(a - b, m); }
  }

  /** For a positive divisor the Python-style Mod is Dafny's Euclidean `%`. */
  lemma {:induction false} ModIsEuclidean(d: int, m: int)
    requires m > 0
    ensures Mod(d, m) == d % m
  {
    DivisibleDifference(d, m);
    RemainderUnique(d, m, Mod(d, m), d % m);
  }

  /** A value already in [0, m) is its own residue. */
  lemma ModOfResidue(d: int, m: int)
    requires 0 <= d < m
    ensures Mod(d, m) == d
  {
    assert d % m == d;
    assert GoRem(d, m) == d;
  }
}
