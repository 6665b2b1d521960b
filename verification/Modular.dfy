/** Remainders and powers: the arithmetic under the multiplicative groups that order a scan. */
module Modular {

  /** The quotient of natural numbers. */
  function Ratio(x: nat, m: nat): nat
    requires m > 0
  {
    x / m
  }

  /** Division is determined by its defining equation. */
  lemma {:induction false} DivModUnique(x: int, m: int, q: int, r: int)
    requires 0 <= r < m && x == m * q + r
    ensures x / m == q && x % m == r
  {
    var k := q - x / m;
    assert m * k == x % m - r by {
      assert m * k == m * q - m * (x / m);
    }
    assert k >= 1 ==> m * k >= m;
    assert k <= -1 ==> m * k <= -m;
  }

  lemma {:induction false} QuotientBelow(v: nat, u: nat, m: nat)
    requires u > 0 && v < m * u
    ensures v / u < m
  {
    var q := v / u;
    assert q >= m ==> u * q >= u * m;
  }

  lemma {:induction false} QuotientAtLeast(v: nat, u: nat, m: nat)
    requires u > 0 && v >= m * u
    ensures v / u >= m
  {
    var q := v / u;
    assert v < u * (q + 1);
    assert q + 1 <= m ==> u * (q + 1) <= u * m;
  }

  lemma {:induction false} ModAddMultiple(x: int, m: int, k: int)
    requires m > 0
    ensures (x + m * k) % m == x % m
  {
    assert x + m * k == m * (x / m + k) + x % m;
    DivModUnique(x + m * k, m, x / m + k, x % m);
  }

  lemma {:induction false} MultipleMod(m: int, k: int)
    requires m > 0
    ensures (m * k) % m == 0
  {
    ModAddMultiple(0, m, k);
  }

  lemma {:induction false} MulModLeft(a: int, b: int, m: int)
    requires m > 0
    ensures ((a % m) * b) % m == (a * b) % m
  {
    assert a * b == (a % m) * b + m * ((a / m) * b) by {
      assert a == m * (a / m) + a % m;
      assert (m * (a / m) + a % m) * b == m * (a / m) * b + (a % m) * b;
    }
    ModAddMultiple((a % m) * b, m, (a / m) * b);
  }

  lemma {:induction false} MulModBoth(a: int, b: int, m: int)
    requires m > 0
    ensures ((a % m) * (b % m)) % m == (a * b) % m
  {
    MulModLeft(a, b % m, m);
    MulModLeft(b, a, m);
    assert a * (b % m) == (b % m) * a && a * b == b * a;
  }

  /** Congruent factors give congruent products. */
  lemma {:induction false} MulCongruent(a: int, a': int, b: int, b': int, m: int)
    requires m > 0 && a % m == a' % m && b % m == b' % m
    ensures (a * b) % m == (a' * b') % m
  {
    MulModBoth(a, b, m);
    MulModBoth(a', b', m);
  }

  lemma {:induction false} SubCongruent(a: int, b: int, m: int)
    requires m > 0 && a % m == b % m
    ensures (a - b) % m == 0
  {
    assert a - b == m * (a / m - b / m);
    MultipleMod(m, a / m - b / m);
  }

  lemma {:induction false} CongruentOfSub(a: int, b: int, m: int)
    requires m > 0 && (a - b) % m == 0
    ensures a % m == b % m
  {
    assert a == b + m * ((a - b) / m);
    ModAddMultiple(b, m, (a - b) / m);
  }

  /** The remainder of a modulo m, by repeated subtraction: the specification form of `%`. */
  function Rem(a: nat, m: nat): nat
    requires m > 0
    decreases a
  {
    if a < m then a else Rem(a - m, m)
  }

  lemma {:induction false} RemIsMod(a: nat, m: nat)
    requires m > 0
    ensures Rem(a, m) == a % m
    decreases a
  {
    if a < m {
      DivModUnique(a, m, 0, a);
    } else {
      RemIsMod(a - m, m);
      ModAddMultiple(a - m, m, 1);
    }
  }

  /** The quotient of a by m, by repeated subtraction: the specification form of `/`. */
  function Quot(a: nat, m: nat): nat
    requires m > 0
    decreases a
  {
    if a < m then 0 else 1 + Quot(a - m, m)
  }

  lemma {:induction false} QuotIsDiv(a: nat, m: nat)
    requires m > 0
    ensures Quot(a, m) == a / m
    decreases a
  {
    if a < m {
      DivModUnique(a, m, 0, a);
    } else {
      QuotIsDiv(a - m, m);
      assert a == m * ((a - m) / m + 1) + (a - m) % m;
      DivModUnique(a, m, (a - m) / m + 1, (a - m) % m);
    }
  }

  lemma {:induction false} RemRem(a: nat, m: nat)
    requires m > 0
    ensures Rem(Rem(a, m), m) == Rem(a, m) < m
  {
    RemIsMod(a, m);
  }

  /** Congruent factors give congruent products. */
  lemma {:induction false} RemMul(a: nat, a': nat, b: nat, b': nat, m: nat)
    requires m > 0 && Rem(a, m) == Rem(a', m) && Rem(b, m) == Rem(b', m)
    ensures Rem(a * b, m) == Rem(a' * b', m)
  {
    RemIsMod(a, m); RemIsMod(a', m); RemIsMod(b, m); RemIsMod(b', m);
    RemIsMod(a * b, m); RemIsMod(a' * b', m);
    MulCongruent(a, a', b, b', m);
  }

  function Pow(b: nat, e: nat): nat
  {
    if e == 0 then 1 else b * Pow(b, e - 1)
  }

  lemma {:induction false} PowAdd(b: nat, i: nat, j: nat)
    ensures Pow(b, i + j) == Pow(b, i) * Pow(b, j)
  {
    if i == 0 {
    } else {
      PowAdd(b, i - 1, j);
      assert b * (Pow(b, i - 1) * Pow(b, j)) == (b * Pow(b, i - 1)) * Pow(b, j);
    }
  }

  lemma {:induction false} PowMul(b: nat, i: nat, j: nat)
    ensures Pow(b, i * j) == Pow(Pow(b, i), j)
  {
    if j == 0 {
      assert i * j == 0;
    } else {
      PowMul(b, i, j - 1);
      assert i * j == i + i * (j - 1);
      PowAdd(b, i, i * (j - 1));
    }
  }

  lemma {:induction false} PowPositive(b: nat, e: nat)
    requires b > 0
    ensures Pow(b, e) > 0
  {
    if e > 0 {
      PowPositive(b, e - 1);
      assert b * Pow(b, e - 1) > 0;
    }
  }

  /** The residue of a power depends only on the residue of its base. */
  lemma {:induction false} PowRemBase(a: nat, b: nat, e: nat, m: nat)
    requires m > 0 && Rem(a, m) == Rem(b, m)
    ensures Rem(Pow(a, e), m) == Rem(Pow(b, e), m)
  {
    if e > 0 {
      PowRemBase(a, b, e - 1, m);
      RemMul(a, b, Pow(a, e - 1), Pow(b, e - 1), m);
    }
  }

  lemma {:induction false} OnePow(k: nat)
    ensures Pow(1, k) == 1
  {
    if k > 0 { OnePow(k - 1); }
  }

  /** A power that is 1 stays 1 when raised further. */
  lemma {:induction false} PowOne(b: nat, d: nat, k: nat, m: nat)
    requires m > 1 && Rem(Pow(b, d), m) == 1
    ensures Rem(Pow(b, d * k), m) == 1
  {
    PowMul(b, d, k);
    PowRemBase(Pow(b, d), 1, k, m);
    OnePow(k);
  }

  /** Multiplying by a power that is 1 changes nothing. */
  lemma {:induction false} PowShift(b: nat, d: nat, e: nat, m: nat)
    requires m > 1 && Rem(Pow(b, d), m) == 1
    ensures Rem(Pow(b, d + e), m) == Rem(Pow(b, e), m)
  {
    PowAdd(b, d, e);
    RemMul(Pow(b, d), 1, Pow(b, e), Pow(b, e), m);
  }

  lemma {:induction false} PowShiftMany(b: nat, q: nat, k: nat, e: nat, m: nat)
    requires m > 1 && Rem(Pow(b, q), m) == 1
    ensures Rem(Pow(b, q * k + e), m) == Rem(Pow(b, e), m)
  {
    PowOne(b, q, k, m);
    PowShift(b, q * k, e, m);
  }

  /** Reducing an exponent modulo a period of the base does not change the residue. */
  lemma {:induction false} PowPeriod(b: nat, q: nat, e: nat, m: nat)
    requires m > 1 && q > 0 && Rem(Pow(b, q), m) == 1
    ensures Rem(Pow(b, e), m) == Rem(Pow(b, e % q), m)
  {
    var k, r := e / q, e % q;
    assert e == q * k + r;
    PowShiftMany(b, q, k, r, m);
  }

  lemma {:induction false} RemMulRem(a: nat, b: nat, m: nat)
    requires m > 0
    ensures Rem(Rem(a, m) * Rem(b, m), m) == Rem(a * b, m)
  {
    RemRem(a, m);
    RemRem(b, m);
    RemMul(Rem(a, m), a, Rem(b, m), b, m);
  }

  /** Modular exponentiation by repeated squaring. */
  function PowMod(b: nat, e: nat, m: nat): nat
    requires m > 0
  {
    if e == 0 then 1 % m
    else
      var h := PowMod(b, e / 2, m);
      if e % 2 == 0 then (h * h) % m else (h * h % m * b) % m
  }

  lemma {:induction false} PowEven(b: nat, k: nat, m: nat)
    requires m > 0
    ensures Rem(Pow(b, 2 * k), m) == Rem(Rem(Pow(b, k), m) * Rem(Pow(b, k), m), m)
  {
    PowAdd(b, k, k);
    RemMulRem(Pow(b, k), Pow(b, k), m);
  }

  lemma {:induction false} PowNext(b: nat, e: nat, m: nat)
    requires m > 0
    ensures Rem(Pow(b, e + 1), m) == Rem(Rem(Pow(b, e), m) * b, m)
  {
    RemRem(Pow(b, e), m);
    RemMul(Rem(Pow(b, e), m), Pow(b, e), b, b, m);
  }

  lemma {:induction false} PowModCorrect(b: nat, e: nat, m: nat)
    requires m > 0
    ensures PowMod(b, e, m) == Rem(Pow(b, e), m)
  {
    if e == 0 {
      RemIsMod(1, m);
    } else {
      var k := e / 2;
      var h := PowMod(b, k, m);
      PowModCorrect(b, k, m);
      PowEven(b, k, m);
      RemIsMod(h * h, m);
      if e % 2 == 1 {
        PowNext(b, 2 * k, m);
        RemIsMod(h * h % m * b, m);
      }
    }
  }
}
