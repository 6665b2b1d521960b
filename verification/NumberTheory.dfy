/** Primes, multiplicative order and primitive roots, as the cyclic-group generator needs them. */
module NumberTheory {
  import opened FiniteSets
  import opened Modular

  predicate Divides(d: nat, n: nat)
  {
    d > 0 && Rem(n, d) == 0
  }

  ghost predicate IsPrime(p: nat)
  {
    p >= 2 && forall d: nat :: Divides(d, p) ==> d == 1 || d == p
  }

  lemma {:induction false} Cofactor(d: nat, n: nat) returns (k: nat)
    requires Divides(d, n)
    ensures n == d * k
  {
    RemIsMod(n, d);
    k := n / d;
  }

  lemma {:induction false} DividesProduct(d: nat, k: nat)
    requires d > 0
    ensures Divides(d, d * k)
  {
    RemIsMod(d * k, d);
    MultipleMod(d, k);
  }

  lemma {:induction false} DividesMul(d: nat, n: nat, k: nat)
    requires Divides(d, n)
    ensures Divides(d, n * k)
  {
    var q := Cofactor(d, n);
    DividesProduct(d, q * k);
    assert n * k == d * (q * k);
  }

  lemma {:induction false} DividesTransitive(a: nat, b: nat, c: nat)
    requires Divides(a, b) && Divides(b, c)
    ensures Divides(a, c)
  {
    var k := Cofactor(b, c);
    DividesMul(a, b, k);
  }

  /** Congruence is divisibility of the difference. */
  lemma {:induction false} CongruentIffDivides(p: nat, c: nat, d: nat)
    requires p > 0
    ensures Rem(c + d, p) == Rem(c, p) <==> Divides(p, d)
  {
    RemIsMod(c + d, p); RemIsMod(c, p); RemIsMod(d, p);
    if (c + d) % p == c % p {
      SubCongruent(c + d, c, p);
    }
    if d % p == 0 {
      CongruentOfSub(c + d, c, p);
    }
  }

  lemma {:induction false} DividesSecond(p: nat, c: nat, d: nat)
    requires Divides(p, c) && Divides(p, c + d)
    ensures Divides(p, d)
  {
    CongruentIffDivides(p, c, d);
  }

  lemma {:induction false} DividesReduced(p: nat, q: nat, r: nat, b: nat)
    requires Divides(p, (p * q + r) * b)
    ensures Divides(p, r * b)
  {
    assert (p * q + r) * b == p * (q * b) + r * b;
    DividesProduct(p, q * b);
    DividesSecond(p, p * (q * b), r * b);
  }

  lemma {:induction false} DescentStep(a: nat, q: nat, r: nat, b: nat)
    requires Divides(a * q + r, a * b)
    ensures Divides(a * q + r, r * b)
  {
    DividesMul(a * q + r, a * b, q);
    assert (a * q + r) * b == (a * b) * q + r * b;
    DividesProduct(a * q + r, b);
    DividesSecond(a * q + r, (a * b) * q, r * b);
  }

  /** Euclid's lemma, by descent on the first factor: p mod a is a smaller factor of the same kind. */
  lemma {:induction false} EuclidSmall(p: nat, a: nat, b: nat)
    requires IsPrime(p) && 0 < a < p && Divides(p, a * b)
    ensures Divides(p, b)
    decreases a
  {
    if a == 1 {
      assert a * b == b;
    } else {
      var q, r := p / a, p % a;
      assert p == a * q + r;
      if r == 0 {
        DividesProduct(a, q);
      } else {
        DescentStep(a, q, r, b);
        EuclidSmall(p, r, b);
      }
    }
  }

  lemma {:induction false} Euclid(p: nat, a: nat, b: nat)
    requires IsPrime(p) && Divides(p, a * b)
    ensures Divides(p, a) || Divides(p, b)
  {
    var r, q := a % p, a / p;
    assert a == p * q + r;
    if r == 0 {
      DividesProduct(p, q);
    } else {
      DividesReduced(p, q, r, b);
      EuclidSmall(p, r, b);
    }
  }

  /** Every number above 1 has a prime divisor. */
  lemma {:induction false} PrimeDivisor(n: nat) returns (q: nat)
    requires n >= 2
    ensures IsPrime(q) && Divides(q, n)
    decreases n
  {
    if IsPrime(n) {
      q := n;
      DividesProduct(n, 1);
    } else {
      var d: nat :| Divides(d, n) && d != 1 && d != n;
      var k := Cofactor(d, n);
      assert d < n by {
        assert k != 0 && k != 1;
        assert d * k >= d * 2;
      }
      q := PrimeDivisor(d);
      DividesTransitive(q, d, n);
    }
  }

  /** Cancellation modulo a prime. */
  lemma {:induction false} CancelMod(p: nat, a: nat, c: nat, d: nat)
    requires IsPrime(p) && !Divides(p, a) && Rem(a * (c + d), p) == Rem(a * c, p)
    ensures Rem(c + d, p) == Rem(c, p)
  {
    assert a * (c + d) == a * c + a * d;
    CongruentIffDivides(p, a * c, a * d);
    Euclid(p, a, d);
    CongruentIffDivides(p, c, d);
  }

  // ---------- Finite sets ----------

  predicate IsUnit(i: nat, p: nat)
  {
    1 <= i < p
  }

  /** The residues 1..p-1. */
  ghost function Units(p: nat): set<nat>
  {
    set i: nat | i < p && IsUnit(i, p)
  }

  lemma {:induction false} UnitsSize(p: nat)
    requires p > 0
    ensures |Units(p)| == p - 1
  {
    if p == 1 {
      assert Units(1) == {};
    } else {
      UnitsSize(p - 1);
      assert Units(p) == Units(p - 1) + {p - 1};
    }
  }

  ghost function Pick(s: set<nat>): (x: nat)
    requires s != {}
    ensures x in s
  {
    var x :| x in s; x
  }

  ghost function Product(s: set<nat>): nat
  {
    if s == {} then 1 else Pick(s) * Product(s - {Pick(s)})
  }

  lemma {:induction false} MulSwap(x: nat, y: nat, z: nat)
    ensures x * (y * z) == y * (x * z)
  {
  }

  lemma {:induction false} MulInterchange(a: nat, b: nat, c: nat, d: nat)
    ensures (a * b) * (c * d) == (a * c) * (b * d)
  {
    assert (a * b) * (c * d) == a * (b * c) * d;
    assert (a * c) * (b * d) == a * (c * b) * d;
  }

  lemma {:induction false} ProductRemove(s: set<nat>, x: nat)
    requires x in s
    ensures Product(s) == x * Product(s - {x})
  {
    var y := Pick(s);
    if x != y {
      var rest := Product(s - {x} - {y});
      ProductRemove(s - {y}, x);
      ProductRemove(s - {x}, y);
      assert s - {y} - {x} == s - {x} - {y};
      MulSwap(y, x, rest);
    }
  }

  lemma {:induction false} ProductInsert(s: set<nat>, x: nat)
    requires x !in s
    ensures Product(s + {x}) == x * Product(s)
  {
    ProductRemove(s + {x}, x);
    assert s + {x} - {x} == s;
  }

  // ---------- Fermat's little theorem ----------

  ghost function Scaled(a: nat, s: set<nat>, p: nat): set<nat>
    requires p > 0
  {
    set i | i in s :: Rem(a * i, p)
  }

  lemma {:induction false} ScaledInjective(a: nat, i: nat, j: nat, p: nat)
    requires IsPrime(p) && !Divides(p, a) && i <= j < p && Rem(a * i, p) == Rem(a * j, p)
    ensures i == j
  {
    CancelMod(p, a, i, j - i);
  }

  lemma {:induction false} ScaledUnit(a: nat, i: nat, p: nat)
    requires IsPrime(p) && !Divides(p, a) && 1 <= i < p
    ensures 1 <= Rem(a * i, p) < p
  {
    RemRem(a * i, p);
    if Divides(p, a * i) {
      Euclid(p, a, i);
    }
  }

  lemma {:induction false} ScaledInsert(a: nat, s: set<nat>, x: nat, p: nat)
    requires IsPrime(p) && !Divides(p, a) && s <= Units(p) && IsUnit(x, p) && x !in s
    ensures Rem(a * x, p) !in Scaled(a, s, p)
    ensures Scaled(a, s + {x}, p) == Scaled(a, s, p) + {Rem(a * x, p)}
  {
    forall i | i in s ensures Rem(a * i, p) != Rem(a * x, p) {
      if Rem(a * i, p) == Rem(a * x, p) {
        if i < x { ScaledInjective(a, i, x, p); } else { ScaledInjective(a, x, i, p); }
      }
    }
  }

  lemma {:induction false} ScaledProductStep(a: nat, x: nat, e: nat, u: nat, w: nat, p: nat)
    requires p > 0 && Rem(w, p) == Rem(e * u, p)
    ensures Rem(Rem(a * x, p) * w, p) == Rem((a * e) * (x * u), p)
  {
    RemRem(a * x, p);
    RemMul(Rem(a * x, p), a * x, w, e * u, p);
    MulInterchange(a, x, e, u);
  }

  lemma {:induction false} PowStep(a: nat, n: nat)
    ensures Pow(a, n + 1) == a * Pow(a, n)
  {
  }

  lemma {:induction false} ScaledSize(a: nat, s: set<nat>, p: nat)
    requires IsPrime(p) && !Divides(p, a) && s <= Units(p)
    ensures |Scaled(a, s, p)| == |s| && Scaled(a, s, p) <= Units(p)
  {
    if s == {} {
      assert Scaled(a, s, p) == {};
    } else {
      var x := Pick(s);
      ScaledSize(a, s - {x}, p);
      ScaledUnit(a, x, p);
      ScaledInsert(a, s - {x}, x, p);
      assert s - {x} + {x} == s;
    }
  }

  lemma {:induction false} ScaledEmpty(a: nat, p: nat)
    requires p > 0
    ensures Rem(Product(Scaled(a, {}, p)), p) == Rem(Pow(a, 0) * Product({}), p)
  {
    assert Scaled(a, {}, p) == {};
  }

  lemma {:induction false} PrimePositive(p: nat)
    requires IsPrime(p)
    ensures p > 0
  {
  }

  lemma {:induction false} ProductPick(s: set<nat>)
    requires s != {}
    ensures Product(s) == Pick(s) * Product(s - {Pick(s)})
  {
  }

  lemma {:induction false} UnitOfUnits(x: nat, p: nat)
    ensures x in Units(p) ==> IsUnit(x, p)
  {
  }

  lemma {:induction false} ScaledProduct(a: nat, s: set<nat>, p: nat)
    requires IsPrime(p) && !Divides(p, a) && s <= Units(p)
    ensures Rem(Product(Scaled(a, s, p)), p) == Rem(Pow(a, |s|) * Product(s), p)
  {
    hide *;
    PrimePositive(p);
    if s == {} {
      ScaledEmpty(a, p);
    } else {
      var x := Pick(s);
      var s' := s - {x};
      ProductPick(s);
      UnitOfUnits(x, p);
      var t', y := Scaled(a, s', p), Rem(a * x, p);
      assert Scaled(a, s, p) == t' + {y} && y !in t' by {
        ScaledInsert(a, s', x, p);
        assert s' + {x} == s;
      }
      ScaledProduct(a, s', p);
      ProductInsert(t', y);
      PowStep(a, |s'|);
      ScaledProductStep(a, x, Pow(a, |s'|), Product(s'), Product(t'), p);
    }
  }

  lemma {:induction false} ProductNotDivisible(p: nat, s: set<nat>)
    requires IsPrime(p) && s <= Units(p)
    ensures !Divides(p, Product(s))
  {
    if s != {} {
      var x := Pick(s);
      ProductNotDivisible(p, s - {x});
      if Divides(p, Product(s)) {
        Euclid(p, x, Product(s - {x}));
      }
    }
  }

  lemma {:induction false} CancelFactor(p: nat, w: nat, e: nat)
    requires IsPrime(p) && !Divides(p, w) && Rem(w, p) == Rem(e * w, p)
    ensures Rem(e, p) == 1
  {
    assert w * 1 == w && e * w == w * e;
    if e > 0 {
      CancelMod(p, w, 1, e - 1);
    }
  }

  /** Fermat's little theorem: multiplying by a permutes the units, so both products agree. */
  lemma {:induction false} Fermat(p: nat, a: nat)
    requires IsPrime(p) && !Divides(p, a)
    ensures Rem(Pow(a, p - 1), p) == 1
  {
    var u := Units(p);
    ScaledSize(a, u, p);
    ScaledProduct(a, u, p);
    UnitsSize(p);
    SubsetSize(Scaled(a, u, p), u);
    ProductNotDivisible(p, u);
    CancelFactor(p, Product(u), Pow(a, p - 1));
  }

  // ---------- Multiplicative order ----------

  /** g generates the multiplicative group modulo p: its order is exactly p - 1. */
  ghost predicate IsPrimitiveRoot(g: nat, p: nat)
  {
    && IsUnit(g, p)
    && Rem(Pow(g, p - 1), p) == 1
    && forall k: nat :: 0 < k < p - 1 ==> Rem(Pow(g, k), p) != 1
  }

  lemma {:induction false} LeastOrder(c: nat, p: nat, d: nat, e: nat) returns (m: nat)
    requires p > 0 && 0 < d <= e && Rem(Pow(c, e), p) == 1
    requires forall k: nat :: 0 < k < d ==> Rem(Pow(c, k), p) != 1
    ensures d <= m <= e && Rem(Pow(c, m), p) == 1
    ensures forall k: nat :: 0 < k < m ==> Rem(Pow(c, k), p) != 1
    decreases e - d
  {
    if Rem(Pow(c, d), p) == 1 {
      m := d;
    } else {
      m := LeastOrder(c, p, d + 1, e);
    }
  }

  lemma {:induction false} OrderDivides(c: nat, p: nat, d: nat, e: nat)
    requires p > 1 && d > 0 && Rem(Pow(c, d), p) == 1 && Rem(Pow(c, e), p) == 1
    requires forall k: nat :: 0 < k < d ==> Rem(Pow(c, k), p) != 1
    ensures Divides(d, e)
  {
    PowPeriod(c, d, e, p);
    RemIsMod(e, d);
  }

  lemma {:induction false} DivByFactor(q: nat, n: nat)
    requires q > 0
    ensures (q * n) / q == n
  {
    DivModUnique(q * n, q, n, 0);
  }

  /** The exponent test: no proper exponent (n / q) reaches 1, q prime. */
  ghost predicate PassesExponentTest(c: nat, p: nat)
    requires p > 1
  {
    forall q: nat :: IsPrime(q) && Divides(q, p - 1) ==> Rem(Pow(c, (p - 1) / q), p) != 1
  }

  lemma {:induction false} ProperOrderFailsTest(c: nat, p: nat, d: nat, k: nat)
    requires p > 1 && k >= 2 && p - 1 == d * k && Rem(Pow(c, d), p) == 1
    ensures !PassesExponentTest(c, p)
  {
    var q := PrimeDivisor(k);
    var t := Cofactor(q, k);
    assert p - 1 == q * (d * t) by {
      MulSwap(q, d, t);
    }
    DividesProduct(q, d * t);
    DivByFactor(q, d * t);
    PowOne(c, d, t, p);
  }

  lemma {:induction false} ProperDivisor(d: nat, k: nat)
    requires 0 < d < d * k
    ensures k >= 2
  {
    assert k == 1 ==> d * k == d;
  }

  lemma {:induction false} TestImpliesRoot(c: nat, p: nat)
    requires IsUnit(c, p) && p > 2 && Rem(Pow(c, p - 1), p) == 1 && PassesExponentTest(c, p)
    ensures IsPrimitiveRoot(c, p)
  {
    var d := LeastOrder(c, p, 1, p - 1);
    if d < p - 1 {
      OrderDivides(c, p, d, p - 1);
      var k := Cofactor(d, p - 1);
      ProperDivisor(d, k);
      ProperOrderFailsTest(c, p, d, k);
    }
  }

  lemma {:induction false} ProperQuotient(q: nat, n: nat)
    requires q >= 2 && n > 0 && Divides(q, n)
    ensures 0 < n / q < n
  {
    hide *;
    var k := Cofactor(q, n);
    QuotientBounds(q, k);
    DivByFactor(q, k);
  }

  lemma {:induction false} QuotientBounds(q: nat, k: nat)
    requires q >= 2 && q * k > 0
    ensures 0 < k < q * k
  {
    assert q * k == 2 * k + (q - 2) * k;
  }

  /** A residue whose (p-1)th power is 1 is a primitive root exactly when it passes the exponent test. */
  lemma {:induction false} ExponentTestExact(c: nat, p: nat)
    requires IsUnit(c, p) && p > 2 && Rem(Pow(c, p - 1), p) == 1
    ensures PassesExponentTest(c, p) <==> IsPrimitiveRoot(c, p)
  {
    if PassesExponentTest(c, p) {
      TestImpliesRoot(c, p);
    }
    if IsPrimitiveRoot(c, p) {
      forall q: nat | IsPrime(q) && Divides(q, p - 1) ensures Rem(Pow(c, (p - 1) / q), p) != 1 {
        ProperQuotient(q, p - 1);
      }
    }
  }

  lemma {:induction false} CancelPowerWith(g: nat, p: nat, i: nat, k: nat, f: nat)
    requires p > 1 && Rem(Pow(g, i + f), p) == 1 && Rem(Pow(g, i + k), p) == Rem(Pow(g, i), p)
    ensures Rem(Pow(g, k), p) == 1
  {
    RemMul(Pow(g, i + k), Pow(g, i), Pow(g, f), Pow(g, f), p);
    PowAdd(g, i, f);
    PowAdd(g, i + k, f);
    assert i + k + f == i + f + k;
    PowShift(g, i + f, k, p);
  }

  lemma {:induction false} TimesAtLeast(m: nat, i: nat) returns (e: nat)
    requires m > 0
    ensures e == m * i && e >= i
  {
    e := m * i;
  }

  /** Cancelling a power of the generator: g^i = g^(i+k) only if g^k = 1. */
  lemma {:induction false} CancelPower(g: nat, p: nat, i: nat, k: nat)
    requires p > 1 && Rem(Pow(g, p - 1), p) == 1 && Rem(Pow(g, i + k), p) == Rem(Pow(g, i), p)
    ensures Rem(Pow(g, k), p) == 1
  {
    var e := TimesAtLeast(p - 1, i);
    PowOne(g, p - 1, i, p);
    CancelPowerWith(g, p, i, k, e - i);
  }

  /** Two powers whose exponents differ by less than the order are different. */
  lemma {:induction false} DifferentPowers(g: nat, p: nat, i: nat, j: nat)
    requires p > 1 && IsPrimitiveRoot(g, p) && i < j < i + (p - 1)
    ensures Rem(Pow(g, i), p) != Rem(Pow(g, j), p)
  {
    if Rem(Pow(g, i), p) == Rem(Pow(g, j), p) {
      CancelPower(g, p, i, j - i);
    }
  }

  lemma {:induction false} PowerIsUnit(g: nat, p: nat, e: nat)
    requires p > 1 && IsPrimitiveRoot(g, p)
    ensures IsUnit(Rem(Pow(g, e), p), p)
  {
    var r := e % (p - 1);
    PowPeriod(g, p - 1, e, p);
    RemRem(Pow(g, r), p);
    if Rem(Pow(g, r), p) == 0 {
      var h := Pow(g, p - 1 - r);
      RemMul(Pow(g, r), 0, h, h, p);
      PowAdd(g, r, p - 1 - r);
    }
  }

  ghost function PowersBelow(g: nat, p: nat, n: nat): set<nat>
    requires p > 0
  {
    set i: nat | i < n :: Rem(Pow(g, i), p)
  }

  lemma {:induction false} PowersBelowSize(g: nat, p: nat, n: nat)
    requires p > 1 && IsPrimitiveRoot(g, p) && n <= p - 1
    ensures PowersBelow(g, p, n) <= Units(p) && |PowersBelow(g, p, n)| == n
  {
    if n == 0 {
      assert PowersBelow(g, p, n) == {};
    } else {
      PowersBelowSize(g, p, n - 1);
      PowerIsUnit(g, p, n - 1);
      forall i: nat | i < n - 1 ensures Rem(Pow(g, i), p) != Rem(Pow(g, n - 1), p) {
        DifferentPowers(g, p, i, n - 1);
      }
      assert PowersBelow(g, p, n) == PowersBelow(g, p, n - 1) + {Rem(Pow(g, n - 1), p)};
    }
  }

  /** Every nonzero residue is a power of a primitive root. */
  lemma {:induction false} PowersCover(g: nat, p: nat, x: nat) returns (e: nat)
    requires p > 1 && IsPrimitiveRoot(g, p) && IsUnit(x, p)
    ensures e < p - 1 && Rem(Pow(g, e), p) == x
  {
    PowersBelowSize(g, p, p - 1);
    UnitsSize(p);
    SubsetSize(PowersBelow(g, p, p - 1), Units(p));
    assert x in PowersBelow(g, p, p - 1);
    e :| e < p - 1 && Rem(Pow(g, e), p) == x;
  }
}
