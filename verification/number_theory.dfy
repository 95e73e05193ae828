/**
  The arithmetic behind RSA: congruences, powers, inverses, Fermat's little
  theorem and the two-prime case of the Chinese remainder theorem.
 */
module NumberTheory {

  // ---------- Congruences ----------

  /** n divides a - b. */
  predicate Cong(a: int, b: int, n: int)
    requires n > 0
  {
    (a - b) % n == 0
  }

  lemma {:induction false} MultipleMod(n: int, k: int)
    requires n > 0
    ensures (n * k) % n == 0
  {
    DivModUnique(n * k, n, k, 0);
  }

  /** Quotient and remainder are unique. */
  lemma {:induction false} DivModUnique(x: int, n: int, k: int, r: int)
    requires n > 0 && x == n * k + r && 0 <= r < n
    ensures x / n == k && x % n == r
  {
    var k', r' := x / n, x % n;
    assert n * (k' - k) == r - r' by {
      assert n * k' + r' == n * k + r;
    }
    if k' > k { MulAtLeast(n, k' - k); }
    if k' < k { MulAtLeast(n, k - k'); }
  }

  lemma {:induction false} MulAtLeast(n: int, k: int)
    requires n >= 0 && k >= 1
    ensures n * k >= n
  {
  }

  lemma {:induction false} MulSwap(a: int, b: int, x: int, y: int)
    ensures (a * b) * (x * y) == (a * x) * (b * y)
  {
    assert (a * b) * (x * y) == a * (b * (x * y));
    assert b * (x * y) == x * (b * y);
    assert (a * x) * (b * y) == a * (x * (b * y));
  }

  lemma {:induction false} MulAssoc(a: int, b: int, c: int)
    ensures a * (b * c) == (a * b) * c
  {
  }

  lemma {:induction false} MulNeg(a: int, b: int)
    ensures a * (-b) == -(a * b)
  {
  }

  lemma {:induction false} FactorSign(a: int, k: int)
    requires a > 0 && a * k >= 0
    ensures k >= 0
  {
    if k < 0 {
      MulAtLeast(a, -k);
      MulNeg(a, k);
    }
  }

  lemma {:induction false} CongIntro(a: int, b: int, n: int, k: int)
    requires n > 0 && a == b + n * k
    ensures Cong(a, b, n)
  {
    MultipleMod(n, k);
  }

  lemma {:induction false} CongElim(a: int, b: int, n: int) returns (k: int)
    requires n > 0 && Cong(a, b, n)
    ensures a == b + n * k
  {
    k := (a - b) / n;
  }

  lemma {:induction false} CongTrans(a: int, b: int, c: int, n: int)
    requires n > 0 && Cong(a, b, n) && Cong(b, c, n)
    ensures Cong(a, c, n)
  {
    var k := CongElim(a, b, n);
    var l := CongElim(b, c, n);
    assert n * k + n * l == n * (k + l);
    CongIntro(a, c, n, k + l);
  }

  lemma {:induction false} CongSym(a: int, b: int, n: int)
    requires n > 0 && Cong(a, b, n)
    ensures Cong(b, a, n)
  {
    var k := CongElim(a, b, n);
    MulNeg(n, k);
    CongIntro(b, a, n, -k);
  }

  lemma {:induction false} CongAdd(a: int, b: int, c: int, d: int, n: int)
    requires n > 0 && Cong(a, b, n) && Cong(c, d, n)
    ensures Cong(a + c, b + d, n)
  {
    var k := CongElim(a, b, n);
    var l := CongElim(c, d, n);
    assert n * k + n * l == n * (k + l);
    CongIntro(a + c, b + d, n, k + l);
  }

  lemma {:induction false} CongMul(a: int, b: int, c: int, d: int, n: int)
    requires n > 0 && Cong(a, b, n) && Cong(c, d, n)
    ensures Cong(a * c, b * d, n)
  {
    var k := CongElim(a, b, n);
    var l := CongElim(c, d, n);
    calc {
      a * c;
      (b + n * k) * (d + n * l);
      b * d + b * (n * l) + (n * k) * d + (n * k) * (n * l);
      { assert b * (n * l) == n * (b * l);
        assert (n * k) * d == n * (k * d);
        assert (n * k) * (n * l) == n * (k * (n * l)); }
      b * d + n * (b * l) + n * (k * d) + n * (k * (n * l));
      b * d + n * (b * l + k * d + k * (n * l));
    }
    CongIntro(a * c, b * d, n, b * l + k * d + k * (n * l));
  }

  lemma {:induction false} CongMod(a: int, n: int)
    requires n > 0
    ensures Cong(a % n, a, n)
  {
    MulNeg(n, a / n);
    CongIntro(a % n, a, n, -(a / n));
  }

  /** Congruent numbers have the same remainder, and conversely. */
  lemma {:induction false} CongIffMod(a: int, b: int, n: int)
    requires n > 0
    ensures Cong(a, b, n) <==> a % n == b % n
  {
    if Cong(a, b, n) {
      var k := CongElim(a, b, n);
      assert a == n * (b / n + k) + b % n by {
        assert n * (b / n + k) == n * (b / n) + n * k;
      }
      DivModUnique(a, n, b / n + k, b % n);
    }
    if a % n == b % n {
      assert a == b + n * (a / n - b / n) by {
        assert n * (a / n - b / n) == n * (a / n) - n * (b / n);
      }
      CongIntro(a, b, n, a / n - b / n);
    }
  }

  // ---------- Powers ----------

  function Pow(b: int, e: nat): int {
    if e == 0 then 1 else b * Pow(b, e - 1)
  }

  lemma {:induction false} PowAdd(b: int, x: nat, y: nat)
    ensures Pow(b, x + y) == Pow(b, x) * Pow(b, y)
    decreases x
  {
    if x > 0 {
      PowAdd(b, x - 1, y);
      assert b * (Pow(b, x - 1) * Pow(b, y)) == (b * Pow(b, x - 1)) * Pow(b, y);
    }
  }

  lemma {:induction false} PowMul(b: int, x: nat, y: nat)
    ensures Pow(b, x * y) == Pow(Pow(b, x), y)
    decreases y
  {
    if y > 0 {
      PowMul(b, x, y - 1);
      assert x * y == x + x * (y - 1);
      assert x * (y - 1) >= 0;
      PowAdd(b, x, x * (y - 1));
    }
  }

  lemma {:induction false} PowBase(a: int, b: int, e: nat)
    ensures Pow(a * b, e) == Pow(a, e) * Pow(b, e)
    decreases e
  {
    if e > 0 {
      PowBase(a, b, e - 1);
      MulSwap(a, b, Pow(a, e - 1), Pow(b, e - 1));
    }
  }

  lemma {:induction false} PowOne(e: nat)
    ensures Pow(1, e) == 1
    decreases e
  {
    if e > 0 { PowOne(e - 1); }
  }

  lemma {:induction false} CongPow(a: int, b: int, e: nat, n: int)
    requires n > 0 && Cong(a, b, n)
    ensures Cong(Pow(a, e), Pow(b, e), n)
    decreases e
  {
    if e > 0 {
      CongPow(a, b, e - 1, n);
      CongMul(a, b, Pow(a, e - 1), Pow(b, e - 1), n);
    }
  }

  // ---------- Greatest common divisor and inverses ----------

  predicate Divides(d: int, a: int)
    requires d > 0
  {
    a % d == 0
  }

  function Gcd(a: nat, b: nat): (g: nat)
    decreases b
  {
    if b == 0 then a else Gcd(b, a % b)
  }

  /** Bezout coefficients, computed by the extended Euclidean algorithm. */
  function Bezout(a: nat, b: nat): (int, int)
    decreases b
  {
    if b == 0 then (1, 0)
    else
      var (x, y) := Bezout(b, a % b);
      (y, x - (a / b) * y)
  }

  lemma {:induction false} BezoutIdentity(a: nat, b: nat)
    ensures a * Bezout(a, b).0 + b * Bezout(a, b).1 == Gcd(a, b)
    decreases b
  {
    if b > 0 {
      var q, r := a / b, a % b;
      BezoutIdentity(b, r);
      var (x, y) := Bezout(b, r);
      EuclidStep(a, b, q, r, x, y);
      BezoutUnfold(a, b, q, r, x, y);
    }
  }

  lemma {:induction false} BezoutUnfold(a: nat, b: nat, q: nat, r: nat, x: int, y: int)
    requires b > 0 && q == a / b && r == a % b && Bezout(b, r) == (x, y)
    ensures Bezout(a, b) == (y, x - q * y)
  {
  }

  lemma {:induction false} EuclidStep(a: int, b: int, q: int, r: int, x: int, y: int)
    requires a == b * q + r
    ensures a * y + b * (x - q * y) == b * x + r * y
  {
    calc {
      a * y + b * (x - q * y);
      a * y + b * x - b * (q * y);
      { MulAssoc(b, q, y); }
      a * y + b * x - (b * q) * y;
      (b * q) * y + r * y + b * x - (b * q) * y;
    }
  }

  lemma {:induction false} GcdDivides(a: nat, b: nat)
    requires a > 0 || b > 0
    ensures Gcd(a, b) > 0 && Divides(Gcd(a, b), a) && Divides(Gcd(a, b), b)
    decreases b
  {
    if b > 0 {
      GcdDivides(b, a % b);
      var g := Gcd(a, b);
      DividesLinear(g, b, a % b, a / b, 1);
      assert b * (a / b) + (a % b) * 1 == a;
    } else {
      MultipleMod(a, 1);
    }
  }

  lemma {:induction false} DividesLinear(d: int, a: int, b: int, x: int, y: int)
    requires d > 0 && Divides(d, a) && Divides(d, b)
    ensures Divides(d, a * x + b * y)
  {
    var k, l := a / d, b / d;
    assert a * x + b * y == d * (k * x + l * y) by {
      assert (d * k) * x == d * (k * x);
      assert (d * l) * y == d * (l * y);
      assert d * (k * x) + d * (l * y) == d * (k * x + l * y);
    }
    MultipleMod(d, k * x + l * y);
  }

  /** The inverse math/big's ModInverse would return for coprime arguments. */
  function Inverse(a: nat, n: nat): (i: nat)
    requires n > 1
    ensures i < n
  {
    Bezout(a, n).0 % n
  }

  lemma {:induction false} InverseCorrect(a: nat, n: nat)
    requires n > 1 && Gcd(a, n) == 1
    ensures Cong(a * Inverse(a, n), 1, n)
  {
    var (x, y) := Bezout(a, n);
    BezoutIdentity(a, n);
    CongMod(x, n);
    CongMul(a, a, x % n, x, n);
    MulNeg(n, y);
    CongIntro(a * x, 1, n, -y);
    CongTrans(a * (x % n), a * x, 1, n);
  }

  /** An element with a multiplicative inverse is coprime to the modulus. */
  lemma {:induction false} InvertibleIsCoprime(a: nat, b: int, n: nat)
    requires n > 1 && Cong(a * b, 1, n)
    ensures Gcd(a, n) == 1
  {
    var k := CongElim(a * b, 1, n);
    GcdDivides(a, n);
    var g := Gcd(a, n);
    DividesLinear(g, a, n, b, -k);
    MulNeg(n, k);
    if g > 1 {
      DivModUnique(1, g, 0, 1);
    }
  }

  // ---------- Primes ----------

  ghost predicate Prime(p: int) {
    p >= 2 && forall d :: 2 <= d < p ==> p % d != 0
  }

  lemma {:induction false} PrimeCoprime(p: nat, a: nat)
    requires Prime(p) && a % p != 0
    ensures Gcd(a, p) == 1
  {
    GcdDivides(a, p);
    var g := Gcd(a, p);
    if g > p { DivModUnique(p, g, 0, p); }
  }

  /** Euclid's lemma. */
  lemma {:induction false} EuclidLemma(p: nat, a: nat, b: int)
    requires Prime(p) && (a * b) % p == 0 && a % p != 0
    ensures b % p == 0
  {
    PrimeCoprime(p, a);
    BezoutIdentity(a, p);
    var (x, y) := Bezout(a, p);
    calc {
      b;
      (a * x + p * y) * b;
      { assert (a * x) * b == (a * b) * x; assert (p * y) * b == p * (y * b); }
      (a * b) * x + p * (y * b);
    }
    MultipleMod(p, 1);
    DividesLinear(p, a * b, p, x, y * b);
  }

  // ---------- Fermat's little theorem, by the binomial theorem ----------

  function Choose(n: nat, k: nat): nat {
    if k == 0 then 1
    else if n == 0 then 0
    else Choose(n - 1, k - 1) + Choose(n - 1, k)
  }

  lemma {:induction false} ChooseBeyond(n: nat, k: nat)
    requires k > n
    ensures Choose(n, k) == 0
    decreases n
  {
    if n > 0 {
      ChooseBeyond(n - 1, k - 1);
      ChooseBeyond(n - 1, k);
    }
  }

  lemma {:induction false} ChooseSelf(n: nat)
    ensures Choose(n, n) == 1
    decreases n
  {
    if n > 0 {
      ChooseSelf(n - 1);
      ChooseBeyond(n - 1, n);
    }
  }

  /** k C(n, k) = n C(n-1, k-1). */
  lemma {:induction false} ChooseAbsorb(n: nat, k: nat)
    requires n > 0 && k > 0
    ensures k * Choose(n, k) == n * Choose(n - 1, k - 1)
    decreases n
  {
    if n == 1 {
      if k > 1 { ChooseBeyond(0, k - 1); ChooseBeyond(1, k); }
      else { assert Choose(1, 1) == Choose(0, 0) + Choose(0, 1); }
    } else {
      ChooseAbsorb(n - 1, k);
      if k > 1 {
        ChooseAbsorb(n - 1, k - 1);
        AbsorbStep(n, k, Choose(n - 1, k), Choose(n - 2, k - 2), Choose(n - 2, k - 1));
      }
    }
  }

  lemma {:induction false} AbsorbStep(n: int, k: int, b: int, c: int, d: int)
    requires k * b == (n - 1) * d
    requires (k - 1) * (c + d) == (n - 1) * c
    ensures k * ((c + d) + b) == n * (c + d)
  {
    calc {
      k * ((c + d) + b);
      (k - 1) * (c + d) + (c + d) + k * b;
      (n - 1) * c + (n - 1) * d + (c + d);
      (n - 1) * (c + d) + (c + d);
      n * (c + d);
    }
  }

  /** The first k terms of the binomial expansion of (a + 1)^n. */
  function BinomialSum(a: int, n: nat, k: nat): int {
    if k == 0 then 0 else BinomialSum(a, n, k - 1) + Choose(n, k - 1) * Pow(a, k - 1)
  }

  lemma {:induction false} BinomialPascal(a: int, n: nat, k: nat)
    ensures BinomialSum(a, n + 1, k + 1) == a * BinomialSum(a, n, k) + BinomialSum(a, n, k + 1)
    decreases k
  {
    if k == 0 {
      assert BinomialSum(a, n, 0) == 0;
      assert BinomialSum(a, n, 1) == BinomialSum(a, n, 0) + Choose(n, 0) * Pow(a, 0);
      assert BinomialSum(a, n + 1, 1) == BinomialSum(a, n + 1, 0) + Choose(n + 1, 0) * Pow(a, 0);
    } else {
      BinomialPascal(a, n, k - 1);
      PascalStep(a, Choose(n, k - 1), Choose(n, k), Pow(a, k - 1),
                 BinomialSum(a, n, k - 1), BinomialSum(a, n, k));
    }
  }

  lemma {:induction false} PascalStep(a: int, c: int, d: int, w: int, s: int, t: int)
    ensures a * s + t + (c + d) * (a * w) == a * (s + c * w) + (t + d * (a * w))
  {
    assert (c + d) * (a * w) == c * (a * w) + d * (a * w);
    assert c * (a * w) == a * (c * w);
    assert a * (s + c * w) == a * s + a * (c * w);
  }

  lemma {:induction false} BinomialTheorem(a: int, n: nat)
    ensures BinomialSum(a, n, n + 1) == Pow(a + 1, n)
    decreases n
  {
    if n == 0 {
      assert BinomialSum(a, 0, 0) == 0;
      assert BinomialSum(a, 0, 1) == BinomialSum(a, 0, 0) + Choose(0, 0) * Pow(a, 0);
    } else {
      var m := n - 1;
      BinomialTheorem(a, m);
      BinomialPascal(a, m, n);
      ChooseBeyond(m, n);
      var s := BinomialSum(a, m, n);
      assert BinomialSum(a, m, n + 1) == s + Choose(m, n) * Pow(a, n);
      assert Choose(m, n) * Pow(a, n) == 0;
      assert a * s + s == (a + 1) * s;
    }
  }

  lemma {:induction false} PrimeDividesChoose(p: nat, k: nat)
    requires Prime(p) && 0 < k < p
    ensures Choose(p, k) % p == 0
  {
    ChooseAbsorb(p, k);
    MultipleMod(p, Choose(p - 1, k - 1));
    DivModUnique(k, p, 0, k);
    EuclidLemma(p, k, Choose(p, k));
  }

  /** Modulo a prime p only the first of the first k <= p binomial terms survives. */
  lemma {:induction false} BinomialMiddle(a: int, p: nat, k: nat)
    requires Prime(p) && 1 <= k <= p
    ensures Cong(BinomialSum(a, p, k), 1, p)
    decreases k
  {
    if k == 1 {
      assert BinomialSum(a, p, 0) == 0;
      assert BinomialSum(a, p, 1) == BinomialSum(a, p, 0) + Choose(p, 0) * Pow(a, 0);
      CongIntro(1, 1, p, 0);
    } else {
      BinomialMiddle(a, p, k - 1);
      PrimeDividesChoose(p, k - 1);
      var c, w := Choose(p, k - 1), Pow(a, k - 1);
      CongIntro(w, w, p, 0);
      CongMul(c, 0, w, w, p);
      CongAdd(BinomialSum(a, p, k - 1), 1, c * w, 0, p);
    }
  }

  /** Fermat: a^p = a modulo a prime p. */
  lemma {:induction false} Fermat(a: nat, p: nat)
    requires Prime(p)
    ensures Cong(Pow(a, p), a, p)
    decreases a
  {
    if a == 0 {
      assert Pow(0, p) == 0 * Pow(0, p - 1);
    } else {
      var b := a - 1;
      Fermat(b, p);
      BinomialTheorem(b, p);
      BinomialMiddle(b, p, p);
      ChooseSelf(p);
      CongAdd(BinomialSum(b, p, p), 1, Pow(b, p), b, p);
      assert BinomialSum(b, p, p + 1) == BinomialSum(b, p, p) + Choose(p, p) * Pow(b, p);
    }
  }

  lemma {:induction false} FermatUnit(a: nat, p: nat)
    requires Prime(p) && a % p != 0
    ensures Cong(Pow(a, p - 1), 1, p)
  {
    Fermat(a, p);
    var w := Pow(a, p - 1);
    assert Pow(a, p) == a * w;
    assert a * w - a == a * (w - 1);
    EuclidLemma(p, a, w - 1);
  }

  // ---------- The RSA identity ----------

  lemma {:induction false} ExponentModPrime(x: nat, k: nat, p: nat)
    requires Prime(p)
    ensures (p - 1) * k >= 0
    ensures Cong(Pow(x, 1 + (p - 1) * k), x, p)
  {
    var f := (p - 1) * k;
    assert Pow(x, 1 + f) == x * Pow(x, f);
    if x % p == 0 {
      CongIntro(Pow(x, f), Pow(x, f), p, 0);
      CongMul(x, 0, Pow(x, f), Pow(x, f), p);
      CongSym(x, 0, p);
      CongTrans(x * Pow(x, f), 0, x, p);
    } else {
      FermatUnit(x, p);
      PowMul(x, p - 1, k);
      CongPow(Pow(x, p - 1), 1, k, p);
      PowOne(k);
      CongIntro(x, x, p, 0);
      CongMul(x, x, Pow(x, f), 1, p);
    }
  }

  /** Two distinct primes dividing a number divide it jointly. */
  lemma {:induction false} TwoPrimes(p: nat, q: nat, y: int)
    requires Prime(p) && Prime(q) && p != q && y % p == 0 && y % q == 0
    ensures y % (p * q) == 0
  {
    var k := y / p;
    assert y == p * k;
    if p < q { DivModUnique(p, q, 0, p); }
    EuclidLemma(q, p, k);
    var l := k / q;
    assert y == (p * q) * l by {
      assert k == q * l;
      assert p * (q * l) == (p * q) * l;
    }
    MultipleMod(p * q, l);
  }

  /**
    Section 3.2 of RFC 8017: when e d = 1 modulo both p - 1 and q - 1, raising to
    the power e d is the identity modulo p q, also for x sharing a factor with p q.
   */
  lemma {:induction false} RsaIdentity(x: nat, ed: nat, p: nat, q: nat)
    requires Prime(p) && Prime(q) && p != q
    requires ed >= 1 && Cong(ed, 1, p - 1) && Cong(ed, 1, q - 1)
    ensures p * q > 0 && Cong(Pow(x, ed), x, p * q)
  {
    var k := CongElim(ed, 1, p - 1);
    var l := CongElim(ed, 1, q - 1);
    FactorSign(p - 1, k);
    FactorSign(q - 1, l);
    ExponentModPrime(x, k, p);
    ExponentModPrime(x, l, q);
    MulAtLeast(p, q);
    TwoPrimes(p, q, Pow(x, ed) - x);
  }
}
