/**
 Montgomery multiplication as a reducer for modPow (demo/v8_benchmark.js, 2274-2315 and
 2806-2864): products scaled by R = 2^k still form an associative operation on the residues of
 an odd modulus, and a power of converted numbers, scaled back, is the power modulo m.
 */
module MontgomeryPower {
  import opened Arithmetic
  import opened ModularPower

  ghost function IntPow(x: int, n: nat): int {
    if n == 0 then 1 else IntPow(x, n - 1) * x
  }

  // ----- division by 2^k modulo an odd number -----

  /** Half of a residue of the odd modulus m. */
  ghost function HalfMod(x: int, m: int): (r: int)
    requires 0 <= x < m && m % 2 == 1
    ensures 0 <= r < m && (2 * r == x || 2 * r == x + m)
  {
    if x % 2 == 0 then x / 2 else (x + m) / 2
  }

  /** x / 2^k modulo m. */
  ghost function Redc(x: int, m: int, k: nat): (r: int)
    requires m > 0 && m % 2 == 1
    ensures 0 <= r < m
  {
    if k == 0 then x % m else HalfMod(Redc(x, m, k - 1), m)
  }

  lemma {:induction false} RedcScales(x: int, m: int, k: nat)
    requires m > 0 && m % 2 == 1
    ensures Cong(Redc(x, m, k) * Pow(2, k), x, m)
  {
    var r := Redc(x, m, k);
    if k == 0 {
      CongMod(x, m);
      CongSym(x, r, m);
    } else {
      RedcScales(x, m, k - 1);
      var h, p := Redc(x, m, k - 1), Pow(2, k - 1);
      Doubled(r, h, p, m);
      CongTrans(r * Pow(2, k), h * p, x, m);
    }
  }

  lemma Doubled(r: int, h: int, p: int, m: int)
    requires 2 * r == h || 2 * r == h + m
    ensures Cong(r * (2 * p), h * p, m)
  {
    Associate(r, 2, p);
    if 2 * r == h {
      CongRefl(h * p, m);
    } else {
      assert (h + m) * p == h * p + p * m;
      CongIntro(r * (2 * p), h * p, m, p);
    }
  }

  /** An odd modulus divides x when it divides 2^k times x. */
  lemma {:induction false} CancelPowerOfTwo(u: int, v: int, m: int, k: nat)
    requires m % 2 == 1 && Cong(u * Pow(2, k), v * Pow(2, k), m)
    ensures Cong(u, v, m)
  {
    if k > 0 {
      CancelTwo(u, v, m, Pow(2, k - 1));
      CancelPowerOfTwo(u, v, m, k - 1);
    }
  }

  lemma CancelTwo(u: int, v: int, m: int, p: int)
    requires m % 2 == 1 && Cong(u * (2 * p), v * (2 * p), m)
    ensures Cong(u * p, v * p, m)
  {
    var q :| u * (2 * p) - v * (2 * p) == q * m;
    Associate(u, 2, p);
    Associate(v, 2, p);
    assert u * (2 * p) == 2 * (u * p) && v * (2 * p) == 2 * (v * p);
    OddFactor(q, m, u * p - v * p);
    CongIntro(u * p, v * p, m, q / 2);
  }

  lemma OddFactor(q: int, m: int, w: int)
    requires m % 2 == 1 && q * m == 2 * w
    ensures (q / 2) * m == w
  {
    var h := m / 2;
    assert m == 2 * h + 1;
    assert q * m == 2 * (q * h) + q;
    assert q == 2 * (w - q * h);
    assert q / 2 == w - q * h;
    assert 2 * ((q / 2) * m) == q * m by { Associate(2, q / 2, m); }
  }

  /** Only one residue agrees with x after scaling. */
  lemma RedcUnique(r: int, x: int, m: int, k: nat)
    requires m % 2 == 1 && 0 <= r < m && Cong(r * Pow(2, k), x, m)
    ensures r == Redc(x, m, k)
  {
    hide Pow, Redc;
    var q := Redc(x, m, k);
    RedcScales(x, m, k);
    CongSym(q * Pow(2, k), x, m);
    CongTrans(r * Pow(2, k), x, q * Pow(2, k), m);
    CancelPowerOfTwo(r, q, m, k);
    CongUnique(r, q, m);
  }

  // ----- the reducer -----

  /** Montgomery reduction by R = 2^k: x*R, x*y/R, x*x/R and x/R modulo m. */
  ghost function MontgomeryReducer(m: int, k: nat): Reducer<int>
    requires m > 0 && m % 2 == 1
  {
    Reducer(x => 0 <= x < m, x => (x * Pow(2, k)) % m,
            (x, y) => Redc(x * y, m, k), x => Redc(x * x, m, k), x => Redc(x, m, k))
  }

  /** (a*b)*c and a*(b*c), scaled twice, are both a*b*c. */
  lemma ScaledTwice(a: int, b: int, ab: int, c: int, abc: int, r: int, m: int)
    requires Cong(ab * r, a * b, m) && Cong(abc * r, ab * c, m)
    ensures Cong(abc * (r * r), (a * b) * c, m)
  {
    CongMul(abc * r, ab * c, r, m);
    CongMul(ab * r, a * b, c, m);
    assert (abc * r) * r == abc * (r * r) by { Associate(abc, r, r); }
    assert (ab * c) * r == (ab * r) * c;
    CongTrans(abc * (r * r), (ab * r) * c, (a * b) * c, m);
  }

  lemma RedcAssociative(m: int, k: nat, a: int, b: int, c: int)
    requires m > 0 && m % 2 == 1
    ensures Redc(Redc(a * b, m, k) * c, m, k) == Redc(a * Redc(b * c, m, k), m, k)
  {
    hide Pow, Redc;
    var ab, bc := Redc(a * b, m, k), Redc(b * c, m, k);
    ProductScaled(m, k, a, b, c);
    ProductScaled(m, k, b, c, a);
    assert bc * a == a * bc && (b * c) * a == (a * b) * c;
    RedcUnique(Redc(a * bc, m, k), (a * b) * c, m, k + k);
    RedcUnique(Redc(ab * c, m, k), (a * b) * c, m, k + k);
  }

  lemma ProductScaled(m: int, k: nat, a: int, b: int, c: int)
    requires m > 0 && m % 2 == 1
    ensures Cong(Redc(Redc(a * b, m, k) * c, m, k) * Pow(2, k + k), (a * b) * c, m)
  {
    hide Pow, Redc;
    var ab := Redc(a * b, m, k);
    RedcScales(a * b, m, k);
    RedcScales(ab * c, m, k);
    ScaledTwice(a, b, ab, c, Redc(ab * c, m, k), Pow(2, k), m);
    PowAdd(2, k, k);
  }

  /** Montgomery multiplication is a lawful reducer. */
  lemma MontgomeryIsLawful(m: int, k: nat)
    requires m > 0 && m % 2 == 1
    ensures Lawful(MontgomeryReducer(m, k))
  {
    hide Pow, Redc;
    forall a, b, c ensures Redc(Redc(a * b, m, k) * c, m, k) == Redc(a * Redc(b * c, m, k), m, k) {
      RedcAssociative(m, k, a, b, c);
    }
  }

  /** A power of converted numbers is the converted power. */
  lemma {:induction false} PowerIsScaled(m: int, k: nat, g: int, x: int, n: nat)
    requires m > 0 && m % 2 == 1 && n > 0 && Cong(g, x * Pow(2, k), m)
    ensures
      var r := Pow(2, k);
      Cong(Power(MontgomeryReducer(m, k), g, n) * r, (IntPow(x, n) * r) * r, m)
  {
    hide Pow, Redc;
    var r, z := Pow(2, k), MontgomeryReducer(m, k);
    if n == 1 {
      CongMul(g, x * r, r, m);
      assert IntPow(x, 1) == IntPow(x, 0) * x == x;
    } else {
      PowerIsScaled(m, k, g, x, n - 1);
      var h := Power(z, g, n - 1);
      RedcScales(h * g, m, k);
      ScaledProduct(h, g, z.mul(h, g), IntPow(x, n - 1), x, r, m);
    }
  }

  lemma ScaledProduct(h: int, g: int, hg: int, y: int, x: int, r: int, m: int)
    requires Cong(hg * r, h * g, m) && Cong(h * r, (y * r) * r, m) && Cong(g, x * r, m)
    ensures Cong(hg * r, ((y * x) * r) * r, m)
  {
    CongMul(g, x * r, h, m);
    CongMul(h * r, (y * r) * r, x, m);
    assert h * (x * r) == (h * r) * x;
    assert ((y * r) * r) * x == ((y * x) * r) * r;
    CongTrans(h * g, (h * r) * x, ((y * x) * r) * r, m);
    CongTrans(hg * r, h * g, ((y * x) * r) * r, m);
  }

  /** The whole computation, for any number g that represents x: x^n modulo m. */
  lemma MontgomeryPowerCorrect(m: int, k: nat, g: int, x: int, n: nat)
    requires m > 0 && m % 2 == 1 && n > 0 && Cong(g, x * Pow(2, k), m)
    ensures Redc(Power(MontgomeryReducer(m, k), g, n), m, k) == IntPow(x, n) % m
  {
    hide Pow, Power, Redc;
    var r, y := Pow(2, k), Power(MontgomeryReducer(m, k), g, n);
    PowerIsScaled(m, k, g, x, n);
    CancelPowerOfTwo(y, IntPow(x, n) * r, m, k);
    CongSym(y, IntPow(x, n) * r, m);
    CongMod(IntPow(x, n), m);
    ScaledRemainder(IntPow(x, n), r, y, m);
    RedcUnique(IntPow(x, n) % m, y, m, k);
  }

  lemma ScaledRemainder(p: int, r: int, y: int, m: int)
    requires m > 0 && Cong(p * r, y, m)
    ensures Cong((p % m) * r, y, m)
  {
    CongMod(p, m);
    CongSym(p, p % m, m);
    CongMul(p % m, p, r, m);
    CongTrans((p % m) * r, p * r, y, m);
  }
}
