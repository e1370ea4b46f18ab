/**
 Montgomery reduction (demo/v8_benchmark.js, 2238-2321): the Newton inverse of the low
 digit of the modulus, and the reduction that divides by b^t modulo m in place.
 */
module MontgomeryReduction {
  import opened Arithmetic
  import opened DigitArithmetic
  import opened BigIntegers

  // ----- the inverse digit -----

  lemma CongDivisor(x: int, y: int, m: int, f: int)
    requires Cong(x, y, m * f)
    ensures Cong(x, y, m)
  {
    var k :| x - y == k * (m * f);
    CongIntro(x, y, m, k * f);
  }

  lemma CongAdd(x: int, y: int, u: int, v: int, m: int)
    requires Cong(x, y, m) && Cong(u, v, m)
    ensures Cong(x + u, y + v, m) && Cong(x - u, y - v, m)
  {
    var j :| x - y == j * m;
    var k :| u - v == k * m;
    Distribute(m, j, k);
    Distribute(m, j, -k);
    CongIntro(x + u, y + v, m, j + k);
    CongIntro(x - u, y - v, m, j - k);
  }

  /** Newton's step squares the modulus to which y inverts x. */
  lemma NewtonStep(x: int, y: int, q: int)
    requires Cong(x * y, 1, q)
    ensures Cong(x * (y * (2 - x * y)), 1, q * q)
  {
    var k :| x * y - 1 == k * q;
    var z := x * y;
    assert x * (y * (2 - z)) == z * (2 - z);
    assert z * (2 - z) - 1 == -((z - 1) * (z - 1));
    assert (z - 1) * (z - 1) == (k * q) * (k * q) == (k * k) * (q * q);
    CongIntro(x * (y * (2 - z)), 1, q * q, -(k * k));
  }

  /** The step with its operands already reduced modulo m, a divisor of q*q. */
  lemma ReducedNewtonStep(x: int, y: int, q: int, m: int, f: int, z: int, y': int)
    requires Cong(x * y, 1, q) && q * q == m * f
    requires Cong(z, x * y, m) && Cong(y', y * (2 - z), m)
    ensures Cong(x * y', 1, m)
  {
    NewtonStep(x, y, q);
    CongDivisor(x * (y * (2 - x * y)), 1, m, f);
    CongRefl(2, m);
    CongAdd(2, 2, z, x * y, m);
    CongMul(2 - z, 2 - x * y, y, m);
    CongTrans(y', y * (2 - z), y * (2 - x * y), m);
    CongMul(y', y * (2 - x * y), x, m);
    CongTrans(x * y', x * (y * (2 - x * y)), 1, m);
  }

  /** JavaScript's %, whose result takes the sign of the dividend. */
  function JsRem(x: int, p: int): (r: int)
    requires p > 0 && Int53(x)
    ensures -p < r < p
  {
    if x >= 0 then x % p else -((-x) % p)
  }

  lemma JsRemCong(x: int, p: int)
    requires p > 0 && Int53(x)
    ensures Cong(JsRem(x, p), x, p)
  {
    if x >= 0 {
      CongMod(x, p);
      CongSym(x, x % p, p);
    } else {
      CongIntro(JsRem(x, p), x, p, (-x) / p);
    }
  }

  lemma MaskCong(x: int, p: int)
    requires p > 0
    ensures Cong(x % p, x, p)
  {
    CongMod(x, p);
    CongSym(x, x % p, p);
  }

  /** x*(x mod p) and x*y agree modulo p when y is masked first. */
  lemma MaskedProduct(x: int, y: int, p: int)
    requires p > 0
    ensures Cong((x % p) * y, x * y, p)
  {
    MaskCong(x, p);
    CongMul(x % p, x, y, p);
  }

  lemma OddSquare(x: int)
    requires x % 2 == 1
    ensures Cong(x * (x % 4), 1, 4)
  {
    var q, y := x / 4, x % 4;
    assert y == 1 || y == 3;
    assert x * y - 1 == 4 * (q * y) + (y * y - 1);
    CongIntro(x * y, 1, 4, q * y + (y * y - 1) / 4);
  }

  /** -1/m[0] modulo the base: the factor that clears a low digit; 0 when there is none. */
  method InvDigit(e: Engine, m: BigInteger) returns (r: int)
    requires m.Valid(e.Base())
    ensures m.t < 1 || m.digits[0] % 2 == 0 ==> r == 0
    ensures m.t >= 1 && m.digits[0] % 2 == 1 ==> 0 < r < e.Base() && Cong(m.digits[0] * r, -1, e.Base())
  {
    if m.t < 1 { return 0; }
    var x := m.digits[0];
    if AndMask(x, 2) == 0 { return 0; }
    var y := AndMask(x, 4);
    OddSquare(x);
    y := Invert4(x, y);
    y := Invert8(x, y);
    y := Invert16(x, y);
    r := InvertLast(e, x, y);
  }

  method Invert4(x: int, y: int) returns (r: int)
    requires 0 <= x < TWO31 && 0 <= y < 4 && Cong(x * y, 1, 4)
    ensures 0 <= r < 16 && Cong(x * r, 1, 16)
  {
    var z := AndMask(x, 0x10) * y;
    assert 0 <= z <= 45;
    MaskedProduct(x, y, 0x10);
    MaskCong(y * (2 - z), 0x10);
    r := AndMask(y * (2 - z), 0x10);
    ReducedNewtonStep(x, y, 4, 16, 1, z, r);
  }

  method Invert8(x: int, y: int) returns (r: int)
    requires 0 <= x < TWO31 && 0 <= y < 16 && Cong(x * y, 1, 16)
    ensures 0 <= r < 256 && Cong(x * r, 1, 256)
  {
    var z := AndMask(x, 0x100) * y;
    Product(x % 0x100, 0x100, y, 16);
    Product(z, 0x1000, y, 16);
    MaskedProduct(x, y, 0x100);
    MaskCong(y * (2 - z), 0x100);
    r := AndMask(y * (2 - z), 0x100);
    ReducedNewtonStep(x, y, 16, 256, 1, z, r);
  }

  method Invert16(x: int, y: int) returns (r: int)
    requires 0 <= x < TWO31 && 0 <= y < 256 && Cong(x * y, 1, 256)
    ensures 0 <= r < 0x10000 && Cong(x * r, 1, 0x10000)
  {
    Product(x % 0x10000, 0x10000, y, 256);
    var z := AndMask(AndMask(x, 0x10000) * y, 0x10000);
    Product(z, 0x10000, y, 256);
    MaskedProduct(x, y, 0x10000);
    MaskCong((x % 0x10000) * y, 0x10000);
    CongTrans(z, (x % 0x10000) * y, x * y, 0x10000);
    MaskCong(y * (2 - z), 0x10000);
    r := AndMask(y * (2 - z), 0x10000);
    ReducedNewtonStep(x, y, 256, 0x10000, 1, z, r);
  }

  method InvertLast(e: Engine, x: int, y0: int) returns (r: int)
    requires 0 <= x < e.Base() && 0 <= y0 < 0x10000 && Cong(x * y0, 1, 0x10000)
    ensures 0 < r < e.Base() && Cong(x * r, -1, e.Base())
  {
    var b := e.Base();
    Product(x, b, y0, 0x10000);
    var z := JsRem(x * y0, b);
    JsRemCong(x * y0, b);
    assert 0 <= z < b;
    Product(z, b, y0, 0x10000);
    var y := JsRem(y0 * (2 - z), b);
    JsRemCong(y0 * (2 - z), b);
    ReducedNewtonStep(x, y0, 0x10000, b, 0x1_0000_0000 / b, z, y);
    NonZeroInverse(x, y, b);
    r := if y > 0 then b - y else -y;
    NegatedInverse(x, y, b, r);
  }

  lemma NonZeroInverse(x: int, y: int, b: int)
    requires b > 1 && Cong(x * y, 1, b)
    ensures y != 0
  {
    if y == 0 { CongUnique(0, 1, b); }
  }

  lemma NegatedInverse(x: int, y: int, b: int, r: int)
    requires Cong(x * y, 1, b) && (r == b - y || r == -y)
    ensures Cong(x * r, -1, b)
  {
    var k :| x * y - 1 == k * b;
    if r == b - y {
      Distribute(x, b, -y);
      CongIntro(x * r, -1, b, x - k);
    } else {
      CongIntro(x * r, -1, b, -k);
    }
  }

  // ----- the digit that clears a digit -----

  /** x times mp modulo the base, from 15-bit halves (um+1 is base / 2^15). */
  method LowProduct(e: Engine, x: int, mpl: int, mph: int, um: int) returns (u: int)
    requires 0 <= x < e.Base() && 0 <= mpl < 0x8000 && 0 <= mph < um + 1 == e.Base() / 0x8000
    ensures 0 <= u < e.Base() && Cong(u, x * (mpl + 0x8000 * mph), e.Base())
  {
    var j, h := AndMask(x, 0x8000), Sar(x, 0x8000);
    Product(j, 0x8000, mpl, 0x8000);
    Product(j, 0x8000, mph, 0x2000);
    Product(h, 0x2000, mpl, 0x8000);
    var z := j * mph + h * mpl;
    u := AndMask(j * mpl + Shl(AndMask(z, um + 1), 0x8000), e.Base());
    MaskCong(j * mpl + (z % (um + 1)) * 0x8000, e.Base());
    LowProductCong(e, j, h, mpl, mph, z);
    CongTrans(u, j * mpl + (z % (um + 1)) * 0x8000, x * (mpl + 0x8000 * mph), e.Base());
  }

  lemma LowProductCong(e: Engine, j: int, h: int, mpl: int, mph: int, z: int)
    requires z == j * mph + h * mpl
    ensures Cong(j * mpl + (z % (e.Base() / 0x8000)) * 0x8000, (j + 0x8000 * h) * (mpl + 0x8000 * mph), e.Base())
  {
    ProductOfSums(0x8000, h, j, mph, mpl);
    LowProductArith(e.Base(), e.Base() / 0x8000, 0x8000, 0x4000_0000 / e.Base(), z, h * mph, j * mpl);
  }

  lemma LowProductArith(b: int, k: int, s: int, f: int, z: int, hh: int, ll: int)
    requires k > 0 && b == k * s && s * s == f * b
    ensures Cong(ll + (z % k) * s, hh * (s * s) + z * s + ll, b)
  {
    var q, r := z / k, z % k;
    assert z == q * k + r;
    Distribute(s, q * k, r);
    Associate(q, k, s);
    Associate(hh, f, b);
    Distribute(b, -q, -(hh * f));
    CongIntro(ll + r * s, hh * (s * s) + z * s + ll, b, -q - hh * f);
  }

  /** Adding u*m, with u congruent to x*mp, makes the low digit zero. */
  lemma ClearsDigit(b: int, x: int, m0: int, mp: int, u: int)
    requires Cong(m0 * mp, -1, b) && Cong(u, x * mp, b)
    ensures Cong(x + u * m0, 0, b)
  {
    CongMul(u, x * mp, m0, b);
    CongMul(m0 * mp, -1, x, b);
    assert (x * mp) * m0 == x * (m0 * mp);
    CongTrans(u * m0, (x * mp) * m0, -x, b);
    CongRefl(x, b);
    CongAdd(x, x, u * m0, -x, b);
  }

  /** ... so the digit that am leaves there is 0. */
  lemma AmClears(b: nat, w: seq<int>, w0: seq<int>, m: seq<int>, i: nat, n: nat, u: int, c: int)
    requires b > 1 && n > 0 && AmDone(b, w, w0, m, 0, i, n, u, 0, c)
    requires Cong(w0[i] + u * m[0], 0, b)
    ensures w[i] == 0
  {
    hide Val, Pow;
    ValHead(b, w, i, i + n);
    ValHead(b, w0, i, i + n);
    ValHead(b, m, 0, n);
    PowSnoc(b, n - 1);
    AmClearsArith(b, w[i], w0[i], u, m[0], Val(b, w[i + 1..i + n]), Val(b, w0[i + 1..i + n]), Val(b, m[1..n]), c,
        Pow(b, n - 1));
    CongTrans(w[i], w0[i] + u * m[0], 0, b);
    CongUnique(w[i], 0, b);
  }

  lemma AmClearsArith(b: int, d: int, d0: int, u: int, m0: int, v: int, v0: int, vm: int, c: int, p: int)
    requires d + b * v + c * (p * b) == d0 + b * v0 + u * (m0 + b * vm)
    ensures Cong(d, d0 + u * m0, b)
  {
    Distribute(u, m0, b * vm);
    var k := v0 + u * vm - v - c * p;
    assert b * k == b * v0 + b * (u * vm) - b * v - b * (c * p) by {
      Distribute(b, v0 + u * vm, -v - c * p);
      Distribute(b, v0, u * vm);
      Distribute(b, -v, -(c * p));
    }
    assert b * (u * vm) == u * (b * vm) && b * (c * p) == c * (p * b);
    CongIntro(d, d0 + u * m0, b, k);
  }

  // ----- the reduction -----

  /**
   Round i of the reduction of v modulo m: x is v plus a multiple of m below b^i,
   and its i low digits are zero.
   */
  ghost predicate Reducing(b: nat, x: seq<int>, len: nat, m: int, v: int, i: nat, q: int) {
    && DigitRange(b, x, 0, len) && i <= len
    && (forall k :: 0 <= k < i ==> x[k] == 0)
    && 0 <= q < Pow(b, i)
    && Val(b, x[..len]) == v + q * m
  }

  lemma ReducingStart(b: nat, x: seq<int>, len: nat, m: int)
    requires DigitRange(b, x, 0, len)
    ensures Reducing(b, x, len, m, Val(b, x[..len]), 0, 0)
  {
    hide Val;
    assert Pow(b, 0) == 1;
  }

  /** x with digit j possibly too large by one carry still stands for v. */
  ghost predicate Overfull(b: nat, x: seq<int>, len: nat, v: int, i: nat, j: nat) {
    && i <= j < len <= |x|
    && (forall k :: 0 <= k < len && k != j ==> 0 <= x[k] < b)
    && 0 <= x[j] < 2 * b
    && (forall k :: 0 <= k < i ==> x[k] == 0)
    && Val(b, x[..len]) == v
  }

  lemma RoundAdds(b: nat, w: seq<int>, w0: seq<int>, md: seq<int>, n: nat, len: nat, m: int, v: int, i: nat, q: int,
                  u: int, c: int)
    requires b > 1 && 0 < n && n + i < len && DigitRange(b, md, 0, n) && m == Val(b, md[..n])
    requires Reducing(b, w0, len, m, v, i, q) && 0 <= u < b
    requires AmDone(b, w, w0, md, 0, i, n, u, 0, c) && w[i] == 0
    ensures Overfull(b, w[i + n := w[i + n] + c], len, v + (q + Pow(b, i) * u) * m, i + 1, i + n)
    ensures 0 <= q + Pow(b, i) * u < Pow(b, i + 1)
  {
    hide Val, Pow;
    AmCarry(b, w, w0, md, 0, i, n, u, 0, c);
    AmVal(b, w, w0, md, 0, i, n, u, 0, c, len);
    assert md[0..n] == md[..n];
    ValUpdate(b, w[..len], i + n, w[i + n] + c);
    assert w[i + n := w[i + n] + c][..len] == w[..len][i + n := w[i + n] + c];
    PowSnoc(b, i);
    RoundArith(Pow(b, i), q, u, m, b);
  }

  lemma RoundArith(p: int, q: int, u: int, m: int, b: int)
    requires 0 <= q < p && 0 <= u < b
    ensures (q + p * u) * m == q * m + p * (u * m)
    ensures 0 <= q + p * u < p * b
  {
    Distribute(m, q, p * u);
    Associate(p, u, m);
    MulMonotone(0, u, p);
    MulMonotone(u, b - 1, p);
    Distribute(p, b, -1);
  }

  lemma OverfullStep(b: nat, x: seq<int>, len: nat, v: int, i: nat, j: nat)
    requires b > 1 && Overfull(b, x, len, v, i, j) && x[j] >= b && v < Pow(b, len)
    ensures j + 1 < len && Overfull(b, x[j := x[j] - b][j + 1 := x[j + 1] + 1], len, v, i, j + 1)
  {
    hide Val, Pow;
    if j + 1 == len {
      ValTake(b, x, j);
      RangeBounds(b, x, 0, j);
      assert x[0..j] == x[..j];
      MulMonotone(b, x[j], Pow(b, j));
      PowSnoc(b, j);
    } else {
      CarryOne(b, x, j, len);
      assert x[j := x[j] - b][j + 1 := x[j + 1] + 1][..len] == x[..len][j := x[j] - b][j + 1 := x[j + 1] + 1];
    }
  }

  /** The sum stays inside 2n+1 digits: 2*m*b^n < b^(2n+1). */
  lemma RoomForCarries(b: nat, n: nat, m: int, v: int, i: nat, q: int, len: nat)
    requires b > 1 && 0 <= m < Pow(b, n) && 0 <= v < m * Pow(b, n) && 0 <= q < Pow(b, i) && i <= n && 2 * n + 1 <= len
    ensures v + q * m < 2 * (m * Pow(b, n)) && v + q * m < Pow(b, len)
  {
    hide Pow;
    PowMonotone(b, i, n);
    PowMonotone(b, 2 * n + 1, len);
    PowAdd(b, n, n);
    PowSnoc(b, 2 * n);
    RoomArith(Pow(b, n), m, v, q, b);
  }

  lemma RoomArith(p: int, m: int, v: int, q: int, b: int)
    requires b > 1 && 0 <= m < p && 0 <= v < m * p && 0 <= q < p
    ensures v + q * m < 2 * (m * p) <= (p * p) * b
  {
    MulMonotone(q, p, m);
    MulMonotone(m, p, p);
    MulMonotone(2, b, p * p);
  }

  class Montgomery {
    const m: BigInteger
    const mp: int
    const mpl: int
    const mph: int
    const um: int
    const mt2: nat
    const engine: Engine

    /** The modulus is odd and positive; mp is the negated inverse of its low digit. */
    ghost predicate Valid()
      reads m
    {
      && m.Clamped(engine.Base()) && m.s == 0 && m.t > 0
      && mt2 == 2 * m.t
      && mp == mpl + 0x8000 * mph && 0 <= mpl < 0x8000 && 0 <= mph < um + 1 == engine.Base() / 0x8000
      && Cong(m.digits[0] * mp, -1, engine.Base())
    }

    constructor (e: Engine, m: BigInteger)
      requires m.Clamped(e.Base()) && m.s == 0 && m.t > 0 && m.digits[0] % 2 == 1
      ensures Valid() && this.m == m && engine == e
    {
      this.m := m;
      engine := e;
      var mp := InvDigit(e, m);
      this.mp := mp;
      mpl := AndMask(mp, 0x8000);
      mph := Sar(mp, 0x8000);
      um := Shl(1, if e.Am3? then 0x2000 else 0x800) - 1;
      mt2 := 2 * m.t;
    }

    /** x becomes x / b^t modulo m, in place and below m. */
    method Reduce(x: BigInteger)
      requires Valid() && x != m && x.Valid(engine.Base()) && x.s == 0
      requires x.Value(engine.Base()) < m.Value(engine.Base()) * Pow(engine.Base(), m.t)
      modifies x
      ensures x.Clamped(engine.Base()) && 0 <= x.Value(engine.Base()) < m.Value(engine.Base())
      ensures Cong(x.Value(engine.Base()) * Pow(engine.Base(), m.t), old(x.Value(engine.Base())),
              m.Value(engine.Base()))
    {
      hide Val, Pow, Reducing;
      var b := engine.Base();
      ghost var v, mv := x.Value(b), m.Value(b);
      RangeBounds(b, x.digits, 0, x.t);
      RangeBounds(b, m.digits, 0, m.t);
      assert x.digits[0..x.t] == x.digits[..x.t] && m.digits[0..m.t] == m.digits[..m.t];
      Pad(x);
      ReducingStart(b, x.digits, x.t, mv);
      ghost var q := 0;
      var i := 0;
      while i < m.t
        invariant 0 <= i <= m.t && x.t >= mt2 + 1 && x.s == 0
        invariant Reducing(b, x.digits, x.t, mv, v, i, q)
      {
        q := Round(x, i, v, q);
        i := i + 1;
      }
      Finish(x, v, q);
    }

    /** Pads x with zeros so that am has room. */
    method Pad(x: BigInteger)
      requires x.Valid(engine.Base()) && x.s == 0
      modifies x
      ensures x.Valid(engine.Base()) && x.s == 0 && x.t > mt2 && x.Value(engine.Base()) == old(x.Value(engine.Base()))
    {
      hide Val, Pow;
      var b := engine.Base();
      while x.t <= mt2
        invariant x.Valid(b) && x.s == 0 && x.Value(b) == old(x.Value(b))
        decreases mt2 - x.t
      {
        ghost var d := x.digits;
        x.digits := Put(x.digits, x.t, 0);
        ValTake(b, x.digits, x.t);
        assert x.digits[..x.t] == d[..x.t];
        x.t := x.t + 1;
      }
    }

    /** Clears digit i by adding a multiple of m. */
    method Round(x: BigInteger, i: nat, ghost v: int, ghost q: int) returns (ghost q': int)
      requires Valid() && x != m && i < m.t && x.t > mt2
      requires Reducing(engine.Base(), x.digits, x.t, m.Value(engine.Base()), v, i, q)
      requires 0 <= v < m.Value(engine.Base()) * Pow(engine.Base(), m.t)
      modifies x`digits
      ensures Reducing(engine.Base(), x.digits, x.t, m.Value(engine.Base()), v, i + 1, q')
    {
      hide Val, Pow;
      var b := engine.Base();
      ghost var mv := m.Value(b);
      ghost var w0 := x.digits;
      var u0 := LowProduct(engine, x.digits[i], mpl, mph, um);
      var j := i + m.t;
      var c := m.MulAdd(engine, 0, u0, x, i, 0, m.t);
      ClearsDigit(b, w0[i], m.digits[0], mp, u0);
      AmClears(b, x.digits, w0, m.digits, i, m.t, u0, c);
      RoundAdds(b, x.digits, w0, m.digits, m.t, x.t, mv, v, i, q, u0, c);
      q' := q + Pow(b, i) * u0;
      RangeBounds(b, m.digits, 0, m.t);
      assert m.digits[0..m.t] == m.digits[..m.t];
      RoomForCarries(b, m.t, mv, v, i + 1, q', x.t);
      x.digits := x.digits[j := x.digits[j] + c];
      PropagateCarry(x, j, i + 1, v + q' * mv);
    }

    method PropagateCarry(x: BigInteger, j0: nat, ghost i: nat, ghost v: int)
      requires Overfull(engine.Base(), x.digits, x.t, v, i, j0) && v < Pow(engine.Base(), x.t)
      modifies x`digits
      ensures DigitRange(engine.Base(), x.digits, 0, x.t) && Val(engine.Base(), x.digits[..x.t]) == v
      ensures i <= x.t && forall k :: 0 <= k < i ==> x.digits[k] == 0
    {
      hide Val, Pow;
      var b := engine.Base();
      var j := j0;
      while x.digits[j] >= b
        invariant Overfull(b, x.digits, x.t, v, i, j)
        decreases x.t - j
      {
        OverfullStep(b, x.digits, x.t, v, i, j);
        x.digits := x.digits[j := x.digits[j] - b];
        j := j + 1;
        x.digits := x.digits[j := x.digits[j] + 1];
      }
    }

    /** r = x*y / b^t modulo m. */
    method MulTo(x: BigInteger, y: BigInteger, r: BigInteger)
      requires Valid() && r != x && r != y && r != m && x.Valid(engine.Base()) && y.Valid(engine.Base())
      requires 0 <= x.Value(engine.Base()) < m.Value(engine.Base())
      requires 0 <= y.Value(engine.Base()) < m.Value(engine.Base())
      modifies r
      ensures r.Clamped(engine.Base()) && 0 <= r.Value(engine.Base()) < m.Value(engine.Base())
      ensures Cong(r.Value(engine.Base()) * Pow(engine.Base(), m.t), x.Value(engine.Base()) * y.Value(engine.Base()),
              m.Value(engine.Base()))
    {
      hide Val, Pow;
      x.MultiplyTo(engine, y, r);
      ProductFits(x.Value(engine.Base()), y.Value(engine.Base()), r);
      Reduce(r);
    }

    /** r = x^2 / b^t modulo m. */
    method SqrTo(x: BigInteger, r: BigInteger)
      requires Valid() && r != x && r != m && x.Valid(engine.Base())
      requires 0 <= x.Value(engine.Base()) < m.Value(engine.Base())
      modifies r
      ensures r.Clamped(engine.Base()) && 0 <= r.Value(engine.Base()) < m.Value(engine.Base())
      ensures Cong(r.Value(engine.Base()) * Pow(engine.Base(), m.t), x.Value(engine.Base()) * x.Value(engine.Base()),
              m.Value(engine.Base()))
    {
      hide Val, Pow;
      x.SquareTo(engine, r);
      ProductFits(x.Value(engine.Base()), x.Value(engine.Base()), r);
      Reduce(r);
    }

    /** x / b^t modulo m, in a new number. */
    method Revert(x: BigInteger) returns (r: BigInteger)
      requires Valid() && x.Valid(engine.Base()) && x.s == 0
      requires x.Value(engine.Base()) < m.Value(engine.Base()) * Pow(engine.Base(), m.t)
      ensures fresh(r) && r.Clamped(engine.Base()) && 0 <= r.Value(engine.Base()) < m.Value(engine.Base())
      ensures Cong(r.Value(engine.Base()) * Pow(engine.Base(), m.t), x.Value(engine.Base()), m.Value(engine.Base()))
    {
      hide Val, Pow;
      r := new BigInteger();
      x.CopyTo(engine, r);
      Reduce(r);
    }

    /** A product of two residues is small enough to reduce. */
    lemma ProductFits(x: int, y: int, r: BigInteger)
      requires Valid() && 0 <= x < m.Value(engine.Base()) && 0 <= y < m.Value(engine.Base())
      requires r.Valid(engine.Base()) && r.Value(engine.Base()) == x * y
      ensures r.s == 0 && x * y < m.Value(engine.Base()) * Pow(engine.Base(), m.t)
    {
      hide Val, Pow;
      var b := engine.Base();
      RangeBounds(b, m.digits, 0, m.t);
      assert m.digits[0..m.t] == m.digits[..m.t];
      RangeBounds(b, r.digits, 0, r.t);
      assert r.digits[0..r.t] == r.digits[..r.t];
      ResidueProduct(x, y, m.Value(b), Pow(b, m.t));
    }

    /** Drops the cleared digits and subtracts m at most once. */
    method Finish(x: BigInteger, ghost v: int, ghost q: int)
      requires Valid() && x != m && x.s == 0 && x.t > mt2
      requires Reducing(engine.Base(), x.digits, x.t, m.Value(engine.Base()), v, m.t, q)
      requires 0 <= v < m.Value(engine.Base()) * Pow(engine.Base(), m.t)
      modifies x
      ensures x.Clamped(engine.Base()) && 0 <= x.Value(engine.Base()) < m.Value(engine.Base())
      ensures Cong(x.Value(engine.Base()) * Pow(engine.Base(), m.t), v, m.Value(engine.Base()))
    {
      hide Val, Pow, Reducing;
      var b := engine.Base();
      ghost var mv := m.Value(b);
      DropLowDigits(x, v, q);
      ghost var r := x.Value(b);
      HalvedBound(r, Pow(b, m.t), mv);
      FinalCong(r, Pow(b, m.t), v, q, mv);
      var cmp := x.CompareTo(engine, m);
      if cmp >= 0 {
        x.SubTo(engine, m, x);
      }
    }

    method DropLowDigits(x: BigInteger, ghost v: int, ghost q: int)
      requires Valid() && x != m && x.s == 0 && x.t > mt2
      requires Reducing(engine.Base(), x.digits, x.t, m.Value(engine.Base()), v, m.t, q)
      requires 0 <= v < m.Value(engine.Base()) * Pow(engine.Base(), m.t)
      modifies x
      ensures x.Clamped(engine.Base()) && x.s == 0 && 0 <= x.Value(engine.Base())
      ensures x.Value(engine.Base()) * Pow(engine.Base(), m.t) == v + q * m.Value(engine.Base())
      ensures x.Value(engine.Base()) * Pow(engine.Base(), m.t) < 2 * (m.Value(engine.Base()) * Pow(engine.Base(), m.t))
    {
      hide Val, Pow;
      var b := engine.Base();
      ghost var mv := m.Value(b);
      RangeBounds(b, m.digits, 0, m.t);
      assert m.digits[0..m.t] == m.digits[..m.t];
      RoomForCarries(b, m.t, mv, v, m.t, q, x.t);
      x.Clamp(engine);
      ghost var d, len := x.digits, x.t;
      ShiftedValue(b, d, len, m.t);
      x.DrShiftTo(engine, m.t, x);
      RangeBounds(b, x.digits, 0, x.t);
      assert x.digits[0..x.t] == x.digits[..x.t];
      if len > m.t {
        assert x.digits[x.t - 1] == x.digits[..x.t][x.t - 1] == d[m.t..len][x.t - 1] == d[len - 1];
      } else {
        ValEmpty(b);
        assert x.digits[..x.t] == [];
      }
    }
  }

  lemma ResidueProduct(x: int, y: int, m: int, p: int)
    requires 0 <= x < m && 0 <= y < m && m < p
    ensures 0 <= x * y < m * p
  {
    MulMonotone(0, x, y);
    MulMonotone(x, m, y);
    MulMonotone(y + 1, p, m);
  }

  /** A clamped number whose n low digits are zero is b^n times the number above them. */
  lemma ShiftedValue(b: nat, d: seq<int>, len: nat, n: nat)
    requires b > 1 && DigitRange(b, d, 0, len) && (len > 0 ==> d[len - 1] != 0)
    requires n <= |d| && forall k :: 0 <= k < n ==> d[k] == 0
    ensures len == 0 || len > n
    ensures len > n ==> Val(b, d[..len]) == Val(b, d[n..len]) * Pow(b, n)
    ensures len == 0 ==> Val(b, d[..len]) == 0
  {
    hide Val, Pow;
    if len == 0 {
      assert d[..len] == [];
      ValEmpty(b);
    } else {
      assert len > n;
      ValSplit(b, d[..len], n);
      assert d[..len][..n] == d[..n] && d[..len][n..] == d[n..len];
      ValZeros(b, d[..n]);
    }
  }

  lemma HalvedBound(r: int, p: int, m: int)
    requires p > 0 && r * p < 2 * (m * p)
    ensures r < 2 * m
  {
    if r >= 2 * m { MulMonotone(2 * m, r, p); }
  }

  lemma FinalCong(r: int, p: int, v: int, q: int, m: int)
    requires r * p == v + q * m
    ensures Cong(r * p, v, m) && Cong((r - m) * p, v, m)
  {
    CongIntro(r * p, v, m, q);
    Distribute(p, r, -m);
    Distribute(m, q, -p);
    CongIntro((r - m) * p, v, m, q - p);
  }
}
