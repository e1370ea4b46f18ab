/**
 The arithmetic behind digit arrays: JavaScript's 32-bit operators, the multiply-add
 step, borrow propagation and comparison, each on values only.

 JavaScript numbers are doubles and its bit operators first truncate to 32 bits.
 The operators below carry that as preconditions: a bit operation needs an operand
 inside the signed 32-bit range, a product or sum one of magnitude at most 2^53.
 */
module DigitArithmetic {
  import opened Arithmetic

  const TWO31: int := 0x8000_0000
  const TWO53: int := 0x20_0000_0000_0000

  predicate Int32(x: int) { -TWO31 <= x < TWO31 }

  /** x & (p-1), for p a power of two. */
  function AndMask(x: int, p: int): int
    requires p > 0 && Int32(x)
  {
    x % p
  }

  /** x >> k, for p == 2^k. */
  function Sar(x: int, p: int): int
    requires p > 0 && Int32(x)
  {
    x / p
  }

  /** x << k, for p == 2^k. */
  function Shl(x: int, p: int): int
    requires p > 0 && Int32(x) && Int32(x * p)
  {
    x * p
  }

  /** The globals chosen by setupEngine: the multiply-add routine and its digit size. */
  datatype Engine = Am1 | Am3 | Am4 {
    function Bits(): nat { if Am3? then 28 else 26 }

    function Base(): nat { if Am3? then 0x1000_0000 else 0x400_0000 }

    /** am takes carries below this bound. */
    function CarryLimit(): nat { if Am1? then 2 * Base() + 1 else 3 * Base() }
  }

  lemma BaseIsPowerOfTwo(e: Engine)
    ensures e.Base() == Pow(2, e.Bits())
  {
    PowAdd(2, 13, 13);
    assert Pow(2, 13) == 0x2000;
    PowAdd(2, 26, 2);
    assert Pow(2, 2) == 4;
  }

  /** What an unwritten element of a JavaScript array reads as here: not a digit. */
  const HOLE: int := -1

  /** array[i] = v, growing the array when i is past its end. */
  function Put(d: seq<int>, i: nat, v: int): (r: seq<int>)
    ensures |r| == if i < |d| then |d| else i + 1
    ensures r[i] == v
    ensures forall k :: 0 <= k < |d| && k != i ==> r[k] == d[k]
  {
    if i < |d| then d[i := v] else d + seq(i - |d|, _ => HOLE) + [v]
  }

  lemma ValUpdate(b: nat, d: seq<int>, k: nat, x: int)
    requires k < |d|
    ensures Val(b, d[k := x]) == Val(b, d) + Pow(b, k) * (x - d[k])
  {
    hide Val, Pow;
    var e := d[k := x];
    ValSplit(b, d, k);
    ValSplit(b, e, k);
    ValHead(b, d, k, |d|);
    ValHead(b, e, k, |d|);
    assert e[..k] == d[..k] && e[k..|d|] == e[k..] && d[k..|d|] == d[k..] && e[k + 1..|d|] == d[k + 1..|d|];
    Distribute(Pow(b, k), Val(b, d[k..]), x - d[k]);
  }

  // ----- multiply-add -----

  /**
   w is w0 after x times the n digits of a at i, and the carry c0, were added to its
   n digits at j; c is what is left over.
   */
  ghost predicate AmDone(b: nat, w: seq<int>, w0: seq<int>, a: seq<int>, i: nat, j: nat, n: nat, x: int, c0: int,
                         c: int) {
    && i + n <= |a| && j + n <= |w| == |w0|
    && (forall k :: 0 <= k < |w| && !(j <= k < j + n) ==> w[k] == w0[k])
    && DigitRange(b, w, j, j + n)
    && Val(b, w[j..j + n]) + c * Pow(b, n) == Val(b, w0[j..j + n]) + x * Val(b, a[i..i + n]) + c0
  }

  lemma AmStart(b: nat, w: seq<int>, a: seq<int>, i: nat, j: nat, x: int, c: int)
    requires i <= |a| && j <= |w|
    ensures AmDone(b, w, w, a, i, j, 0, x, c, c)
  {
    assert w[j..j] == [] && a[i..i] == [];
  }

  lemma AmFrame(b: nat, w: seq<int>, w0: seq<int>, a: seq<int>, i: nat, j: nat, n: nat, x: int, c0: int, c: int)
    requires AmDone(b, w, w0, a, i, j, n, x, c0, c)
    ensures |w| == |w0| && DigitRange(b, w, j, j + n)
    ensures forall k :: 0 <= k < |w| && !(j <= k < j + n) ==> w[k] == w0[k]
  {
  }

  lemma AmArith(p: int, b: int, v1: int, v0: int, va: int, x: int, c0: int, c: int, c2: int, d2: int, d: int, a: int)
    requires v1 + c * p == v0 + x * va + c0
    requires d2 + c2 * b == x * a + d + c
    ensures (v1 + p * d2) + c2 * (p * b) == (v0 + p * d) + x * (va + p * a) + c0
  {
    calc {
      (v1 + p * d2) + c2 * (p * b);
      { assert c2 * (p * b) == p * (c2 * b); assert p * d2 + p * (c2 * b) == p * (d2 + c2 * b); }
      v1 + p * (d2 + c2 * b);
      v1 + p * (x * a + d + c);
      { assert p * (x * a + d + c) == p * (x * a) + p * d + p * c; assert p * (x * a) == x * (p * a); }
      v1 + c * p + x * (p * a) + p * d;
      v0 + x * va + c0 + x * (p * a) + p * d;
      { assert x * (va + p * a) == x * va + x * (p * a); }
      (v0 + p * d) + x * (va + p * a) + c0;
    }
  }

  lemma AmStep(b: nat, w: seq<int>, w0: seq<int>, a: seq<int>, i: nat, j: nat, k: nat, x: int, c0: int, c: int, d2: int,
               c2: int)
    requires AmDone(b, w, w0, a, i, j, k, x, c0, c)
    requires i + k < |a| && j + k < |w| && 0 <= d2 < b
    requires d2 + c2 * b == x * a[i + k] + w0[j + k] + c
    ensures AmDone(b, w[j + k := d2], w0, a, i, j, k + 1, x, c0, c2)
  {
    hide Val, Pow;
    var w' := w[j + k := d2];
    assert w'[j..j + k] == w[j..j + k];
    AmStepValue(b, w', w0, a, i, j, k, x, c0, c, c2);
  }

  lemma AmStepValue(b: nat, w: seq<int>, w0: seq<int>, a: seq<int>, i: nat, j: nat, k: nat, x: int, c0: int, c: int,
                    c2: int)
    requires i + k < |a| && j + k < |w| == |w0|
    requires Val(b, w[j..j + k]) + c * Pow(b, k) == Val(b, w0[j..j + k]) + x * Val(b, a[i..i + k]) + c0
    requires w[j + k] + c2 * b == x * a[i + k] + w0[j + k] + c
    ensures
      Val(b, w[j..j + k + 1]) + c2 * Pow(b, k + 1)
      == Val(b, w0[j..j + k + 1]) + x * Val(b, a[i..i + k + 1]) + c0
  {
    hide Val, Pow;
    ValSlice(b, w, j, j + k);
    ValSlice(b, w0, j, j + k);
    ValSlice(b, a, i, i + k);
    PowSnoc(b, k);
    AmArith(Pow(b, k), b, Val(b, w[j..j + k]), Val(b, w0[j..j + k]), Val(b, a[i..i + k]),
            x, c0, c, c2, w[j + k], w0[j + k], a[i + k]);
  }

  /** Adding x times a digit by half digits (h*h == b) is exact. */
  lemma SplitProduct(h: int, x: int, a: int, w: int, c: int)
    requires h > 0
    ensures
      var xl, xh, l, g := x % h, x / h, a % h, a / h;
      var m := xh * l + g * xl;
      var s := xl * l + (m % h) * h + w + c;
      s % (h * h) + (s / (h * h) + m / h + xh * g) * (h * h) == x * a + w + c
  {
    var xl, xh, l, g := x % h, x / h, a % h, a / h;
    var m := xh * l + g * xl;
    var s := xl * l + (m % h) * h + w + c;
    ProductOfSums(h, xh, xl, g, l);
    SplitShift(h, m);
    SplitSum(h * h, s, m / h, xh * g);
  }

  lemma SplitShift(h: int, m: int)
    requires h > 0
    ensures m * h == (m / h) * (h * h) + (m % h) * h
  {
    var q, r := m / h, m % h;
    assert m == q * h + r;
    assert (q * h + r) * h == (q * h) * h + r * h;
    Associate(q, h, h);
  }

  lemma SplitSum(b: int, s: int, y: int, z: int)
    requires b > 0
    ensures s % b + (s / b + y + z) * b == s + y * b + z * b
  {
    Distribute(b, s / b, y + z);
    Distribute(b, y, z);
  }

  lemma ProductOfSums(h: int, xh: int, xl: int, g: int, l: int)
    ensures (xh * h + xl) * (g * h + l) == (xh * g) * (h * h) + (xh * l + g * xl) * h + xl * l
  {
    Distribute(xh * h + xl, g * h, l);
    Distribute(g * h, xh * h, xl);
    Distribute(l, xh * h, xl);
    Distribute(h, xh * l, g * xl);
    Associate(xh * h, g, h);
    SwapFactors(xh, h, g);
    Associate(xh * g, h, h);
    SwapFactors(xh, h, l);
    SwapFactors(g, h, xl);
  }

  lemma SwapFactors(x: int, y: int, z: int)
    ensures (x * y) * z == (x * z) * y
  {
  }

  /** Every bit-operated value of one split step is below 2^31, and so is the carry below 3b. */
  lemma SplitBounds(h: int, x: int, a: int, w: int, c: int)
    requires h > 3 && 8 * (h * h) <= TWO31
    requires 0 <= x < 2 * (h * h) && 0 <= a < h * h && 0 <= w < h * h && 0 <= c < 3 * (h * h)
    ensures
      var xl, xh, l, g := x % h, x / h, a % h, a / h;
      var m := xh * l + g * xl;
      var s := xl * l + (m % h) * h + w + c;
      && 0 <= m < TWO31 && 0 <= (m % h) * h < TWO31 && 0 <= s < TWO31
      && 0 <= s / (h * h) + m / h + xh * g < 3 * (h * h)
  {
    SplitWords(h, x, a, w, c);
    SplitCarry(h, x, a, w, c);
  }

  /** The values that bit operators touch. */
  lemma SplitWords(h: int, x: int, a: int, w: int, c: int)
    requires h > 3 && 8 * (h * h) <= TWO31
    requires 0 <= x < 2 * (h * h) && 0 <= a < h * h && 0 <= w < h * h && 0 <= c < 3 * (h * h)
    ensures
      var xl, xh, l, g := x % h, x / h, a % h, a / h;
      var m := xh * l + g * xl;
      var s := xl * l + (m % h) * h + w + c;
      0 <= m < TWO31 && 0 <= (m % h) * h < TWO31 && 0 <= s < TWO31
  {
    var xl, xh, l, g := x % h, x / h, a % h, a / h;
    var m := xh * l + g * xl;
    Associate(2, h, h);
    HighHalf(h, x, 2 * h);
    HighHalf(h, a, h);
    SplitSizes(h, h * h, xl, xh, l, g, m % h);
    SplitSums(h * h, xh * l, g * xl, xl * l, (m % h) * h, w, c);
  }

  /** The carry out. */
  lemma SplitCarry(h: int, x: int, a: int, w: int, c: int)
    requires h > 3 && 0 <= x < 2 * (h * h) && 0 <= a < h * h && 0 <= w < h * h && 0 <= c < 3 * (h * h)
    ensures
      var xl, xh, l, g := x % h, x / h, a % h, a / h;
      var m := xh * l + g * xl;
      var s := xl * l + (m % h) * h + w + c;
      0 <= s / (h * h) + m / h + xh * g < 3 * (h * h)
  {
    var xl, xh, l, g := x % h, x / h, a % h, a / h;
    var m := xh * l + g * xl;
    var s := xl * l + (m % h) * h + w + c;
    MulMonotone(4, h, h);
    SplitProduct(h, x, a, w, c);
    CarryBound(h * h, x, a, w, c, s % (h * h), s / (h * h) + m / h + xh * g);
  }

  lemma SplitSums(b: int, p: int, q: int, r: int, t: int, w: int, c: int)
    requires b > 0 && 8 * b <= TWO31 && 0 <= p <= 2 * b && 0 <= q <= b && 0 <= r <= b && 0 <= t < b
    requires 0 <= w < b && 0 <= c < 3 * b
    ensures 0 <= p + q < TWO31 && 0 <= t < TWO31 && 0 <= r + t + w + c < TWO31
  {
  }

  lemma SplitSizes(h: int, b: int, xl: int, xh: int, l: int, g: int, r: int)
    requires b == h * h && h > 0
    requires 0 <= xl < h && 0 <= xh < 2 * h && 0 <= l < h && 0 <= g < h && 0 <= r < h
    ensures 0 <= xh * l <= 2 * b && 0 <= g * xl <= b && 0 <= xl * l <= b && 0 <= r * h < b
  {
    ProductBelow(xh, 2 * h, l, h);
    ProductBelow(g, h, xl, h);
    ProductBelow(xl, h, l, h);
    Associate(2, h, h);
    MulMonotone(r, h - 1, h);
    MulMonotone(0, r, h);
    Distribute(h, h, -1);
  }

  lemma ProductBelow(x: int, xb: int, y: int, yb: int)
    requires 0 <= x < xb && 0 <= y < yb
    ensures 0 <= x * y <= xb * yb
  {
    MulMonotone(x, xb, y);
    MulMonotone(y, yb, xb);
  }

  lemma HighHalf(h: int, x: int, k: int)
    requires h > 0 && 0 <= x < k * h
    ensures 0 <= x / h < k
  {
    if x / h >= k { MulMonotone(k, x / h, h); }
  }

  lemma Product(x: int, xb: int, y: int, yb: int)
    requires 0 <= x < xb && 0 <= y < yb
    ensures 0 <= x * y <= (xb - 1) * (yb - 1) == xb * yb - xb - yb + 1 <= xb * yb
  {
    MulMonotone(x, xb - 1, y);
    MulMonotone(y, yb - 1, xb - 1);
  }

  lemma CarryBound(b: int, x: int, a: int, w: int, c: int, d2: int, c2: int)
    requires b > 2 && 0 <= x < 2 * b && 0 <= a < b && 0 <= w < b && 0 <= c < 3 * b
    requires 0 <= d2 < b && d2 + c2 * b == x * a + w + c
    ensures 0 <= c2 < 3 * b
  {
    MulMonotone(x, 2 * b - 1, a);
    MulMonotone(a, b - 1, 2 * b - 1);
    MulMonotone(0, x, a);
    Distribute(b - 1, 2 * b, -1);
    Distribute(2 * b, b, -1);
    Associate(2, b, b);
    CarryRange(b, b * b, x * a, w + c, d2, c2);
  }

  lemma CarryRange(b: int, sq: int, p: int, r: int, d2: int, c2: int)
    requires b > 2 && sq == b * b && 0 <= p <= 2 * sq - 3 * b + 1 && 0 <= r < 4 * b - 1
    requires 0 <= d2 < b && d2 + c2 * b == p + r
    ensures 0 <= c2 < 3 * b
  {
    if c2 < 0 { MulMonotone(c2, -1, b); }
    if c2 >= 3 * b {
      MulMonotone(3 * b, c2, b);
      MulMonotone(2, b, b);
      Associate(3, b, b);
    }
  }

  /** With x, c below b the carry out is again below b. */
  lemma AmCarry(b: nat, w: seq<int>, w0: seq<int>, a: seq<int>, i: nat, j: nat, n: nat, x: int, c0: int, c: int)
    requires AmDone(b, w, w0, a, i, j, n, x, c0, c)
    requires b > 0 && 0 <= x < b && 0 <= c0 < b
    requires DigitRange(b, w0, j, j + n) && DigitRange(b, a, i, i + n)
    ensures 0 <= c < b
  {
    hide Val, Pow;
    var p := Pow(b, n);
    RangeBounds(b, w, j, j + n);
    RangeBounds(b, w0, j, j + n);
    RangeBounds(b, a, i, i + n);
    AmCarryArith(b, p, Val(b, w[j..j + n]), Val(b, w0[j..j + n]), Val(b, a[i..i + n]), x, c0, c);
  }

  lemma AmCarryArith(b: int, p: int, v: int, v0: int, va: int, x: int, c0: int, c: int)
    requires 0 <= v < p && 0 <= v0 < p && 0 <= va < p && 0 <= x < b && 0 <= c0 < b
    requires v + c * p == v0 + x * va + c0
    ensures 0 <= c < b
  {
    Product(x, b, va, p);
    if c >= b { MulMonotone(b, c, p); }
    if c < 0 { MulMonotone(c, -1, p); }
  }

  /** The same equation over the whole number w[..len]. */
  lemma AmVal(b: nat, w: seq<int>, w0: seq<int>, a: seq<int>, i: nat, j: nat, n: nat, x: int, c0: int, c: int, len: nat)
    requires AmDone(b, w, w0, a, i, j, n, x, c0, c)
    requires j + n <= len <= |w|
    ensures Val(b, w[..len]) + c * Pow(b, j + n) == Val(b, w0[..len]) + Pow(b, j) * (x * Val(b, a[i..i + n]) + c0)
  {
    hide Val, Pow;
    SplitThree(b, w, j, n, len);
    SplitThree(b, w0, j, n, len);
    assert w[..j] == w0[..j] && w[j + n..len] == w0[j + n..len];
    PowAdd(b, j, n);
    var p, q := Pow(b, j), Pow(b, n);
    var v, v0, d := Val(b, w[j..j + n]), Val(b, w0[j..j + n]), x * Val(b, a[i..i + n]) + c0;
    ScaleEquation(p, q, v, v0, d, c);
  }

  lemma ScaleEquation(p: int, q: int, v: int, v0: int, d: int, c: int)
    requires v + c * q == v0 + d
    ensures p * v + c * (p * q) == p * v0 + p * d
  {
    Distribute(p, v, c * q);
    Distribute(p, v0, d);
    assert p * (c * q) == c * (p * q);
  }

  lemma SplitThree(b: nat, w: seq<int>, j: nat, n: nat, len: nat)
    requires j + n <= len <= |w|
    ensures Val(b, w[..len]) == Val(b, w[..j]) + Pow(b, j) * Val(b, w[j..j + n]) + Pow(b, j + n) * Val(b, w[j + n..len])
  {
    hide Val, Pow;
    ValSplit(b, w[..len], j + n);
    ValSplit(b, w[..j + n], j);
    assert w[..len][..j + n] == w[..j + n] && w[..len][j + n..] == w[j + n..len];
    assert w[..j + n][..j] == w[..j] && w[..j + n][j..] == w[j..j + n];
  }

  /** The digits and the carry are determined: am1 and am4, of one base, compute the same. */
  lemma AmUnique(b: nat, w1: seq<int>, w2: seq<int>, w0: seq<int>, a: seq<int>, i: nat, j: nat, n: nat, x: int, c0: int,
                 c1: int, c2: int)
    requires b > 0
    requires AmDone(b, w1, w0, a, i, j, n, x, c0, c1) && AmDone(b, w2, w0, a, i, j, n, x, c0, c2)
    ensures w1 == w2 && c1 == c2
  {
    hide Val, Pow;
    var p := Pow(b, n);
    var v1, v2 := Val(b, w1[j..j + n]), Val(b, w2[j..j + n]);
    RangeBounds(b, w1, j, j + n);
    RangeBounds(b, w2, j, j + n);
    QuotientUnique(p, v1, v2, c1, c2);
    DigitsUnique(b, w1[j..j + n], w2[j..j + n]);
    assert forall k :: j <= k < j + n ==> w1[k] == w1[j..j + n][k - j] && w2[k] == w2[j..j + n][k - j];
  }

  lemma {:induction false} DigitsUnique(b: nat, d: seq<int>, e: seq<int>)
    requires |d| == |e| && Digits(b, d) && Digits(b, e) && Val(b, d) == Val(b, e)
    ensures d == e
  {
    if d != [] {
      QuotientUnique(b, d[0], e[0], Val(b, d[1..]), Val(b, e[1..]));
      DigitsUnique(b, d[1..], e[1..]);
      assert d == [d[0]] + d[1..] && e == [e[0]] + e[1..];
    }
  }

  /** An integer of 53 bits and sign, shifted up. */
  ghost function Shifted(m: int, e: nat): int { m * Pow(2, e) }

  /** The integers a double can hold, overflow aside. */
  ghost predicate IsDouble(n: int) { exists m: int, e: nat :: -TWO53 <= m <= TWO53 && n == Shifted(m, e) }

  lemma SmallIsDouble(n: int)
    requires Int53(n)
    ensures IsDouble(n)
  {
    assert n == Shifted(n, 0);
  }

  lemma NextIsNoDouble()
    ensures !IsDouble(TWO53 + 1)
  {
    forall m: int, e: nat | -TWO53 <= m <= TWO53 ensures TWO53 + 1 != Shifted(m, e) {
      if e > 0 {
        Associate(m, 2, Pow(2, e - 1));
        Associate(2, m, Pow(2, e - 1));
        assert Shifted(m, e) == 2 * (m * Pow(2, e - 1));
      }
    }
  }

  /**
   am1's documentation admits carries up to 3*2^26, yet one such carry already takes its
   intermediate value past 2^53; carries up to 2*2^26 are safe.
   */
  lemma Am1CarryLimitIsSharp(c: int)
    requires 0 <= c < 3 * Am1.Base()
    ensures (forall x: int, a: int, w: int {:trigger Am1Sum(x, a, w, c)} ::
               0 <= x < 2 * Am1.Base() && 0 <= a < Am1.Base() && 0 <= w < Am1.Base() ==> Int53(Am1Sum(x, a, w, c)))
       <==> c < Am1.CarryLimit()
    ensures (forall x: int, a: int, w: int {:trigger Am1Sum(x, a, w, c)} ::
               0 <= x < 2 * Am1.Base() && 0 <= a < Am1.Base() && 0 <= w < Am1.Base() ==> IsDouble(Am1Sum(x, a, w, c)))
       <==> c < Am1.CarryLimit()
  {
    hide IsDouble;
    var b := Am1.Base();
    if c > 2 * b {
      var w := 3 * b - c;
      assert 0 <= w < b && Am1Sum(2 * b - 1, b - 1, w, c) == TWO53 + 1;
      NextIsNoDouble();
    } else {
      forall x: int, a: int, w: int {:trigger Am1Sum(x, a, w, c)} | 0 <= x < 2 * b && 0 <= a < b && 0 <= w < b
        ensures Int53(Am1Sum(x, a, w, c)) && IsDouble(Am1Sum(x, a, w, c))
      {
        Product(x, 2 * b, a, b);
        SmallIsDouble(Am1Sum(x, a, w, c));
      }
    }
  }

  function Am1Sum(x: int, a: int, w: int, c: int): int { x * a + w + c }

  /** One step of am1 stays exact and keeps the carry within its limit. */
  lemma Am1Exact(x: int, a: int, w: int, c: int)
    requires 0 <= x < 2 * Am1.Base() && 0 <= a < Am1.Base() && 0 <= w < Am1.Base() && 0 <= c < Am1.CarryLimit()
    ensures 0 <= x * a + w + c <= TWO53
    ensures 0 <= (x * a + w + c) / Am1.Base() < Am1.CarryLimit()
  {
    Product(x, 2 * Am1.Base(), a, Am1.Base());
  }

  predicate Int53(x: int) { -TWO53 <= x <= TWO53 }

  // ----- subtraction -----

  /** The first i digits of d and the borrow c at weight b^i make up v. */
  ghost predicate Partial(b: nat, d: seq<int>, i: nat, c: int, v: int) {
    DigitRange(b, d, 0, i) && Val(b, d[..i]) + c * Pow(b, i) == v
  }

  lemma PartialStart(b: nat, r: seq<int>, d: seq<int>, f: seq<int>)
    ensures Partial(b, r, 0, 0, Val(b, d[..0]) - Val(b, f[..0]))
  {
    assert r[..0] == d[..0] == f[..0] == [];
  }

  lemma PartialStep(b: nat, d: seq<int>, i: nat, c: int, v: int, delta: int)
    requires b > 0 && Partial(b, d, i, c, v)
    ensures Partial(b, Put(d, i, (c + delta) % b), i + 1, (c + delta) / b, v + Pow(b, i) * delta)
  {
    hide Val, Pow;
    var x, c2, p := (c + delta) % b, (c + delta) / b, Pow(b, i);
    var d' := Put(d, i, x);
    ValSlice(b, d', 0, i);
    assert d'[0..i] == d[..i] && d'[..i + 1] == d'[0..i + 1];
    PowSnoc(b, i);
    PartialArith(p, b, Val(b, d[..i]), x, c, c2, delta);
  }

  lemma PartialArith(p: int, b: int, v: int, x: int, c: int, c2: int, delta: int)
    requires x + c2 * b == c + delta
    ensures v + p * x + c2 * (p * b) == v + c * p + p * delta
  {
    Distribute(p, x, c2 * b);
    Distribute(p, c, delta);
    assert p * (c2 * b) == c2 * (p * b);
  }

  lemma AddDigitStep(b: nat, r: seq<int>, d: seq<int>, i: nat, c: int, y: int)
    requires b > 0 && i < |d| && Partial(b, r, i, c, Val(b, d[..i]) + y)
    ensures Partial(b, Put(r, i, (c + d[i]) % b), i + 1, (c + d[i]) / b, Val(b, d[..i + 1]) + y)
  {
    hide Val, Pow;
    PartialStep(b, r, i, c, Val(b, d[..i]) + y, d[i]);
    ValTake(b, d, i);
  }

  lemma SubDigitStep(b: nat, r: seq<int>, f: seq<int>, i: nat, c: int, x: int)
    requires b > 0 && i < |f| && Partial(b, r, i, c, x - Val(b, f[..i]))
    ensures Partial(b, Put(r, i, (c - f[i]) % b), i + 1, (c - f[i]) / b, x - Val(b, f[..i + 1]))
  {
    hide Val, Pow;
    PartialStep(b, r, i, c, x - Val(b, f[..i]), -f[i]);
    ValTake(b, f, i);
  }

  lemma SubStep(b: nat, r: seq<int>, d: seq<int>, f: seq<int>, i: nat, c: int)
    requires b > 0 && i < |d| && i < |f| && Partial(b, r, i, c, Val(b, d[..i]) - Val(b, f[..i]))
    ensures
      var c' := c + d[i] - f[i];
      Partial(b, Put(r, i, c' % b), i + 1, c' / b, Val(b, d[..i + 1]) - Val(b, f[..i + 1]))
  {
    hide Val, Pow;
    PartialStep(b, r, i, c, Val(b, d[..i]) - Val(b, f[..i]), d[i] - f[i]);
    ValTake(b, d, i);
    ValTake(b, f, i);
    Distribute(Pow(b, i), d[i], -f[i]);
  }

  /** The weight of the sign of a number of t digits. */
  ghost function SignTerm(b: nat, s: int, t: nat): int {
    if s < 0 then -(Pow(b, t) as int) else 0
  }

  lemma PartialSign(b: nat, d: seq<int>, i: nat, c: int, v: int, s: int)
    requires Partial(b, d, i, c, v) && (s == 0 || s == -1)
    ensures Partial(b, d, i, c + s, v + SignTerm(b, s, i)) && Partial(b, d, i, c - s, v - SignTerm(b, s, i))
  {
    hide Val, Pow;
    Distribute(Pow(b, i), c, s);
    Distribute(Pow(b, i), c, -s);
  }

  /** The borrow becomes the sign, with one more digit when it is neither 0 nor -1. */
  lemma PartialFinish(b: nat, d: seq<int>, i: nat, c: int, v: int)
    requires b > 2 && Partial(b, d, i, c, v) && -2 <= c <= 1
    ensures c < -1 ==> Partial(b, Put(d, i, b + c), i + 1, -1, v)
    ensures c > 0 ==> Partial(b, Put(d, i, c), i + 1, 0, v)
  {
    hide Val, Pow;
    PartialStep(b, d, i, c, v, 0);
    if c < -1 {
      assert (c % b) == b + c && c / b == -1 by { assert c == (-1) * b + (b + c); DivModUnique(c, b, -1, b + c); }
    } else if c > 0 {
      DivModUnique(c, b, 0, c);
    }
  }

  /** Dropping n digits divides by b^n and rounds down, whatever the sign. */
  lemma ShiftedDown(b: nat, d: seq<int>, t: nat, n: nat, s: int)
    requires b > 1 && DigitRange(b, d, 0, t) && (s == 0 || s == -1)
    ensures
      var v, p := Val(b, d[..t]) + SignTerm(b, s, t), Pow(b, n);
      && p > 0 && (t > n ==> v / p == Val(b, d[n..t]) + SignTerm(b, s, t - n))
      && (t <= n ==> v / p == Val(b, []) + SignTerm(b, s, 0))
  {
    hide Val, Pow;
    var v, p := Val(b, d[..t]) + SignTerm(b, s, t), Pow(b, n);
    RangeBounds(b, d, 0, t);
    assert d[0..t] == d[..t];
    ValEmpty(b);
    if t > n {
      var high := Val(b, d[n..t]);
      ValSplit(b, d[..t], n);
      assert d[..t][..n] == d[..n] == d[0..n] && d[..t][n..] == d[n..t];
      RangeBounds(b, d, 0, n);
      PowAdd(b, n, t - n);
      Distribute(p, high, SignTerm(b, s, t - n));
      DivModUnique(v, p, high + SignTerm(b, s, t - n), Val(b, d[..n]));
    } else {
      PowMonotone(b, t, n);
      DivModUnique(v, p, s, v - s * p);
    }
  }

  lemma DivModUnique(x: int, b: int, q: int, r: int)
    requires b > 0 && 0 <= r < b && x == q * b + r
    ensures x / b == q && x % b == r
  {
    QuotientUnique(b, x % b, r, x / b, q);
  }

  lemma DropTop(b: nat, d: seq<int>, t: nat, s: int)
    requires b > 0 && 0 < t <= |d| && (s == 0 || s == -1)
    requires d[t - 1] == if s == 0 then 0 else b - 1
    ensures Val(b, d[..t]) + SignTerm(b, s, t) == Val(b, d[..t - 1]) + SignTerm(b, s, t - 1)
  {
    hide Val, Pow;
    ValTake(b, d, t - 1);
    PowSnoc(b, t - 1);
    Distribute(Pow(b, t - 1), b, -1);
  }

  // ----- comparison -----

  /** A clamped number of t digits lies outside the range of t-1 digits. */
  lemma ClampedMagnitude(b: nat, d: seq<int>, s: int)
    requires b > 1 && Digits(b, d) && d != [] && (s == 0 || s == -1)
    requires d[|d| - 1] != if s == 0 then 0 else b - 1
    ensures s == 0 ==> Val(b, d) >= Pow(b, |d| - 1)
    ensures s == -1 ==> Val(b, d) + Pow(b, |d| - 1) < Pow(b, |d|)
  {
    hide Val, Pow;
    var k := |d| - 1;
    ValSlice(b, d, 0, k);
    assert d[0..k + 1] == d && Digits(b, d[0..k]);
    ValBounds(b, d[0..k]);
    PowSnoc(b, k);
    TopDigit(b, Pow(b, k), d[k]);
  }

  lemma TopDigit(b: int, p: int, x: int)
    requires p > 0
    ensures x >= 1 ==> p * x >= p
    ensures x <= b - 2 ==> p * x <= p * b - 2 * p
  {
    if x >= 1 { MulMonotone(1, x, p); }
    if x <= b - 2 { MulMonotone(x, b - 2, p); Distribute(p, b, -2); }
  }

  lemma TopDigitWins(p: int, u: int, x: int, v: int, y: int)
    requires 0 <= u && 0 <= v < p && x > y
    ensures u + p * x > v + p * y
  {
    MulMonotone(y + 1, x, p);
  }

  /** The most significant differing digit decides. */
  lemma TopDigitDecides(b: nat, d: seq<int>, e: seq<int>, k: nat)
    requires k < |d| == |e| && Digits(b, d) && Digits(b, e)
    requires d[k] > e[k] && d[k + 1..] == e[k + 1..]
    ensures Val(b, d) > Val(b, e)
  {
    hide Val, Pow;
    ValSplit(b, d, k + 1);
    ValSplit(b, e, k + 1);
    ValSlice(b, d, 0, k);
    ValSlice(b, e, 0, k);
    assert d[0..k + 1] == d[..k + 1] && e[0..k + 1] == e[..k + 1];
    assert d[0..k] == d[..k] && e[0..k] == e[..k];
    ValBounds(b, d[..k]);
    ValBounds(b, e[..k]);
    TopDigitWins(Pow(b, k), Val(b, d[..k]), d[k], Val(b, e[..k]), e[k]);
  }

  /** Of two clamped numbers of one sign the longer is further from zero. */
  lemma LongerIsLarger(b: nat, d: seq<int>, f: seq<int>, s: int)
    requires b > 1 && Digits(b, d) && Digits(b, f) && |d| > |f| && (s == 0 || s == -1)
    requires d[|d| - 1] != if s == 0 then 0 else b - 1
    ensures s == 0 ==> Val(b, d) > Val(b, f)
    ensures s == -1 ==> Val(b, d) - Pow(b, |d|) < Val(b, f) - Pow(b, |f|)
  {
    hide Val, Pow;
    ClampedMagnitude(b, d, s);
    ValBounds(b, f);
    PowMonotone(b, |f|, |d| - 1);
  }

  // ----- products -----

  /** One round of schoolbook multiplication: the digit y[i] was added in at position i. */
  lemma MultiplyStep(b: nat, r: seq<int>, r0: seq<int>, x: seq<int>, t: nat, y: seq<int>, i: nat, c: int)
    requires DigitRange(b, x, 0, t) && i < |y| && 0 <= y[i] < b && DigitRange(b, r0, 0, i + t)
    requires AmDone(b, r, r0, x, 0, i, t, y[i], 0, c)
    requires Val(b, r0[..i + t]) == Val(b, x[..t]) * Val(b, y[..i])
    ensures
      var r' := Put(r, i + t, c);
      DigitRange(b, r', 0, i + 1 + t) && Val(b, r'[..i + 1 + t]) == Val(b, x[..t]) * Val(b, y[..i + 1])
  {
    hide Val, Pow;
    var r' := Put(r, i + t, c);
    AmCarry(b, r, r0, x, 0, i, t, y[i], 0, c);
    AmVal(b, r, r0, x, 0, i, t, y[i], 0, c, i + t);
    ValTake(b, r', i + t);
    assert r'[..i + t] == r[..i + t] && x[0..t] == x[..t];
    ValTake(b, y, i);
    Distribute(Val(b, x[..t]), Val(b, y[..i]), Pow(b, i) * y[i]);
    Rotate(Pow(b, i), y[i], Val(b, x[..t]));
  }

  lemma Rotate(p: int, y: int, x: int)
    ensures p * (y * x) == x * (p * y)
  {
  }

  lemma AbsProduct(x: int, y: int)
    ensures
      var u, v := if x < 0 then -x else x, if y < 0 then -y else y;
      u * v == if (x < 0) == (y < 0) then x * y else -(x * y)
  {
  }

  // ----- squares -----

  /**
   w holds the square of x[..t] but for the square of its digits from i on;
   above position i+t it is still zero, and at i+t at most 1.
   */
  ghost predicate Squared(b: nat, w: seq<int>, x: seq<int>, t: nat, i: nat) {
    && i <= t && DigitRange(b, x, 0, t) && DigitRange(b, w, 0, 2 * t)
    && (forall k :: i + t < k < 2 * t ==> w[k] == 0)
    && (i < t ==> w[i + t] <= 1)
    && Val(b, w[..2 * t]) == Val(b, x[..t]) * Val(b, x[..t]) - Pow(b, 2 * i) * (Val(b, x[i..t]) * Val(b, x[i..t]))
  }

  lemma SquaredFacts(b: nat, w: seq<int>, x: seq<int>, t: nat, i: nat)
    requires Squared(b, w, x, t, i)
    ensures i <= t && DigitRange(b, x, 0, t) && DigitRange(b, w, 0, 2 * t)
  {
  }

  lemma SquareStart(b: nat, w: seq<int>, x: seq<int>, t: nat)
    requires DigitRange(b, x, 0, t) && b > 0
    requires |w| >= 2 * t && (forall k :: 0 <= k < 2 * t ==> w[k] == 0) && Val(b, w[..2 * t]) == 0
    ensures Squared(b, w, x, t, 0)
  {
    hide Val;
    assert x[0..t] == x[..t] && Pow(b, 0) == 1;
  }

  lemma SquareStep(b: nat, w2: seq<int>, w1: seq<int>, w0: seq<int>, x: seq<int>, t: nat, i: nat, c1: int, c2: int)
    requires b > 1 && i < t - 1 && Squared(b, w0, x, t, i) && 0 <= c2
    requires AmDone(b, w1, w0, x, i, 2 * i, 1, x[i], 0, c1)
    requires AmDone(b, w2, w1, x, i + 1, 2 * i + 1, t - i - 1, 2 * x[i], c1, c2)
    ensures |w2| >= 2 * t
    ensures
      var w3 := w2[i + t := w2[i + t] + c2];
      && (w3[i + t] < b ==> Squared(b, w3, x, t, i + 1))
      && (w3[i + t] >= b ==> Squared(b, w3[i + t := w3[i + t] - b][i + t + 1 := 1], x, t, i + 1))
  {
    hide Val, Pow;
    var k := i + t;
    var w3 := w2[k := w2[k] + c2];
    SquareValue(b, w2, w1, w0, x, t, i, c1, c2);
    SquareDigitsKept(b, w2, w1, w0, x, t, i, c1, c2);
    SquareBelow(b, x, t, i + 1);
    PowSnoc(b, k);
    TopDigitBound(b, w3, k, 2 * t, 2 * b);
    if w3[k] >= b {
      var w4 := w3[k := w3[k] - b][k + 1 := 1];
      CarryOne(b, w3, k, 2 * t);
      assert w4[..2 * t] == w3[..2 * t][k := w3[k] - b][k + 1 := w3[k + 1] + 1];
    }
  }

  lemma SquareDigitsKept(b: nat, w2: seq<int>, w1: seq<int>, w0: seq<int>, x: seq<int>, t: nat, i: nat, c1: int,
                         c2: int)
    requires b > 1 && i < t - 1 && Squared(b, w0, x, t, i) && 0 <= c2
    requires AmDone(b, w1, w0, x, i, 2 * i, 1, x[i], 0, c1)
    requires AmDone(b, w2, w1, x, i + 1, 2 * i + 1, t - i - 1, 2 * x[i], c1, c2)
    ensures DigitRange(b, w2, 0, 2 * t) && forall q :: i + t < q < 2 * t ==> w2[q] == 0
  {
    hide Val, Pow;
    forall q | 0 <= q < 2 * t ensures 0 <= w2[q] < b && (i + t < q ==> w2[q] == 0) {
      assert 0 <= w0[q] < b && 0 <= w1[q] < b;
    }
  }

  /** Moving one unit of overflow up a digit keeps the value. */
  lemma CarryOne(b: nat, w: seq<int>, k: nat, len: nat)
    requires k + 1 < len <= |w|
    ensures Val(b, w[..len][k := w[k] - b][k + 1 := w[k + 1] + 1]) == Val(b, w[..len])
  {
    hide Val, Pow;
    ValUpdate(b, w[..len], k, w[k] - b);
    ValUpdate(b, w[..len][k := w[k] - b], k + 1, w[k + 1] + 1);
    PowSnoc(b, k);
  }

  lemma SquareValue(b: nat, w2: seq<int>, w1: seq<int>, w0: seq<int>, x: seq<int>, t: nat, i: nat, c1: int, c2: int)
    requires b > 1 && i < t - 1 && Squared(b, w0, x, t, i)
    requires AmDone(b, w1, w0, x, i, 2 * i, 1, x[i], 0, c1)
    requires AmDone(b, w2, w1, x, i + 1, 2 * i + 1, t - i - 1, 2 * x[i], c1, c2)
    ensures Val(b, w2[i + t := w2[i + t] + c2][..2 * t])
         == Val(b, x[..t]) * Val(b, x[..t]) - Pow(b, 2 * (i + 1)) * (Val(b, x[i + 1..t]) * Val(b, x[i + 1..t]))
  {
    hide Val, Pow;
    AmVal(b, w1, w0, x, i, 2 * i, 1, x[i], 0, c1, 2 * t);
    AmVal(b, w2, w1, x, i + 1, 2 * i + 1, t - i - 1, 2 * x[i], c1, c2, 2 * t);
    ValUpdate(b, w2[..2 * t], i + t, w2[i + t] + c2);
    assert w2[i + t := w2[i + t] + c2][..2 * t] == w2[..2 * t][i + t := w2[i + t] + c2];
    ValHead(b, x, i, t);
    ValOne(b, x, i);
    PowSnoc(b, 2 * i);
    PowSnoc(b, 2 * i + 1);
    SquareArith(Pow(b, 2 * i), b, x[i], Val(b, x[i + 1..t]), c1, c2, Pow(b, i + t), Val(b, x[..t]) * Val(b, x[..t]),
                Val(b, w0[..2 * t]), Val(b, w1[..2 * t]), Val(b, w2[..2 * t]), Val(b, x[i..t]));
  }

  lemma SquareArith(p: int, b: int, d: int, r: int, c1: int, c2: int, q: int, xx: int, v0: int, v1: int, v2: int,
                    t: int)
    requires t == d + b * r
    requires v0 == xx - p * (t * t)
    requires v1 + c1 * (p * b) == v0 + p * (d * d)
    requires v2 + c2 * q == v1 + (p * b) * ((2 * d) * r + c1)
    ensures v2 + q * c2 == xx - ((p * b) * b) * (r * r)
  {
    ScaledSquare(p, b, d, r);
    Distribute(p * b, (2 * d) * r, c1);
  }

  lemma ScaledSquare(p: int, b: int, d: int, r: int)
    ensures p * ((d + b * r) * (d + b * r)) == p * (d * d) + (p * b) * ((2 * d) * r) + ((p * b) * b) * (r * r)
  {
    var y := b * r;
    Binomial(d, y);
    Distribute(p, d * d, (2 * d) * y + y * y);
    Distribute(p, (2 * d) * y, y * y);
    Swap(p, 2 * d, b, r);
    Swap(p, y, b, r);
    Swap(p * b, r, b, r);
    Associate(p * b, b * r, r);
  }

  lemma Binomial(d: int, y: int)
    ensures (d + y) * (d + y) == d * d + ((2 * d) * y + y * y)
  {
  }

  lemma Swap(p: int, d: int, b: int, r: int)
    ensures p * (d * (b * r)) == (p * b) * (d * r)
  {
  }

  lemma ValHead(b: nat, x: seq<int>, i: nat, t: nat)
    requires i < t <= |x|
    ensures Val(b, x[i..t]) == x[i] + b * Val(b, x[i + 1..t])
  {
    assert x[i..t][1..] == x[i + 1..t];
  }

  lemma ValOne(b: nat, x: seq<int>, i: nat)
    requires i < |x|
    ensures Val(b, x[i..i + 1]) == x[i]
  {
    ValHead(b, x, i, i + 1);
    assert x[i + 1..i + 1] == [];
  }

  /** The products of the first i digits with everything stay below 2*b^(i+t). */
  lemma SquareBelow(b: nat, x: seq<int>, t: nat, i: nat)
    requires b > 0 && i <= t && DigitRange(b, x, 0, t)
    ensures Val(b, x[..t]) * Val(b, x[..t]) - Pow(b, 2 * i) * (Val(b, x[i..t]) * Val(b, x[i..t])) < 2 * Pow(b, i + t)
  {
    hide Val, Pow;
    RangeBounds(b, x, 0, t);
    RangeBounds(b, x, 0, i);
    RangeBounds(b, x, i, t);
    assert x[0..t] == x[..t] && x[0..i] == x[..i];
    ValSplit(b, x[..t], i);
    assert x[..t][..i] == x[..i] && x[..t][i..] == x[i..t];
    PowAdd(b, i, i);
    PowAdd(b, i, t);
    SquareBelowArith(Pow(b, i), Pow(b, t), Val(b, x[..i]), Val(b, x[i..t]));
  }

  lemma SquareBelowArith(p: int, q: int, lo: int, hi: int)
    requires 0 <= lo < p && 0 <= hi && lo + p * hi < q
    ensures (lo + p * hi) * (lo + p * hi) - (p * p) * (hi * hi) < 2 * (p * q)
  {
    var y := p * hi;
    assert (p * p) * (hi * hi) == y * y;
    assert (lo + y) * (lo + y) - y * y == lo * ((lo + y) + y);
    assert 0 <= y by { MulMonotone(0, hi, p); }
    MulMonotone(lo, p, (lo + y) + y);
    assert p * ((lo + y) + y) < p * (2 * q) by { MulMonotone((lo + y) + y + 1, 2 * q, p); }
  }

  /** A number whose digits above k are zero bounds its digit at k. */
  lemma TopDigitBound(b: nat, w: seq<int>, k: nat, len: nat, m: int)
    requires b > 0 && k < len <= |w|
    requires DigitRange(b, w, 0, k) && forall q :: k < q < len ==> w[q] == 0
    requires Val(b, w[..len]) < Pow(b, k) * m
    ensures w[k] < m
  {
    hide Val, Pow;
    ValSplit(b, w[..len], k + 1);
    assert w[..len][..k + 1] == w[..k + 1] && w[..len][k + 1..] == w[k + 1..len];
    ValZeros(b, w[k + 1..len]);
    ValTake(b, w, k);
    RangeBounds(b, w, 0, k);
    assert w[0..k] == w[..k];
    FactorBelow(Val(b, w[..k]), Pow(b, k), w[k], m);
  }

  lemma FactorBelow(low: int, p: int, x: int, m: int)
    requires 0 <= low && p > 0 && low + p * x < p * m
    ensures x < m
  {
    if x >= m { MulMonotone(m, x, p); }
  }

  lemma SquareLast(b: nat, w1: seq<int>, w0: seq<int>, x: seq<int>, t: nat, c: int)
    requires b > 1 && t > 0 && Squared(b, w0, x, t, t - 1) && 0 <= c
    requires AmDone(b, w1, w0, x, t - 1, 2 * (t - 1), 1, x[t - 1], 0, c)
    ensures |w1| >= 2 * t
    ensures
      var w := w1[2 * t - 1 := w1[2 * t - 1] + c];
      DigitRange(b, w, 0, 2 * t) && Val(b, w[..2 * t]) == Val(b, x[..t]) * Val(b, x[..t])
  {
    hide Val, Pow;
    var w := w1[2 * t - 1 := w1[2 * t - 1] + c];
    SquareLastValue(b, w1, w0, x, t, c);
    SquareFits(b, x, t);
    assert forall q :: 0 <= q < 2 * t - 1 ==> 0 <= w1[q] < b;
    TopDigitBound(b, w, 2 * t - 1, 2 * t, b);
  }

  lemma SquareLastValue(b: nat, w1: seq<int>, w0: seq<int>, x: seq<int>, t: nat, c: int)
    requires b > 1 && t > 0 && Squared(b, w0, x, t, t - 1)
    requires AmDone(b, w1, w0, x, t - 1, 2 * (t - 1), 1, x[t - 1], 0, c)
    ensures |w1| >= 2 * t
    ensures
      var w := w1[2 * t - 1 := w1[2 * t - 1] + c];
      Val(b, w[..2 * t]) == Val(b, x[..t]) * Val(b, x[..t])
  {
    hide Val, Pow;
    var w := w1[2 * t - 1 := w1[2 * t - 1] + c];
    AmVal(b, w1, w0, x, t - 1, 2 * (t - 1), 1, x[t - 1], 0, c, 2 * t);
    ValUpdate(b, w1[..2 * t], 2 * t - 1, w1[2 * t - 1] + c);
    assert w[..2 * t] == w1[..2 * t][2 * t - 1 := w1[2 * t - 1] + c];
    ValOne(b, x, t - 1);
    assert x[t - 1..t] == x[t - 1..t - 1 + 1];
  }

  lemma SquareFits(b: nat, x: seq<int>, t: nat)
    requires b > 1 && t > 0 && DigitRange(b, x, 0, t)
    ensures 0 <= Val(b, x[..t]) * Val(b, x[..t]) < Pow(b, 2 * t) == Pow(b, 2 * t - 1) * b
  {
    hide Val, Pow;
    RangeBounds(b, x, 0, t);
    assert x[0..t] == x[..t];
    PowAdd(b, t, t);
    Product(Val(b, x[..t]), Pow(b, t), Val(b, x[..t]), Pow(b, t));
    PowSnoc(b, 2 * t - 1);
  }
}
