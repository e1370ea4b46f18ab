/**
 Sliding-window exponentiation (demo/v8_benchmark.js, 2009-2025 and 2806-2864), for any
 reducer whose multiplication is associative. The exponent is read bit by bit out of its
 digits; `bits` below is its binary expansion, least significant bit first.
 */
module ModularPower {
  import opened Arithmetic
  import opened DigitArithmetic
  import opened BigIntegers

  // ----- reducers and naive powers -----

  /** A modular reduction: its residues, representation, product, square and the way back. */
  datatype Reducer<!T> =
    Reducer(residue: T -> bool, convert: T -> T, mul: (T, T) -> T, sqr: T -> T, revert: T -> T)

  /** Residues are closed under the product, which is associative on them. */
  ghost predicate Lawful<T(!new)>(z: Reducer<T>) {
    && (forall a, b {:trigger z.mul(a, b)} :: z.residue(a) && z.residue(b) ==> z.residue(z.mul(a, b)))
    && (forall a, b, c {:trigger z.mul(z.mul(a, b), c)} :: z.residue(a) && z.residue(b) && z.residue(c) ==>
          z.mul(z.mul(a, b), c) == z.mul(a, z.mul(b, c)))
    && (forall a {:trigger z.sqr(a)} :: z.residue(a) ==> z.sqr(a) == z.mul(a, a))
  }

  /** x multiplied n times. */
  ghost function Power<T>(z: Reducer<T>, x: T, n: nat): T
    requires n > 0
  {
    if n == 1 then x else z.mul(Power(z, x, n - 1), x)
  }

  lemma {:induction false} PowerResidue<T(!new)>(z: Reducer<T>, x: T, n: nat)
    requires Lawful(z) && z.residue(x) && n > 0
    ensures z.residue(Power(z, x, n))
  {
    if n > 1 { PowerResidue(z, x, n - 1); }
  }

  lemma {:induction false} PowerAdd<T(!new)>(z: Reducer<T>, x: T, m: nat, n: nat)
    requires Lawful(z) && z.residue(x) && m > 0 && n > 0
    ensures z.mul(Power(z, x, m), Power(z, x, n)) == Power(z, x, m + n)
    decreases n
  {
    if n > 1 {
      PowerAdd(z, x, m, n - 1);
      PowerResidue(z, x, m);
      PowerResidue(z, x, n - 1);
      assert z.mul(z.mul(Power(z, x, m), Power(z, x, n - 1)), x) == z.mul(Power(z, x, m), z.mul(Power(z, x, n - 1), x));
    }
  }

  lemma SquarePower<T(!new)>(z: Reducer<T>, x: T, n: nat)
    requires Lawful(z) && z.residue(x) && n > 0
    ensures z.sqr(Power(z, x, n)) == Power(z, x, 2 * n)
  {
    PowerAdd(z, x, n, n);
    PowerResidue(z, x, n);
  }

  // ----- bits of a digit sequence -----

  ghost function ToBits(x: nat, n: nat): (r: seq<int>)
    ensures |r| == n && Digits(2, r)
  {
    if n == 0 then [] else [x % 2] + ToBits(x / 2, n - 1)
  }

  lemma {:induction false} ToBitsVal(x: nat, n: nat)
    requires x < Pow(2, n)
    ensures Val(2, ToBits(x, n)) == x
  {
    if n > 0 {
      ToBitsVal(x / 2, n - 1);
      assert ToBits(x, n)[1..] == ToBits(x / 2, n - 1);
    }
  }

  /** The bits of digit j are those at offset j*db. */
  ghost predicate DigitBits(d: seq<int>, db: nat, bits: seq<int>, j: nat)
    requires j < |d|
  {
    0 <= j * db <= j * db + db <= |bits| && Val(2, bits[j * db..j * db + db]) == d[j]
  }

  /** bits is the binary expansion of d, with db bits for each digit. */
  ghost predicate Expands(d: seq<int>, db: nat, bits: seq<int>) {
    |bits| == |d| * db && Digits(2, bits) && forall j :: 0 <= j < |d| ==> DigitBits(d, db, bits, j)
  }

  lemma {:induction false} Expand(d: seq<int>, db: nat) returns (bits: seq<int>)
    requires db > 0 && Digits(Pow(2, db), d)
    ensures Expands(d, db, bits) && Val(2, bits) == Val(Pow(2, db), d)
    decreases |d|
  {
    hide Val, Pow, DigitBits;
    if d == [] {
      bits := [];
      ValEmpty(2);
      ValEmpty(Pow(2, db));
    } else {
      var n := |d| - 1;
      var low := Expand(d[..n], db);
      var top := ToBits(d[n], db);
      bits := low + top;
      ToBitsVal(d[n], db);
      ValConcat(2, low, top);
      ValSnoc(Pow(2, db), d[..n], d[n]);
      assert d[..n] + [d[n]] == d;
      PowPow(2, db, n);
      Distribute(db, n, 1);
      forall j | 0 <= j < |d| ensures DigitBits(d, db, bits, j) {
        if j < n { LowDigitBits(d, db, low, top, j); } else { TopDigitBits(d, db, low, top); }
      }
    }
  }

  lemma LowDigitBits(d: seq<int>, db: nat, low: seq<int>, top: seq<int>, j: nat)
    requires j < |d| - 1 && DigitBits(d[..|d| - 1], db, low, j)
    ensures DigitBits(d, db, low + top, j)
  {
    hide Val;
    assert (low + top)[j * db..j * db + db] == low[j * db..j * db + db];
  }

  lemma TopDigitBits(d: seq<int>, db: nat, low: seq<int>, top: seq<int>)
    requires d != [] && |low| == (|d| - 1) * db && |top| == db && Val(2, top) == d[|d| - 1]
    ensures DigitBits(d, db, low + top, |d| - 1)
  {
    hide Val;
    assert (low + top)[|low|..|low| + db] == top;
  }

  lemma {:induction false} PowPow(b: nat, m: nat, n: nat)
    ensures Pow(Pow(b, m), n) == Pow(b, n * m)
  {
    if n > 0 {
      PowPow(b, m, n - 1);
      PowAdd(b, m, (n - 1) * m);
      assert m + (n - 1) * m == n * m;
    }
  }

  /** Shifting and masking a number cut its bits. */
  lemma CutBits(b: seq<int>, a: nat)
    requires Digits(2, b) && a <= |b|
    ensures Val(2, b) / Pow(2, a) == Val(2, b[a..]) && Val(2, b) % Pow(2, a) == Val(2, b[..a])
  {
    hide Val, Pow;
    ValSplit(2, b, a);
    ValBounds(2, b[..a]);
    DivModUnique(Val(2, b), Pow(2, a), Val(2, b[a..]), Val(2, b[..a]));
  }

  /** The number of bits of x. */
  method NBits(x0: int) returns (r: nat)
    requires 0 <= x0 < TWO31
    ensures 1 <= r <= 32 && x0 < Pow(2, r) && (x0 > 0 ==> Pow(2, r - 1) <= x0)
  {
    hide Pow;
    SmallPowers();
    var x := x0;
    r := 1;
    x, r := Halve(x0, x, r, 16);
    x, r := Halve(x0, x, r, 8);
    x, r := Halve(x0, x, r, 4);
    x, r := Halve(x0, x, r, 2);
    x, r := Halve(x0, x, r, 1);
    Leading(x0, r - 1);
  }

  /** One halving step of NBits: x holds x0 without its r-1 low bits, and fits in 2n bits. */
  method Halve(ghost x0: int, x: int, r: nat, n: nat) returns (x': int, r': nat)
    requires n in {1, 2, 4, 8, 16} && r > 0 && 0 <= x0 < TWO31
    requires x == x0 / Pow(2, r - 1) && x < Pow(2, 2 * n) && (x0 > 0 ==> x > 0)
    ensures r' == r || r' == r + n
    ensures x' == x0 / Pow(2, r' - 1) && x' < Pow(2, n) && (x0 > 0 ==> x' > 0)
  {
    hide Pow;
    SmallPowers();
    PowAdd(2, n, n);
    var p := if n == 16 then 0x10000 else if n == 8 then 0x100 else if n == 4 then 0x10 else if n == 2 then 4 else 2;
    DivBelow(x0, Pow(2, r - 1));
    var t := Sar(x, p);
    if t != 0 {
      x', r' := t, r + n;
      PowAdd(2, r - 1, n);
      DivDiv(x0, Pow(2, r - 1), p);
      HighHalf(p, x, p);
    } else {
      x', r' := x, r;
      assert x == p * t + x % p;
    }
  }

  lemma SmallPowers()
    ensures Pow(2, 0) == 1 && Pow(2, 1) == 2 && Pow(2, 2) == 4 && Pow(2, 4) == 0x10 && Pow(2, 8) == 0x100
    ensures Pow(2, 16) == 0x10000 && Pow(2, 32) == 0x1_0000_0000
  {
    PowAdd(2, 8, 8);
    PowAdd(2, 16, 16);
  }

  lemma DivBelow(x: int, p: int)
    requires 0 <= x && p > 0
    ensures 0 <= x / p <= x
  {
    if x / p > x { MulMonotone(x + 1, x / p, p); MulMonotone(1, p, x + 1); }
  }

  lemma DivDiv(x: int, p: int, q: int)
    requires p > 0 && q > 0
    ensures (x / p) / q == x / (p * q)
  {
    var y := x / p;
    var r, s := x % p, y % q;
    assert x == p * y + r && y == q * (y / q) + s;
    Distribute(p, q * (y / q), s);
    Associate(p, q, y / q);
    MulMonotone(s, q - 1, p);
    MulMonotone(0, s, p);
    Distribute(p, q, -1);
    DivModUnique(x, p * q, y / q, p * s + r);
  }

  lemma Leading(x: int, k: nat)
    requires 0 <= x && x / Pow(2, k) < 2 && (x > 0 ==> x / Pow(2, k) > 0)
    ensures x < Pow(2, k + 1) && (x > 0 ==> Pow(2, k) <= x)
  {
    var p := Pow(2, k);
    assert x == p * (x / p) + x % p;
    assert Pow(2, k + 1) == 2 * p;
  }

  // ----- windows -----

  /** The exponent's bits with k zeros below them, where a last window may run out. */
  ghost function Padded(k: nat, bits: seq<int>): (r: seq<int>)
    ensures |r| == k + |bits|
    ensures forall q :: 0 <= q < |r| ==> r[q] == if q < k then 0 else bits[q - k]
  {
    seq(k, _ => 0) + bits
  }

  /** x | y, for y below p and x a multiple of p, a power of two. */
  function OrLow(x: int, y: int, p: int): int
    requires p > 0 && x % p == 0 && 0 <= y < p && Int32(x)
  {
    x + y
  }

  /** The digits of the exponent and their bits. */
  ghost predicate Exponent(eng: Engine, e: BigInteger, bits: seq<int>)
    reads e
  {
    e.Clamped(eng.Base()) && e.s == 0 && Expands(e.digits[..e.t], eng.Bits(), bits)
  }

  lemma ExponentHasDigit(eng: Engine, e: BigInteger, j: nat, bits: seq<int>)
    requires Exponent(eng, e, bits) && j < e.t
    ensures j < |e.digits|
  {
  }

  /** The k bits below position pos, as a number; zeros where they run past the end. */
  method Window(eng: Engine, e: BigInteger, j: nat, i: nat, k: nat, ghost bits: seq<int>) returns (w: int)
    requires Exponent(eng, e, bits) && j < e.t && i < eng.Bits() && 1 <= k <= eng.Bits()
    ensures
      var pos := j * eng.Bits() + i + 1;
      pos + k <= |Padded(k, bits)| && w == Val(2, Padded(k, bits)[pos..pos + k])
  {
    hide Val, Pow, Exponent, Padded;
    ExponentHasDigit(eng, e, j, bits);
    ghost var at := j * eng.Bits();
    ghost var d := DigitSlice(eng, e, j, bits);
    ghost var d' := if j > 0 then DigitSlice(eng, e, j - 1, bits) else [];
    Distribute(eng.Bits(), j, -1);
    w := WindowAt(eng, e.digits[j], if j > 0 then e.digits[j - 1] else 0, j > 0, i, k, bits, at, d, d');
  }

  /** The same, given the digit x at position at, and the one below it if there is one. */
  method WindowAt(eng: Engine, x: int, x': int, below: bool, i: nat, k: nat, ghost bits: seq<int>, ghost at: nat,
                  ghost d: seq<int>, ghost d': seq<int>)
    returns (w: int)
    requires i < eng.Bits() == |d| && 1 <= k <= eng.Bits()
    requires Digits(2, d) && x == Val(2, d) && at + |d| <= |bits| && d == bits[at..at + |d|]
    requires below ==> Digits(2, d') && x' == Val(2, d') && |d'| == eng.Bits() <= at && d' == bits[at - |d'|..at]
    requires !below ==> at == 0
    ensures at + i + 1 + k <= |Padded(k, bits)| && w == Val(2, Padded(k, bits)[at + i + 1..at + i + 1 + k])
  {
    hide Val, Pow, Padded;
    if i >= k - 1 {
      w := WindowInDigit(x, i, k, d);
      PaddedInside(bits, at, d, i, k);
    } else if below {
      w := WindowOverDigits(eng, x, x', i, k, d, d');
      PaddedAcross(bits, at, d', d, i, k);
    } else {
      WindowHigh(d, x, i, k);
      w := Shl(AndMask(x, Pow2(i + 1)), Pow2(k - 1 - i));
      PaddedEnd(bits, d, i, k);
    }
  }

  /** A window inside one digit. */
  method WindowInDigit(x: int, i: nat, k: nat, ghost d: seq<int>) returns (w: int)
    requires Digits(2, d) && x == Val(2, d) && 1 <= k <= i + 1 <= |d| <= 28
    ensures w == Val(2, d[i - (k - 1)..i + 1])
  {
    hide Val, Pow;
    WindowInside(d, x, i, k);
    w := AndMask(Sar(x, Pow2(i - (k - 1))), Pow2(k));
  }

  /** A window that straddles the digits x (above) and x' (below). */
  method WindowOverDigits(eng: Engine, x: int, x': int, i: nat, k: nat, ghost d: seq<int>, ghost d': seq<int>)
    returns (w: int)
    requires Digits(2, d) && x == Val(2, d) && Digits(2, d') && x' == Val(2, d')
    requires |d| == |d'| == eng.Bits() && i < k - 1 < eng.Bits()
    ensures w == Val(2, d'[eng.Bits() + i - (k - 1)..] + d[..i + 1])
  {
    hide Val, Pow;
    WindowHigh(d, x, i, k);
    w := Shl(AndMask(x, Pow2(i + 1)), Pow2(k - 1 - i));
    DigitIsSmall(eng, x', d');
    WindowLow(d', x', i, k);
    MultipleMod(Val(2, d[..i + 1]), Pow(2, k - 1 - i));
    w := OrLow(w, Sar(x', Pow2(eng.Bits() + i - (k - 1))), Pow2(k - 1 - i));
    ValConcat(2, d'[eng.Bits() + i - (k - 1)..], d[..i + 1]);
  }

  lemma PaddedInside(bits: seq<int>, at: nat, d: seq<int>, i: nat, k: nat)
    requires at + |d| <= |bits| && d == bits[at..at + |d|] && 1 <= k <= i + 1 <= |d|
    ensures d[i - (k - 1)..i + 1] == Padded(k, bits)[at + i + 1..at + i + 1 + k]
  {
  }

  lemma PaddedAcross(bits: seq<int>, at: nat, d': seq<int>, d: seq<int>, i: nat, k: nat)
    requires |d'| <= at && at + |d| <= |bits| && d' == bits[at - |d'|..at] && d == bits[at..at + |d|]
    requires i < k - 1 <= |d'| && i < |d|
    ensures d'[|d'| + i - (k - 1)..] + d[..i + 1] == Padded(k, bits)[at + i + 1..at + i + 1 + k]
  {
  }

  lemma PaddedEnd(bits: seq<int>, d: seq<int>, i: nat, k: nat)
    requires |d| <= |bits| && d == bits[..|d|] && i < k - 1 && i < |d|
    ensures Val(2, Padded(k, bits)[i + 1..i + 1 + k]) == Val(2, d[..i + 1]) * Pow(2, k - 1 - i)
  {
    hide Val, Pow;
    var low := seq(k - 1 - i, _ => 0);
    ValZeros(2, low);
    ValConcat(2, low, d[..i + 1]);
    assert low + d[..i + 1] == Padded(k, bits)[i + 1..i + 1 + k];
  }

  lemma DigitIsSmall(eng: Engine, x: int, d: seq<int>)
    requires |d| == eng.Bits() && Digits(2, d) && x == Val(2, d)
    ensures 0 <= x < eng.Base()
  {
    hide Val, Pow;
    BaseIsPowerOfTwo(eng);
    ValBounds(2, d);
  }

  lemma WindowInside(d: seq<int>, x: int, i: nat, k: nat)
    requires Digits(2, d) && x == Val(2, d) && 1 <= k <= i + 1 <= |d| <= 28
    ensures 0 <= x < TWO31
    ensures (x / Pow(2, i - (k - 1))) % Pow(2, k) == Val(2, d[i - (k - 1)..i + 1])
    ensures 0 <= x / Pow(2, i - (k - 1)) <= x
  {
    hide Val, Pow;
    var a := i - (k - 1);
    CutBits(d, a);
    CutBits(d[a..], k);
    ValBounds(2, d);
    PowMonotone(2, |d|, 28);
    BaseIsPowerOfTwo(Am3);
    DivBelow(x, Pow(2, a));
    assert d[a..][..k] == d[a..i + 1];
  }

  lemma WindowHigh(d: seq<int>, x: int, i: nat, k: nat)
    requires Digits(2, d) && x == Val(2, d) && i < k - 1 < |d| <= 28
    ensures 0 <= x < TWO31 && x % Pow(2, i + 1) == Val(2, d[..i + 1])
    ensures 0 <= (x % Pow(2, i + 1)) * Pow(2, k - 1 - i) < TWO31 && 0 <= x % Pow(2, i + 1) < TWO31
  {
    hide Val, Pow;
    CutBits(d, i + 1);
    ValBounds(2, d);
    ValBounds(2, d[..i + 1]);
    PowMonotone(2, |d|, 28);
    PowAdd(2, i + 1, k - 1 - i);
    PowMonotone(2, k, 28);
    PowMonotone(2, i + 1, 28);
    BaseIsPowerOfTwo(Am3);
    MulMonotone(Val(2, d[..i + 1]), Pow(2, i + 1), Pow(2, k - 1 - i));
    MulMonotone(0, Val(2, d[..i + 1]), Pow(2, k - 1 - i));
  }

  lemma WindowLow(d: seq<int>, x: int, i: nat, k: nat)
    requires Digits(2, d) && x == Val(2, d) && i < k - 1 < |d|
    ensures x / Pow(2, |d| + i - (k - 1)) == Val(2, d[|d| + i - (k - 1)..])
    ensures 0 <= x / Pow(2, |d| + i - (k - 1)) < Pow(2, k - 1 - i)
  {
    hide Val, Pow;
    CutBits(d, |d| + i - (k - 1));
    ValBounds(2, d[|d| + i - (k - 1)..]);
  }

  lemma MultipleMod(x: int, p: int)
    requires p > 0
    ensures (x * p) % p == 0
  {
    DivModUnique(x * p, p, x, 0);
  }

  /** The power itself, for use as a shift amount. */
  function Pow2(n: nat): (r: nat)
    ensures r == Pow(2, n) && r > 0
  {
    Pow(2, n)
  }

  /** The bits of one digit. */
  ghost function DigitSlice(eng: Engine, e: BigInteger, j: nat, bits: seq<int>): (d: seq<int>)
    requires Exponent(eng, e, bits) && j < e.t
    reads e
    ensures |d| == eng.Bits() && Digits(2, d) && Val(2, d) == e.digits[j]
    ensures 0 <= j * eng.Bits() && j * eng.Bits() + eng.Bits() <= |bits|
    ensures d == bits[j * eng.Bits()..j * eng.Bits() + eng.Bits()]
  {
    assert DigitBits(e.digits[..e.t], eng.Bits(), bits, j);
    bits[j * eng.Bits()..j * eng.Bits() + eng.Bits()]
  }

  /** Drops trailing zero bits: what is left is odd and lies inside the exponent. */
  method Strip(w0: int, k: nat, ghost p: seq<int>, ghost pos: nat) returns (w: int, n: nat)
    requires k >= 1 && pos + k <= |p| && Digits(2, p) && p[pos + k - 1] == 1
    requires forall q :: 0 <= q < k && q < |p| ==> p[q] == 0
    requires w0 == Val(2, p[pos..pos + k]) && Int32(w0)
    ensures 1 <= n <= k && n <= pos && w % 2 == 1 && 0 < w < Pow(2, n)
    ensures w == Val(2, p[pos + k - n..pos + k])
  {
    hide Val, Pow;
    w, n := w0, k;
    TopBit(p, pos, pos + k);
    while AndMask(w, 2) == 0
      invariant 1 <= n <= k && w == Val(2, p[pos + k - n..pos + k]) && 0 < w && Int32(w)
      decreases n
    {
      StripStep(p, pos + k - n, pos + k);
      w, n := Sar(w, 2), n - 1;
    }
    ValHead(2, p, pos + k - n, pos + k);
    RangeBounds(2, p, pos + k - n, pos + k);
  }

  /** An even window goes on below its top bit. */
  lemma StripStep(p: seq<int>, lo: nat, hi: nat)
    requires lo < hi <= |p| && Digits(2, p) && p[hi - 1] == 1 && Val(2, p[lo..hi]) % 2 == 0
    ensures lo + 1 < hi && 0 < Val(2, p[lo + 1..hi]) == Val(2, p[lo..hi]) / 2
  {
    hide Val, Pow;
    ValHead(2, p, lo, hi);
    if lo + 1 < hi {
      TopBit(p, lo + 1, hi);
    }
  }

  lemma TopBit(p: seq<int>, lo: nat, hi: nat)
    requires lo < hi <= |p| && Digits(2, p) && p[hi - 1] == 1
    ensures Val(2, p[lo..hi]) > 0
  {
    hide Val, Pow;
    ValSlice(2, p, lo, hi - 1);
    RangeBounds(2, p, lo, hi - 1);
  }

  // ----- the table of odd powers -----

  ghost predicate OddPowers<T>(z: Reducer<T>, x: T, g: map<int, T>, limit: int) {
    forall n: int :: 0 < n < limit && n % 2 == 1 ==> n in g && g[n] == Power(z, x, n)
  }

  method Precompute<T(!new)>(z: Reducer<T>, x: T, k: nat) returns (g: map<int, T>)
    requires Lawful(z) && z.residue(x) && 1 <= k <= 28
    ensures OddPowers(z, x, g, Pow(2, k))
  {
    hide Pow, Lawful;
    g := map[1 := x];
    var km := Pow2(k) - 1;
    if k > 1 {
      var g2 := z.sqr(g[1]);
      SquarePower(z, x, 1);
      var n := 3;
      while n <= km
        invariant n % 2 == 1 && n >= 3 && OddPowers(z, x, g, n)
        decreases km - n
      {
        PowerAdd(z, x, 2, n - 2);
        g := g[n := z.mul(g2, g[n - 2])];
        n := n + 2;
      }
    } else {
      SmallPowers();
    }
  }

  // ----- the loop -----

  /** r squared n times, two at a time as the code does. */
  method SquareTimes<T(!new)>(z: Reducer<T>, r0: T, n0: nat, ghost x: T, ghost a: nat) returns (r2: T)
    requires Lawful(z) && z.residue(x) && a > 0 && r0 == Power(z, x, a)
    ensures a * Pow(2, n0) > 0 && r2 == Power(z, x, a * Pow(2, n0))
  {
    hide Pow, Lawful, Power;
    var r, n := r0, n0;
    ghost var c := a;
    ValEmpty(2);
    while n > 1
      invariant 0 <= n <= n0 && c > 0 && c == a * Pow(2, n0 - n) && r == Power(z, x, c)
    {
      SquarePower(z, x, c);
      SquarePower(z, x, 2 * c);
      PowSnoc(2, n0 - n);
      PowSnoc(2, n0 - n + 1);
      Associate(a, Pow(2, n0 - n), 2);
      Associate(a, Pow(2, n0 - n + 1), 2);
      r2 := z.sqr(r);
      r := z.sqr(r2);
      n := n - 2;
      c := 4 * c;
    }
    if n > 0 {
      SquarePower(z, x, c);
      PowSnoc(2, n0 - 1);
      Associate(a, Pow(2, n0 - 1), 2);
      r2 := z.sqr(r);
    } else {
      r2 := r;
    }
  }

  /** Bits above pos have been consumed into r (nothing yet while is1 holds). */
  ghost predicate Consumed<T>(z: Reducer<T>, x: T, bits: seq<int>, pos: nat, is1: bool, r: T) {
    && pos <= |bits|
    && if is1 then Val(2, bits[pos..]) == 0 else Val(2, bits[pos..]) > 0 && r == Power(z, x, Val(2, bits[pos..]))
  }

  /** Taking the n bits below pos: the exponent so far becomes (..)*2^n + w. */
  lemma TakeBits(bits: seq<int>, pos: nat, n: nat)
    requires n <= pos <= |bits|
    ensures Val(2, bits[pos - n..]) == Val(2, bits[pos - n..pos]) + Pow(2, n) * Val(2, bits[pos..])
  {
    hide Val, Pow;
    ValSplit(2, bits[pos - n..], n);
    assert bits[pos - n..][..n] == bits[pos - n..pos] && bits[pos - n..][n..] == bits[pos..];
  }

  /** One window of the main loop: consumes n bits, where w is odd and in the table. */
  method ConsumeWindow<T(!new)>(z: Reducer<T>, g: map<int, T>, w: int, n: nat, is1: bool, r0: T,
                                ghost x: T, ghost bits: seq<int>, ghost pos: nat) returns (r: T)
    requires Lawful(z) && z.residue(x) && OddPowers(z, x, g, Pow(2, n)) && w % 2 == 1 && 0 < w < Pow(2, n)
    requires 1 <= n <= pos && Consumed(z, x, bits, pos, is1, r0) && w == Val(2, bits[pos - n..pos])
    ensures Consumed(z, x, bits, pos - n, false, r)
  {
    hide Val, Pow, Lawful, Power, OddPowers;
    TakeBits(bits, pos, n);
    OddPower(z, x, g, Pow(2, n), w);
    if is1 {
      r := g[w];
    } else {
      ghost var a := Val(2, bits[pos..]);
      var r2 := SquareTimes(z, r0, n, x, a);
      PowerAdd(z, x, a * Pow(2, n), w);
      r := z.mul(r2, g[w]);
    }
  }

  lemma OddPower<T>(z: Reducer<T>, x: T, g: map<int, T>, limit: int, n: int)
    requires OddPowers(z, x, g, limit) && 0 < n < limit && n % 2 == 1
    ensures n in g && g[n] == Power(z, x, n)
  {
  }

  /** One zero bit of the inner loop. */
  lemma ConsumeZero<T(!new)>(z: Reducer<T>, x: T, bits: seq<int>, pos: nat, r: T)
    requires Lawful(z) && z.residue(x) && 0 < pos && Consumed(z, x, bits, pos, false, r) && bits[pos - 1] == 0
    ensures Consumed(z, x, bits, pos - 1, false, z.sqr(r))
  {
    hide Val, Pow, Lawful, Power;
    ValHead(2, bits, pos - 1, |bits|);
    assert bits[pos - 1..|bits|] == bits[pos - 1..] && bits[pos..|bits|] == bits[pos..];
    SquarePower(z, x, Val(2, bits[pos..]));
  }

  /** Testing bit i of a digit. */
  lemma BitOfDigit(eng: Engine, e: BigInteger, j: nat, i: nat, bits: seq<int>)
    requires Exponent(eng, e, bits) && j < e.t && i < eng.Bits()
    ensures 0 <= j * eng.Bits() + i < |bits|
    ensures (e.digits[j] / Pow(2, i)) % 2 == bits[j * eng.Bits() + i]
  {
    hide Val, Pow;
    var d := DigitSlice(eng, e, j, bits);
    CutBits(d, i);
    ValHead(2, d, i, |d|);
    assert d[i..|d|] == d[i..];
  }

  /** x & (1 << i), shifted back down; it is zero exactly when the code's test is. */
  function TestBit(x: int, i: nat): int
    requires Int32(x) && i < 31
  {
    Sar(x, Pow2(i)) % 2
  }

  /** The longest window of at most k bits below position pos that ends in a one. */
  method NextWindow(eng: Engine, e: BigInteger, k: nat, j: nat, i: nat, ghost bits: seq<int>, ghost pos: nat)
    returns (w: int, n: nat)
    requires Exponent(eng, e, bits) && 1 <= k <= eng.Bits() && j < e.t && i < eng.Bits()
    requires pos == j * eng.Bits() + i + 1 && 0 < pos <= |bits| && bits[pos - 1] == 1
    ensures 1 <= n <= k && n <= pos && w % 2 == 1 && 0 < w < Pow(2, n) && w == Val(2, bits[pos - n..pos])
  {
    hide Val, Pow, Exponent;
    ExponentBits(eng, e, bits);
    w := Window(eng, e, j, i, k, bits);
    ghost var p := Padded(k, bits);
    RangeBounds(2, p, pos, pos + k);
    PowMonotone(2, k, eng.Bits());
    BaseIsPowerOfTwo(eng);
    w, n := Strip(w, k, p, pos);
    assert p[pos + k - n..pos + k] == bits[pos - n..pos];
  }

  /** One round of the loop up to the consumption of its window. */
  method TakeWindow<T(!new)>(eng: Engine, e: BigInteger, z: Reducer<T>, g: map<int, T>, k: nat, j: nat, i: nat,
                             is1: bool, r0: T,
                             ghost x: T, ghost bits: seq<int>, ghost pos: nat) returns (r: T, n: nat)
    requires Lawful(z) && z.residue(x) && Exponent(eng, e, bits) && 1 <= k <= eng.Bits()
    requires OddPowers(z, x, g, Pow(2, k))
    requires j < e.t && i < eng.Bits() && pos == j * eng.Bits() + i + 1 && 0 < pos <= |bits| && bits[pos - 1] == 1
    requires Consumed(z, x, bits, pos, is1, r0)
    ensures 1 <= n <= k && n <= pos && Consumed(z, x, bits, pos - n, false, r)
  {
    hide Val, Pow, Lawful, Power, Consumed, Exponent;
    var w;
    w, n := NextWindow(eng, e, k, j, i, bits, pos);
    PowMonotone(2, n, k);
    r := ConsumeWindow(z, g, w, n, is1, r0, x, bits, pos);
  }

  lemma ExponentBits(eng: Engine, e: BigInteger, bits: seq<int>)
    requires Exponent(eng, e, bits)
    ensures Digits(2, bits)
  {
  }

  /** The loop of modPow from the top bit down, for any window size k. */
  method Slide<T(!new)>(eng: Engine, e: BigInteger, z: Reducer<T>, g: map<int, T>, k: nat, one: T, top: nat,
                        ghost x: T, ghost bits: seq<int>) returns (r: T)
    requires Lawful(z) && z.residue(x) && Exponent(eng, e, bits) && e.t > 0 && 1 <= k <= eng.Bits()
    requires OddPowers(z, x, g, Pow(2, k))
    requires 1 <= top <= eng.Bits() && TopBitAt(bits, (e.t - 1) * eng.Bits() + top)
    ensures Val(2, bits) > 0 && r == Power(z, x, Val(2, bits))
  {
    hide Val, Pow, TopBitAt, Lawful, Power;
    var db := eng.Bits();
    var j, i, is1 := e.t - 1, top - 1, true;
    r := one;
    ghost var pos := j * db + i + 1;
    TopBitFacts(bits, pos);
    while j >= 0
      invariant -1 <= j < e.t && 0 <= i < db && pos == j * db + i + 1 && 0 <= pos <= |bits|
      invariant Consumed(z, x, bits, pos, is1, r)
      invariant j >= 0 ==> pos > 0 && bits[pos - 1] == 1
      invariant j < 0 ==> !is1 && pos == 0
      decreases pos
    {
      var n: nat;
      r, n := TakeWindow(eng, e, z, g, k, j, i, is1, r, x, bits, pos);
      is1 := false;
      i := i - n;
      pos := pos - n;
      if i < 0 { Distribute(db, j, -1); i := i + db; j := j - 1; }
      NonNegative(j, db, i, pos);
      r, j, i, pos := SkipZeros(eng, e, z, r, j, i, x, bits, pos);
    }
    assert bits[0..] == bits;
  }

  lemma NonNegative(j: int, db: int, i: int, pos: int)
    requires -1 <= j && 0 <= i < db && pos == j * db + i + 1 && pos >= 0
    ensures j < 0 ==> pos == 0
    ensures j >= 0 ==> pos > 0
  {
    if j >= 0 { MulMonotone(0, j, db); }
  }

  /** The inner loop: squares once for every zero bit. */
  method SkipZeros<T(!new)>(eng: Engine, e: BigInteger, z: Reducer<T>, r0: T, j0: int, i0: int,
                            ghost x: T, ghost bits: seq<int>, ghost pos0: nat)
    returns (r: T, j: int, i: int, ghost pos: nat)
    requires Lawful(z) && z.residue(x) && Exponent(eng, e, bits)
    requires -1 <= j0 < e.t && 0 <= i0 < eng.Bits() && pos0 == j0 * eng.Bits() + i0 + 1 && pos0 <= |bits|
    requires Consumed(z, x, bits, pos0, false, r0) && (j0 < 0 ==> pos0 == 0)
    ensures -1 <= j < e.t && 0 <= i < eng.Bits() && pos == j * eng.Bits() + i + 1 && pos <= pos0
    ensures Consumed(z, x, bits, pos, false, r)
    ensures j >= 0 ==> pos > 0 && bits[pos - 1] == 1
    ensures j < 0 ==> pos == 0
  {
    hide Val, Pow, Lawful, Power;
    var db := eng.Bits();
    r, j, i, pos := r0, j0, i0, pos0;
    while j >= 0 && TestBit(e.digits[j], i) == 0
      invariant -1 <= j < e.t && 0 <= i < db && pos == j * db + i + 1 && 0 <= pos <= pos0
      invariant Consumed(z, x, bits, pos, false, r) && (j < 0 ==> pos == 0)
      decreases pos
    {
      BitOfDigit(eng, e, j, i, bits);
      ConsumeZero(z, x, bits, pos, r);
      r := z.sqr(r);
      i := i - 1;
      pos := pos - 1;
      if i < 0 { Distribute(db, j, -1); i := db - 1; j := j - 1; }
      NonNegative(j, db, i, pos);
    }
    if j >= 0 {
      BitOfDigit(eng, e, j, i, bits);
      NonNegative(j, db, i, pos);
    }
  }

  /** The bit below pos is set and everything above it is zero. */
  ghost predicate TopBitAt(bits: seq<int>, pos: nat) {
    0 < pos <= |bits| && bits[pos - 1] == 1 && Val(2, bits[pos..]) == 0
  }

  lemma TopBitFacts(bits: seq<int>, pos: nat)
    requires TopBitAt(bits, pos)
    ensures 0 < pos <= |bits| && bits[pos - 1] == 1 && Val(2, bits[pos..]) == 0
  {
  }

  /** The leading digit's highest set bit is the exponent's. */
  lemma LeadingBit(eng: Engine, e: BigInteger, top: nat, bits: seq<int>)
    requires Exponent(eng, e, bits) && e.t > 0 && 1 <= top
    requires Pow(2, top - 1) <= e.digits[e.t - 1] < Pow(2, top)
    ensures top <= eng.Bits() && TopBitAt(bits, (e.t - 1) * eng.Bits() + top)
  {
    hide Val, Pow, Exponent;
    var j, db := e.t - 1, eng.Bits();
    ExponentHasDigit(eng, e, j, bits);
    ExponentLength(eng, e, bits);
    var d := DigitSlice(eng, e, j, bits);
    LeadingOfDigit(d, e.digits[j], top);
    Distribute(db, j, 1);
    assert bits[j * db + top..] == d[top..] && bits[j * db + top - 1] == d[top - 1];
  }

  lemma ExponentLength(eng: Engine, e: BigInteger, bits: seq<int>)
    requires Exponent(eng, e, bits)
    ensures |bits| == e.t * eng.Bits()
  {
  }

  /** The highest set bit of a number is where its powers of two say. */
  lemma LeadingOfDigit(d: seq<int>, x: int, top: nat)
    requires Digits(2, d) && x == Val(2, d) && 1 <= top && Pow(2, top - 1) <= x < Pow(2, top)
    ensures top <= |d| && d[top - 1] == 1 && Val(2, d[top..]) == 0
  {
    hide Val, Pow;
    ValBounds(2, d);
    if top > |d| { PowMonotone(2, |d|, top - 1); }
    CutBits(d, top);
    DivModUnique(x, Pow(2, top), 0, x);
    CutBits(d, top - 1);
    ValHead(2, d, top - 1, |d|);
    assert d[top - 1..|d|] == d[top - 1..] && d[top..|d|] == d[top..];
    HighBit(x, Pow(2, top - 1), Pow(2, top));
  }

  /** The number of bits of the leading digit. */
  method LeadingBits(eng: Engine, e: BigInteger, ghost bits: seq<int>) returns (top: nat)
    requires Exponent(eng, e, bits) && e.t > 0
    ensures 1 <= top <= eng.Bits() && TopBitAt(bits, (e.t - 1) * eng.Bits() + top)
  {
    hide Val, Pow, TopBitAt;
    top := NBits(e.digits[e.t - 1]);
    LeadingBit(eng, e, top, bits);
  }

  lemma HighBit(x: int, p: int, q: int)
    requires p > 0 && p <= x < q
    ensures x / p > 0
  {
    if x / p <= 0 { MulMonotone(x / p, 0, p); }
  }

  /** The window size chosen for an exponent of n bits. */
  function WindowSize(n: int): (k: nat)
    ensures 1 <= k <= 6
  {
    if n < 18 then 1 else if n < 48 then 3 else if n < 144 then 4 else if n < 768 then 5 else 6
  }

  /** this^e for the reducer z: the naive power, or the unconverted 1 when e is zero. */
  method ModPow<T(!new)>(eng: Engine, base: T, e: BigInteger, z: Reducer<T>, one: T) returns (r: T)
    requires Lawful(z) && z.residue(z.convert(base)) && e.Clamped(eng.Base()) && e.s == 0
    ensures e.Value(eng.Base()) >= 0
    ensures r == if e.Value(eng.Base()) == 0 then one else z.revert(Power(z, z.convert(base), e.Value(eng.Base())))
  {
    hide Val, Pow, TopBitAt, Lawful, Power;
    ghost var v := e.Value(eng.Base());
    RangeBounds(eng.Base(), e.digits, 0, e.t);
    assert e.digits[0..e.t] == e.digits[..e.t];
    if e.t <= 0 {
      ValEmpty(eng.Base());
      assert e.digits[..e.t] == [];
      return one;
    }
    ClampedMagnitude(eng.Base(), e.digits[..e.t], 0);
    BaseIsPowerOfTwo(eng);
    ghost var bits := Expand(e.digits[..e.t], eng.Bits());
    var top := LeadingBits(eng, e, bits);
    var i := eng.Bits() * (e.t - 1) + top;
    var k := WindowSize(i);
    var x := z.convert(base);
    var g := Precompute(z, x, k);
    r := Slide(eng, e, z, g, k, one, top, x, bits);
    r := z.revert(r);
  }
}
