/**
 modPow with a Montgomery reducer on numbers in memory (demo/v8_benchmark.js, 2806-2864): the
 table of odd powers holds numbers of its own, and two accumulators are overwritten in turn and
 exchanged. What convert promises of its result is a precondition.
 */
module MontgomeryModPow {
  import opened Arithmetic
  import opened DigitArithmetic
  import opened BigIntegers
  import opened ModularPower
  import opened MontgomeryReduction
  import opened MontgomeryPower

  /** x stands for v. */
  ghost predicate Holds(z: Montgomery, x: BigInteger, v: int)
    reads x
  {
    x.Valid(z.engine.Base()) && x.Value(z.engine.Base()) == v
  }

  /** zr is the reducer that z computes: that of its modulus, with R = 2^k = b^t. */
  ghost predicate Computes(z: Montgomery, zr: Reducer<int>)
    reads z.m
  {
    && z.Valid()
    && var m := z.m.Value(z.engine.Base());
       m > 0 && m % 2 == 1 && zr == MontgomeryReducer(m, z.m.t * z.engine.Bits())
  }

  /** A valid reduction has an odd modulus. */
  lemma ValidIsOdd(z: Montgomery)
    requires z.Valid()
    ensures z.m.Value(z.engine.Base()) > 0 && z.m.Value(z.engine.Base()) % 2 == 1
    ensures Pow(z.engine.Base(), z.m.t) == Pow(2, z.m.t * z.engine.Bits())
  {
    hide Pow;
    var b, d, n := z.engine.Base(), z.m.digits, z.m.t;
    BaseIsPowerOfTwo(z.engine);
    PowPow(2, z.engine.Bits(), n);
    ValHead(b, d, 0, n);
    assert d[0..n] == d[..n];
    var q :| d[0] * z.mp - -1 == q * b;
    OddDigit(d[0], z.mp, q, b);
    RangeBounds(b, d, 1, n);
    OddValue(d[0], b, Val(b, d[1..n]));
  }

  lemma OddDigit(x: int, y: int, q: int, b: int)
    requires b % 2 == 0 && x * y + 1 == q * b
    ensures x % 2 == 1
  {
    var h := b / 2;
    assert q * b == 2 * (q * h) by { Associate(q, 2, h); }
    if x % 2 == 0 {
      var g := x / 2;
      assert x * y == 2 * (g * y) by { Associate(2, g, y); }
    }
  }

  lemma OddValue(x: int, b: int, v: int)
    requires x % 2 == 1 && 0 < x && b % 2 == 0 && 0 <= v && 0 < b
    ensures x + b * v > 0 && (x + b * v) % 2 == 1
  {
    var h := b / 2;
    assert b * v == 2 * (h * v) by { Associate(2, h, v); }
    MulMonotone(0, v, b);
  }

  lemma ComputesLawful(z: Montgomery, zr: Reducer<int>)
    requires Computes(z, zr)
    ensures Lawful(zr)
  {
    MontgomeryIsLawful(z.m.Value(z.engine.Base()), z.m.t * z.engine.Bits());
  }

  /** mulTo writes the product of the reducer. */
  method Multiply(z: Montgomery, x: BigInteger, y: BigInteger, r: BigInteger, ghost zr: Reducer<int>, ghost xv: int,
                  ghost yv: int)
    requires Computes(z, zr) && r != x && r != y && r != z.m
    requires Holds(z, x, xv) && Holds(z, y, yv) && zr.residue(xv) && zr.residue(yv)
    modifies r
    ensures Holds(z, r, zr.mul(xv, yv))
  {
    hide Pow, Val, Redc;
    ValidIsOdd(z);
    z.MulTo(x, y, r);
    var b := z.engine.Base();
    RedcUnique(r.Value(b), xv * yv, z.m.Value(b), z.m.t * z.engine.Bits());
  }

  /** sqrTo writes the square of the reducer. */
  method Square(z: Montgomery, x: BigInteger, r: BigInteger, ghost zr: Reducer<int>, ghost xv: int)
    requires Computes(z, zr) && r != x && r != z.m && Holds(z, x, xv) && zr.residue(xv)
    modifies r
    ensures Holds(z, r, zr.sqr(xv))
  {
    hide Pow, Val, Redc;
    ValidIsOdd(z);
    z.SqrTo(x, r);
    var b := z.engine.Base();
    RedcUnique(r.Value(b), xv * xv, z.m.Value(b), z.m.t * z.engine.Bits());
  }

  /** revert answers the way back of the reducer. */
  method Revert(z: Montgomery, x: BigInteger, ghost zr: Reducer<int>, ghost xv: int) returns (r: BigInteger)
    requires Computes(z, zr) && Holds(z, x, xv) && zr.residue(xv)
    ensures fresh(r) && Holds(z, r, zr.revert(xv))
  {
    hide Pow, Val, Redc;
    ValidIsOdd(z);
    var b := z.engine.Base();
    RangeBounds(b, x.digits, 0, x.t);
    assert x.digits[0..x.t] == x.digits[..x.t];
    MulGrows(z.m.Value(b), Pow(b, z.m.t));
    r := z.Revert(x);
    RedcUnique(r.Value(b), xv, z.m.Value(b), z.m.t * z.engine.Bits());
  }

  // ----- the table -----

  /** g holds the odd powers of v below limit. */
  ghost predicate Table(z: Montgomery, g: map<int, BigInteger>, zr: Reducer<int>, v: int, limit: int)
    reads g.Values
  {
    forall n :: 0 < n < limit && n % 2 == 1 ==> n in g && g[n] in g.Values && Holds(z, g[n], Power(zr, v, n))
  }

  method Precompute(z: Montgomery, x: BigInteger, k: nat, ghost zr: Reducer<int>, ghost v: int)
    returns (g: map<int, BigInteger>)
    requires Computes(z, zr) && Holds(z, x, v) && zr.residue(v) && 1 <= k <= 28
    ensures Table(z, g, zr, v, Pow(2, k)) && fresh(g.Values - {x})
  {
    hide Pow, Val, Lawful, Power, Computes, Table, Holds;
    ComputesLawful(z, zr);
    g := map[1 := x];
    FirstPower(z, x, zr, v);
    var km := Pow2(k) - 1;
    if k > 1 {
      var g2 := new BigInteger();
      Square(z, x, g2, zr, v);
      SquarePower(zr, v, 1);
      var n := 3;
      while n <= km
        invariant n % 2 == 1 && n >= 3 && Table(z, g, zr, v, n) && fresh(g.Values - {x})
        invariant fresh(g2) && g2 !in g.Values && Holds(z, g2, Power(zr, v, 2))
        decreases km - n
      {
        g := NextPower(z, x, g, g2, n, zr, v);
        n := n + 2;
      }
      TableBelow(z, g, zr, v, n, Pow(2, k));
    } else {
      SmallPowers();
      TableBelow(z, g, zr, v, 3, 2);
    }
  }

  lemma FirstPower(z: Montgomery, x: BigInteger, zr: Reducer<int>, v: int)
    requires Holds(z, x, v)
    ensures Power(zr, v, 1) == v && Table(z, map[1 := x], zr, v, 3)
  {
    assert map[1 := x][1] == x;
  }

  lemma TableEntry(z: Montgomery, g: map<int, BigInteger>, zr: Reducer<int>, v: int, limit: int, n: int)
    requires Table(z, g, zr, v, limit) && 0 < n < limit && n % 2 == 1
    ensures n in g && g[n] in g.Values && Holds(z, g[n], Power(zr, v, n))
  {
  }

  lemma TableBelow(z: Montgomery, g: map<int, BigInteger>, zr: Reducer<int>, v: int, n: int, limit: int)
    requires Table(z, g, zr, v, n) && limit <= n
    ensures Table(z, g, zr, v, limit)
  {
  }

  /** Power n from power n - 2, in a new number. */
  method NextPower(z: Montgomery, x: BigInteger, g: map<int, BigInteger>, g2: BigInteger, n: nat,
                   ghost zr: Reducer<int>, ghost v: int)
    returns (g': map<int, BigInteger>)
    requires Computes(z, zr) && zr.residue(v) && n % 2 == 1 && n >= 3
    requires Table(z, g, zr, v, n) && g2 !in g.Values && Holds(z, g2, Power(zr, v, 2))
    ensures Table(z, g', zr, v, n + 2) && g2 !in g'.Values && fresh(g'.Values - g.Values)
  {
    hide Pow, Val, Lawful, Power, Computes;
    ComputesLawful(z, zr);
    PowerAdd(zr, v, 2, n - 2);
    PowerResidue(zr, v, 2);
    PowerResidue(zr, v, n - 2);
    var y := new BigInteger();
    Multiply(z, g2, g[n - 2], y, zr, Power(zr, v, 2), Power(zr, v, n - 2));
    g' := g[n := y];
    assert g'[n] == y;
  }

  // ----- the loop -----

  /** The two accumulators, perhaps exchanged. */
  predicate Exchanged(r: BigInteger, r2: BigInteger, r0: BigInteger, r1: BigInteger) {
    (r == r0 && r2 == r1) || (r == r1 && r2 == r0)
  }

  /** The accumulators are numbers of their own. */
  ghost predicate Apart(z: Montgomery, e: BigInteger, g: map<int, BigInteger>, r: BigInteger, r2: BigInteger) {
    r != r2 && r != z.m && r2 != z.m && r != e && r2 != e && r !in g.Values && r2 !in g.Values
  }

  /** r squared n times, into the second accumulator. */
  method SquareTimes(z: Montgomery, r0: BigInteger, r1: BigInteger, n0: nat, ghost zr: Reducer<int>, ghost v: int,
                     ghost a: nat)
    returns (r: BigInteger, r2: BigInteger)
    requires Computes(z, zr) && r0 != r1 && r0 != z.m && r1 != z.m
    requires zr.residue(v) && a > 0 && Holds(z, r0, Power(zr, v, a))
    modifies r0, r1
    ensures Exchanged(r, r2, r0, r1)
    ensures a * Pow(2, n0) > 0 && Holds(z, r2, Power(zr, v, a * Pow(2, n0)))
  {
    hide Pow, Val, Lawful, Power, Computes, Holds;
    ComputesLawful(z, zr);
    r, r2 := r0, r1;
    var n := n0;
    ghost var c := a;
    ValEmpty(2);
    while n > 1
      invariant 0 <= n <= n0 && c > 0 && c == a * Pow(2, n0 - n) && Holds(z, r, Power(zr, v, c))
      invariant Computes(z, zr)
    {
      TwoSquares(zr, v, a, c, n0 - n);
      Square(z, r, r2, zr, Power(zr, v, c));
      Square(z, r2, r, zr, Power(zr, v, 2 * c));
      n := n - 2;
      c := 4 * c;
    }
    if n > 0 {
      OneSquare(zr, v, a, c, n0 - 1);
      Square(z, r, r2, zr, Power(zr, v, c));
    } else {
      r, r2 := r2, r;
    }
  }

  lemma OneSquare(zr: Reducer<int>, v: int, a: nat, c: nat, k: nat)
    requires Lawful(zr) && zr.residue(v) && c > 0 && c == a * Pow(2, k)
    ensures zr.residue(Power(zr, v, c)) && zr.sqr(Power(zr, v, c)) == Power(zr, v, 2 * c) && 2 * c == a * Pow(2, k + 1)
  {
    hide Pow, Lawful, Power;
    PowerResidue(zr, v, c);
    SquarePower(zr, v, c);
    PowSnoc(2, k);
    Associate(a, Pow(2, k), 2);
  }

  lemma TwoSquares(zr: Reducer<int>, v: int, a: nat, c: nat, k: nat)
    requires Lawful(zr) && zr.residue(v) && c > 0 && c == a * Pow(2, k)
    ensures zr.residue(Power(zr, v, c)) && zr.sqr(Power(zr, v, c)) == Power(zr, v, 2 * c)
    ensures zr.residue(Power(zr, v, 2 * c)) && zr.sqr(Power(zr, v, 2 * c)) == Power(zr, v, 4 * c)
    ensures 4 * c == a * Pow(2, k + 2)
  {
    hide Pow, Lawful, Power;
    OneSquare(zr, v, a, c, k);
    OneSquare(zr, v, a, 2 * c, k + 1);
  }

  /** r has consumed the bits above pos. */
  ghost predicate Taken(z: Montgomery, zr: Reducer<int>, v: int, bits: seq<int>, pos: nat, is1: bool, r: BigInteger)
    reads r
  {
    r.Valid(z.engine.Base()) && Consumed(zr, v, bits, pos, is1, r.Value(z.engine.Base()))
  }

  /** One window: g[w] itself, or n squarings and a product with g[w]. */
  method ConsumeWindow(z: Montgomery, e: BigInteger, g: map<int, BigInteger>, w: int, n: nat, is1: bool, r0: BigInteger,
                       r1: BigInteger,
                       ghost zr: Reducer<int>, ghost v: int, ghost bits: seq<int>, ghost pos: nat)
    returns (r: BigInteger, r2: BigInteger)
    requires Computes(z, zr) && zr.residue(v) && Table(z, g, zr, v, Pow(2, n)) && w % 2 == 1 && 0 < w < Pow(2, n)
    requires Apart(z, e, g, r0, r1)
    requires 1 <= n <= pos && Taken(z, zr, v, bits, pos, is1, r0) && w == Val(2, bits[pos - n..pos])
    modifies r0, r1
    ensures Exchanged(r, r2, r0, r1) && Taken(z, zr, v, bits, pos - n, false, r)
  {
    hide Pow, Val, Lawful, Power, Computes, Table;
    ComputesLawful(z, zr);
    TakeBits(bits, pos, n);
    TableEntry(z, g, zr, v, Pow(2, n), w);
    if is1 {
      g[w].CopyTo(z.engine, r0);
      r, r2 := r0, r1;
    } else {
      ghost var a := Val(2, bits[pos..]);
      r, r2 := SquareTimes(z, r0, r1, n, zr, v, a);
      PowerResidue(zr, v, a * Pow(2, n));
      PowerResidue(zr, v, w);
      PowerAdd(zr, v, a * Pow(2, n), w);
      Multiply(z, r2, g[w], r, zr, Power(zr, v, a * Pow(2, n)), Power(zr, v, w));
    }
  }

  /** The inner loop: squares and exchanges once for every zero bit. */
  method SkipZeros(z: Montgomery, e: BigInteger, r0: BigInteger, r1: BigInteger, j0: int, i0: int,
                   ghost zr: Reducer<int>, ghost v: int, ghost bits: seq<int>, ghost pos0: nat)
    returns (r: BigInteger, r2: BigInteger, j: int, i: int, ghost pos: nat)
    requires Computes(z, zr) && zr.residue(v) && Exponent(z.engine, e, bits) && Apart(z, e, map[], r0, r1)
    requires -1 <= j0 < e.t && 0 <= i0 < z.engine.Bits() && pos0 == j0 * z.engine.Bits() + i0 + 1 && pos0 <= |bits|
    requires Taken(z, zr, v, bits, pos0, false, r0) && (j0 < 0 ==> pos0 == 0)
    modifies r0, r1
    ensures Exchanged(r, r2, r0, r1) && Taken(z, zr, v, bits, pos, false, r)
    ensures -1 <= j < e.t && 0 <= i < z.engine.Bits() && pos == j * z.engine.Bits() + i + 1 && pos <= pos0
    ensures j >= 0 ==> pos > 0 && bits[pos - 1] == 1
    ensures j < 0 ==> pos == 0
  {
    hide Val, Pow, Lawful, Power, Computes, Taken;
    var db := z.engine.Bits();
    r, r2, j, i, pos := r0, r1, j0, i0, pos0;
    while j >= 0 && TestBit(e.digits[j], i) == 0
      invariant -1 <= j < e.t && 0 <= i < db && pos == j * db + i + 1 && 0 <= pos <= pos0
      invariant Exchanged(r, r2, r0, r1) && Computes(z, zr) && Exponent(z.engine, e, bits)
      invariant Taken(z, zr, v, bits, pos, false, r) && (j < 0 ==> pos == 0)
      decreases pos
    {
      BitOfDigit(z.engine, e, j, i, bits);
      SquareZero(z, r, r2, zr, v, bits, pos);
      r, r2 := r2, r;
      i := i - 1;
      pos := pos - 1;
      if i < 0 { Distribute(db, j, -1); i := db - 1; j := j - 1; }
      NonNegative(j, db, i, pos);
    }
    if j >= 0 {
      BitOfDigit(z.engine, e, j, i, bits);
      NonNegative(j, db, i, pos);
    }
  }

  /** The square of r takes one zero bit more. */
  method SquareZero(z: Montgomery, r: BigInteger, r2: BigInteger, ghost zr: Reducer<int>, ghost v: int,
                    ghost bits: seq<int>, ghost pos: nat)
    requires Computes(z, zr) && zr.residue(v) && r2 != r && r2 != z.m
    requires 0 < pos && Taken(z, zr, v, bits, pos, false, r) && bits[pos - 1] == 0
    modifies r2
    ensures Taken(z, zr, v, bits, pos - 1, false, r2)
  {
    hide Val, Pow, Lawful, Power, Computes;
    ComputesLawful(z, zr);
    ghost var rv := r.Value(z.engine.Base());
    PowerResidue(zr, v, Val(2, bits[pos..]));
    ConsumeZero(zr, v, bits, pos, rv);
    Square(z, r, r2, zr, rv);
  }

  /** The loop from the top bit down, for any window size k. */
  method Slide(z: Montgomery, e: BigInteger, g: map<int, BigInteger>, k: nat, r0: BigInteger, top: nat,
               ghost zr: Reducer<int>, ghost v: int, ghost bits: seq<int>) returns (r: BigInteger)
    requires Computes(z, zr) && zr.residue(v) && Exponent(z.engine, e, bits) && e.t > 0 && 1 <= k <= z.engine.Bits()
    requires Table(z, g, zr, v, Pow(2, k)) && r0.Valid(z.engine.Base()) && r0 != z.m && r0 != e && r0 !in g.Values
    requires 1 <= top <= z.engine.Bits() && TopBitAt(bits, (e.t - 1) * z.engine.Bits() + top)
    modifies r0
    ensures r == r0 || fresh(r)
    ensures Val(2, bits) > 0 && Holds(z, r, Power(zr, v, Val(2, bits)))
  {
    hide Val, Pow, TopBitAt, Lawful, Power, Computes, Table, Exponent, Taken, Holds;
    var db := z.engine.Bits();
    var r1 := new BigInteger();
    var r2;
    r, r2 := r0, r1;
    var j, i, is1 := e.t - 1, top - 1, true;
    ghost var pos := j * db + i + 1;
    TopBitFacts(bits, pos);
    TakenStart(z, zr, v, bits, pos, r);
    while j >= 0
      invariant -1 <= j < e.t && 0 <= i < db && pos == j * db + i + 1 && 0 <= pos <= |bits|
      invariant Exchanged(r, r2, r0, r1) && Computes(z, zr) && Exponent(z.engine, e, bits)
      invariant Table(z, g, zr, v, Pow(2, k))
      invariant Taken(z, zr, v, bits, pos, is1, r)
      invariant j >= 0 ==> pos > 0 && bits[pos - 1] == 1
      invariant j < 0 ==> !is1 && pos == 0
      decreases pos
    {
      var w, n := NextWindow(z.engine, e, k, j, i, bits, pos);
      PowMonotone(2, n, k);
      TableBelow(z, g, zr, v, Pow(2, k), Pow(2, n));
      r, r2 := ConsumeWindow(z, e, g, w, n, is1, r, r2, zr, v, bits, pos);
      is1 := false;
      i := i - n;
      pos := pos - n;
      if i < 0 { Distribute(db, j, -1); i := i + db; j := j - 1; }
      NonNegative(j, db, i, pos);
      r, r2, j, i, pos := SkipZeros(z, e, r, r2, j, i, zr, v, bits, pos);
    }
    TakenAll(z, zr, v, bits, r);
  }

  lemma TakenStart(z: Montgomery, zr: Reducer<int>, v: int, bits: seq<int>, pos: nat, r: BigInteger)
    requires pos <= |bits| && Val(2, bits[pos..]) == 0 && r.Valid(z.engine.Base())
    ensures Taken(z, zr, v, bits, pos, true, r)
  {
  }

  lemma TakenAll(z: Montgomery, zr: Reducer<int>, v: int, bits: seq<int>, r: BigInteger)
    requires Taken(z, zr, v, bits, 0, false, r)
    ensures Val(2, bits) > 0 && Holds(z, r, Power(zr, v, Val(2, bits)))
  {
    assert bits[0..] == bits;
  }

  /**
   this^e modulo an odd m, where x is what convert made of this: the power of integers, or one
   when the exponent is zero. Nothing that existed before is changed.
   */
  method ModPow(z: Montgomery, x: BigInteger, e: BigInteger, ghost base: int) returns (r: BigInteger)
    requires z.Valid() && e.Clamped(z.engine.Base()) && e.s == 0 && x.Valid(z.engine.Base())
    requires 0 <= x.Value(z.engine.Base()) < z.m.Value(z.engine.Base())
    requires Cong(x.Value(z.engine.Base()), base * Pow(z.engine.Base(), z.m.t), z.m.Value(z.engine.Base()))
    ensures fresh(r) && r.Valid(z.engine.Base()) && e.Value(z.engine.Base()) >= 0
    ensures
      var b := z.engine.Base();
      r.Value(b) == if e.Value(b) == 0 then 1 else IntPow(base, e.Value(b)) % z.m.Value(b)
  {
    hide Val, Pow, Power, Redc, Exponent, Expands;
    var b := z.engine.Base();
    RangeBounds(b, e.digits, 0, e.t);
    assert e.digits[0..e.t] == e.digits[..e.t];
    r := One(z);
    if e.t <= 0 {
      ValEmpty(b);
      assert e.digits[..e.t] == [];
    } else {
      ClampedMagnitude(b, e.digits[..e.t], 0);
      BaseIsPowerOfTwo(z.engine);
      ghost var bits := Expand(e.digits[..e.t], z.engine.Bits());
      ExponentOf(z.engine, e, bits);
      ValidIsOdd(z);
      ghost var m, k, v := z.m.Value(b), z.m.t * z.engine.Bits(), x.Value(b);
      MontgomeryPowerCorrect(m, k, v, base, Val(2, bits));
      r := Raise(z, x, e, r, MontgomeryReducer(m, k), v, bits);
    }
  }

  /** The exponent is not zero: table, loop and the way back. */
  method Raise(z: Montgomery, x: BigInteger, e: BigInteger, r0: BigInteger, ghost zr: Reducer<int>, ghost v: int,
               ghost bits: seq<int>)
    returns (r: BigInteger)
    requires Computes(z, zr) && Holds(z, x, v) && zr.residue(v) && Exponent(z.engine, e, bits) && e.t > 0
    requires r0.Valid(z.engine.Base()) && r0 != z.m && r0 != e && r0 != x
    modifies r0
    ensures fresh(r) && Val(2, bits) > 0 && Holds(z, r, zr.revert(Power(zr, v, Val(2, bits))))
  {
    hide Val, Pow, TopBitAt, Power, Table, Computes, Lawful, Holds;
    var top := LeadingBits(z.engine, e, bits);
    var i := z.engine.Bits() * (e.t - 1) + top;
    var k := WindowSize(i);
    var g := Precompute(z, x, k, zr, v);
    r := Slide(z, e, g, k, r0, top, zr, v, bits);
    ComputesLawful(z, zr);
    PowerResidue(zr, v, Val(2, bits));
    r := Revert(z, r, zr, Power(zr, v, Val(2, bits)));
  }

  /** nbv(1). */
  method One(z: Montgomery) returns (r: BigInteger)
    ensures fresh(r) && Holds(z, r, 1)
  {
    r := new BigInteger();
    r.digits, r.t := [1], 1;
    ValSnoc(z.engine.Base(), [], 1);
    assert r.digits[..1] == [] + [1];
  }

  lemma ExponentOf(eng: Engine, e: BigInteger, bits: seq<int>)
    requires e.Clamped(eng.Base()) && e.s == 0 && Expands(e.digits[..e.t], eng.Bits(), bits)
    ensures Exponent(eng, e, bits)
  {
  }
}
