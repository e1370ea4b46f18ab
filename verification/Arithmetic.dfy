/** Powers, little-endian digit sequences and congruences. */
module Arithmetic {

  function Pow(b: nat, n: nat): (r: nat)
    ensures b > 0 ==> r > 0
  {
    if n == 0 then 1 else b * Pow(b, n - 1)
  }

  lemma Distribute(x: int, y: int, z: int)
    ensures x * (y + z) == x * y + x * z
  {
  }

  lemma Associate(x: int, y: int, z: int)
    ensures x * (y * z) == (x * y) * z
  {
  }

  lemma {:induction false} PowAdd(b: nat, m: nat, n: nat)
    ensures Pow(b, m + n) == Pow(b, m) * Pow(b, n)
  {
    if m > 0 {
      PowAdd(b, m - 1, n);
      Associate(b, Pow(b, m - 1), Pow(b, n));
    }
  }

  lemma PowSnoc(b: nat, n: nat)
    ensures Pow(b, n + 1) == Pow(b, n) * b
  {
    assert Pow(b, n + 1) == b * Pow(b, n);
  }

  lemma {:induction false} PowMonotone(b: nat, m: nat, n: nat)
    requires b > 0 && m <= n
    ensures Pow(b, m) <= Pow(b, n)
  {
    PowAdd(b, m, n - m);
    MulGrows(Pow(b, m), Pow(b, n - m));
  }

  lemma MulGrows(x: nat, y: nat)
    requires y > 0
    ensures x <= x * y
  {
  }

  lemma MulMonotone(x: int, y: int, z: int)
    requires x <= y && 0 <= z
    ensures x * z <= y * z
  {
  }

  lemma QuotientUnique(p: int, v1: int, v2: int, c1: int, c2: int)
    requires 0 <= v1 < p && 0 <= v2 < p && v1 + c1 * p == v2 + c2 * p
    ensures v1 == v2 && c1 == c2
  {
    Distribute(p, c1, -c2);
    if c1 > c2 { MulMonotone(1, c1 - c2, p); }
    if c1 < c2 { MulMonotone(c1 - c2, -1, p); }
  }

  /** The number denoted by base-b digits, least significant first. */
  ghost function Val(b: nat, d: seq<int>): int {
    if d == [] then 0 else d[0] + b * Val(b, d[1..])
  }

  predicate Digits(b: nat, d: seq<int>) {
    forall k :: 0 <= k < |d| ==> 0 <= d[k] < b
  }

  /** d[lo..hi] holds digits. */
  predicate DigitRange(b: nat, d: seq<int>, lo: nat, hi: nat) {
    lo <= hi <= |d| && forall k :: lo <= k < hi ==> 0 <= d[k] < b
  }

  lemma {:induction false} ValConcat(b: nat, d: seq<int>, e: seq<int>)
    ensures Val(b, d + e) == Val(b, d) + Pow(b, |d|) * Val(b, e)
  {
    if d == [] {
      assert d + e == e;
    } else {
      ValConcat(b, d[1..], e);
      assert (d + e)[1..] == d[1..] + e;
      Associate(b, Pow(b, |d| - 1), Val(b, e));
      Distribute(b, Val(b, d[1..]), Pow(b, |d| - 1) * Val(b, e));
    }
  }

  lemma ValSnoc(b: nat, d: seq<int>, x: int)
    ensures Val(b, d + [x]) == Val(b, d) + Pow(b, |d|) * x
  {
    ValConcat(b, d, [x]);
    assert Val(b, [x]) == x + b * Val(b, []);
  }

  lemma ValEmpty(b: nat)
    ensures Val(b, []) == 0 && Pow(b, 0) == 1
  {
  }

  /** A slice one digit longer. */
  lemma ValSlice(b: nat, d: seq<int>, lo: nat, hi: nat)
    requires lo <= hi < |d|
    ensures Val(b, d[lo..hi + 1]) == Val(b, d[lo..hi]) + Pow(b, hi - lo) * d[hi]
  {
    ValSnoc(b, d[lo..hi], d[hi]);
    assert d[lo..hi + 1] == d[lo..hi] + [d[hi]];
  }

  lemma ValTake(b: nat, d: seq<int>, i: nat)
    requires i < |d|
    ensures Val(b, d[..i + 1]) == Val(b, d[..i]) + Pow(b, i) * d[i]
  {
    ValSlice(b, d, 0, i);
    assert d[0..i] == d[..i] && d[0..i + 1] == d[..i + 1];
  }

  lemma ValSplit(b: nat, d: seq<int>, k: nat)
    requires k <= |d|
    ensures Val(b, d) == Val(b, d[..k]) + Pow(b, k) * Val(b, d[k..])
  {
    ValConcat(b, d[..k], d[k..]);
    assert d == d[..k] + d[k..];
  }

  lemma HornerBound(b: nat, x: int, v: int, p: int)
    requires 0 <= x < b && 0 <= v < p
    ensures 0 <= x + b * v < b * p
  {
    MulMonotone(v, p - 1, b);
    assert b * (p - 1) == b * p - b;
  }

  lemma {:induction false} ValBounds(b: nat, d: seq<int>)
    requires Digits(b, d)
    ensures 0 <= Val(b, d) < Pow(b, |d|)
  {
    if d != [] {
      ValBounds(b, d[1..]);
      HornerBound(b, d[0], Val(b, d[1..]), Pow(b, |d| - 1));
    }
  }

  lemma RangeBounds(b: nat, d: seq<int>, lo: nat, hi: nat)
    requires DigitRange(b, d, lo, hi)
    ensures 0 <= Val(b, d[lo..hi]) < Pow(b, hi - lo)
  {
    ValBounds(b, d[lo..hi]);
  }

  lemma {:induction false} ValZeros(b: nat, d: seq<int>)
    requires forall k :: 0 <= k < |d| ==> d[k] == 0
    ensures Val(b, d) == 0
  {
    if d != [] { ValZeros(b, d[1..]); }
  }

  /** x and y leave the same remainder, stated by a witness. */
  ghost predicate Cong(x: int, y: int, m: int) {
    exists k: int :: x - y == k * m
  }

  lemma CongIntro(x: int, y: int, m: int, k: int)
    requires x - y == k * m
    ensures Cong(x, y, m)
  {
  }

  lemma CongRefl(x: int, m: int)
    ensures Cong(x, x, m)
  {
    CongIntro(x, x, m, 0);
  }

  lemma CongSym(x: int, y: int, m: int)
    requires Cong(x, y, m)
    ensures Cong(y, x, m)
  {
    var k :| x - y == k * m;
    CongIntro(y, x, m, -k);
  }

  lemma CongTrans(x: int, y: int, z: int, m: int)
    requires Cong(x, y, m) && Cong(y, z, m)
    ensures Cong(x, z, m)
  {
    var j :| x - y == j * m;
    var k :| y - z == k * m;
    assert (j + k) * m == j * m + k * m;
    CongIntro(x, z, m, j + k);
  }

  lemma CongMul(x: int, y: int, z: int, m: int)
    requires Cong(x, y, m)
    ensures Cong(x * z, y * z, m) && Cong(z * x, z * y, m)
  {
    var k :| x - y == k * m;
    assert x * z - y * z == (x - y) * z == (k * m) * z == (k * z) * m;
    CongIntro(x * z, y * z, m, k * z);
  }

  lemma CongMod(x: int, m: int)
    requires m > 0
    ensures Cong(x, x % m, m)
  {
    CongIntro(x, x % m, m, x / m);
  }

  /** A remainder in [0, m) is determined by its class. */
  lemma CongUnique(x: int, y: int, m: int)
    requires m > 0 && 0 <= x < m && 0 <= y < m && Cong(x, y, m)
    ensures x == y
  {
    var k :| x - y == k * m;
    if k >= 1 { MulMonotone(1, k, m); }
    if k <= -1 { MulMonotone(k, -1, m); }
  }
}
