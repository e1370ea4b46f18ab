/**
 Arbitrary-precision integers held as digit arrays that are updated in place
 (demo/v8_benchmark.js, 1786-2157). With b the base of the engine, a number is
   digits[0] + digits[1]*b + ... + digits[t-1]*b^(t-1) + s*b^t     with s = 0 or -1.
 */
module BigIntegers {
  import opened Arithmetic
  import opened DigitArithmetic

  class BigInteger {
    var digits: seq<int>
    var t: nat
    var s: int

    ghost predicate Valid(b: nat)
      reads this
    {
      (s == 0 || s == -1) && DigitRange(b, digits, 0, t)
    }

    ghost predicate Clamped(b: nat)
      reads this
    {
      Valid(b) && (t > 0 ==> digits[t - 1] != if s == 0 then 0 else b - 1)
    }

    ghost function Value(b: nat): int
      requires Valid(b)
      reads this
    {
      Val(b, digits[..t]) + SignTerm(b, s, t)
    }

    constructor ()
      ensures digits == [] && t == 0 && s == 0
    {
      digits, t, s := [], 0, 0;
    }

    // ----- the three multiply-add routines -----

    method MulAdd1(i0: nat, x: int, w: BigInteger, j0: nat, c0: int, n0: nat) returns (c: int)
      requires this != w
      requires DigitRange(Am1.Base(), digits, i0, i0 + n0) && DigitRange(Am1.Base(), w.digits, j0, j0 + n0)
      requires 0 <= x < 2 * Am1.Base() && 0 <= c0 < Am1.CarryLimit()
      modifies w`digits
      ensures AmDone(Am1.Base(), w.digits, old(w.digits), digits, i0, j0, n0, x, c0, c)
      ensures 0 <= c < Am1.CarryLimit()
    {
      hide Val, Pow;
      c := c0;
      AmStart(Am1.Base(), w.digits, digits, i0, j0, x, c);
      var i, j, n := i0, j0, n0 - 1;
      while n >= 0
        invariant -1 <= n < n0 && i - i0 == j - j0 == n0 - 1 - n
        invariant AmDone(Am1.Base(), w.digits, old(w.digits), digits, i0, j0, n0 - 1 - n, x, c0, c)
        invariant 0 <= c < Am1.CarryLimit()
      {
        Am1Exact(x, digits[i], w.digits[j], c);
        var v := x * digits[i] + w.digits[j] + c;
        assert Int53(v);
        AmStep(0x400_0000, w.digits, old(w.digits), digits, i0, j0, i - i0, x, c0, c, v % 0x400_0000, v / 0x400_0000);
        c := v / 0x400_0000;
        w.digits := w.digits[j := v % 0x400_0000];
        i, j, n := i + 1, j + 1, n - 1;
      }
    }

    method MulAdd3(i0: nat, x: int, w: BigInteger, j0: nat, c0: int, n0: nat) returns (c: int)
      requires this != w
      requires DigitRange(Am3.Base(), digits, i0, i0 + n0) && DigitRange(Am3.Base(), w.digits, j0, j0 + n0)
      requires 0 <= x < 2 * Am3.Base() && 0 <= c0 < Am3.CarryLimit()
      modifies w`digits
      ensures AmDone(Am3.Base(), w.digits, old(w.digits), digits, i0, j0, n0, x, c0, c)
      ensures 0 <= c < Am3.CarryLimit()
    {
      hide Val, Pow;
      c := c0;
      AmStart(Am3.Base(), w.digits, digits, i0, j0, x, c);
      var i, j, n := i0, j0, n0 - 1;
      var xl, xh := AndMask(x, 0x4000), Sar(x, 0x4000);
      while n >= 0
        invariant -1 <= n < n0 && i - i0 == j - j0 == n0 - 1 - n
        invariant AmDone(Am3.Base(), w.digits, old(w.digits), digits, i0, j0, n0 - 1 - n, x, c0, c)
        invariant 0 <= c < Am3.CarryLimit()
      {
        SplitBounds(0x4000, x, digits[i], w.digits[j], c);
        SplitProduct(0x4000, x, digits[i], w.digits[j], c);
        var l := AndMask(digits[i], 0x4000);
        var h := Sar(digits[i], 0x4000);
        var m := xh * l + h * xl;
        l := xl * l + Shl(AndMask(m, 0x4000), 0x4000) + w.digits[j] + c;
        var c' := Sar(l, 0x1000_0000) + Sar(m, 0x4000) + xh * h;
        AmStep(0x1000_0000, w.digits, old(w.digits), digits, i0, j0, i - i0, x, c0, c, AndMask(l, 0x1000_0000), c');
        c := c';
        w.digits := w.digits[j := AndMask(l, 0x1000_0000)];
        i, j, n := i + 1, j + 1, n - 1;
      }
    }

    method MulAdd4(i0: nat, x: int, w: BigInteger, j0: nat, c0: int, n0: nat) returns (c: int)
      requires this != w
      requires DigitRange(Am4.Base(), digits, i0, i0 + n0) && DigitRange(Am4.Base(), w.digits, j0, j0 + n0)
      requires 0 <= x < 2 * Am4.Base() && 0 <= c0 < Am4.CarryLimit()
      modifies w`digits
      ensures AmDone(Am4.Base(), w.digits, old(w.digits), digits, i0, j0, n0, x, c0, c)
      ensures 0 <= c < Am4.CarryLimit()
    {
      hide Val, Pow;
      c := c0;
      AmStart(Am4.Base(), w.digits, digits, i0, j0, x, c);
      var i, j, n := i0, j0, n0 - 1;
      var xl, xh := AndMask(x, 0x2000), Sar(x, 0x2000);
      while n >= 0
        invariant -1 <= n < n0 && i - i0 == j - j0 == n0 - 1 - n
        invariant AmDone(Am4.Base(), w.digits, old(w.digits), digits, i0, j0, n0 - 1 - n, x, c0, c)
        invariant 0 <= c < Am4.CarryLimit()
      {
        SplitBounds(0x2000, x, digits[i], w.digits[j], c);
        SplitProduct(0x2000, x, digits[i], w.digits[j], c);
        var l := AndMask(digits[i], 0x2000);
        var h := Sar(digits[i], 0x2000);
        var m := xh * l + h * xl;
        l := xl * l + Shl(AndMask(m, 0x2000), 0x2000) + w.digits[j] + c;
        var c' := Sar(l, 0x400_0000) + Sar(m, 0x2000) + xh * h;
        AmStep(0x400_0000, w.digits, old(w.digits), digits, i0, j0, i - i0, x, c0, c, AndMask(l, 0x400_0000), c');
        c := c';
        w.digits := w.digits[j := AndMask(l, 0x400_0000)];
        i, j, n := i + 1, j + 1, n - 1;
      }
    }

    /** this.am, as setupEngine bound it. */
    method MulAdd(e: Engine, i: nat, x: int, w: BigInteger, j: nat, c0: int, n: nat) returns (c: int)
      requires this != w
      requires DigitRange(e.Base(), digits, i, i + n) && DigitRange(e.Base(), w.digits, j, j + n)
      requires 0 <= x < 2 * e.Base() && 0 <= c0 < e.CarryLimit()
      modifies w`digits
      ensures AmDone(e.Base(), w.digits, old(w.digits), digits, i, j, n, x, c0, c)
      ensures 0 <= c < e.CarryLimit()
    {
      match e
      case Am1 => c := MulAdd1(i, x, w, j, c0, n);
      case Am3 => c := MulAdd3(i, x, w, j, c0, n);
      case Am4 => c := MulAdd4(i, x, w, j, c0, n);
    }

    // ----- normal form, copies, shifts -----

    /** Drops leading digits that only repeat the sign. */
    method Clamp(e: Engine)
      requires Valid(e.Base())
      modifies this`t
      ensures Clamped(e.Base()) && Value(e.Base()) == old(Value(e.Base())) && t <= old(t)
    {
      hide Val, Pow;
      var c := if s < 0 then e.Base() - 1 else 0;
      while t > 0 && digits[t - 1] == c
        invariant Valid(e.Base()) && Value(e.Base()) == old(Value(e.Base())) && t <= old(t)
      {
        DropTop(e.Base(), digits, t, s);
        t := t - 1;
      }
    }

    method CopyTo(e: Engine, r: BigInteger)
      requires Valid(e.Base())
      modifies r
      ensures r.Valid(e.Base()) && r.Value(e.Base()) == old(Value(e.Base()))
      ensures r.t == old(t) && r.s == old(s) && r.digits[..r.t] == old(digits[..t])
    {
      var i := t - 1;
      while i >= 0
        invariant -1 <= i < t
        invariant t == old(t) && s == old(s) && t <= |digits| && digits[..t] == old(digits[..t])
        invariant i + 1 < t ==> t <= |r.digits|
        invariant forall k :: i < k < t ==> r.digits[k] == old(digits[k])
      {
        r.digits := Put(r.digits, i, digits[i]);
        i := i - 1;
      }
      r.t := t;
      r.s := s;
      assert r.digits[..r.t] == old(digits[..t]);
    }

    /** r = this >> n*DB: the quotient by b^n, rounded down, for all signs; r may be this. */
    method DrShiftTo(e: Engine, n: nat, r: BigInteger)
      requires Valid(e.Base())
      modifies r
      ensures r.Valid(e.Base()) && r.s == old(s)
      ensures r.t == (if old(t) > n then old(t) - n else 0)
      ensures old(t) >= n ==> r.digits[..r.t] == old(digits[n..t])
      ensures Pow(e.Base(), n) > 0 && r.Value(e.Base()) == old(Value(e.Base())) / Pow(e.Base(), n)
    {
      hide Val, Pow;
      ghost var d := digits;
      ShiftedDown(e.Base(), d, t, n, s);
      MoveDown(n, r);
      r.t := if t >= n then t - n else 0;
      r.s := s;
      assert r.digits[..r.t] == if r.t > 0 then d[n..n + r.t] else [];
    }

    /** Moves the digits from n on down to the digits of r, which may be this. */
    method MoveDown(n: nat, r: BigInteger)
      requires t <= |digits|
      modifies r`digits
      ensures t > n ==> |r.digits| >= t - n
      ensures forall k :: 0 <= k < t - n ==> r.digits[k] == old(digits[n + k])
    {
      ghost var d := digits;
      var i := n;
      while i < t
        invariant |digits| >= t && n <= i && (i <= t || i == n)
        invariant n < i ==> |r.digits| >= i - n
        invariant forall k :: 0 <= k < i - n ==> r.digits[k] == d[n + k]
        invariant forall k :: i <= k < t ==> digits[k] == d[k]
      {
        r.digits := Put(r.digits, i - n, digits[i]);
        i := i + 1;
      }
    }

    // ----- subtraction and comparison -----

    /** r = this - a, for all signs; r may be this or a. */
    method SubTo(e: Engine, a: BigInteger, r: BigInteger)
      requires Valid(e.Base()) && a.Valid(e.Base())
      modifies r
      ensures r.Clamped(e.Base())
      ensures r.Value(e.Base()) == old(Value(e.Base())) - old(a.Value(e.Base()))
    {
      hide Val, Pow;
      var b := e.Base();
      ghost var d, f := digits, a.digits;
      ghost var v := Value(b) - a.Value(b);
      var m := if a.t < t then a.t else t;
      var c := SubCommonDigits(e, a, r, m);
      if a.t < t {
        PartialSign(b, r.digits, m, c, Val(b, d[..m]) - Val(b, f[..m]), a.s);
        c := SubOwnDigits(e, r, m, c - a.s, d, Val(b, f[..m]) + SignTerm(b, a.s, m));
        m := t;
        PartialSign(b, r.digits, m, c, v - SignTerm(b, s, m), s);
        c := c + s;
      } else {
        PartialSign(b, r.digits, m, c, Val(b, d[..m]) - Val(b, f[..m]), s);
        c := a.SubOtherDigits(e, r, m, c + s, f, Val(b, d[..m]) + SignTerm(b, s, m));
        m := a.t;
        PartialSign(b, r.digits, m, c, v + SignTerm(b, a.s, m), a.s);
        c := c - a.s;
      }
      r.SetFromBorrow(e, m, c, v);
    }

    /** The digits both operands have. */
    method SubCommonDigits(e: Engine, a: BigInteger, r: BigInteger, m: nat) returns (c: int)
      requires DigitRange(e.Base(), digits, 0, m) && DigitRange(e.Base(), a.digits, 0, m)
      modifies r`digits
      ensures -1 <= c <= 0
      ensures Partial(e.Base(), r.digits, m, c, Val(e.Base(), old(digits)[..m]) - Val(e.Base(), old(a.digits)[..m]))
      ensures Untouched(old(digits), m) && a.Untouched(old(a.digits), m)
    {
      hide Val, Pow;
      var b := e.Base();
      ghost var d, f := digits, a.digits;
      var i := 0;
      c := 0;
      PartialStart(b, r.digits, d, f);
      while i < m
        invariant 0 <= i <= m && -1 <= c <= 0
        invariant Untouched(d, i) && a.Untouched(f, i)
        invariant Partial(b, r.digits, i, c, Val(b, d[..i]) - Val(b, f[..i]))
      {
        SubStep(b, r.digits, d, f, i, c);
        c := c + digits[i] - a.digits[i];
        r.digits := Put(r.digits, i, AndMask(c, b));
        i, c := i + 1, Sar(c, b);
      }
    }

    /** The digits only this has, after y was subtracted from the lower ones; d is what this was. */
    method SubOwnDigits(e: Engine, r: BigInteger, i0: nat, c0: int, ghost d: seq<int>, ghost y: int) returns (c: int)
      requires DigitRange(e.Base(), d, 0, t) && i0 <= t && Untouched(d, i0) && -1 <= c0 <= 1
      requires Partial(e.Base(), r.digits, i0, c0, Val(e.Base(), d[..i0]) - y)
      modifies r`digits
      ensures -1 <= c <= 1
      ensures Partial(e.Base(), r.digits, t, c, Val(e.Base(), d[..t]) - y)
    {
      hide Val, Pow;
      var b := e.Base();
      var i := i0;
      c := c0;
      while i < t
        invariant i0 <= i <= t && -1 <= c <= 1 && Untouched(d, i)
        invariant Partial(b, r.digits, i, c, Val(b, d[..i]) - y)
      {
        AddDigitStep(b, r.digits, d, i, c, -y);
        c := c + digits[i];
        r.digits := Put(r.digits, i, AndMask(c, b));
        i, c := i + 1, Sar(c, b);
      }
    }

    /** The digits only the subtrahend (this) has, taken from x; f is what this was. */
    method SubOtherDigits(e: Engine, r: BigInteger, i0: nat, c0: int, ghost f: seq<int>, ghost x: int) returns (c: int)
      requires DigitRange(e.Base(), f, 0, t) && i0 <= t && Untouched(f, i0) && -2 <= c0 <= 0
      requires Partial(e.Base(), r.digits, i0, c0, x - Val(e.Base(), f[..i0]))
      modifies r`digits
      ensures -2 <= c <= 0
      ensures Partial(e.Base(), r.digits, t, c, x - Val(e.Base(), f[..t]))
    {
      hide Val, Pow;
      var b := e.Base();
      var i := i0;
      c := c0;
      while i < t
        invariant i0 <= i <= t && -2 <= c <= 0 && Untouched(f, i)
        invariant Partial(b, r.digits, i, c, x - Val(b, f[..i]))
      {
        SubDigitStep(b, r.digits, f, i, c, x);
        c := c - digits[i];
        r.digits := Put(r.digits, i, AndMask(c, b));
        i, c := i + 1, Sar(c, b);
      }
    }

    /** Turns the final borrow into a sign, with one more digit when it needs one. */
    method SetFromBorrow(e: Engine, i: nat, c: int, ghost v: int)
      requires Partial(e.Base(), digits, i, c, v) && -2 <= c <= 1
      modifies this
      ensures Clamped(e.Base()) && Value(e.Base()) == v
    {
      hide Val, Pow;
      PartialFinish(e.Base(), digits, i, c, v);
      s := if c < 0 then -1 else 0;
      t := i;
      if c < -1 {
        digits := Put(digits, i, e.Base() + c);
        t := i + 1;
      } else if c > 0 {
        digits := Put(digits, i, c);
        t := i + 1;
      }
      Clamp(e);
    }

    /** The elements from i on still are those of d. */
    ghost predicate Untouched(d: seq<int>, i: nat)
      reads this
    {
      |digits| >= |d| && forall k :: i <= k < |d| ==> digits[k] == d[k]
    }

    /**
     The sign of this - a, except that for two negative numbers of different lengths
     the code returns the opposite sign.
     */
    method CompareTo(e: Engine, a: BigInteger) returns (r: int)
      requires Clamped(e.Base()) && a.Clamped(e.Base())
      ensures !(s < 0 && a.s < 0 && t != a.t) ==>
                (r > 0 <==> Value(e.Base()) > a.Value(e.Base())) && (r < 0 <==> Value(e.Base()) < a.Value(e.Base()))
      ensures s < 0 && a.s < 0 && t != a.t ==>
                (r > 0 <==> Value(e.Base()) < a.Value(e.Base())) && (r < 0 <==> Value(e.Base()) > a.Value(e.Base()))
    {
      hide Value, Val, Pow;
      SignOrders(e, a);
      r := s - a.s;
      if r != 0 { return; }
      r := t - a.t;
      if r == 0 {
        r := CompareDigits(e, a);
      } else {
        LengthOrders(e, a);
      }
    }

    /** The digits decide, from the top down. */
    method CompareDigits(e: Engine, a: BigInteger) returns (r: int)
      requires Valid(e.Base()) && a.Valid(e.Base()) && s == a.s && t == a.t
      ensures (r > 0 <==> Value(e.Base()) > a.Value(e.Base())) && (r < 0 <==> Value(e.Base()) < a.Value(e.Base()))
    {
      hide Val, Pow;
      var i := t - 1;
      while i >= 0
        invariant -1 <= i < t
        invariant forall k :: i < k < t ==> digits[k] == a.digits[k]
      {
        r := digits[i] - a.digits[i];
        if r > 0 {
          TopDigitOrders(e.Base(), digits, a.digits, t, i);
          return;
        } else if r < 0 {
          TopDigitOrders(e.Base(), a.digits, digits, t, i);
          return;
        }
        i := i - 1;
      }
      assert digits[..t] == a.digits[..t];
      r := 0;
    }

    static lemma TopDigitOrders(b: nat, d: seq<int>, f: seq<int>, t: nat, i: nat)
      requires i < t && DigitRange(b, d, 0, t) && DigitRange(b, f, 0, t) && d[i] > f[i]
      requires forall k :: i < k < t ==> d[k] == f[k]
      ensures Val(b, d[..t]) > Val(b, f[..t])
    {
      hide Val, Pow;
      assert d[..t][i + 1..] == f[..t][i + 1..];
      TopDigitDecides(b, d[..t], f[..t], i);
    }

    lemma SignOrders(e: Engine, a: BigInteger)
      requires Valid(e.Base()) && a.Valid(e.Base())
      ensures s < 0 <==> Value(e.Base()) < 0
      ensures a.s < 0 <==> a.Value(e.Base()) < 0
    {
      hide Val, Pow;
      RangeBounds(e.Base(), digits, 0, t);
      RangeBounds(e.Base(), a.digits, 0, a.t);
      assert digits[0..t] == digits[..t] && a.digits[0..a.t] == a.digits[..a.t];
    }

    /** A longer number is farther from zero, or from minus one. */
    lemma LengthOrders(e: Engine, a: BigInteger)
      requires Clamped(e.Base()) && a.Clamped(e.Base()) && s == a.s && t != a.t
      ensures Value(e.Base()) > a.Value(e.Base()) <==> (t > a.t <==> s == 0)
      ensures Value(e.Base()) != a.Value(e.Base())
    {
      hide Val, Pow;
      if t > a.t {
        LongerIsLarger(e.Base(), digits[..t], a.digits[..a.t], s);
      } else {
        LongerIsLarger(e.Base(), a.digits[..a.t], digits[..t], s);
      }
    }

    /** For -b, with its digit 0, and -1, without digits, compareTo answers that the first is larger. */
    static method MisordersNegatives(e: Engine) returns (r: int, x: BigInteger, y: BigInteger)
      ensures fresh(x) && fresh(y) && x.Clamped(e.Base()) && y.Clamped(e.Base())
      ensures x.Value(e.Base()) == -(e.Base() as int) && y.Value(e.Base()) == -1 && r > 0
    {
      x := new BigInteger();
      y := new BigInteger();
      x.digits, x.t, x.s := [0], 1, -1;
      y.s := -1;
      assert x.digits[..1] == [0] && y.digits[..0] == [];
      assert Val(e.Base(), [0]) == 0 && Pow(e.Base(), 1) == e.Base() * Pow(e.Base(), 0);
      r := x.CompareTo(e, y);
    }

    method Negate(e: Engine) returns (r: BigInteger)
      requires Valid(e.Base())
      ensures fresh(r) && r.Clamped(e.Base()) && r.Value(e.Base()) == -Value(e.Base())
    {
      hide Val, Pow;
      var zero := new BigInteger();
      r := new BigInteger();
      ValEmpty(e.Base());
      zero.SubTo(e, this, r);
    }

    method Abs(e: Engine) returns (r: BigInteger)
      requires Valid(e.Base())
      ensures fresh(r) || r == this
      ensures s < 0 <==> Value(e.Base()) < 0
      ensures r.Valid(e.Base()) && r.s == 0
      ensures r.Value(e.Base()) == if Value(e.Base()) < 0 then -Value(e.Base()) else Value(e.Base())
    {
      hide Val, Pow;
      RangeBounds(e.Base(), digits, 0, t);
      assert digits[0..t] == digits[..t];
      if s < 0 {
        r := Negate(e);
        RangeBounds(e.Base(), r.digits, 0, r.t);
        assert r.digits[0..r.t] == r.digits[..r.t];
      } else {
        r := this;
      }
    }

    // ----- multiplication -----

    /** r = this * a, for all signs. */
    method MultiplyTo(e: Engine, a: BigInteger, r: BigInteger)
      requires Valid(e.Base()) && a.Valid(e.Base()) && r != this && r != a
      modifies r
      ensures r.Clamped(e.Base()) && r.Value(e.Base()) == Value(e.Base()) * a.Value(e.Base())
    {
      hide Val, Pow, Value;
      var x := Abs(e);
      var y := a.Abs(e);
      x.MultiplyDigits(e, y, r);
      AbsProduct(Value(e.Base()), a.Value(e.Base()));
      r.Sign(e, s != a.s);
    }

    /** Gives a product of digits its sign. */
    method Sign(e: Engine, negative: bool)
      requires DigitRange(e.Base(), digits, 0, t)
      modifies this
      ensures Clamped(e.Base())
      ensures Value(e.Base()) == if negative then -old(Val(e.Base(), digits[..t])) else old(Val(e.Base(), digits[..t]))
    {
      hide Val, Pow;
      s := 0;
      Clamp(e);
      if negative {
        var zero := new BigInteger();
        ValEmpty(e.Base());
        zero.SubTo(e, this, this);
      }
    }

    /** The digit loop of MultiplyTo, on absolute values. */
    method MultiplyDigits(e: Engine, y: BigInteger, r: BigInteger)
      requires Valid(e.Base()) && y.Valid(e.Base()) && s == 0 && y.s == 0 && r != this && r != y
      modifies r`digits, r`t
      ensures r.t == t + y.t && DigitRange(e.Base(), r.digits, 0, r.t)
      ensures Val(e.Base(), r.digits[..r.t]) == Value(e.Base()) * y.Value(e.Base())
    {
      hide Val, Pow;
      var b := e.Base();
      r.t := t + y.t;
      r.ZeroDigits(e, t);
      ValEmpty(b);
      assert y.digits[..0] == [];
      var i := 0;
      while i < y.t
        invariant r.t == t + y.t && 0 <= i <= y.t && DigitRange(b, r.digits, 0, i + t)
        invariant Val(b, r.digits[..i + t]) == Val(b, digits[..t]) * Val(b, y.digits[..i])
      {
        ghost var r0 := r.digits;
        var c := MulAdd(e, 0, y.digits[i], r, i, 0, t);
        MultiplyStep(b, r.digits, r0, digits, t, y.digits, i, c);
        r.digits := Put(r.digits, i + t, c);
        i := i + 1;
      }
    }

    method ZeroDigits(e: Engine, n: nat)
      modifies this`digits
      ensures |digits| >= n && (forall k :: 0 <= k < n ==> digits[k] == 0) && Val(e.Base(), digits[..n]) == 0
    {
      hide Val;
      var i := n - 1;
      while i >= 0
        invariant -1 <= i < n && (i + 1 < n ==> n <= |digits|)
        invariant forall k :: i < k < n ==> digits[k] == 0
      {
        digits := Put(digits, i, 0);
        i := i - 1;
      }
      ValZeros(e.Base(), digits[..n]);
    }

    /** r = this^2. */
    method SquareTo(e: Engine, r: BigInteger)
      requires Valid(e.Base()) && r != this
      modifies r
      ensures r.Clamped(e.Base()) && r.Value(e.Base()) == Value(e.Base()) * Value(e.Base())
    {
      hide Val, Pow;
      var x := Abs(e);
      AbsProduct(Value(e.Base()), Value(e.Base()));
      x.SquareDigits(e, r);
      r.s := 0;
      r.Clamp(e);
    }

    /** The digit loop of SquareTo: off-diagonal products are added once, doubled. */
    method SquareDigits(e: Engine, r: BigInteger)
      requires Valid(e.Base()) && s == 0 && r != this
      modifies r`digits, r`t
      ensures r.t == 2 * t && DigitRange(e.Base(), r.digits, 0, r.t)
      ensures Val(e.Base(), r.digits[..r.t]) == Value(e.Base()) * Value(e.Base())
    {
      hide Val, Pow, Squared, AmDone;
      var b := e.Base();
      r.t := 2 * t;
      r.ZeroDigits(e, 2 * t);
      SquareStart(b, r.digits, digits, t);
      var i := 0;
      while i < t - 1
        invariant r.t == 2 * t && 0 <= i && (i < t || t == 0) && Squared(b, r.digits, digits, t, i)
      {
        SquareRound(e, r, i);
        i := i + 1;
      }
      if r.t > 0 {
        SquaredFacts(b, r.digits, digits, t, i);
        ghost var w0 := r.digits;
        var c := MulAdd(e, i, digits[i], r, 2 * i, 0, 1);
        SquareLast(b, r.digits, w0, digits, t, c);
        r.digits := r.digits[r.t - 1 := r.digits[r.t - 1] + c];
      } else {
        ValEmpty(b);
        assert digits[..t] == [] && r.digits[..r.t] == [];
      }
    }

    /** Adds digit i times itself and, doubled, times every later digit. */
    method SquareRound(e: Engine, r: BigInteger, i: nat)
      requires r != this && i < t - 1 && Squared(e.Base(), r.digits, digits, t, i)
      modifies r`digits
      ensures Squared(e.Base(), r.digits, digits, t, i + 1)
    {
      hide Val, Pow, Squared, AmDone;
      var b := e.Base();
      SquaredFacts(b, r.digits, digits, t, i);
      ghost var w0 := r.digits;
      var c := MulAdd(e, i, digits[i], r, 2 * i, 0, 1);
      ghost var w1 := r.digits;
      AmFrame(b, w1, w0, digits, i, 2 * i, 1, digits[i], 0, c);
      var c2 := MulAdd(e, i + 1, 2 * digits[i], r, 2 * i + 1, c, t - i - 1);
      SquareStep(b, r.digits, w1, w0, digits, t, i, c, c2);
      r.digits := r.digits[i + t := r.digits[i + t] + c2];
      if r.digits[i + t] >= b {
        r.digits := r.digits[i + t := r.digits[i + t] - b];
        r.digits := r.digits[i + t + 1 := 1];
      }
    }
  }
}
