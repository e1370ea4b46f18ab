/**
 The UTF-8 codec of the emscripten runtime (demo/jsc.js, line 1: stringToUTF8Array, lengthBytesUTF8
 and UTF8ArrayToString), between strings of UTF-16 code units and NUL-terminated bytes in an array.
 */
module Utf8 {
  import opened Options

  type Unit = u: nat | u < 0x1_0000

  type Str = seq<Unit>

  // ----- code points -----

  predicate IsSurrogate(u: nat) { 0xD800 <= u <= 0xDFFF }

  /** charCodeAt, masked as the code masks it: beyond the end it counts as 0. */
  function UnitAt(s: Str, i: nat): nat { if i < |s| then s[i] else 0 }

  /** The code point that the code reads at i; any surrogate is taken for the first half of a pair. */
  function PointAt(s: Str, i: nat): (u: nat)
    requires i < |s|
    ensures u < 0x11_0000 && !IsSurrogate(u)
  {
    if IsSurrogate(s[i]) then 0x1_0000 + s[i] % 1024 * 1024 + UnitAt(s, i + 1) % 1024 else s[i]
  }

  /** Where the loop goes on. */
  function NextAt(s: Str, i: nat): nat
    requires i < |s|
  {
    if IsSurrogate(s[i]) then i + 2 else i + 1
  }

  predicate Scalars(cs: seq<nat>) { forall i :: 0 <= i < |cs| ==> cs[i] < 0x11_0000 && !IsSurrogate(cs[i]) }

  function PointsFrom(s: Str, i: nat): (cs: seq<nat>)
    ensures Scalars(cs)
    decreases |s| - i
  {
    if i >= |s| then [] else [PointAt(s, i)] + PointsFrom(s, NextAt(s, i))
  }

  function CodePoints(s: Str): (cs: seq<nat>)
    ensures Scalars(cs)
  {
    PointsFrom(s, 0)
  }

  // ----- bytes -----

  /** The encoding of section 3 of RFC 3629. */
  function Encoded(u: nat): (bs: seq<nat>)
    requires u < 0x11_0000
    ensures 1 <= |bs| <= 4 && forall i :: 0 <= i < |bs| ==> bs[i] < 256
    ensures u != 0 ==> forall i :: 0 <= i < |bs| ==> bs[i] != 0
  {
    if u <= 0x7F then [u]
    else if u <= 0x7FF then [192 + u / 64, 128 + u % 64]
    else if u <= 0xFFFF then [224 + u / 4096, 128 + u / 64 % 64, 128 + u % 64]
    else [240 + u / 262144, 128 + u / 4096 % 64, 128 + u / 64 % 64, 128 + u % 64]
  }

  predicate Tail(b: nat) { 0x80 <= b <= 0xBF }

  /** The octets of one character in the syntax of section 4 of RFC 3629. */
  predicate IsUtf8Char(bs: seq<nat>) {
    || (|bs| == 1 && bs[0] <= 0x7F)
    || (|bs| == 2 && 0xC2 <= bs[0] <= 0xDF && Tail(bs[1]))
    || (|bs| == 3 && bs[0] == 0xE0 && 0xA0 <= bs[1] <= 0xBF && Tail(bs[2]))
    || (|bs| == 3 && (0xE1 <= bs[0] <= 0xEC || 0xEE <= bs[0] <= 0xEF) && Tail(bs[1]) && Tail(bs[2]))
    || (|bs| == 3 && bs[0] == 0xED && 0x80 <= bs[1] <= 0x9F && Tail(bs[2]))
    || (|bs| == 4 && bs[0] == 0xF0 && 0x90 <= bs[1] <= 0xBF && Tail(bs[2]) && Tail(bs[3]))
    || (|bs| == 4 && 0xF1 <= bs[0] <= 0xF3 && Tail(bs[1]) && Tail(bs[2]) && Tail(bs[3]))
    || (|bs| == 4 && bs[0] == 0xF4 && 0x80 <= bs[1] <= 0x8F && Tail(bs[2]) && Tail(bs[3]))
  }

  /** The encoding follows that syntax, except that of a surrogate. */
  lemma EncodedIsChar(u: nat)
    requires u < 0x11_0000
    ensures IsUtf8Char(Encoded(u)) <==> !IsSurrogate(u)
  {
  }

  lemma SixBits(a: nat, b: nat)
    requires b < 64
    ensures (a * 64 + b) / 64 == a && (a * 64 + b) % 64 == b
  {
  }

  lemma ShortEncoded(a: nat, b: nat)
    ensures a == 0 && b <= 0x7F ==> Encoded(b) == [b]
    ensures 2 <= a < 32 && b < 64 ==> Encoded(a * 64 + b) == [192 + a, 128 + b]
  {
    if b < 64 {
      SixBits(a, b);
    }
  }

  lemma ThreeAreEncoded(a: nat, b: nat, c: nat)
    requires a < 16 && b < 64 && c < 64 && (a > 0 || b >= 32)
    ensures Encoded((a * 64 + b) * 64 + c) == [224 + a, 128 + b, 128 + c]
  {
    SixBits(a, b);
    SixBits(a * 64 + b, c);
    var u := (a * 64 + b) * 64 + c;
    assert u / 4096 == u / 64 / 64;
  }

  lemma FourAreEncoded(a: nat, b: nat, c: nat, d: nat)
    requires a < 5 && b < 64 && c < 64 && d < 64 && (a > 0 || b >= 16) && (a == 4 ==> b < 16)
    ensures
      var u := ((a * 64 + b) * 64 + c) * 64 + d;
      u < 0x11_0000 && Encoded(u) == [240 + a, 128 + b, 128 + c, 128 + d]
  {
    SixBits(a, b);
    SixBits(a * 64 + b, c);
    SixBits((a * 64 + b) * 64 + c, d);
    var u := ((a * 64 + b) * 64 + c) * 64 + d;
    assert u / 4096 == u / 64 / 64 && u / 262144 == u / 4096 / 64;
  }

  /** And everything in that syntax is the encoding of a code point. */
  lemma CharIsEncoded(bs: seq<nat>) returns (u: nat)
    requires IsUtf8Char(bs)
    ensures u < 0x11_0000 && !IsSurrogate(u) && Encoded(u) == bs
  {
    hide Encoded;
    if |bs| == 1 {
      u := bs[0];
      ShortEncoded(0, u);
    } else if |bs| == 2 {
      u := (bs[0] - 192) * 64 + (bs[1] - 128);
      ShortEncoded(bs[0] - 192, bs[1] - 128);
    } else if |bs| == 3 {
      u := ((bs[0] - 224) * 64 + (bs[1] - 128)) * 64 + (bs[2] - 128);
      ThreeAreEncoded(bs[0] - 224, bs[1] - 128, bs[2] - 128);
    } else {
      u := (((bs[0] - 240) * 64 + (bs[1] - 128)) * 64 + (bs[2] - 128)) * 64 + (bs[3] - 128);
      FourAreEncoded(bs[0] - 240, bs[1] - 128, bs[2] - 128, bs[3] - 128);
    }
  }

  function EncodedAll(cs: seq<nat>): (bs: seq<nat>)
    requires Scalars(cs)
    ensures |bs| >= |cs|
  {
    if cs == [] then [] else EncodedAll(cs[..|cs| - 1]) + Encoded(cs[|cs| - 1])
  }

  lemma {:induction false} EncodedPrefix(cs: seq<nat>, k: nat)
    requires Scalars(cs) && k <= |cs|
    ensures EncodedAll(cs[..k]) <= EncodedAll(cs)
  {
    hide Encoded;
    if k < |cs| {
      EncodedPrefix(cs[..|cs| - 1], k);
      assert cs[..|cs| - 1][..k] == cs[..k];
    } else {
      assert cs[..k] == cs;
    }
  }

  lemma EncodedStep(cs: seq<nat>, k: nat)
    requires Scalars(cs) && k < |cs|
    ensures EncodedAll(cs[..k + 1]) == EncodedAll(cs[..k]) + Encoded(cs[k])
  {
    hide Encoded;
    assert cs[..k + 1][..k] == cs[..k];
  }

  /** The shifts, masks and unions of the code are the quotients, remainders and sums used here. */
  lemma BitsAreSums(u: bv32, v: bv32)
    ensures u >> 6 == u / 64 && u >> 12 == u / 4096 && u >> 18 == u / 262144 && u & 63 == u % 64 && u & 1023 == u % 1024
    ensures u <= 0x7FF ==> 192 | (u >> 6) == 192 + (u >> 6)
    ensures u <= 0xFFFF ==> 224 | (u >> 12) == 224 + (u >> 12)
    ensures u < 0x11_0000 ==> 240 | (u >> 18) == 240 + (u >> 18)
    ensures 128 | (u & 63) == 128 + (u & 63)
    ensures (65536 + ((u & 1023) << 10)) | (v & 1023) == 65536 + (u & 1023) * 1024 + (v & 1023)
  {
  }

  /** The same for the code that reads: the tests of a first byte, the unions of its parts, and surrogates. */
  lemma ReadBitsAreSums(u0: bv32, u1: bv32, u2: bv32, u3: bv32, ch: bv32)
    ensures u0 < 256 ==> (u0 & 128 == 0 <==> u0 / 128 % 2 == 0)
    ensures u0 < 256 ==> (u0 & 224 == 192 <==> u0 / 32 % 8 == 6) && (u0 & 240 == 224 <==> u0 / 16 % 16 == 14)
    ensures u0 & 31 == u0 % 32 && u0 & 15 == u0 % 16 && u0 & 7 == u0 % 8
    ensures u1 < 64 ==> ((u0 & 31) << 6) | u1 == (u0 & 31) * 64 + u1
    ensures u1 < 64 && u2 < 64 ==> ((u0 & 15) << 12) | (u1 << 6) | u2 == (u0 & 15) * 4096 + u1 * 64 + u2
    ensures u1 < 64 && u2 < 64 && u3 < 64 ==>
              ((u0 & 7) << 18) | (u1 << 12) | (u2 << 6) | u3 == (u0 & 7) * 262144 + u1 * 4096 + u2 * 64 + u3
    ensures ch < 0x20_0000 ==> 55296 | (ch >> 10) == 55296 + ch / 1024
    ensures 56320 | (ch & 1023) == 56320 + ch % 1024
  {
  }

  // ----- writing -----

  /** bs is the encoding of the longest prefix of cs that fits in room bytes. */
  ghost predicate LongestFit(cs: seq<nat>, bs: seq<nat>, room: nat)
    requires Scalars(cs)
  {
    exists k :: 0 <= k <= |cs| && Fit(cs, bs, room, k)
  }

  ghost predicate Fit(cs: seq<nat>, bs: seq<nat>, room: nat, k: nat)
    requires Scalars(cs) && k <= |cs|
  {
    && bs == EncodedAll(cs[..k]) && |bs| <= room
    && (k < |cs| ==> |bs| + |Encoded(cs[k])| > room)
  }

  /** Nothing longer fits either. */
  lemma LongestIsLongest(cs: seq<nat>, bs: seq<nat>, room: nat, k: nat, j: nat)
    requires Scalars(cs) && k <= |cs| && Fit(cs, bs, room, k) && k < j <= |cs|
    ensures |EncodedAll(cs[..j])| > room
  {
    hide Encoded;
    EncodedStep(cs, k);
    EncodedPrefix(cs[..j], k + 1);
    assert cs[..j][..k + 1] == cs[..k + 1];
  }

  /** Puts the bytes of one code point before endIdx, if they fit. */
  method PutPoint(u: nat, out: array<nat>, at: nat, endIdx: nat) returns (fits: bool, next: nat)
    requires u < 0x11_0000 && at <= endIdx <= out.Length
    modifies out
    ensures fits <==> at + |Encoded(u)| <= endIdx
    ensures fits ==> next == at + |Encoded(u)|
    ensures fits ==> out[..next] == old(out[..at]) + Encoded(u) && out[next..] == old(out[next..])
    ensures !fits ==> next == at && out[..] == old(out[..])
  {
    fits, next := false, at;
    if u <= 127 {
      if at >= endIdx { return; }
      out[at] := u;
      next := at + 1;
    } else if u <= 2047 {
      if at + 1 >= endIdx { return; }
      out[at], out[at + 1] := 192 + u / 64, 128 + u % 64;
      next := at + 2;
    } else if u <= 65535 {
      if at + 2 >= endIdx { return; }
      out[at], out[at + 1], out[at + 2] := 224 + u / 4096, 128 + u / 64 % 64, 128 + u % 64;
      next := at + 3;
    } else {
      if at + 3 >= endIdx { return; }
      out[at], out[at + 1], out[at + 2], out[at + 3] := 240 + u / 262144, 128 + u / 4096 % 64, 128 + u / 64 % 64,
          128 + u % 64;
      next := at + 4;
    }
    fits := true;
  }

  /** The loop over the string: writes code points before endIdx as long as they fit. */
  method PutPoints(str: Str, out: array<nat>, outIdx: nat, endIdx: nat) returns (at: nat, ghost k: nat)
    requires outIdx <= endIdx <= out.Length
    modifies out
    ensures k <= |CodePoints(str)| && outIdx <= at <= endIdx
    ensures out[..at] == old(out[..outIdx]) + EncodedAll(CodePoints(str)[..k]) && out[at..] == old(out[at..])
    ensures Fit(CodePoints(str), EncodedAll(CodePoints(str)[..k]), endIdx - outIdx, k)
  {
    hide PointAt, Encoded, EncodedAll, PointsFrom;
    ghost var cs, before := CodePoints(str), out[..outIdx];
    at, k := outIdx, 0;
    var i := 0;
    assert cs[0..] == cs && cs[..0] == [];
    NothingEncoded();
    while i < |str|
      invariant 0 <= i <= |str| + 1 && k <= |cs| && outIdx <= at <= endIdx
      invariant cs[k..] == PointsFrom(str, i)
      invariant out[..at] == before + EncodedAll(cs[..k]) && out[at..] == old(out[at..])
      decreases |str| + 1 - i
    {
      PointsStep(str, i);
      assert cs[k] == PointAt(str, i) && cs[k..][1..] == cs[k + 1..];
      EncodedStep(cs, k);
      var u := ReadPoint(str, i);
      var fits, next := PutPoint(u, out, at, endIdx);
      if !fits {
        return;
      }
      assert out[..next] == before + EncodedAll(cs[..k + 1]);
      TailSame(old(out[..]), out[..], at, next);
      i := if 0xD800 <= str[i] <= 0xDFFF then i + 2 else i + 1;
      at, k := next, k + 1;
    }
    PointsEnd(str, i);
  }

  lemma PointsStep(s: Str, i: nat)
    requires i < |s|
    ensures PointsFrom(s, i) == [PointAt(s, i)] + PointsFrom(s, NextAt(s, i))
  {
  }

  lemma PointsEnd(s: Str, i: nat)
    requires i >= |s|
    ensures PointsFrom(s, i) == []
  {
  }

  /** Writes at most max bytes from outIdx on, a final NUL among them, and nothing else. */
  method StringToUTF8Array(str: Str, out: array<nat>, outIdx: nat, max: int) returns (written: nat)
    requires outIdx + max <= out.Length
    modifies out
    ensures max <= 0 ==> written == 0 && out[..] == old(out[..])
    ensures max > 0 ==>
      && written < max && out[outIdx + written] == 0
      && LongestFit(CodePoints(str), out[outIdx..outIdx + written], max - 1)
      && out[..outIdx] == old(out[..outIdx]) && out[outIdx + written + 1..] == old(out[outIdx + written + 1..])
  {
    hide CodePoints, EncodedAll, Fit;
    if !(max > 0) {
      return 0;
    }
    ghost var before := out[..outIdx];
    var at, k := PutPoints(str, out, outIdx, outIdx + max - 1);
    ghost var bs := EncodedAll(CodePoints(str)[..k]);
    out[at] := 0;
    written := at - outIdx;
    assert out[..at] == before + bs;
    Split(out[..], before, bs);
    TailSame(old(out[..]), out[..], at, at + 1);
  }

  lemma TailSame(s: seq<nat>, t: seq<nat>, at: nat, next: nat)
    requires |s| == |t| && at <= next <= |s|
    ensures s[at..][next - at..] == s[next..] && t[next..] == t[at..][next - at..]
  {
  }

  lemma Split(s: seq<nat>, a: seq<nat>, b: seq<nat>)
    requires |a| + |b| <= |s| && s[..|a| + |b|] == a + b
    ensures s[..|a|] == a && s[|a|..|a| + |b|] == b
  {
    assert s[..|a|] == s[..|a| + |b|][..|a|];
    assert s[|a|..|a| + |b|] == s[..|a| + |b|][|a|..];
  }

  lemma NothingEncoded()
    ensures EncodedAll([]) == []
  {
  }

  method ReadPoint(str: Str, i: nat) returns (u: nat)
    requires i < |str|
    ensures u == PointAt(str, i)
  {
    u := str[i];
    if u >= 55296 && u <= 57343 {
      var u1 := if i + 1 < |str| then str[i + 1] else 0;
      u := 65536 + u % 1024 * 1024 + u1 % 1024;
    }
  }

  /** The number of bytes the whole string takes. */
  method LengthBytesUTF8(str: Str) returns (len: nat)
    ensures len == |EncodedAll(CodePoints(str))|
  {
    hide PointAt, EncodedAll, PointsFrom;
    ghost var cs := CodePoints(str);
    len := 0;
    var i := 0;
    ghost var k := 0;
    assert cs[0..] == cs && cs[..0] == [];
    NothingEncoded();
    while i < |str|
      invariant 0 <= i <= |str| + 1 && k <= |cs|
      invariant cs[k..] == PointsFrom(str, i)
      invariant len == |EncodedAll(cs[..k])|
      decreases |str| + 1 - i
    {
      PointsStep(str, i);
      assert cs[k] == PointAt(str, i) && cs[k..][1..] == cs[k + 1..];
      EncodedStep(cs, k);
      var u := ReadPoint(str, i);
      if u <= 127 {
        len := len + 1;
      } else if u <= 2047 {
        len := len + 2;
      } else if u <= 65535 {
        len := len + 3;
      } else {
        len := len + 4;
      }
      i := if 0xD800 <= str[i] <= 0xDFFF then i + 2 else i + 1;
      k := k + 1;
    }
    PointsEnd(str, i);
    assert cs[..k] == cs;
  }

  // ----- reading -----

  /** A byte of the array; beyond its end reading gives undefined, which counts as 0. */
  function ByteAt(a: seq<nat>, i: nat): nat { if i < |a| then a[i] else 0 }

  /** Where reading ends: at a NUL, or at the limit if there is one. */
  function EndOf(a: seq<nat>, i: nat, limit: Option<nat>): (n: nat)
    ensures n >= i
    decreases |a| - i
  {
    if ByteAt(a, i) == 0 || (limit.Some? && i >= limit.value) then i else EndOf(a, i + 1, limit)
  }

  /** The number of bytes that the code reads after such a first byte. */
  function LeadSize(u0: nat): nat {
    if u0 / 128 % 2 == 0 then 1 else if u0 / 32 % 8 == 6 then 2 else if u0 / 16 % 16 == 14 then 3 else 4
  }

  /** What the code makes of up to four bytes. */
  function Join(u0: nat, b1: nat, b2: nat, b3: nat): nat {
    var n := LeadSize(u0);
    if n == 1 then u0
    else if n == 2 then u0 % 32 * 64 + b1 % 64
    else if n == 3 then u0 % 16 * 4096 + b1 % 64 * 64 + b2 % 64
    else u0 % 8 * 262144 + b1 % 64 * 4096 + b2 % 64 * 64 + b3 % 64
  }

  function SizeAt(a: seq<nat>, i: nat): nat { LeadSize(ByteAt(a, i)) }

  function ReadAt(a: seq<nat>, i: nat): nat { Join(ByteAt(a, i), ByteAt(a, i + 1), ByteAt(a, i + 2), ByteAt(a, i + 3)) }

  /** fromCharCode of a code point: beyond 16 bits a surrogate pair. */
  function UnitsOf(u: nat): Str {
    if u < 0x1_0000 then [u]
    else
      var ch := u - 0x1_0000;
      [(0xD800 + ch / 1024) % 0x1_0000, 0xDC00 + ch % 1024]
  }

  function Decoded(a: seq<nat>, i: nat, end: nat): Str
    decreases end - i
  {
    if i >= end then [] else UnitsOf(ReadAt(a, i)) + Decoded(a, i + SizeAt(a, i), end)
  }

  method UTF8ArrayToString(u8Array: array<nat>, idx: nat, max: Option<nat>) returns (str: Str)
    requires forall i :: 0 <= i < u8Array.Length ==> u8Array[i] < 256
    ensures
      var limit := if max.Some? then Some(idx + max.value) else None;
      str == Decoded(u8Array[..], idx, EndOf(u8Array[..], idx, limit))
  {
    hide Decoded, ReadAt, SizeAt, UnitsOf;
    var limit := if max.Some? then Some(idx + max.value) else None;
    ghost var a := u8Array[..];
    var endPtr := idx;
    while endPtr < u8Array.Length && u8Array[endPtr] != 0 && !(limit.Some? && endPtr >= limit.value)
      invariant idx <= endPtr && EndOf(a, idx, limit) == EndOf(a, endPtr, limit)
      decreases u8Array.Length - endPtr
    {
      endPtr := endPtr + 1;
    }
    str := [];
    var i := idx;
    while i < endPtr
      invariant str + Decoded(a, i, endPtr) == Decoded(a, idx, endPtr)
      decreases endPtr - i
    {
      DecodedStep(a, i, endPtr);
      var u, size := ReadBytes(u8Array, i);
      str := str + UnitsOf(u);
      i := i + size;
    }
    DecodedNothing(a, i, endPtr);
  }

  lemma DecodedStep(a: seq<nat>, i: nat, end: nat)
    requires i < end
    ensures Decoded(a, i, end) == UnitsOf(ReadAt(a, i)) + Decoded(a, i + SizeAt(a, i), end) && SizeAt(a, i) >= 1
  {
  }

  lemma DecodedNothing(a: seq<nat>, i: nat, end: nat)
    requires i >= end
    ensures Decoded(a, i, end) == []
  {
  }

  /** The bytes of one code point, read as the loop reads them. */
  method ReadBytes(u8Array: array<nat>, i: nat) returns (u: nat, size: nat)
    ensures u == ReadAt(u8Array[..], i) && size == SizeAt(u8Array[..], i)
  {
    ghost var a := u8Array[..];
    var u0 := ByteOf(u8Array, i);
    if u0 / 128 % 2 == 0 {
      return u0, 1;
    }
    var u1 := ByteOf(u8Array, i + 1);
    u1 := u1 % 64;
    if u0 / 32 % 8 == 6 {
      return u0 % 32 * 64 + u1, 2;
    }
    var u2 := ByteOf(u8Array, i + 2);
    u2 := u2 % 64;
    if u0 / 16 % 16 == 14 {
      return u0 % 16 * 4096 + u1 * 64 + u2, 3;
    }
    var u3 := ByteOf(u8Array, i + 3);
    u3 := u3 % 64;
    return u0 % 8 * 262144 + u1 * 4096 + u2 * 64 + u3, 4;
  }

  method ByteOf(u8Array: array<nat>, i: nat) returns (b: nat)
    ensures b == ByteAt(u8Array[..], i)
  {
    b := if i < u8Array.Length then u8Array[i] else 0;
  }

  // ----- there and back -----

  /** The bytes of u stand in a at i. */
  ghost predicate StandsAt(a: seq<nat>, i: nat, bs: seq<nat>) { i + |bs| <= |a| && a[i..i + |bs|] == bs }

  lemma JoinTwo(u: nat, b2: nat, b3: nat)
    requires 0x7F < u <= 0x7FF
    ensures LeadSize(192 + u / 64) == 2 && Join(192 + u / 64, 128 + u % 64, b2, b3) == u
  {
    var q := u / 64;
    assert (192 + q) / 128 == 1 && (192 + q) / 32 == 6;
    assert (192 + q) % 32 == q;
  }

  lemma JoinThree(u: nat, b3: nat)
    requires 0x7FF < u <= 0xFFFF
    ensures LeadSize(224 + u / 4096) == 3 && Join(224 + u / 4096, 128 + u / 64 % 64, 128 + u % 64, b3) == u
  {
    var q, r := u / 4096, u / 64;
    assert r / 64 == q;
    assert (224 + q) / 128 == 1 && (224 + q) / 32 == 7 && (224 + q) / 16 == 14;
    assert (224 + q) % 16 == q;
    assert (128 + r % 64) % 64 == r % 64;
  }

  lemma JoinFour(u: nat)
    requires 0xFFFF < u < 0x11_0000
    ensures LeadSize(240 + u / 262144) == 4
    ensures Join(240 + u / 262144, 128 + u / 4096 % 64, 128 + u / 64 % 64, 128 + u % 64) == u
  {
    var q, r, s := u / 262144, u / 4096, u / 64;
    assert r / 64 == q && s / 64 == r;
    assert (240 + q) / 128 == 1 && (240 + q) / 32 == 7 && (240 + q) / 16 == 15;
    assert (240 + q) % 8 == q;
    assert (128 + r % 64) % 64 == r % 64 && (128 + s % 64) % 64 == s % 64;
  }

  /** One code point is read as it was written. */
  lemma ReadEncoded(a: seq<nat>, i: nat, u: nat)
    requires u < 0x11_0000 && StandsAt(a, i, Encoded(u))
    ensures SizeAt(a, i) == |Encoded(u)| && ReadAt(a, i) == u
  {
    hide Join, LeadSize;
    var bs := Encoded(u);
    assert forall k :: 0 <= k < |bs| ==> a[i + k] == bs[k];
    if u <= 0x7F {
      JoinOne(u, ByteAt(a, i + 1), ByteAt(a, i + 2), ByteAt(a, i + 3));
    } else if u <= 0x7FF {
      assert a[i + 1] == bs[1];
      JoinTwo(u, ByteAt(a, i + 2), ByteAt(a, i + 3));
    } else if u <= 0xFFFF {
      assert a[i + 1] == bs[1] && a[i + 2] == bs[2];
      JoinThree(u, ByteAt(a, i + 3));
    } else {
      assert a[i + 1] == bs[1] && a[i + 2] == bs[2] && a[i + 3] == bs[3];
      JoinFour(u);
    }
  }

  lemma JoinOne(u: nat, b1: nat, b2: nat, b3: nat)
    requires u <= 0x7F
    ensures LeadSize(u) == 1 && Join(u, b1, b2, b3) == u
  {
  }

  lemma {:induction false} EncodedHead(cs: seq<nat>)
    requires Scalars(cs) && cs != []
    ensures EncodedAll(cs) == Encoded(cs[0]) + EncodedAll(cs[1..])
  {
    hide Encoded;
    if |cs| > 1 {
      EncodedHead(cs[..|cs| - 1]);
      assert cs[..|cs| - 1][1..] == cs[1..][..|cs| - 2];
    }
  }

  function UnitsAll(cs: seq<nat>): Str {
    if cs == [] then [] else UnitsOf(cs[0]) + UnitsAll(cs[1..])
  }

  function BeforeNul(cs: seq<nat>): (r: seq<nat>)
    ensures r <= cs && 0 !in r && (|r| < |cs| ==> cs[|r|] == 0)
  {
    if cs == [] || cs[0] == 0 then [] else [cs[0]] + BeforeNul(cs[1..])
  }

  /** Whatever code points were written, those before the first NUL are read. */
  lemma {:induction false} DecodeEncoded(a: seq<nat>, i: nat, cs: seq<nat>, limit: Option<nat>)
    requires Scalars(cs) && StandsAt(a, i, EncodedAll(cs) + [0])
    requires limit.None? || limit.value >= i + |EncodedAll(cs)|
    ensures Decoded(a, i, EndOf(a, i, limit)) == UnitsAll(BeforeNul(cs))
    decreases |cs|
  {
    hide Encoded, ReadAt, SizeAt, UnitsOf, Decoded, EndOf, EncodedAll, UnitsAll, BeforeNul, StandsAt;
    BeforeNulStep(cs);
    if cs == [] {
      NothingEncoded();
      assert EncodedAll(cs) + [0] == [0];
      EndsHere(a, i, [0], limit);
    } else {
      EncodedHead(cs);
      var bs, more := Encoded(cs[0]), EncodedAll(cs[1..]) + [0];
      assert EncodedAll(cs) + [0] == bs + more;
      if cs[0] == 0 {
        EncodedNul();
        EndsHere(a, i, bs + more, limit);
      } else {
        StandsApart(a, i, bs, more);
        EndSkips(a, i, bs, limit);
        ReadEncoded(a, i, cs[0]);
        DecodedStep(a, i, EndOf(a, i, limit));
        DecodeEncoded(a, i + |bs|, cs[1..], limit);
      }
    }
  }

  lemma BeforeNulStep(cs: seq<nat>)
    ensures cs == [] || cs[0] == 0 ==> UnitsAll(BeforeNul(cs)) == []
    ensures cs != [] && cs[0] != 0 ==> UnitsAll(BeforeNul(cs)) == UnitsOf(cs[0]) + UnitsAll(BeforeNul(cs[1..]))
  {
    hide UnitsOf;
    if cs != [] && cs[0] != 0 {
      assert BeforeNul(cs)[1..] == BeforeNul(cs[1..]);
    }
  }

  /** Reading ends at a NUL. */
  lemma EndsHere(a: seq<nat>, i: nat, bs: seq<nat>, limit: Option<nat>)
    requires StandsAt(a, i, bs) && bs != [] && bs[0] == 0
    ensures EndOf(a, i, limit) == i && Decoded(a, i, EndOf(a, i, limit)) == []
  {
    assert a[i] == a[i..i + |bs|][0];
  }

  lemma EncodedNul()
    ensures Encoded(0) == [0]
  {
  }

  lemma StandsApart(a: seq<nat>, i: nat, bs: seq<nat>, more: seq<nat>)
    requires StandsAt(a, i, bs + more)
    ensures StandsAt(a, i, bs) && StandsAt(a, i + |bs|, more)
  {
    var whole := a[i..i + |bs + more|];
    assert a[i..i + |bs|] == whole[..|bs|];
    assert a[i + |bs|..i + |bs| + |more|] == whole[|bs|..];
  }

  lemma EndSkips(a: seq<nat>, i: nat, bs: seq<nat>, limit: Option<nat>)
    requires StandsAt(a, i, bs) && bs != [] && (limit.None? || limit.value >= i + |bs|)
    requires forall k :: 0 <= k < |bs| ==> bs[k] != 0
    ensures EndOf(a, i, limit) == EndOf(a, i + |bs|, limit) > i
  {
    forall k | i <= k < i + |bs| ensures a[k] != 0 {
      assert a[k] == a[i..i + |bs|][k - i];
    }
    EndPasses(a, i, |bs|, limit);
  }

  lemma {:induction false} EndPasses(a: seq<nat>, i: nat, n: nat, limit: Option<nat>)
    requires i + n <= |a| && (limit.None? || limit.value >= i + n) && forall k :: i <= k < i + n ==> a[k] != 0
    ensures EndOf(a, i, limit) == EndOf(a, i + n, limit)
    decreases n
  {
    if n > 0 {
      EndPasses(a, i + 1, n - 1, limit);
    }
  }

  predicate IsHigh(u: nat) { 0xD800 <= u <= 0xDBFF }

  predicate IsLow(u: nat) { 0xDC00 <= u <= 0xDFFF }

  /** Surrogates come in pairs only. */
  predicate WellFormed(s: Str) { forall i :: 0 <= i < |s| ==> PairedAt(s, i) }

  predicate PairedAt(s: Str, i: nat)
    requires i < |s|
  {
    && (IsHigh(s[i]) ==> i + 1 < |s| && IsLow(s[i + 1]))
    && (IsLow(s[i]) ==> i > 0 && IsHigh(s[i - 1]))
  }

  lemma WellFormedConcat(s: Str, t: Str)
    requires WellFormed(s) && WellFormed(t)
    ensures WellFormed(s + t)
  {
    forall i | 0 <= i < |s + t| ensures PairedAt(s + t, i) {
      if i < |s| {
        assert PairedAt(s, i);
      } else {
        assert PairedAt(t, i - |s|);
      }
    }
  }

  lemma UnitsWellFormed(u: nat)
    requires u < 0x11_0000 && !IsSurrogate(u)
    ensures WellFormed(UnitsOf(u)) && (u != 0 ==> 0 !in UnitsOf(u))
  {
    var r := UnitsOf(u);
    if u >= 0x1_0000 {
      assert PairedAt(r, 0) && PairedAt(r, 1);
    }
  }

  lemma {:induction false} AllWellFormed(cs: seq<nat>)
    requires Scalars(cs)
    ensures WellFormed(UnitsAll(cs)) && (0 !in cs ==> 0 !in UnitsAll(cs))
  {
    hide UnitsOf, WellFormed;
    if cs == [] {
      EmptyWellFormed();
    } else {
      UnitsWellFormed(cs[0]);
      AllWellFormed(cs[1..]);
      WellFormedConcat(UnitsOf(cs[0]), UnitsAll(cs[1..]));
    }
  }

  lemma EmptyWellFormed()
    ensures WellFormed([])
  {
  }

  /** A pair of surrogates is read as the code point whose pair it is. */
  lemma PairIsPair(h: Unit, l: Unit)
    requires IsHigh(h) && IsLow(l)
    ensures UnitsOf(0x1_0000 + h % 1024 * 1024 + l % 1024) == [h, l]
  {
    var ch := h % 1024 * 1024 + l % 1024;
    assert ch / 1024 == h % 1024 && ch % 1024 == l % 1024;
    assert h == 54 * 1024 + h % 1024 && l == 55 * 1024 + l % 1024;
  }

  lemma {:induction false} PointsOfWellFormed(s: Str, i: nat)
    requires WellFormed(s) && i <= |s| && (i > 0 ==> !IsHigh(s[i - 1]))
    ensures UnitsAll(PointsFrom(s, i)) == s[i..] && (0 !in s[i..] ==> 0 !in PointsFrom(s, i))
    decreases |s| - i
  {
    hide UnitsOf, PointAt, NextAt, PairedAt, WellFormed;
    if i < |s| {
      var n := NextAt(s, i);
      PointUnits(s, i);
      PointsOfWellFormed(s, n);
      assert s[i..] == s[i..n] + s[n..];
      assert PointsFrom(s, i)[1..] == PointsFrom(s, n);
      assert 0 !in s[i..] ==> s[i..][0] != 0;
    }
  }

  /** The code point at i is written as the units it was read from. */
  lemma PointUnits(s: Str, i: nat)
    requires WellFormed(s) && i < |s| && (i > 0 ==> !IsHigh(s[i - 1]))
    ensures
      var n := NextAt(s, i);
      && i < n <= |s| && !IsHigh(s[n - 1]) && UnitsOf(PointAt(s, i)) == s[i..n]
      && (PointAt(s, i) == 0 ==> s[i] == 0)
  {
    hide UnitsOf;
    assert PairedAt(s, i);
    if IsHigh(s[i]) {
      PairIsPair(s[i], s[i + 1]);
      assert s[i..i + 2] == [s[i], s[i + 1]];
    } else {
      PlainUnit(s[i]);
      assert s[i..i + 1] == [s[i]];
    }
  }

  lemma PlainUnit(u: Unit)
    ensures UnitsOf(u) == [u]
  {
  }

  /** A string comes back exactly when its surrogates are paired and it has no NUL. */
  lemma RoundTrip(str: Str, a: seq<nat>, i: nat, limit: Option<nat>)
    requires StandsAt(a, i, EncodedAll(CodePoints(str)) + [0])
    requires limit.None? || limit.value >= i + |EncodedAll(CodePoints(str))|
    ensures Decoded(a, i, EndOf(a, i, limit)) == str <==> WellFormed(str) && 0 !in str
  {
    hide WellFormed, EncodedAll, Decoded, EndOf;
    var cs := CodePoints(str);
    DecodeEncoded(a, i, cs, limit);
    AllWellFormed(BeforeNul(cs));
    if WellFormed(str) && 0 !in str {
      assert str[0..] == str;
      PointsOfWellFormed(str, 0);
      assert BeforeNul(cs) == cs;
    }
  }

  /** allocateUTF8: room for the whole string, which is then written whole. */
  method AllocateUTF8(str: Str) returns (ret: array<nat>)
    ensures fresh(ret) && ret[..] == EncodedAll(CodePoints(str)) + [0]
  {
    hide Encoded, EncodedAll;
    var len := LengthBytesUTF8(str);
    ret := new nat[len + 1](_ => 0);
    var n := StringToUTF8Array(str, ret, 0, len + 1);
    ghost var cs := CodePoints(str);
    assert ret[0..0 + n] == ret[..n];
    ghost var k :| 0 <= k <= |cs| && Fit(cs, ret[..n], len, k);
    if k < |cs| {
      EncodedStep(cs, k);
      EncodedPrefix(cs, k + 1);
    }
    assert cs[..|cs|] == cs;
  }

  /** Writing a string and reading it back. */
  method ThereAndBack(str: Str) returns (back: Str)
    ensures back == str <==> WellFormed(str) && 0 !in str
  {
    hide Encoded, EncodedAll, Decoded, WellFormed, EndOf;
    var a := AllocateUTF8(str);
    EncodedBytes(CodePoints(str));
    back := UTF8ArrayToString(a, 0, None);
    assert a[..][0..|a[..]|] == a[..];
    RoundTrip(str, a[..], 0, None);
  }

  lemma {:induction false} EncodedBytes(cs: seq<nat>)
    requires Scalars(cs)
    ensures forall i :: 0 <= i < |EncodedAll(cs)| ==> EncodedAll(cs)[i] < 256
  {
    if cs != [] {
      EncodedBytes(cs[..|cs| - 1]);
    }
  }
}
