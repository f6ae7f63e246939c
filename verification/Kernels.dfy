/** The integer dot kernels (`dot_i8i8`, `dot_i4i8`).

    Vector instructions are functions on lanes, with their wrapping and saturation written out. `IntDot` is the scalar
    sum; the kernels compute it for every length up to 16384, activations from `qrow_i8` lying within 127. */
module Kernels {
  import opened Quant

  const LIMIT := 16384

  /** sum of code * activation over the first n columns */
  ghost function IntDot(c: Codes, x: seq<int>, n: nat): int
    requires !c.F32? && Fits(c, |x|) && n <= |x|
  {
    if n == 0 then 0 else IntDot(c, x, n - 1) + Code(c, n - 1) * x[n - 1]
  }

  function Mul(a: int, b: int): int {
    a * b
  }

  ghost predicate Within(x: seq<int>, m: int) {
    forall i :: 0 <= i < |x| ==> -m <= x[i] <= m
  }

  // ---------- sums of lanes ----------

  function SumOf(s: seq<int>): int {
    if s == [] then 0 else SumOf(s[..|s| - 1]) + s[|s| - 1]
  }

  function Pairs(s: seq<int>): (r: seq<int>)
    ensures |r| == |s| / 2
  {
    seq(|s| / 2, k requires 0 <= k < |s| / 2 => s[2 * k] + s[2 * k + 1])
  }

  lemma {:induction false} PairsSum(s: seq<int>)
    requires |s| % 2 == 0
    ensures SumOf(Pairs(s)) == SumOf(s)
  {
    if s != [] {
      var n := |s|;
      PairsSum(s[..n - 2]);
      assert Pairs(s)[..n / 2 - 1] == Pairs(s[..n - 2]);
      assert s[..n - 1][..n - 2] == s[..n - 2];
    }
  }

  lemma {:induction false} AppendSum(a: seq<int>, b: seq<int>)
    ensures SumOf(a + b) == SumOf(a) + SumOf(b)
  {
    if b == [] {
      assert a + b == a;
    } else {
      AppendSum(a, b[..|b| - 1]);
      assert (a + b)[..|a + b| - 1] == a + b[..|b| - 1];
    }
  }

  lemma {:induction false} LanesSum(a: seq<int>, b: seq<int>, c: seq<int>)
    requires |a| == |b| == |c| && forall k :: 0 <= k < |a| ==> c[k] == a[k] + b[k]
    ensures SumOf(c) == SumOf(a) + SumOf(b)
  {
    if a != [] {
      var n := |a| - 1;
      LanesSum(a[..n], b[..n], c[..n]);
    }
  }

  ghost function Products(c: Codes, x: seq<int>, i: nat, n: nat): (r: seq<int>)
    requires !c.F32? && Fits(c, |x|) && i + n <= |x|
    ensures |r| == n
  {
    seq(n, k requires 0 <= k < n => Mul(Code(c, i + k), x[i + k]))
  }

  lemma DotStep(c: Codes, x: seq<int>, n: nat)
    requires !c.F32? && Fits(c, |x|) && n < |x|
    ensures IntDot(c, x, n + 1) == IntDot(c, x, n) + Mul(Code(c, n), x[n])
  {
    hide Code;
  }

  lemma {:induction false} Segment(c: Codes, x: seq<int>, i: nat, n: nat)
    requires !c.F32? && Fits(c, |x|) && i + n <= |x|
    ensures IntDot(c, x, i + n) == IntDot(c, x, i) + SumOf(Products(c, x, i, n))
  {
    hide Code, Mul, IntDot;
    if n > 0 {
      Segment(c, x, i, n - 1);
      DotStep(c, x, i + n - 1);
      assert Products(c, x, i, n)[..n - 1] == Products(c, x, i, n - 1);
    }
  }

  // ---------- the instructions ----------

  function Wrap8(v: int): Int8 { (v + 128) % 256 - 128 }
  function U8(v: int): Byte { v % 256 }

  /** the nearest 16-bit value */
  function Sat16(v: int): int {
    if v > 32767 then 32767 else if v < -32768 then -32768 else v
  }

  function Wrap32(v: int): int { (v + 0x8000_0000) % 0x1_0000_0000 - 0x8000_0000 }

  /** narrowing keeps the low bits */
  lemma Narrowings(v: int)
    ensures (Wrap8(v) - v) % 256 == 0 && (U8(v) - v) % 256 == 0
    ensures -0x8000_0000 <= Wrap32(v) < 0x8000_0000 && (Wrap32(v) - v) % 0x1_0000_0000 == 0
  {
    hide Wrap8, U8, Wrap32;
    Narrow8(v);
    Narrow32(v);
  }

  lemma Narrow8(v: int)
    ensures (Wrap8(v) - v) % 256 == 0 && (U8(v) - v) % 256 == 0
  {
    assert Wrap8(v) - v == -(256 * ((v + 128) / 256));
    assert U8(v) - v == -(256 * (v / 256));
  }

  lemma Narrow32(v: int)
    ensures -0x8000_0000 <= Wrap32(v) < 0x8000_0000 && (Wrap32(v) - v) % 0x1_0000_0000 == 0
  {
    assert Wrap32(v) - v == -(0x1_0000_0000 * ((v + 0x8000_0000) / 0x1_0000_0000));
  }

  /** saturating keeps what fits and stops at the ends */
  lemma Saturates(v: int)
    ensures -32768 <= Sat16(v) < 32768 && (-32768 <= v < 32768 ==> Sat16(v) == v)
    ensures (v >= 32768 ==> Sat16(v) == 32767) && (v < -32768 ==> Sat16(v) == -32768)
  {
  }

  /** vpsignb on one byte */
  function Sign(a: int, b: int): Int8 {
    if b < 0 then Wrap8(-a) else if b == 0 then 0 else Wrap8(a)
  }

  function Signs(a: seq<int>, b: seq<int>): (r: seq<int>)
    requires |a| == |b|
    ensures |r| == |a|
  {
    seq(|a|, k requires 0 <= k < |a| => Sign(a[k], b[k]))
  }

  /** vpmaddubsw: unsigned times signed bytes, pairs added with 16-bit saturation */
  function Maddubs(a: seq<int>, b: seq<int>): (r: seq<int>)
    requires |a| == |b|
    ensures |r| == |a| / 2
  {
    seq(|a| / 2, k requires 0 <= k < |a| / 2 =>
      Sat16(Mul(U8(a[2 * k]), b[2 * k]) + Mul(U8(a[2 * k + 1]), b[2 * k + 1])))
  }

  /** vpmaddwd by ones */
  function Madd16(p: seq<int>): (r: seq<int>)
    ensures |r| == |p| / 2
  {
    seq(|p| / 2, k requires 0 <= k < |p| / 2 => Wrap32(p[2 * k] + p[2 * k + 1]))
  }

  function Add32(a: seq<int>, b: seq<int>): (r: seq<int>)
    requires |a| == |b|
    ensures |r| == |a|
  {
    seq(|a|, k requires 0 <= k < |a| => Wrap32(a[k] + b[k]))
  }

  /** hsum256_i32: halves, then halves of halves, by shuffles */
  function Hsum(v: seq<int>): int
    requires |v| == 8
  {
    var s := Add32(v[..4], v[4..]);
    var t := Add32(s, [s[2], s[3], s[0], s[1]]);
    var u := Add32(t, [t[1], t[0], t[3], t[2]]);
    u[0]
  }

  lemma MulBound(w: int, x: int, m: int)
    requires 0 <= m && -m <= w <= m && -127 <= x <= 127
    ensures -127 * m <= w * x <= 127 * m
  {
    if x >= 0 {
      MulMono(w, m, x);
      MulMono(-m, w, x);
      MulMono(x, 127, m);
    } else {
      MulMono(w, m, -x);
      MulMono(-m, w, -x);
      MulMono(-x, 127, m);
    }
  }

  lemma MulMono(a: int, b: int, c: int)
    requires a <= b && c >= 0
    ensures a * c <= b * c
  {
  }

  /** the sign trick: |w| as an unsigned byte times x with the sign of w; w = -128 becomes the byte 128 */
  lemma SignTrick(w: int, x: int)
    requires -128 <= w < 128 && -127 <= x <= 127
    ensures Mul(U8(Sign(w, w)), Sign(x, w)) == Mul(w, x)
  {
    hide Mul, U8, Sign;
    SignedByte(w, x);
    if w < 0 {
      BothNegated(w, x);
    } else if w == 0 {
      NoneLeft(x);
    }
  }

  /** what the sign instruction and the unsigned reading make of a byte and an activation */
  lemma SignedByte(w: int, x: int)
    requires -128 <= w < 128 && -127 <= x <= 127
    ensures U8(Sign(w, w)) == (if w < 0 then -w else w)
    ensures Sign(x, w) == (if w < 0 then -x else if w == 0 then 0 else x)
  {
    hide Wrap8, U8;
    var m := if w < 0 then -w else w;
    Fits8(m);
    Fits8(x);
    Fits8(-x);
  }

  /** a magnitude of 128 wraps to -128, and reads as 128 again */
  lemma Fits8(v: int)
    requires -128 <= v <= 128
    ensures v < 128 ==> Wrap8(v) == v
    ensures v >= 0 ==> U8(Wrap8(v)) == v && U8(0) == 0
  {
    if v == 128 { assert Wrap8(v) == -128; }
  }

  lemma BothNegated(w: int, x: int)
    ensures Mul(-w, -x) == Mul(w, x)
  {
  }

  lemma NoneLeft(x: int)
    ensures Mul(0, 0) == Mul(0, x)
  {
  }

  ghost function Times(w: seq<int>, x: seq<int>): (r: seq<int>)
    requires |w| == |x|
    ensures |r| == |w|
  {
    seq(|w|, k requires 0 <= k < |w| => Mul(w[k], x[k]))
  }

  /** no pair of products saturates: 2 * 128 * 127 = 32512 */
  lemma MaddubsExact(w: seq<int>, x: seq<int>)
    requires |w| == |x| && |w| % 2 == 0 && Within(x, 127) && forall k :: 0 <= k < |w| ==> -128 <= w[k] < 128
    ensures Maddubs(Signs(w, w), Signs(x, w)) == Pairs(Times(w, x)) && Within(Pairs(Times(w, x)), 32512)
  {
    var p := Pairs(Times(w, x));
    forall k | 0 <= k < |w| / 2 ensures Maddubs(Signs(w, w), Signs(x, w))[k] == p[k] && -32512 <= p[k] <= 32512 {
      PairExact(w[2 * k], x[2 * k], w[2 * k + 1], x[2 * k + 1]);
    }
  }

  lemma PairExact(w0: int, x0: int, w1: int, x1: int)
    requires -128 <= w0 < 128 && -128 <= w1 < 128 && -127 <= x0 <= 127 && -127 <= x1 <= 127
    ensures Sat16(Mul(U8(Sign(w0, w0)), Sign(x0, w0)) + Mul(U8(Sign(w1, w1)), Sign(x1, w1)))
            == Mul(w0, x0) + Mul(w1, x1)
    ensures -32512 <= Mul(w0, x0) + Mul(w1, x1) <= 32512
  {
    SignTrick(w0, x0);
    SignTrick(w1, x1);
    MulBound(w0, x0, 128);
    MulBound(w1, x1, 128);
  }

  lemma HsumExact(v: seq<int>)
    requires |v| == 8 && Within(v, 0x0800_0000)
    ensures Hsum(v) == SumOf(v)
  {
    hide SumOf, Wrap32;
    Sum8(v);
    WrapId(v[0] + v[4]);
    WrapId(v[1] + v[5]);
    WrapId(v[2] + v[6]);
    WrapId(v[3] + v[7]);
    WrapId(v[0] + v[4] + (v[2] + v[6]));
    WrapId(v[1] + v[5] + (v[3] + v[7]));
    WrapId(v[0] + v[4] + (v[2] + v[6]) + (v[1] + v[5] + (v[3] + v[7])));
  }

  lemma WrapId(v: int)
    requires -0x8000_0000 <= v < 0x8000_0000
    ensures Wrap32(v) == v
  {
  }

  lemma Sum8(v: seq<int>)
    requires |v| == 8
    ensures SumOf(v) == v[0] + v[1] + v[2] + v[3] + v[4] + v[5] + v[6] + v[7]
  {
    hide SumOf;
    SumTake(v, 0);
    SumTake(v, 1);
    SumTake(v, 2);
    SumTake(v, 3);
    SumTake(v, 4);
    SumTake(v, 5);
    SumTake(v, 6);
    SumTake(v, 7);
    assert v[..8] == v;
  }

  lemma SumTake(v: seq<int>, k: nat)
    requires k < |v|
    ensures SumOf(v[..k + 1]) == (if k == 0 then 0 else SumOf(v[..k])) + v[k]
  {
    assert v[..k + 1][..k] == v[..k];
    if k == 0 { assert v[..0] == []; }
  }

  /** four consecutive products to a lane */
  function Fours(p: seq<int>): (r: seq<int>)
    ensures |r| == |p| / 4
  {
    seq(|p| / 4, k requires 0 <= k < |p| / 4 => p[4 * k] + p[4 * k + 1] + (p[4 * k + 2] + p[4 * k + 3]))
  }

  lemma FoursSum(p: seq<int>)
    requires |p| % 4 == 0
    ensures SumOf(Fours(p)) == SumOf(p)
  {
    hide SumOf, Pairs, Fours;
    var d := Pairs(p);
    PairsSum(p);
    PairsSum(d);
    forall k: nat | k < |p| / 4 ensures Pairs(d)[k] == Fours(p)[k] { FourAt(p, d, k); }
    assert Pairs(d) == Fours(p);
  }

  lemma FourAt(p: seq<int>, d: seq<int>, k: nat)
    requires |p| % 4 == 0 && d == Pairs(p) && k < |p| / 4
    ensures |Pairs(d)| == |p| / 4 && Pairs(d)[k] == Fours(p)[k]
  {
    hide Pairs;
    PairAt(d, k);
    PairAt(p, 2 * k);
    PairAt(p, 2 * k + 1);
  }

  /** one step of an accumulator that takes four products a lane: no lane wraps before 16384 products */
  lemma FourStep(p: seq<int>, acc: seq<int>, n: nat, r: seq<int>)
    requires |r| == |acc| && |p| == 4 * |acc| && Within(p, 16256) && Within(acc, 65024 * n) && n <= LIMIT / 16
    requires forall k :: 0 <= k < |r| ==> r[k] == Wrap32(acc[k] + Fours(p)[k])
    ensures SumOf(r) == SumOf(acc) + SumOf(p) && Within(r, 65024 * (n + 1))
  {
    hide SumOf, Wrap32;
    FoursSum(p);
    forall k | 0 <= k < |r| ensures r[k] == acc[k] + Fours(p)[k] && -65024 * (n + 1) <= r[k] <= 65024 * (n + 1) {
      LaneStep(acc[k], p[4 * k], p[4 * k + 1], p[4 * k + 2], p[4 * k + 3], n);
    }
    LanesSum(acc, Fours(p), r);
  }

  lemma LaneStep(a: int, p0: int, p1: int, p2: int, p3: int, n: nat)
    requires -65024 * n <= a <= 65024 * n && n <= LIMIT / 16
    requires -16256 <= p0 <= 16256 && -16256 <= p1 <= 16256 && -16256 <= p2 <= 16256 && -16256 <= p3 <= 16256
    ensures var v := a + (p0 + p1 + (p2 + p3)); Wrap32(v) == v && -65024 * (n + 1) <= v <= 65024 * (n + 1)
  {
  }

  lemma TimesAt(w: seq<int>, x: seq<int>)
    requires |w| == |x| && Within(x, 127) && forall k :: 0 <= k < |w| ==> -128 <= w[k] < 128
    ensures Within(Times(w, x), 16256) && forall k :: 0 <= k < |w| ==> Times(w, x)[k] == Mul(w[k], x[k])
  {
    forall k | 0 <= k < |w| ensures -16256 <= Times(w, x)[k] <= 16256 { MulBound(w[k], x[k], 128); }
  }

  /** one 32-element step of the AVX2 kernels */
  lemma Step32(w: seq<int>, x: seq<int>, acc: seq<int>, n: nat)
    requires |w| == |x| == 32 && |acc| == 8 && n < LIMIT / 32 && Within(acc, 65024 * n)
    requires Within(x, 127) && forall k :: 0 <= k < 32 ==> -128 <= w[k] < 128
    ensures var r := Add32(acc, Madd16(Maddubs(Signs(w, w), Signs(x, w))));
      |r| == 8 && SumOf(r) == SumOf(acc) + SumOf(Times(w, x)) && Within(r, 65024 * (n + 1))
  {
    hide Signs, Maddubs, Times, SumOf, Mul, Madd16, Wrap32;
    var t := Times(w, x);
    MaddubsExact(w, x);
    TimesAt(w, x);
    MaddExact(t);
    FourStep(t, acc, n, Add32(acc, Fours(t)));
  }

  lemma MaddExact(t: seq<int>)
    requires |t| % 4 == 0 && Within(t, 16256)
    ensures Madd16(Pairs(t)) == Fours(t)
  {
    hide Wrap32, Pairs;
    var p := Pairs(t);
    forall k | 0 <= k < |t| / 4 ensures Madd16(p)[k] == Fours(t)[k] {
      PairAt(t, 2 * k);
      PairAt(t, 2 * k + 1);
      WrapId(p[2 * k] + p[2 * k + 1]);
    }
  }

  lemma PairAt(t: seq<int>, k: nat)
    requires k < |t| / 2
    ensures Pairs(t)[k] == t[2 * k] + t[2 * k + 1]
  {
  }

  lemma {:induction false} DotBound(c: Codes, x: seq<int>, n: nat)
    requires !c.F32? && Fits(c, |x|) && n <= |x| && Within(x, 127)
    ensures -16256 * n <= IntDot(c, x, n) <= 16256 * n
  {
    if n > 0 {
      DotBound(c, x, n - 1);
      CodeRange(c, n - 1, |x|);
      MulBound(Code(c, n - 1), x[n - 1], 128);
    }
  }

  lemma CodeRange(c: Codes, i: nat, n: nat)
    requires !c.F32? && Fits(c, n) && i < n
    ensures -128 <= Code(c, i) < 128
  {
  }

  // ---------- dot_i8i8 ----------

  lemma SumZero(n: nat)
    ensures SumOf(seq(n, i => 0)) == 0
    decreases n
  {
    if n > 0 {
      SumZero(n - 1);
      assert seq(n, i => 0)[..n - 1] == seq(n - 1, i => 0);
    }
  }

  /** codes and activations of the columns from i on */
  lemma Chunk(c: Codes, x: seq<int>, i: nat, wv: seq<int>, xv: seq<int>)
    requires !c.F32? && Fits(c, |x|) && |wv| == |xv| && i + |wv| <= |x| && xv == x[i..i + |wv|] && Within(x, 127)
    requires forall k: nat :: k < |wv| ==> wv[k] == Code(c, i + k)
    ensures Times(wv, xv) == Products(c, x, i, |wv|) && Within(xv, 127)
    ensures forall k :: 0 <= k < |wv| ==> -128 <= wv[k] < 128
  {
    hide Code, Mul;
    forall k: nat | k < |wv| ensures Times(wv, xv)[k] == Products(c, x, i, |wv|)[k] && -128 <= wv[k] < 128 {
      CodeRange(c, i + k, |x|);
    }
  }

  /** dot_i8i8, AVX2 path and scalar tail */
  method DotI8(w: seq<Int8>, x: seq<int>) returns (sum: int)
    requires |w| == |x| <= LIMIT && Within(x, 127)
    ensures sum == IntDot(I8(w), x, |x|) && -0x8000_0000 <= sum < 0x8000_0000
  {
    hide SumOf, IntDot, Wrap32, Hsum, Mul;
    var c := I8(w);
    var acc: seq<int>, i := seq(8, k => 0), 0;
    ghost var n: nat := 0;
    SumZero(8);
    IntDotZero(c, x);
    while i + 32 <= |x|
      invariant i == 32 * n <= |x| && |acc| == 8 && Within(acc, 65024 * n) && SumOf(acc) == IntDot(c, x, i)
    {
      var wv, xv := w[i..i + 32], x[i..i + 32];
      Chunk(c, x, i, wv, xv);
      Step32(wv, xv, acc, n);
      acc := Add32(acc, Madd16(Maddubs(Signs(wv, wv), Signs(xv, wv))));
      Segment(c, x, i, 32);
      i, n := i + 32, n + 1;
    }
    HsumExact(acc);
    sum := Tail8(w, x, i, Hsum(acc));
  }

  lemma IntDotZero(c: Codes, x: seq<int>)
    requires !c.F32? && Fits(c, |x|)
    ensures IntDot(c, x, 0) == 0
  {
  }

  lemma DotNext(c: Codes, x: seq<int>, i: nat)
    requires !c.F32? && i < |x| && Fits(c, |x|)
    ensures IntDot(c, x, i + 1) == IntDot(c, x, i) + Mul(Code(c, i), x[i])
  {
  }

  /** sum += w * x in 32 bits */
  method TailStep(ghost c: Codes, x: seq<int>, i: nat, sum: int, w: int) returns (r: int)
    requires !c.F32? && Fits(c, |x|) && i < |x| <= LIMIT && Within(x, 127) && sum == IntDot(c, x, i) && w == Code(c, i)
    ensures r == IntDot(c, x, i + 1)
  {
    DotBound(c, x, i + 1);
    DotNext(c, x, i);
    hide IntDot, Code;
    r := Wrap32(sum + Mul(w, x[i]));
  }

  /** the scalar tail */
  method Tail8(w: seq<Int8>, x: seq<int>, start: nat, sum0: int) returns (sum: int)
    requires |w| == |x| <= LIMIT && Within(x, 127) && start <= |x| && sum0 == IntDot(I8(w), x, start)
    ensures sum == IntDot(I8(w), x, |x|) && -0x8000_0000 <= sum < 0x8000_0000
  {
    hide IntDot;
    var i := start;
    sum := sum0;
    while i < |x|
      invariant start <= i <= |x| && sum == IntDot(I8(w), x, i)
    {
      sum := TailStep(I8(w), x, i, sum, w[i] as int);
      i := i + 1;
    }
    DotBound(I8(w), x, |x|);
  }

  // ---------- nibbles ----------

  /** low byte of a sixteen-bit lane shifted right by 4 */
  function Shifted(lo: int, hi: int): Byte {
    (lo + 256 * hi) / 16 % 256
  }

  /** psrlw by 4: sixteen-bit lanes, so a byte receives bits of its neighbour */
  function Srl4(b: seq<Byte>): (r: seq<Byte>)
    requires |b| % 2 == 0
    ensures |r| == |b|
  {
    seq(|b|, k requires 0 <= k < |b| => 
      if k % 2 == 0 then Shifted(b[k], b[k + 1]) else b[k] / 16)
  }

  /** pand with 0x0F in every byte */
  function And15(b: seq<Byte>): (r: seq<Byte>)
    ensures |r| == |b|
  {
    seq(|b|, k requires 0 <= k < |b| => b[k] % 16)
  }

  /** byte of the low or high half of its 16-byte lane that lane k of the result comes from */
  function Source(k: nat, half: nat, n: nat): (src: nat)
    requires k < n && n % 16 == 0 && half < 2
    ensures src < n
  {
    var lane := k / 16;
    16 * lane + 8 * half + (k - 16 * lane) / 2
  }

  /** punpcklbw / punpckhbw within each 16-byte lane */
  function Unpack(lo: seq<Byte>, hi: seq<Byte>, half: nat): (r: seq<Byte>)
    requires |lo| == |hi| && |lo| % 16 == 0 && half < 2
    ensures |r| == |lo|
  {
    seq(|lo|, k requires 0 <= k < |lo| => var src := Source(k, half, |lo|); if k % 2 == 0 then lo[src] else hi[src])
  }

  function Minus8(v: int): int {
    Wrap8(v - 8)
  }

  /** psubb of 8 in every byte */
  function Sub8(b: seq<Byte>): (r: seq<int>)
    ensures |r| == |b|
  {
    seq(|b|, k requires 0 <= k < |b| => Minus8(b[k]))
  }

  /** masking after the shift leaves the high nibble of every byte */
  lemma HighNibbles(b: seq<Byte>)
    requires |b| % 2 == 0
    ensures forall k :: 0 <= k < |b| ==> And15(Srl4(b))[k] == b[k] / 16
  {
    forall k: nat | k < |b| ensures And15(Srl4(b))[k] == b[k] / 16 {
      HighNibble(b, k);
    }
  }

  lemma HighNibble(b: seq<Byte>, k: nat)
    requires |b| % 2 == 0 && k < |b|
    ensures And15(Srl4(b))[k] == b[k] / 16
  {
    hide Shifted;
    if k % 2 == 0 {
      OneNibble(b[k], b[k + 1]);
      assert Srl4(b)[k] == Shifted(b[k], b[k + 1]);
    }
  }

  lemma OneNibble(a: int, b: int)
    requires 0 <= a < 256 && 0 <= b < 256
    ensures Shifted(a, b) % 16 == a / 16
  {
    var h := a / 16;
    assert (a + 256 * b) / 16 == h + 16 * b;
    var t := (h + 16 * b) / 256;
    assert (h + 16 * b) % 256 == h + 16 * (b - 16 * t);
  }

  /** sixteen bytes unpack to thirty-two codes in order */
  lemma Unpack16(q: seq<Byte>, i: nat, b: seq<Byte>, wv: seq<int>)
    requires i % 2 == 0 && i / 2 + 16 <= |q| && b == q[i / 2..i / 2 + 16]
    requires wv == Sub8(Unpack(And15(b), And15(Srl4(b)), 0)) + Sub8(Unpack(And15(b), And15(Srl4(b)), 1))
    ensures |wv| == 32 && forall k: nat :: k < 32 ==> wv[k] == Code(I4(q), i + k)
  {
    HighNibbles(b);
    var lo, hi := And15(b), And15(Srl4(b));
    hide Srl4, Unpack, Sub8, Minus8, Code, Source;
    forall k: nat | k < 32 ensures wv[k] == Code(I4(q), i + k) {
      UnpackAt(lo, hi, k);
      NibbleAt(q, i, b, k);
    }
  }

  /** lane k of the two unpacked halves */
  lemma UnpackAt(lo: seq<Byte>, hi: seq<Byte>, k: nat)
    requires |lo| == |hi| == 16 && k < 32
    ensures (Sub8(Unpack(lo, hi, 0)) + Sub8(Unpack(lo, hi, 1)))[k]
            == Minus8(if k % 2 == 0 then lo[k / 2] else hi[k / 2])
  {
    hide Unpack, Source, Minus8;
    var half := if k < 16 then 0 else 1;
    UnpackIs(lo, hi, half, k - 16 * half);
    SourceHalf(k, half);
  }

  lemma UnpackIs(lo: seq<Byte>, hi: seq<Byte>, half: nat, j: nat)
    requires |lo| == |hi| && |lo| % 16 == 0 && half < 2 && j < |lo|
    ensures Unpack(lo, hi, half)[j] == var src := Source(j, half, |lo|); if j % 2 == 0 then lo[src] else hi[src]
  {
  }

  lemma SourceHalf(k: nat, half: nat)
    requires k < 32 && half == (if k < 16 then 0 else 1)
    ensures Source(k - 16 * half, half, 16) == k / 2 && (k - 16 * half) % 2 == k % 2
  {
  }

  lemma NibbleAt(q: seq<Byte>, i: nat, b: seq<Byte>, k: nat)
    requires i % 2 == 0 && i / 2 + |b| <= |q| && b == q[i / 2..i / 2 + |b|] && k / 2 < |b|
    ensures Code(I4(q), i + k) == Minus8(if k % 2 == 0 then b[k / 2] % 16 else b[k / 2] / 16)
  {
    assert q[(i + k) / 2] == b[k / 2];
  }

  /** dot_i4i8, AVX2 path and scalar tail */
  method DotI4(q: seq<Byte>, x: seq<int>) returns (sum: int)
    requires |q| == (|x| + 1) / 2 && |x| <= LIMIT && Within(x, 127)
    ensures sum == IntDot(I4(q), x, |x|) && -0x8000_0000 <= sum < 0x8000_0000
  {
    hide SumOf, IntDot, Wrap32, Hsum, Mul, Code, Unpack, Sub8, Srl4, And15;
    var c := I4(q);
    var acc: seq<int>, i := seq(8, k => 0), 0;
    ghost var n: nat := 0;
    SumZero(8);
    IntDotZero(c, x);
    while i + 32 <= |x|
      invariant i == 32 * n <= |x| && |acc| == 8 && Within(acc, 65024 * n) && SumOf(acc) == IntDot(c, x, i)
    {
      var bytes := q[i / 2..i / 2 + 16];
      var lo, hi := And15(bytes), And15(Srl4(bytes));
      var wv, xv := Sub8(Unpack(lo, hi, 0)) + Sub8(Unpack(lo, hi, 1)), x[i..i + 32];
      Unpack16(q, i, bytes, wv);
      Chunk(c, x, i, wv, xv);
      Step32(wv, xv, acc, n);
      acc := Add32(acc, Madd16(Maddubs(Signs(wv, wv), Signs(xv, wv))));
      Segment(c, x, i, 32);
      i, n := i + 32, n + 1;
    }
    HsumExact(acc);
    sum := Tail4(q, x, i, Hsum(acc));
  }

  /** the scalar tail: two codes a byte, then a last one */
  method Tail4(q: seq<Byte>, x: seq<int>, start: nat, sum0: int) returns (sum: int)
    requires |q| == (|x| + 1) / 2 && |x| <= LIMIT && Within(x, 127)
    requires start % 2 == 0 && start <= |x| && sum0 == IntDot(I4(q), x, start)
    ensures sum == IntDot(I4(q), x, |x|) && -0x8000_0000 <= sum < 0x8000_0000
  {
    hide IntDot;
    var c := I4(q);
    var i := start;
    sum := sum0;
    while i + 1 < |x|
      invariant start <= i <= |x| && i % 2 == 0 && sum == IntDot(c, x, i)
    {
      var b: int := q[i / 2];
      sum := TailStep(c, x, i, sum, b % 16 - 8);
      sum := TailStep(c, x, i + 1, sum, b / 16 - 8);
      i := i + 2;
    }
    if i < |x| {
      var b: int := q[i / 2];
      sum := TailStep(c, x, i, sum, b % 16 - 8);
    }
    DotBound(c, x, |x|);
  }

  // ---------- dot_i4i8 with 512-bit lanes ----------

  function Abs8(v: int): Byte { U8(if v < 0 then -v else v) }

  /** x where the mask bit is clear, 0 - x where w is negative */
  function MaskNegate(x: seq<int>, w: seq<int>): (r: seq<int>)
    requires |x| == |w|
    ensures |r| == |x|
  {
    seq(|x|, k requires 0 <= k < |x| => if w[k] < 0 then Wrap8(0 - x[k]) else x[k])
  }

  function Abses(w: seq<int>): (r: seq<int>)
    ensures |r| == |w|
  {
    seq(|w|, k requires 0 <= k < |w| => Abs8(w[k]))
  }

  /** vpdpbusd: four unsigned-signed byte products into each 32-bit lane */
  function Dpbusd(acc: seq<int>, a: seq<int>, b: seq<int>): (r: seq<int>)
    requires |a| == |b| == 4 * |acc|
    ensures |r| == |acc|
  {
    seq(|acc|, k requires 0 <= k < |acc| =>
      Wrap32(acc[k] + (Mul(a[4 * k], b[4 * k]) + Mul(a[4 * k + 1], b[4 * k + 1])
                       + (Mul(a[4 * k + 2], b[4 * k + 2]) + Mul(a[4 * k + 3], b[4 * k + 3])))))
  }

  /** reduce_add: lanes summed in 32 bits */
  function Reduce(v: seq<int>): int {
    if v == [] then 0 else Wrap32(Reduce(v[..|v| - 1]) + v[|v| - 1])
  }

  lemma {:induction false} ReduceExact(v: seq<int>, m: nat)
    requires Within(v, m) && m * |v| < 0x8000_0000
    ensures Reduce(v) == SumOf(v) && -(m * |v|) <= SumOf(v) <= m * |v|
    decreases |v|
  {
    if v != [] {
      var n := |v| - 1;
      assert m * |v| == m * n + m;
      ReduceExact(v[..n], m);
    }
  }

  /** the quarter of the chunk each 16-byte block holds after the unpack: 0, 2, 1, 3 */
  function Quarter(k: nat): (p: nat)
    requires k < 64
    ensures p < 64
  {
    if 16 <= k < 32 then k + 16 else if 32 <= k < 48 then k - 16 else k
  }

  /** vpermq with indices 0, 1, 4, 5, 2, 3, 6, 7: eight-byte groups */
  function Permuted(x: seq<int>): (r: seq<int>)
    requires |x| == 64
    ensures |r| == 64
  {
    var idx := [0, 1, 4, 5, 2, 3, 6, 7];
    seq(64, k requires 0 <= k < 64 => x[8 * idx[k / 8] + k % 8])
  }

  lemma PermutedAt(x: seq<int>, k: nat)
    requires |x| == 64 && k < 64
    ensures Permuted(x)[k] == x[Quarter(k)]
  {
  }

  /** 256-bit unpacks work within 128-bit lanes, so the codes come out a quarter at a time */
  lemma Unpack32(q: seq<Byte>, i: nat, b: seq<Byte>, wv: seq<int>)
    requires i % 2 == 0 && i / 2 + 32 <= |q| && b == q[i / 2..i / 2 + 32]
    requires wv == Sub8(Unpack(And15(b), And15(Srl4(b)), 0) + Unpack(And15(b), And15(Srl4(b)), 1))
    ensures |wv| == 64 && forall k: nat :: k < 64 ==> wv[k] == Code(I4(q), i + Quarter(k))
  {
    hide Srl4, Unpack, Sub8, Minus8, Code, Source, Quarter, And15;
    forall k: nat | k < 64 ensures wv[k] == Code(I4(q), i + Quarter(k)) {
      LaneAt(And15(b), And15(Srl4(b)), k);
      BothNibbles(b, Quarter(k) / 2);
      NibbleAt(q, i, b, Quarter(k));
    }
  }

  lemma BothNibbles(b: seq<Byte>, k: nat)
    requires |b| % 2 == 0 && k < |b|
    ensures And15(b)[k] == b[k] % 16 && And15(Srl4(b))[k] == b[k] / 16
  {
    hide Srl4;
    HighNibbles(b);
  }

  lemma LaneAt(lo: seq<Byte>, hi: seq<Byte>, k: nat)
    requires |lo| == |hi| == 32 && k < 64
    ensures var p := Quarter(k);
      Sub8(Unpack(lo, hi, 0) + Unpack(lo, hi, 1))[k] == Minus8(if p % 2 == 0 then lo[p / 2] else hi[p / 2])
  {
    hide Unpack, Source, Minus8;
    var half := if k < 32 then 0 else 1;
    UnpackIs(lo, hi, half, k - 32 * half);
    SourceQuarter(k, half);
  }

  lemma SourceQuarter(k: nat, half: nat)
    requires k < 64 && half == (if k < 32 then 0 else 1)
    ensures Source(k - 32 * half, half, 32) == Quarter(k) / 2 && (k - 32 * half) % 2 == Quarter(k) % 2
  {
  }

  /** the chunk's products in the order the instruction sees them */
  ghost function Quartered(p: seq<int>): (r: seq<int>)
    requires |p| == 64
    ensures |r| == 64
  {
    seq(64, k requires 0 <= k < 64 => p[Quarter(k)])
  }

  lemma QuarteredSum(p: seq<int>)
    requires |p| == 64
    ensures SumOf(Quartered(p)) == SumOf(p)
  {
    hide SumOf;
    var a, b, c, d := p[..16], p[16..32], p[32..48], p[48..];
    assert Quartered(p) == a + c + b + d && p == a + b + c + d;
    AppendSum(a, c);
    AppendSum(a + c, b);
    AppendSum(a + c + b, d);
    AppendSum(a, b);
    AppendSum(a + b, c);
    AppendSum(a + b + c, d);
  }

  /** negating x under the mask is exact for w = -128 too: |w| is the byte 128 */
  lemma MaskTrick(w: int, x: int)
    requires -128 <= w < 128 && -127 <= x <= 127
    ensures Mul(Abs8(w), if w < 0 then Wrap8(0 - x) else x) == Mul(w, x) && -16256 <= Mul(w, x) <= 16256
  {
    MulBound(w, x, 128);
    BothNegated(w, x);
  }

  /** one 64-element step */
  lemma Step64(w: seq<int>, x: seq<int>, acc: seq<int>, n: nat)
    requires |w| == |x| == 64 && |acc| == 16 && n <= LIMIT / 16 && Within(acc, 65024 * n)
    requires Within(x, 127) && forall k :: 0 <= k < 64 ==> -128 <= w[k] < 128
    ensures var r := Dpbusd(acc, Abses(w), MaskNegate(x, w));
      |r| == 16 && SumOf(r) == SumOf(acc) + SumOf(Times(w, x)) && Within(r, 65024 * (n + 1))
  {
    hide SumOf, Times, Abses, MaskNegate, Mul, Wrap32;
    MaskTricks(w, x);
    FourStep(Times(w, x), acc, n, Dpbusd(acc, Abses(w), MaskNegate(x, w)));
  }

  lemma MaskTricks(w: seq<int>, x: seq<int>)
    requires |w| == |x| && Within(x, 127) && forall k :: 0 <= k < |w| ==> -128 <= w[k] < 128
    ensures Within(Times(w, x), 16256)
    ensures forall k :: 0 <= k < |w| ==> Mul(Abses(w)[k], MaskNegate(x, w)[k]) == Times(w, x)[k]
  {
    hide Mul;
    forall k | 0 <= k < |w|
      ensures Mul(Abses(w)[k], MaskNegate(x, w)[k]) == Times(w, x)[k] && -16256 <= Times(w, x)[k] <= 16256
    {
      MaskTrick(w[k], x[k]);
    }
  }

  /** codes and activations in quarter order multiply to the chunk's products, reordered */
  lemma Chunk64(q: seq<Byte>, x: seq<int>, i: nat, wv: seq<int>, xv: seq<int>)
    requires Fits(I4(q), |x|) && i + 64 <= |x| && Within(x, 127) && xv == Permuted(x[i..i + 64])
    requires |wv| == 64 && forall k: nat :: k < 64 ==> wv[k] == Code(I4(q), i + Quarter(k))
    ensures SumOf(Times(wv, xv)) == SumOf(Products(I4(q), x, i, 64))
    ensures Within(xv, 127) && forall k :: 0 <= k < 64 ==> -8 <= wv[k] < 8
  {
    hide SumOf, Mul, Permuted;
    var p := Products(I4(q), x, i, 64);
    forall k: nat | k < 64 ensures Times(wv, xv)[k] == Quartered(p)[k] && -127 <= xv[k] <= 127 && -8 <= wv[k] < 8 {
      PermutedAt(x[i..i + 64], k);
    }
    assert Times(wv, xv) == Quartered(p);
    QuarteredSum(p);
  }

  /** dot_i4i8, AVX-512 VNNI path and scalar tail */
  method DotI4Vnni(q: seq<Byte>, x: seq<int>) returns (sum: int)
    requires |q| == (|x| + 1) / 2 && |x| <= LIMIT && Within(x, 127)
    ensures sum == IntDot(I4(q), x, |x|) && -0x8000_0000 <= sum < 0x8000_0000
  {
    hide SumOf, IntDot, Wrap32, Mul, Code, Unpack, Sub8, Srl4, And15, Permuted, Times, Products, Abses, MaskNegate;
    var c := I4(q);
    var acc: seq<int>, i := seq(16, k => 0), 0;
    ghost var n: nat := 0;
    SumZero(16);
    IntDotZero(c, x);
    while i + 64 <= |x|
      invariant i == 64 * n <= |x| && |acc| == 16 && Within(acc, 65024 * n) && SumOf(acc) == IntDot(c, x, i)
    {
      var bytes := q[i / 2..i / 2 + 32];
      var lo, hi := And15(bytes), And15(Srl4(bytes));
      var wv, xv := Sub8(Unpack(lo, hi, 0) + Unpack(lo, hi, 1)), Permuted(x[i..i + 64]);
      Unpack32(q, i, bytes, wv);
      Chunk64(q, x, i, wv, xv);
      Step64(wv, xv, acc, n);
      acc := Dpbusd(acc, Abses(wv), MaskNegate(xv, wv));
      Segment(c, x, i, 64);
      i, n := i + 64, n + 1;
    }
    ReduceExact(acc, 65024 * n);
    sum := Tail4(q, x, i, Reduce(acc));
  }

  /** dot_i8i8, AVX-512 VNNI path and scalar tail */
  method DotI8Vnni(w: seq<Int8>, x: seq<int>) returns (sum: int)
    requires |w| == |x| <= LIMIT && Within(x, 127)
    ensures sum == IntDot(I8(w), x, |x|) && -0x8000_0000 <= sum < 0x8000_0000
  {
    hide SumOf, IntDot, Wrap32, Mul, Times, Products, Abses, MaskNegate;
    var c := I8(w);
    var acc: seq<int>, i := seq(16, k => 0), 0;
    ghost var n: nat := 0;
    SumZero(16);
    IntDotZero(c, x);
    while i + 64 <= |x|
      invariant i == 64 * n <= |x| && |acc| == 16 && Within(acc, 65024 * n) && SumOf(acc) == IntDot(c, x, i)
    {
      var wv, xv := w[i..i + 64], x[i..i + 64];
      Chunk(c, x, i, wv, xv);
      Step64(wv, xv, acc, n);
      acc := Dpbusd(acc, Abses(wv), MaskNegate(xv, wv));
      Segment(c, x, i, 64);
      i, n := i + 64, n + 1;
    }
    ReduceExact(acc, 65024 * n);
    sum := Tail8(w, x, i, Reduce(acc));
  }

  // ---------- four accumulators (SDOT) ----------

  /** vdotq_s32: four signed byte products into each 32-bit lane */
  function Sdot(acc: seq<int>, a: seq<int>, b: seq<int>): (r: seq<int>)
    requires |a| == |b| == 4 * |acc|
    ensures |r| == |acc|
  {
    seq(|acc|, k requires 0 <= k < |acc| =>
      Wrap32(acc[k] + (Mul(a[4 * k], b[4 * k]) + Mul(a[4 * k + 1], b[4 * k + 1])
                       + (Mul(a[4 * k + 2], b[4 * k + 2]) + Mul(a[4 * k + 3], b[4 * k + 3])))))
  }

  /** sixteen codes from column i on */
  ghost predicate CodesAt(c: Codes, n: nat, i: nat, wv: seq<int>)
    requires !c.F32? && Fits(c, n)
  {
    |wv| == 16 && i + 16 <= n && forall k: nat :: k < 16 ==> wv[k] == Code(c, i + k)
  }

  /** sixteen columns go into one accumulator */
  lemma Step16(c: Codes, x: seq<int>, i: nat, wv: seq<int>, acc: seq<int>, n: nat)
    requires !c.F32? && Fits(c, |x|) && CodesAt(c, |x|, i, wv) && Within(x, 127)
    requires |acc| == 4 && Within(acc, 65024 * n) && n <= LIMIT / 16
    ensures var r := Sdot(acc, wv, x[i..i + 16]);
      |r| == 4 && Within(r, 65024 * (n + 1)) && SumOf(r) == SumOf(acc) + (IntDot(c, x, i + 16) - IntDot(c, x, i))
  {
    hide SumOf, Times, Products, Mul, Wrap32, Code, IntDot;
    var xv := x[i..i + 16];
    Chunk(c, x, i, wv, xv);
    TimesAt(wv, xv);
    FourStep(Times(wv, xv), acc, n, Sdot(acc, wv, xv));
    Segment(c, x, i, 16);
  }

  /** the four accumulators hold the dot product of the first i columns between them */
  ghost predicate Four(c: Codes, x: seq<int>, i: nat, a: seq<seq<int>>)
    requires !c.F32? && Fits(c, |x|) && i <= |x|
  {
    && |a| == 4 && i % 64 == 0
    && (forall k :: 0 <= k < 4 ==> |a[k]| == 4 && Within(a[k], 65024 * (i / 64)))
    && SumOf(a[0]) + SumOf(a[1]) + SumOf(a[2]) + SumOf(a[3]) == IntDot(c, x, i)
  }

  lemma FourStart(c: Codes, x: seq<int>, a: seq<seq<int>>)
    requires !c.F32? && Fits(c, |x|) && a == [seq(4, k => 0), seq(4, k => 0), seq(4, k => 0), seq(4, k => 0)]
    ensures Four(c, x, 0, a)
  {
    SumZero(4);
  }

  /** one turn of the unrolled loop */
  function FourDots(a: seq<seq<int>>, w: seq<seq<int>>, x: seq<int>, i: nat): (b: seq<seq<int>>)
    requires |a| == |w| == 4 && i + 64 <= |x| && forall k :: 0 <= k < 4 ==> |a[k]| == 4 && |w[k]| == 16
    ensures |b| == 4 && forall k :: 0 <= k < 4 ==> |b[k]| == 4
  {
    [Sdot(a[0], w[0], x[i..i + 16]), Sdot(a[1], w[1], x[i + 16..i + 32]),
     Sdot(a[2], w[2], x[i + 32..i + 48]), Sdot(a[3], w[3], x[i + 48..i + 64])]
  }

  lemma FourMore(c: Codes, x: seq<int>, i: nat, a: seq<seq<int>>, w: seq<seq<int>>)
    requires !c.F32? && Fits(c, |x|) && i + 64 <= |x| <= LIMIT && Within(x, 127) && Four(c, x, i, a)
    requires |w| == 4 && CodesAt(c, |x|, i, w[0]) && CodesAt(c, |x|, i + 16, w[1])
    requires CodesAt(c, |x|, i + 32, w[2]) && CodesAt(c, |x|, i + 48, w[3])
    ensures Four(c, x, i + 64, FourDots(a, w, x, i))
  {
    hide SumOf, Code, IntDot, Sdot, Within;
    Step16(c, x, i, w[0], a[0], i / 64);
    Step16(c, x, i + 16, w[1], a[1], i / 64);
    Step16(c, x, i + 32, w[2], a[2], i / 64);
    Step16(c, x, i + 48, w[3], a[3], i / 64);
  }

  /** adding the accumulators lane by lane */
  function Merged(a: seq<seq<int>>): (acc: seq<int>)
    requires |a| == 4 && forall k :: 0 <= k < 4 ==> |a[k]| == 4
    ensures |acc| == 4
  {
    Add32(Add32(a[0], a[1]), Add32(a[2], a[3]))
  }

  lemma FourMerged(c: Codes, x: seq<int>, i: nat, a: seq<seq<int>>)
    requires !c.F32? && Fits(c, |x|) && i <= |x| <= LIMIT && Four(c, x, i, a)
    ensures Within(Merged(a), 65024 * (i / 16)) && SumOf(Merged(a)) == IntDot(c, x, i)
  {
    hide SumOf, IntDot;
    var m := 65024 * (i / 64);
    var p, q := Add32(a[0], a[1]), Add32(a[2], a[3]);
    AddExact(a[0], a[1], m);
    AddExact(a[2], a[3], m);
    AddExact(p, q, 2 * m);
  }

  lemma AddExact(a: seq<int>, b: seq<int>, m: nat)
    requires |a| == |b| && Within(a, m) && Within(b, m) && m < 0x4000_0000
    ensures Within(Add32(a, b), 2 * m) && SumOf(Add32(a, b)) == SumOf(a) + SumOf(b)
  {
    hide SumOf;
    LanesSum(a, b, Add32(a, b));
  }

  /** dot_i8i8, SDOT path: four accumulators, then one, then the scalar tail */
  method DotI8Sdot(w: seq<Int8>, x: seq<int>) returns (sum: int)
    requires |w| == |x| <= LIMIT && Within(x, 127)
    ensures sum == IntDot(I8(w), x, |x|) && -0x8000_0000 <= sum < 0x8000_0000
  {
    hide SumOf, IntDot, Mul, Four, FourDots, Sdot, Merged;
    var c := I8(w);
    var a, i := [seq(4, k => 0), seq(4, k => 0), seq(4, k => 0), seq(4, k => 0)], 0;
    FourStart(c, x, a);
    while i + 64 <= |x|
      invariant i % 64 == 0 && i <= |x| && |a| == 4 && (forall k :: 0 <= k < 4 ==> |a[k]| == 4) && Four(c, x, i, a)
    {
      var wv := [w[i..i + 16], w[i + 16..i + 32], w[i + 32..i + 48], w[i + 48..i + 64]];
      FourMore(c, x, i, a, wv);
      a, i := FourDots(a, wv, x, i), i + 64;
    }
    FourMerged(c, x, i, a);
    var acc := Merged(a);
    while i + 16 <= |x|
      invariant i % 16 == 0 && i <= |x| && |acc| == 4 && Within(acc, 65024 * (i / 16)) && SumOf(acc) == IntDot(c, x, i)
    {
      Step16(c, x, i, w[i..i + 16], acc, i / 16);
      acc, i := Sdot(acc, w[i..i + 16], x[i..i + 16]), i + 16;
    }
    ReduceExact(acc, 65024 * (i / 16));
    sum := Tail8(w, x, i, Reduce(acc));
  }

  /** vshrq_n_u8 by 4: each byte on its own */
  function Shr4(b: seq<Byte>): (r: seq<Byte>)
    ensures |r| == |b|
  {
    seq(|b|, k requires 0 <= k < |b| => b[k] / 16)
  }

  /** sixteen packed bytes as two registers of codes, in order */
  method Zip(q: seq<Byte>, ghost n: nat, i: nat) returns (w0: seq<int>, w1: seq<int>)
    requires i % 2 == 0 && i + 32 <= n && |q| == (n + 1) / 2
    ensures CodesAt(I4(q), n, i, w0) && CodesAt(I4(q), n, i + 16, w1)
  {
    hide Unpack, Sub8, Code, Srl4;
    var b := q[i / 2..i / 2 + 16];
    var lo, hi := And15(b), Shr4(b);
    w0, w1 := Sub8(Unpack(lo, hi, 0)), Sub8(Unpack(lo, hi, 1));
    HighNibbles(b);
    assert hi == And15(Srl4(b));
    Unpack16(q, i, b, w0 + w1);
    forall k: nat | k < 16 ensures w0[k] == Code(I4(q), i + k) && w1[k] == Code(I4(q), i + 16 + k) {
      assert (w0 + w1)[k] == w0[k] && (w0 + w1)[16 + k] == w1[k];
    }
  }

  /** dot_i4i8, SDOT path: four accumulators, then one, then the scalar tail */
  method DotI4Sdot(q: seq<Byte>, x: seq<int>) returns (sum: int)
    requires |q| == (|x| + 1) / 2 && |x| <= LIMIT && Within(x, 127)
    ensures sum == IntDot(I4(q), x, |x|) && -0x8000_0000 <= sum < 0x8000_0000
  {
    hide SumOf, IntDot, Mul, Four, FourDots, Merged, Code;
    var c := I4(q);
    var a, i := [seq(4, k => 0), seq(4, k => 0), seq(4, k => 0), seq(4, k => 0)], 0;
    FourStart(c, x, a);
    while i + 64 <= |x|
      invariant i % 64 == 0 && i <= |x| && |a| == 4 && (forall k :: 0 <= k < 4 ==> |a[k]| == 4) && Four(c, x, i, a)
    {
      var w0, w1 := Zip(q, |x|, i);
      var w2, w3 := Zip(q, |x|, i + 32);
      FourMore(c, x, i, a, [w0, w1, w2, w3]);
      a, i := FourDots(a, [w0, w1, w2, w3], x, i), i + 64;
    }
    FourMerged(c, x, i, a);
    sum := RestSdot(q, x, i, Merged(a));
  }

  /** what the unrolled loop leaves: one accumulator, then the scalar tail */
  method RestSdot(q: seq<Byte>, x: seq<int>, start: nat, acc0: seq<int>) returns (sum: int)
    requires |q| == (|x| + 1) / 2 && |x| <= LIMIT && Within(x, 127) && start % 32 == 0 && start <= |x|
    requires |acc0| == 4 && Within(acc0, 65024 * (start / 16)) && SumOf(acc0) == IntDot(I4(q), x, start)
    ensures sum == IntDot(I4(q), x, |x|) && -0x8000_0000 <= sum < 0x8000_0000
  {
    hide SumOf, IntDot, Mul, Sdot, Code, CodesAt, Within;
    var c := I4(q);
    var acc, i := acc0, start;
    while i + 32 <= |x|
      invariant i % 32 == 0 && i <= |x| && |acc| == 4 && Within(acc, 65024 * (i / 16)) && SumOf(acc) == IntDot(c, x, i)
    {
      var w0, w1 := Zip(q, |x|, i);
      TwoMore(c, x, i, w0, w1, acc);
      acc := Sdot(Sdot(acc, w0, x[i..i + 16]), w1, x[i + 16..i + 32]);
      i := i + 32;
    }
    ReduceExact(acc, 65024 * (i / 16));
    sum := Tail4(q, x, i, Reduce(acc));
  }

  lemma TwoMore(c: Codes, x: seq<int>, i: nat, w0: seq<int>, w1: seq<int>, acc: seq<int>)
    requires !c.F32? && Fits(c, |x|) && CodesAt(c, |x|, i, w0)
    requires CodesAt(c, |x|, i + 16, w1) && Within(x, 127) && |x| <= LIMIT
    requires i % 32 == 0 && |acc| == 4 && Within(acc, 65024 * (i / 16)) && SumOf(acc) == IntDot(c, x, i)
    ensures |w0| == |w1| == 16
    ensures var r := Sdot(Sdot(acc, w0, x[i..i + 16]), w1, x[i + 16..i + 32]);
      Within(r, 65024 * ((i + 32) / 16)) && SumOf(r) == IntDot(c, x, i + 32)
  {
    hide SumOf, IntDot, Mul, Sdot, Code, Within;
    Step16(c, x, i, w0, acc, i / 16);
    Step16(c, x, i + 16, w1, Sdot(acc, w0, x[i..i + 16]), i / 16 + 1);
  }
}
