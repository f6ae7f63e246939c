/** The quantisers (`qrow_i8`, `quantize_rows`, `pack_int4`, `pack_int2`): scale, rounding and packing of a row. */
module Packing {
  import opened Quant
  import opened Kernels

  /** round to nearest */
  ghost predicate Nearest(rint: real -> int) {
    forall v: real :: -0.5 <= rint(v) as real - v <= 0.5
  }

  function AbsR(v: real): real { if v < 0.0 then -v else v }

  /** greatest magnitude */
  method Amax(x: seq<real>) returns (m: real)
    ensures m >= 0.0 && forall i :: 0 <= i < |x| ==> AbsR(x[i]) <= m
  {
    m := 0.0;
    var i := 0;
    while i < |x|
      invariant 0 <= i <= |x| && m >= 0.0 && forall k :: 0 <= k < i ==> AbsR(x[k]) <= m
    {
      if AbsR(x[i]) > m { m := AbsR(x[i]); }
      i := i + 1;
    }
  }

  /** the row's scale: its greatest magnitude is at most qmax steps */
  method StepSize(x: seq<real>, qmax: int, least: real) returns (s: real)
    requires 1 <= qmax && least > 0.0
    ensures s >= least && forall i :: 0 <= i < |x| ==> AbsR(x[i]) <= RMul(qmax as real, s)
  {
    hide AbsR, RMul;
    var amax := Amax(x);
    s := amax / qmax as real;
    AllSteps(amax, qmax, s);
    if s < least {
      ScaleLess2(qmax as real, s, least);
      s := least;
    }
  }

  lemma AllSteps(amax: real, qmax: int, s: real)
    requires 1 <= qmax && s == amax / qmax as real
    ensures RMul(qmax as real, s) == amax
  {
  }

  lemma ScaleLess2(m: real, a: real, b: real)
    requires m > 0.0 && a < b
    ensures RMul(m, a) < RMul(m, b)
  {
  }

  /** code q stands for x to half a step s */
  ghost predicate Near(q: int, s: real, x: real) {
    AbsR((q as real) * s - x) <= 0.5 * s
  }

  /** qrow_i8: every code lies within 127 and stands for its activation to half a step */
  method QrowI8(x: seq<real>, rint: real -> int) returns (q: seq<int>, s: real)
    requires Nearest(rint)
    ensures |q| == |x| && Within(q, 127) && s > 0.0 && forall i :: 0 <= i < |x| ==> Near(q[i], s, x[i])
  {
    hide AbsR, Near;
    s := StepSize(x, 127, 0.000000000001);
    q := [];
    while |q| < |x|
      invariant |q| <= |x| && Within(q, 127) && forall i :: 0 <= i < |q| ==> Near(q[i], s, x[i])
    {
      var v := x[|q|] / s;
      var r := rint(v);
      Scaled(x[|q|], 127, s, v, r);
      q := q + [r];
    }
  }

  lemma Scaled(x: real, m: int, s: real, v: real, r: int)
    requires s > 0.0 && v == x / s && AbsR(x) <= RMul(m as real, s) && -0.5 <= r as real - v <= 0.5
    ensures -m <= r <= m && Near(r, s, x)
  {
    hide Near;
    WithinCode(x, m, s, v, r);
    NearCode(x, s, v, r);
  }

  lemma WithinCode(x: real, m: int, s: real, v: real, r: int)
    requires s > 0.0 && v == x / s && AbsR(x) <= RMul(m as real, s) && -0.5 <= r as real - v <= 0.5
    ensures -m <= r <= m
  {
    hide RMul;
    Back(x, s, v);
    Mirrored(m as real, s);
    if v > m as real { ScaleLess(m as real, v, s); }
    if v < -(m as real) { ScaleLess(v, -(m as real), s); }
  }

  lemma Mirrored(a: real, s: real)
    ensures RMul(-a, s) == -RMul(a, s)
  {
  }

  lemma NearCode(x: real, s: real, v: real, r: int)
    requires s > 0.0 && v == x / s && -0.5 <= r as real - v <= 0.5
    ensures Near(r, s, x)
  {
    hide RMul, Near;
    Back(x, s, v);
    Factor(r as real, v, s);
    ScaleLe(r as real - v, 0.5, s);
    ScaleLe(-0.5, r as real - v, s);
    Halves(s);
    NearFrom(r, s, x, RMul(r as real, s));
  }

  lemma NearFrom(r: int, s: real, x: real, y: real)
    requires y == RMul(r as real, s) && -(0.5 * s) <= y - x <= 0.5 * s
    ensures Near(r, s, x)
  {
    assert y == (r as real) * s;
  }

  function RMul(a: real, b: real): real {
    a * b
  }

  lemma Halves(s: real)
    ensures RMul(0.5, s) == 0.5 * s && RMul(-0.5, s) == -(0.5 * s)
  {
  }

  lemma Back(x: real, s: real, v: real)
    requires s > 0.0 && v == x / s
    ensures RMul(v, s) == x
  {
  }

  lemma Factor(a: real, b: real, s: real)
    ensures RMul(a, s) - RMul(b, s) == RMul(a - b, s)
  {
  }

  lemma ScaleLess(a: real, b: real, s: real)
    requires a < b && s > 0.0
    ensures RMul(a, s) < RMul(b, s)
  {
  }

  lemma ScaleLe(a: real, b: real, s: real)
    requires a <= b && s > 0.0
    ensures RMul(a, s) <= RMul(b, s)
  {
  }

  function Clamped(v: int, qmax: int, low: int): int {
    if v > qmax then qmax else if v < low then low else v
  }

  /** a code within qmax that stands for x to half a step */
  ghost predicate Stands(v: int, s: real, x: real, qmax: int) {
    -qmax <= v <= qmax && Near(v, s, x)
  }

  /** the code of one weight: the clamp never bites */
  method Quantised(x: real, s: real, qmax: int, low: int, rint: real -> int) returns (v: int)
    requires Nearest(rint) && 1 <= qmax && low <= -qmax && s > 0.0 && AbsR(x) <= RMul(qmax as real, s)
    ensures low <= v <= qmax && Stands(v, s, x, qmax)
  {
    hide Near, AbsR, RMul;
    var r := rint(x / s);
    Scaled(x, qmax, s, x / s, r);
    v := Clamped(r, qmax, low);
  }

  /** the codes of the first n weights, read back from the packed bytes */
  ghost predicate Packed(c: Codes, s: real, w: seq<real>, qmax: int, n: nat)
    requires n <= |w| && Readable(c, n)
  {
    forall k :: 0 <= k < n ==> Stands(Code(c, k), s, w[k], qmax)
  }

  /** the codes hold at least n columns */
  ghost predicate Readable(c: Codes, n: nat) {
    match c
    case F32(_) => false
    case I8(q) => n <= |q|
    case I4(q) => n <= 2 * |q|
    case I2(q) => n <= 4 * |q|
  }

  /** what a row of weights is after packing: the matrix row it makes has every weight to half a step of its scale */
  ghost predicate Restores(c: Codes, s: real, w: seq<real>) {
    && Matrix(|w|, [c], [s]).Valid()
    && forall i :: 0 <= i < |w| ==> AbsR(Deq(Matrix(|w|, [c], [s]), 0, i) - w[i]) <= 0.5 * s
  }

  lemma PackedRestores(c: Codes, s: real, w: seq<real>, qmax: int)
    requires !c.F32? && Fits(c, |w|) && Readable(c, |w|) && Packed(c, s, w, qmax, |w|)
    ensures Restores(c, s, w)
  {
    hide AbsR, Code;
    forall i | 0 <= i < |w| ensures AbsR(Deq(Matrix(|w|, [c], [s]), 0, i) - w[i]) <= 0.5 * s {
      assert Stands(Code(c, i), s, w[i], qmax);
      Swapped(Code(c, i) as real, s);
    }
  }

  lemma Swapped(a: real, b: real)
    ensures a * b == b * a
  {
  }

  /** quantize_rows on a row: the source's codes of 5 to 8 bits */
  method QuantizeRow(w: seq<real>, qmax: int, rint: real -> int) returns (q: seq<Int8>, s: real)
    requires Nearest(rint) && 1 <= qmax <= 127
    ensures |q| == |w| && s >= 0.00000001 && Packed(I8(q), s, w, qmax, |w|) && Restores(I8(q), s, w)
  {
    hide Stands, AbsR, RMul, Restores;
    s := StepSize(w, qmax, 0.00000001);
    q := [];
    while |q| < |w|
      invariant |q| <= |w| && Packed(I8(q), s, w, qmax, |q|)
    {
      var v := Quantised(w[|q|], s, qmax, -qmax - 1, rint);
      ghost var was := q;
      q := q + [v];
      forall k | 0 <= k < |was| ensures Code(I8(q), k) == Code(I8(was), k) {}
    }
    PackedRestores(I8(q), s, w, qmax);
  }

  /** pack_int4 on a row, odd lengths included: every code read back lies within qmax and stands for its weight to half
      a step, and the step is no smaller than the source's floor */
  method PackInt4(w: seq<real>, qmax: int, rint: real -> int) returns (q: seq<Byte>, s: real)
    requires Nearest(rint) && 1 <= qmax <= 7
    ensures |q| == (|w| + 1) / 2 && s >= 0.00000001 && Packed(I4(q), s, w, qmax, |w|) && Restores(I4(q), s, w)
  {
    hide Stands, AbsR, RMul, Packed, Restores;
    s := StepSize(w, qmax, 0.00000001);
    q := [];
    NonePacked(I4(q), s, w, qmax);
    var i: nat := 0;
    while i < |w|
      invariant i % 2 == 0 && i <= |w| + 1 && |q| == i / 2
      invariant Packed(I4(q), s, w, qmax, if i <= |w| then i else |w|)
    {
      var v0 := Quantised(w[i], s, qmax, -8, rint);
      var v1 := 0;
      if i + 1 < |w| { v1 := Quantised(w[i + 1], s, qmax, -8, rint); }
      Packed4More(q, s, w, qmax, v0, v1);
      q := q + [(v0 + 8) + 16 * (v1 + 8)];
      i := i + 2;
    }
    PackedRestores(I4(q), s, w, qmax);
  }

  lemma NonePacked(c: Codes, s: real, w: seq<real>, qmax: int)
    requires Readable(c, 0)
    ensures Packed(c, s, w, qmax, 0)
  {
  }

  /** one more byte: its two nibbles are the two codes, the earlier ones stay */
  lemma Packed4More(q: seq<Byte>, s: real, w: seq<real>, qmax: int, v0: int, v1: int)
    requires -8 <= v0 <= 7 && -8 <= v1 <= 7 && 2 * |q| < |w| && Packed(I4(q), s, w, qmax, 2 * |q|)
    requires Stands(v0, s, w[2 * |q|], qmax) && (2 * |q| + 1 < |w| ==> Stands(v1, s, w[2 * |q| + 1], qmax))
    ensures var n := 2 * |q| + 2; Packed(I4(q + [(v0 + 8) + 16 * (v1 + 8)]), s, w, qmax, if n <= |w| then n else |w|)
  {
    hide Stands;
    var r := q + [(v0 + 8) + 16 * (v1 + 8)];
    assert Code(I4(r), 2 * |q|) == v0 && Code(I4(r), 2 * |q| + 1) == v1;
    forall k | 0 <= k < 2 * |q| ensures Code(I4(r), k) == Code(I4(q), k) { assert r[k / 2] == q[k / 2]; }
  }

  /** pack_int2 on a row, any length: four codes a byte, from the low bits up */
  method PackInt2(w: seq<real>, qmax: int, rint: real -> int) returns (q: seq<Byte>, s: real)
    requires Nearest(rint) && qmax == 1
    ensures |q| == (|w| + 3) / 4 && s >= 0.00000001 && Packed(I2(q), s, w, qmax, |w|) && Restores(I2(q), s, w)
  {
    hide Stands, AbsR, RMul, Packed, Restores, CodesIn;
    s := StepSize(w, qmax, 0.00000001);
    q := [];
    NonePacked(I2(q), s, w, qmax);
    var i: nat := 0;
    while i < |w|
      invariant i % 4 == 0 && i <= |w| + 3 && |q| == i / 4
      invariant Packed(I2(q), s, w, qmax, if i <= |w| then i else |w|)
    {
      var b, n := TwoBits(w, i, s, qmax, rint);
      Packed2More(q, s, w, qmax, b, n);
      q := q + [b];
      i := i + 4;
    }
    PackedRestores(I2(q), s, w, qmax);
  }

  /** the n codes in the low bits of a byte stand for the weights from i on */
  ghost predicate CodesIn(b: int, w: seq<real>, i: nat, s: real, qmax: int, n: nat)
    requires n <= 4 && i + n <= |w|
  {
    forall j :: 0 <= j < n ==> Stands(b / Pow4(j) % 4 - 2, s, w[i + j], qmax)
  }

  /** one byte: up to four codes, each shifted to its place */
  method TwoBits(w: seq<real>, i: nat, s: real, qmax: int, rint: real -> int) returns (b: Byte, n: nat)
    requires Nearest(rint) && qmax == 1 && i < |w| && s > 0.0
    requires forall k :: 0 <= k < |w| ==> AbsR(w[k]) <= RMul(qmax as real, s)
    ensures n == (if |w| - i < 4 then |w| - i else 4) && CodesIn(b, w, i, s, qmax, n)
  {
    hide Stands, AbsR, RMul, CodesIn;
    b, n := 0, 0;
    NoCodes(b, w, i, s, qmax);
    while n < 4 && i + n < |w|
      invariant n <= 4 && i + n <= |w| && (n < 4 ==> b < Pow4(n)) && CodesIn(b, w, i, s, qmax, n)
    {
      var v := Quantised(w[i + n], s, qmax, -2, rint);
      OneCode(b, v, w, i, s, qmax, n);
      b := b + (v + 2) * Pow4(n);
      n := n + 1;
    }
  }

  lemma NoCodes(b: int, w: seq<real>, i: nat, s: real, qmax: int)
    requires i <= |w|
    ensures CodesIn(b, w, i, s, qmax, 0)
  {
  }

  lemma OneCode(b: int, v: int, w: seq<real>, i: nat, s: real, qmax: int, n: nat)
    requires n < 4 && i + n < |w| && 0 <= b < Pow4(n) && -2 <= v <= 1
    requires CodesIn(b, w, i, s, qmax, n) && Stands(v, s, w[i + n], qmax)
    ensures var c := b + (v + 2) * Pow4(n);
      0 <= c < 256 && (n < 3 ==> c < Pow4(n + 1)) && CodesIn(c, w, i, s, qmax, n + 1)
  {
    hide Stands;
    var c := b + (v + 2) * Pow4(n);
    Digits(b, v + 2, n);
    forall j | 0 <= j < n ensures Stands(c / Pow4(j) % 4 - 2, s, w[i + j], qmax) {
      assert Stands(b / Pow4(j) % 4 - 2, s, w[i + j], qmax);
    }
  }

  /** a digit put above the others is read back, and so are they */
  lemma Digits(b: int, d: int, n: nat)
    requires n < 4 && 0 <= b < Pow4(n) && 0 <= d < 4
    ensures var c := b + d * Pow4(n); 0 <= c < 256 && (n < 3 ==> c < Pow4(n + 1)) && c / Pow4(n) % 4 == d
    ensures forall j :: 0 <= j < n ==> (b + d * Pow4(n)) / Pow4(j) % 4 == b / Pow4(j) % 4
  {
    if n == 1 {
      Digit4(b, d);
    } else if n == 2 {
      Digit16(b, d);
    } else if n == 3 {
      Digit64(b, d);
    }
  }

  lemma Digit4(b: int, d: int)
    requires 0 <= b < 4 && 0 <= d < 4
    ensures (b + d * 4) / 4 % 4 == d && (b + d * 4) % 4 == b % 4
  {
  }

  lemma Digit16(b: int, d: int)
    requires 0 <= b < 16 && 0 <= d < 4
    ensures (b + d * 16) / 16 % 4 == d && (b + d * 16) % 4 == b % 4 && (b + d * 16) / 4 % 4 == b / 4 % 4
  {
    assert (b + d * 16) / 16 == d;
    By4(b, 4 * d);
    LowDigit(b, 4 * d);
    LowDigit(b / 4, d);
  }

  lemma By4(x: int, y: int)
    requires 0 <= x && 0 <= y
    ensures (x + 4 * y) / 4 == x / 4 + y
  {
  }

  lemma LowDigit(x: int, y: int)
    requires 0 <= x && 0 <= y
    ensures (x + 4 * y) % 4 == x % 4
  {
  }

  lemma Digit64(b: int, d: int)
    requires 0 <= b < 64 && 0 <= d < 4
    ensures (b + d * 64) / 64 % 4 == d && (b + d * 64) % 4 == b % 4
    ensures (b + d * 64) / 4 % 4 == b / 4 % 4 && (b + d * 64) / 16 % 4 == b / 16 % 4
  {
    var c := b + d * 64;
    Top64(b, d);
    By4(b, 16 * d);
    By4(b / 4, 4 * d);
    Twice4(c);
    Twice4(b);
    LowDigit(b, 16 * d);
    LowDigit(b / 4, 4 * d);
    LowDigit(b / 16, d);
  }

  lemma Top64(b: int, d: int)
    requires 0 <= b < 64 && 0 <= d < 4
    ensures (b + d * 64) / 64 == d
  {
  }

  lemma Twice4(x: int)
    requires 0 <= x
    ensures x / 16 == x / 4 / 4
  {
  }

  lemma Packed2More(q: seq<Byte>, s: real, w: seq<real>, qmax: int, b: Byte, n: nat)
    requires 4 * |q| < |w| && n == (if |w| - 4 * |q| < 4 then |w| - 4 * |q| else 4)
    requires Packed(I2(q), s, w, qmax, 4 * |q|) && CodesIn(b, w, 4 * |q|, s, qmax, n)
    ensures Packed(I2(q + [b]), s, w, qmax, 4 * |q| + n)
  {
    hide Stands, Code;
    forall k: nat | k < 4 * |q| + n ensures Stands(Code(I2(q + [b]), k), s, w[k], qmax) {
      if k < 4 * |q| {
        OldCode(q, b, k);
        assert Stands(Code(I2(q), k), s, w[k], qmax);
      } else {
        var j := k - 4 * |q|;
        NewCode(q, b, j);
        assert Stands(b / Pow4(j) % 4 - 2, s, w[4 * |q| + j], qmax);
      }
    }
  }

  lemma OldCode(q: seq<Byte>, b: Byte, k: nat)
    requires k < 4 * |q|
    ensures Code(I2(q + [b]), k) == Code(I2(q), k)
  {
    assert (q + [b])[k / 4] == q[k / 4];
  }

  lemma NewCode(q: seq<Byte>, b: Byte, j: nat)
    requires j < 4
    ensures Code(I2(q + [b]), 4 * |q| + j) == b / Pow4(j) % 4 - 2
  {
    hide Pow4;
    assert (4 * |q| + j) / 4 == |q| && (4 * |q| + j) % 4 == j && (q + [b])[|q|] == b;
  }
}
