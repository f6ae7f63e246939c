/** Row access to a quantised weight matrix (`qt_addrow`, `qt_matvec_rows`), formats 0 to 3.

    `Deq` is the weight a stored code stands for.  A matrix keeps one code sequence per row. */
module Quant {
  type Byte = x: int | 0 <= x < 256
  type Int8 = x: int | -128 <= x < 128

  datatype Codes =
    | F32(w: seq<real>)        // fmt 0
    | I8(q8: seq<Int8>)        // fmt 1
    | I4(q4: seq<Byte>)        // fmt 2: two codes a byte, low nibble first, stored + 8
    | I2(q2: seq<Byte>)        // fmt 3: four codes a byte, stored + 2

  datatype Matrix = Matrix(I: nat, rows: seq<Codes>, scale: seq<real>) {
    ghost predicate Valid() {
      |scale| == |rows| && forall r :: 0 <= r < |rows| ==> Fits(rows[r], I)
    }
  }

  ghost predicate Fits(c: Codes, n: nat) {
    match c
    case F32(w) => |w| == n
    case I8(q) => |q| == n
    case I4(q) => |q| == (n + 1) / 2
    case I2(q) => |q| == (n + 3) / 4
  }

  function Pow4(k: nat): nat
    requires k < 4
  {
    if k == 0 then 1 else if k == 1 then 4 else if k == 2 then 16 else 64
  }

  /** the integer code at column i, with its bias removed; F32 rows have no code */
  function Code(c: Codes, i: nat): int
    requires c.I8? ==> i < |c.q8|
    requires c.I4? ==> i / 2 < |c.q4|
    requires c.I2? ==> i / 4 < |c.q2|
  {
    match c
    case F32(_) => 0
    case I8(q) => q[i]
    case I4(q) => var b: int := q[i / 2]; (if i % 2 == 0 then b % 16 else b / 16) - 8
    case I2(q) => var b: int := q[i / 4]; (b / Pow4(i % 4)) % 4 - 2
  }

  /** the weight at row r, column i */
  ghost function Deq(t: Matrix, r: nat, i: nat): real
    requires t.Valid() && r < |t.rows| && i < t.I
  {
    if t.rows[r].F32? then t.rows[r].w[i] else t.scale[r] * (Code(t.rows[r], i) as real)
  }

  ghost function Row(t: Matrix, r: nat): (w: seq<real>)
    requires t.Valid() && r < |t.rows|
    ensures |w| == t.I
  {
    seq(t.I, i requires 0 <= i < t.I => Deq(t, r, i))
  }

  /** inner product of the first n entries */
  ghost function Dot(a: seq<real>, b: seq<real>, n: nat): real
    requires n <= |a| && n <= |b|
  {
    if n == 0 then 0.0 else Dot(a, b, n - 1) + a[n - 1] * b[n - 1]
  }

  function Fma(a: real, c: real, b: real): real {
    a + c * b
  }

  // ---------- qt_addrow ----------

  ghost predicate Added(t: Matrix, r: nat, coef: real, was: seq<real>, acc: seq<real>, n: nat)
    requires t.Valid() && r < |t.rows| && n <= t.I
  {
    |acc| == |was| && t.I <= |was|
    && (forall i :: 0 <= i < n ==> acc[i] == Fma(was[i], coef, Deq(t, r, i)))
    && (forall i :: n <= i < |was| ==> acc[i] == was[i])
  }

  /** one more column added */
  lemma AddedOne(t: Matrix, r: nat, coef: real, was: seq<real>, acc: seq<real>, i: nat, acc': seq<real>)
    requires t.Valid() && r < |t.rows| && i < t.I && Added(t, r, coef, was, acc, i)
    requires acc' == acc[i := Fma(acc[i], coef, Deq(t, r, i))]
    ensures Added(t, r, coef, was, acc', i + 1)
  {
  }

  /** the scale is folded into the coefficient before the loop */
  lemma Folded(t: Matrix, r: nat, coef: real, i: nat, c: real, q: int)
    requires t.Valid() && r < |t.rows| && i < t.I && !t.rows[r].F32?
    requires c == coef * t.scale[r] && q == Code(t.rows[r], i)
    ensures forall x :: Fma(x, c, q as real) == Fma(x, coef, Deq(t, r, i))
  {
    hide Code;
    MulAssoc(coef, t.scale[r], q as real);
  }

  lemma MulAssoc(a: real, b: real, c: real)
    ensures a * b * c == a * (b * c)
  {
  }

  /** acc[i] += c * code, at column i */
  method AddAt(t: Matrix, r: nat, coef: real, i: nat, c: real, q: int, acc: array<real>, ghost was: seq<real>)
    requires t.Valid() && r < |t.rows| && i < t.I <= acc.Length && !t.rows[r].F32?
    requires c == coef * t.scale[r] && q == Code(t.rows[r], i) && Added(t, r, coef, was, acc[..], i)
    modifies acc
    ensures Added(t, r, coef, was, acc[..], i + 1)
  {
    hide Code, Deq, Added;
    Folded(t, r, coef, i, c, q);
    ghost var before := acc[..];
    acc[i] := Fma(acc[i], c, q as real);
    AddedOne(t, r, coef, was, before, i, acc[..]);
  }

  /** acc += coef * W[r, :], two nibbles a turn in format 2 */
  method AddRow(t: Matrix, r: nat, coef: real, acc: array<real>)
    requires t.Valid() && r < |t.rows| && t.I <= acc.Length
    modifies acc
    ensures Added(t, r, coef, old(acc[..]), acc[..], t.I)
  {
    var codes, n := t.rows[r], t.I;
    ghost var was := acc[..];
    if codes.F32? { AddRowF32(t, r, coef, acc); return; }
    var c := coef * t.scale[r];
    var i := 0;
    if codes.I8? {
      while i < n
        invariant 0 <= i <= n && Added(t, r, coef, was, acc[..], i)
      {
        AddAt(t, r, coef, i, c, codes.q8[i], acc, was);
        i := i + 1;
      }
    } else if codes.I4? {
      AddRowI4(t, r, coef, acc);
    } else {
      while i < n
        invariant 0 <= i <= n && Added(t, r, coef, was, acc[..], i)
      {
        var b: int := codes.q2[i / 4];
        AddAt(t, r, coef, i, c, (b / Pow4(i % 4)) % 4 - 2, acc, was);
        i := i + 1;
      }
    }
  }

  method AddRowF32(t: Matrix, r: nat, coef: real, acc: array<real>)
    requires t.Valid() && r < |t.rows| && t.I <= acc.Length && t.rows[r].F32?
    modifies acc
    ensures Added(t, r, coef, old(acc[..]), acc[..], t.I)
  {
    ghost var was := acc[..];
    var i := 0;
    while i < t.I
      invariant 0 <= i <= t.I && Added(t, r, coef, was, acc[..], i)
    {
      ghost var before := acc[..];
      acc[i] := Fma(acc[i], coef, t.rows[r].w[i]);
      AddedOne(t, r, coef, was, before, i, acc[..]);
      i := i + 1;
    }
  }

  lemma AddedNone(t: Matrix, r: nat, coef: real, was: seq<real>)
    requires t.Valid() && r < |t.rows| && t.I <= |was|
    ensures Added(t, r, coef, was, was, 0)
  {
  }

  method AddRowI4(t: Matrix, r: nat, coef: real, acc: array<real>)
    requires t.Valid() && r < |t.rows| && t.I <= acc.Length && t.rows[r].I4?
    modifies acc
    ensures Added(t, r, coef, old(acc[..]), acc[..], t.I)
  {
    hide Added, Deq;
    ghost var was := acc[..];
    AddedNone(t, r, coef, was);
    var c, n, i := coef * t.scale[r], t.I, 0;
    while i + 1 < n
      invariant 0 <= i <= n && i % 2 == 0 && Added(t, r, coef, was, acc[..], i)
    {
      var b: int := t.rows[r].q4[i / 2];
      assert (i + 1) / 2 == i / 2 && (i + 1) % 2 == 1;
      AddAt(t, r, coef, i, c, b % 16 - 8, acc, was);
      AddAt(t, r, coef, i + 1, c, b / 16 - 8, acc, was);
      i := i + 2;
    }
    if n % 2 == 1 {
      var b: int := t.rows[r].q4[n / 2];
      AddAt(t, r, coef, n - 1, c, b % 16 - 8, acc, was);
    }
  }

  // ---------- qt_matvec_rows ----------

  /** sum of code * x over the first n columns, before the row scale */
  ghost function CodeDot(c: Codes, x: seq<real>, n: nat): real
    requires !c.F32? && Fits(c, |x|) && n <= |x|
  {
    if n == 0 then 0.0 else CodeDot(c, x, n - 1) + Prod(Code(c, n - 1), x[n - 1])
  }

  function Prod(q: int, x: real): real {
    (q as real) * x
  }

  lemma {:induction false} CodeDotScaled(t: Matrix, r: nat, x: seq<real>, n: nat)
    requires t.Valid() && r < |t.rows| && |x| == t.I && n <= t.I && !t.rows[r].F32?
    ensures CodeDot(t.rows[r], x, n) * t.scale[r] == Dot(Row(t, r), x, n)
  {
    hide Prod, Deq, Code;
    if n > 0 {
      CodeDotScaled(t, r, x, n - 1);
      var q, s, w := Code(t.rows[r], n - 1), t.scale[r], Row(t, r);
      DeqCode(t, r, n - 1);
      assert w[n - 1] == s * (q as real);
      ScaleStep(CodeDot(t.rows[r], x, n - 1), q, x[n - 1], s, w[n - 1]);
    }
  }

  lemma DeqCode(t: Matrix, r: nat, i: nat)
    requires t.Valid() && r < |t.rows| && i < t.I && !t.rows[r].F32?
    ensures Deq(t, r, i) == t.scale[r] * (Code(t.rows[r], i) as real)
  {
  }

  lemma ScaleStep(a: real, q: int, x: real, s: real, w: real)
    requires w == s * (q as real)
    ensures (a + Prod(q, x)) * s == a * s + w * x
  {
    var r := q as real;
    assert (a + r * x) * s == a * s + (r * x) * s;
    assert (r * x) * s == (s * r) * x;
  }

  /** W[r, :] . x */
  method MatvecRow(t: Matrix, r: nat, x: seq<real>) returns (y: real)
    requires t.Valid() && r < |t.rows| && |x| == t.I
    ensures y == Dot(Row(t, r), x, t.I)
  {
    hide Dot, CodeDot, Fits;
    if t.rows[r].F32? {
      y := FloatSum(t, r, x);
    } else {
      var acc := CodeSum(t.rows[r], x);
      y := acc * t.scale[r];
      CodeDotScaled(t, r, x, t.I);
    }
  }

  method FloatSum(t: Matrix, r: nat, x: seq<real>) returns (y: real)
    requires t.Valid() && r < |t.rows| && |x| == t.I && t.rows[r].F32?
    ensures y == Dot(Row(t, r), x, t.I)
  {
    var i := 0;
    y := 0.0;
    while i < t.I
      invariant 0 <= i <= t.I && y == Dot(Row(t, r), x, i)
    {
      y := y + t.rows[r].w[i] * x[i];
      i := i + 1;
    }
  }

  method CodeSum(codes: Codes, x: seq<real>) returns (acc: real)
    requires !codes.F32? && Fits(codes, |x|)
    ensures acc == CodeDot(codes, x, |x|)
  {
    hide Prod;
    if codes.I4? { acc := NibbleSum(codes, x); return; }
    var n, i := |x|, 0;
    acc := 0.0;
    while i < n
      invariant 0 <= i <= n && acc == CodeDot(codes, x, i)
    {
      var q: int;
      if codes.I8? { q := codes.q8[i]; } else { var b: int := codes.q2[i / 4]; q := (b / Pow4(i % 4)) % 4 - 2; }
      acc := acc + Prod(q, x[i]);
      i := i + 1;
    }
  }

  method NibbleSum(codes: Codes, x: seq<real>) returns (acc: real)
    requires codes.I4? && Fits(codes, |x|)
    ensures acc == CodeDot(codes, x, |x|)
  {
    hide Prod;
    var n, i := |x|, 0;
    acc := 0.0;
    while i + 1 < n
      invariant 0 <= i <= n && i % 2 == 0 && acc == CodeDot(codes, x, i)
    {
      var b: int := codes.q4[i / 2];
      assert (i + 1) / 2 == i / 2 && (i + 1) % 2 == 1;
      assert CodeDot(codes, x, i + 1) == acc + Prod(b % 16 - 8, x[i]);
      acc := acc + (Prod(b % 16 - 8, x[i]) + Prod(b / 16 - 8, x[i + 1]));
      i := i + 2;
    }
    if n % 2 == 1 {
      var b: int := codes.q4[n / 2];
      acc := acc + Prod(b % 16 - 8, x[n - 1]);
    }
  }

  /** y[0..n) = W[r0 + j, :] . x */
  method MatvecRows(t: Matrix, r0: nat, n: nat, x: seq<real>) returns (y: seq<real>)
    requires t.Valid() && r0 + n <= |t.rows| && |x| == t.I
    ensures |y| == n && forall j :: 0 <= j < n ==> y[j] == Dot(Row(t, r0 + j), x, t.I)
  {
    y := [];
    while |y| < n
      invariant |y| <= n && forall j :: 0 <= j < |y| ==> y[j] == Dot(Row(t, r0 + j), x, t.I)
    {
      var v := MatvecRow(t, r0 + |y|, x);
      y := y + [v];
    }
  }
}
