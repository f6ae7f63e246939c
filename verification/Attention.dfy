/** One attention head over the compressed cache: the absorbed form and the reconstructing form of `attention_rows`.

    The head owns `nope` key rows and then `vh` value rows of the matrix kv_b, from row `rbase` on.  For a position
    the cache holds its latent and its rotary key.  `HeadOut` rebuilds key and value of every listed position; the
    absorbed form never does, and yields the same. */
module Attention {
  import opened Sampling
  import opened Quant

  datatype Head = Head(t: Matrix, rbase: nat, nope: nat, vh: nat, scale: real) {
    ghost predicate Valid() {
      t.Valid() && rbase + nope + vh <= |t.rows|
    }
    ghost function Key(d: nat): (w: seq<real>)
      requires Valid() && d < nope
      ensures |w| == t.I
    {
      Row(t, rbase + d)
    }
    ghost function Value(d: nat): (w: seq<real>)
      requires Valid() && d < vh
      ensures |w| == t.I
    {
      Row(t, rbase + nope + d)
    }
  }

  /** latent and rotary key of every cached position */
  datatype Kv = Kv(latent: seq<seq<real>>, rope: seq<seq<real>>) {
    ghost predicate Valid(kvl: nat, r: nat) {
      |latent| == |rope| && forall p :: 0 <= p < |latent| ==> |latent[p]| == kvl && |rope[p]| == r
    }
  }

  // ---------- softmax ----------

  function MaxFrom(m: real, x: seq<real>, n: nat): (r: real)
    requires n <= |x|
    ensures r >= m && (forall i :: 0 <= i < n ==> x[i] <= r) && (r == m || exists i :: 0 <= i < n && x[i] == r)
  {
    if n == 0 then m
    else var r := MaxFrom(m, x, n - 1); if x[n - 1] > r then x[n - 1] else r
  }

  const FLOOR := -1000000000000000000000000000000.0

  ghost function Exps(x: seq<real>, exp: real -> real): seq<real> {
    seq(|x|, i requires 0 <= i < |x| => exp(x[i] - MaxFrom(FLOOR, x, |x|)))
  }

  ghost predicate Positive(exp: real -> real) {
    forall z :: exp(z) > 0.0
  }

  lemma {:induction false} SumPositive(e: seq<real>)
    requires e != [] && forall i :: 0 <= i < |e| ==> e[i] > 0.0
    ensures Sum(e) > 0.0
  {
    if |e| > 1 { SumPositive(e[..|e| - 1]); } else { assert e[..0] == [] && Sum(e[..0]) == 0.0; }
  }

  lemma ExpsSum(x: seq<real>, exp: real -> real)
    requires x != [] && Positive(exp)
    ensures Sum(Exps(x, exp)) > 0.0
  {
    SumPositive(Exps(x, exp));
  }

  ghost function Softmax(x: seq<real>, exp: real -> real): (a: seq<real>)
    requires Positive(exp)
    ensures |a| == |x|
  {
    if x == [] then []
    else
      ExpsSum(x, exp);
      seq(|x|, i requires 0 <= i < |x| => Exps(x, exp)[i] / Sum(Exps(x, exp)))
  }

  method SoftmaxOf(x: seq<real>, exp: real -> real) returns (a: seq<real>)
    requires Positive(exp)
    ensures a == Softmax(x, exp)
  {
    hide Positive, MaxFrom, Exps;
    var m, i := FLOOR, 0;
    MaxStart(m, x);
    while i < |x|
      invariant 0 <= i <= |x| && m == MaxFrom(FLOOR, x, i)
    {
      MaxStep(FLOOR, x, i);
      if x[i] > m { m := x[i]; }
      i := i + 1;
    }
    var e, s := ExpsOf(x, m, exp);
    if x == [] { return []; }
    ExpsSum(x, exp);
    a := [];
    while |a| < |x|
      invariant |a| <= |x| && forall j :: 0 <= j < |a| ==> a[j] == e[j] / s
    {
      a := a + [e[|a|] / s];
    }
  }

  lemma MaxStart(m: real, x: seq<real>)
    ensures MaxFrom(m, x, 0) == m
  {
  }

  lemma MaxStep(m: real, x: seq<real>, i: nat)
    requires i < |x|
    ensures MaxFrom(m, x, i + 1) == var r := MaxFrom(m, x, i); if x[i] > r then x[i] else r
  {
  }

  /** the exponentials and their running sum */
  method ExpsOf(x: seq<real>, m: real, exp: real -> real) returns (e: seq<real>, s: real)
    requires m == MaxFrom(FLOOR, x, |x|)
    ensures e == Exps(x, exp) && |e| == |x| && s == Sum(e)
  {
    hide MaxFrom;
    e, s := [], 0.0;
    while |e| < |x|
      invariant |e| <= |x| && (forall j :: 0 <= j < |e| ==> e[j] == exp(x[j] - m)) && s == Sum(e)
    {
      var v := exp(x[|e|] - m);
      assert (e + [v])[..|e|] == e;
      e, s := e + [v], s + v;
    }
  }

  // ---------- the reconstructing form ----------

  /** q . k of the non-rotary part, over the first n of the head's key rows */
  ghost function QK(hd: Head, q: seq<real>, latent: seq<real>, n: nat): real
    requires hd.Valid() && n <= hd.nope <= |q| && |latent| == hd.t.I
  {
    if n == 0 then 0.0 else QK(hd, q, latent, n - 1) + q[n - 1] * Dot(hd.Key(n - 1), latent, hd.t.I)
  }

  /** score of cached position p */
  ghost function Score(hd: Head, q: seq<real>, qr: seq<real>, kv: Kv, p: nat): real
    requires hd.Valid() && hd.nope <= |q| && kv.Valid(hd.t.I, |qr|) && p < |kv.latent|
  {
    (QK(hd, q, kv.latent[p], hd.nope) + Dot(qr, kv.rope[p], |qr|)) * hd.scale
  }

  ghost function Scores(hd: Head, q: seq<real>, qr: seq<real>, kv: Kv, list: seq<nat>): seq<real>
    requires hd.Valid() && hd.nope <= |q| && kv.Valid(hd.t.I, |qr|)
    requires forall j :: 0 <= j < |list| ==> list[j] < |kv.latent|
  {
    seq(|list|, j requires 0 <= j < |list| => Score(hd, q, qr, kv, list[j]))
  }

  /** weighted sum of one value coordinate over the first n listed positions */
  ghost function Mixed(row: seq<real>, a: seq<real>, kv: Kv, list: seq<nat>, n: nat): real
    requires n <= |list| && n <= |a|
    requires forall j :: 0 <= j < |list| ==> list[j] < |kv.latent| && |kv.latent[list[j]]| == |row|
  {
    if n == 0 then 0.0 else Mixed(row, a, kv, list, n - 1) + a[n - 1] * Dot(row, kv.latent[list[n - 1]], |row|)
  }

  ghost predicate Listed(kv: Kv, list: seq<nat>) {
    forall j :: 0 <= j < |list| ==> list[j] < |kv.latent|
  }

  /** the head's context vector over the listed positions */
  ghost function HeadOut(hd: Head, q: seq<real>, qr: seq<real>, kv: Kv, list: seq<nat>, exp: real -> real): seq<real>
    requires hd.Valid() && hd.nope <= |q| && kv.Valid(hd.t.I, |qr|) && Listed(kv, list) && Positive(exp)
  {
    var a := Softmax(Scores(hd, q, qr, kv, list), exp);
    seq(hd.vh, d requires 0 <= d < hd.vh => Mixed(hd.Value(d), a, kv, list, |list|))
  }

  // ---------- the same as attention over rebuilt keys and values ----------

  ghost function Inner(a: seq<real>, b: seq<real>): real
    requires |a| == |b|
  {
    Sum(seq(|a|, i requires 0 <= i < |a| => a[i] * b[i]))
  }

  /** the key of a position: the head's key rows applied to its latent, then its rotary key */
  ghost function FullKey(hd: Head, kv: Kv, p: nat): (k: seq<real>)
    requires hd.Valid() && p < |kv.latent| == |kv.rope| && |kv.latent[p]| == hd.t.I
    ensures |k| == hd.nope + |kv.rope[p]|
  {
    seq(hd.nope, d requires 0 <= d < hd.nope => Inner(Row(hd.t, hd.rbase + d), kv.latent[p])) + kv.rope[p]
  }

  /** coordinate d of the value of a position */
  ghost function ValueAt(hd: Head, kv: Kv, p: nat, d: nat): real
    requires hd.Valid() && p < |kv.latent| && |kv.latent[p]| == hd.t.I && d < hd.vh
  {
    Inner(Row(hd.t, hd.rbase + hd.nope + d), kv.latent[p])
  }

  /** positive weights that add up to 1, ranked as the logits by an increasing exp, in the ratios of the exponential */
  ghost predicate SoftmaxLike(z: seq<real>, a: seq<real>, exp: real -> real) {
    && |a| == |z| && (forall j :: 0 <= j < |a| ==> a[j] > 0.0) && (z != [] ==> Sum(a) == 1.0)
    && (Rising(exp) ==> Ranks(z, a))
    && (Exponential(exp) ==> forall i, j :: 0 <= i < |z| && 0 <= j < |z| ==> a[j] == a[i] * exp(z[j] - z[i]))
  }

  /** the logits: scaled inner products of the whole query with the whole keys */
  ghost predicate Logits(hd: Head, q: seq<real>, qr: seq<real>, kv: Kv, list: seq<nat>, z: seq<real>)
    requires hd.Valid() && hd.nope <= |q| && kv.Valid(hd.t.I, |qr|) && Listed(kv, list)
  {
    |z| == |list| && forall j :: 0 <= j < |list| ==>
        z[j] == hd.scale * Inner(q[..hd.nope] + qr, FullKey(hd, kv, list[j]))
  }

  /** the values mixed by the weights */
  ghost predicate Mixes(hd: Head, kv: Kv, r: nat, list: seq<nat>, a: seq<real>, ctx: seq<real>)
    requires hd.Valid() && kv.Valid(hd.t.I, r) && Listed(kv, list) && |a| == |list|
  {
    |ctx| == hd.vh && forall d: nat :: d < hd.vh ==> ctx[d] == Inner(a, ValuesAt(hd, kv, r, list, d))
  }

  ghost function ValuesAt(hd: Head, kv: Kv, r: nat, list: seq<nat>, d: nat): (v: seq<real>)
    requires hd.Valid() && kv.Valid(hd.t.I, r) && Listed(kv, list) && d < hd.vh
    ensures |v| == |list|
  {
    seq(|list|, j requires 0 <= j < |list| => ValueAt(hd, kv, list[j], d))
  }

  /** ctx is standard attention of the query over the listed positions */
  ghost predicate Attends(hd: Head, q: seq<real>, qr: seq<real>, kv: Kv, list: seq<nat>, exp: real -> real,
                          ctx: seq<real>)
    requires hd.Valid() && hd.nope <= |q| && kv.Valid(hd.t.I, |qr|) && Listed(kv, list)
  {
    exists z: seq<real>, a: seq<real> ::
      Logits(hd, q, qr, kv, list, z) && SoftmaxLike(z, a, exp) && |a| == |list| && Mixes(hd, kv, |qr|, list, a, ctx)
  }

  lemma {:induction false} DotIsSum(a: seq<real>, b: seq<real>, n: nat)
    requires n <= |a| && n <= |b|
    ensures Dot(a, b, n) == Inner(a[..n], b[..n])
  {
    if n > 0 {
      DotIsSum(a, b, n - 1);
      var t, u := Terms(a[..n], b[..n]), Terms(a[..n - 1], b[..n - 1]);
      forall i | 0 <= i < n - 1 ensures t[i] == u[i] {}
      assert t[..n - 1] == u;
      assert t[n - 1] == a[n - 1] * b[n - 1];
    }
  }

  ghost function Terms(a: seq<real>, b: seq<real>): (t: seq<real>)
    requires |a| == |b|
    ensures |t| == |a| && Sum(t) == Inner(a, b)
  {
    seq(|a|, i requires 0 <= i < |a| => a[i] * b[i])
  }

  lemma DotIsInner(a: seq<real>, b: seq<real>)
    requires |a| == |b|
    ensures Dot(a, b, |a|) == Inner(a, b)
  {
    DotIsSum(a, b, |a|);
    assert a[..|a|] == a && b[..|a|] == b;
  }

  /** an inner product of two halves */
  lemma {:induction false} DotAppend(a: seq<real>, b: seq<real>, c: seq<real>, d: seq<real>, n: nat)
    requires |a| == |c| && |b| == |d| && n <= |b|
    ensures Dot(a + b, c + d, |a| + n) == Dot(a, c, |a|) + Dot(b, d, n)
  {
    if n > 0 {
      DotAppend(a, b, c, d, n - 1);
    } else {
      DotPrefix(a, b, c, d, |a|);
    }
  }

  lemma {:induction false} DotPrefix(a: seq<real>, b: seq<real>, c: seq<real>, d: seq<real>, n: nat)
    requires |a| == |c| && |b| == |d| && n <= |a|
    ensures Dot(a + b, c + d, n) == Dot(a, c, n)
  {
    if n > 0 { DotPrefix(a, b, c, d, n - 1); }
  }

  lemma {:induction false} QKIs(hd: Head, q: seq<real>, keys: seq<real>, latent: seq<real>, n: nat)
    requires hd.Valid() && n <= hd.nope <= |q| && |latent| == hd.t.I && |keys| == hd.nope
    requires forall d :: 0 <= d < hd.nope ==> keys[d] == Inner(Row(hd.t, hd.rbase + d), latent)
    ensures QK(hd, q, latent, n) == Dot(q[..hd.nope], keys, n)
  {
    hide Row, Inner;
    if n > 0 {
      QKIs(hd, q, keys, latent, n - 1);
      DotIsInner(Row(hd.t, hd.rbase + n - 1), latent);
    }
  }

  lemma ScoreIs(hd: Head, q: seq<real>, qr: seq<real>, kv: Kv, p: nat)
    requires hd.Valid() && hd.nope <= |q| && kv.Valid(hd.t.I, |qr|) && p < |kv.latent|
    ensures Score(hd, q, qr, kv, p) == hd.scale * Inner(q[..hd.nope] + qr, FullKey(hd, kv, p))
  {
    hide Row, Inner, Dot, QK;
    var keys := seq(hd.nope, d requires 0 <= d < hd.nope => Inner(Row(hd.t, hd.rbase + d), kv.latent[p]));
    QKIs(hd, q, keys, kv.latent[p], hd.nope);
    DotAppend(q[..hd.nope], qr, keys, kv.rope[p], |qr|);
    DotIsInner(q[..hd.nope] + qr, keys + kv.rope[p]);
    ScaleFirst(Inner(q[..hd.nope] + qr, keys + kv.rope[p]), hd.scale);
  }

  lemma ScaleFirst(a: real, c: real)
    ensures a * c == c * a
  {
  }

  lemma {:induction false} MixedIs(hd: Head, kv: Kv, r: nat, list: seq<nat>, a: seq<real>, d: nat, n: nat)
    requires hd.Valid() && kv.Valid(hd.t.I, r) && Listed(kv, list) && |a| == |list| && d < hd.vh && n <= |list|
    ensures Mixed(hd.Value(d), a, kv, list, n) == Dot(a, ValuesAt(hd, kv, r, list, d), n)
  {
    hide Row, Inner;
    if n > 0 {
      MixedIs(hd, kv, r, list, a, d, n - 1);
      DotIsInner(hd.Value(d), kv.latent[list[n - 1]]);
    }
  }

  lemma SoftmaxIs(z: seq<real>, exp: real -> real)
    requires Positive(exp)
    ensures SoftmaxLike(z, Softmax(z, exp), exp)
  {
    hide Sum, MaxFrom, Rising, Exponential, Ranks, Exps, Softmax, Positive;
    SoftShares(z, exp);
    SoftSums(z, exp);
    if Rising(exp) { SoftRanked(z, exp); }
    if Exponential(exp) { SoftExpRatios(z, exp); }
  }

  lemma SoftShares(z: seq<real>, exp: real -> real)
    requires Positive(exp)
    ensures |Exps(z, exp)| == |z|
    ensures forall j :: 0 <= j < |z| ==>
              var e, s, a := Exps(z, exp)[j], Sum(Exps(z, exp)), Softmax(z, exp)[j];
              e == exp(z[j] - MaxFrom(FLOOR, z, |z|)) > 0.0 && s > 0.0 && a * s == e && a > 0.0
  {
    hide Sum, MaxFrom;
    if z != [] { ExpsSum(z, exp); }
    forall j | 0 <= j < |z|
      ensures Softmax(z, exp)[j] * Sum(Exps(z, exp)) == Exps(z, exp)[j] && Softmax(z, exp)[j] > 0.0
    {
      SharePositive(Exps(z, exp)[j], Sum(Exps(z, exp)));
    }
  }

  lemma SoftSums(z: seq<real>, exp: real -> real)
    requires Positive(exp)
    ensures z != [] ==> Sum(Softmax(z, exp)) == 1.0
  {
    hide Sum, MaxFrom, Exps, Softmax, Positive;
    SoftShares(z, exp);
    if z != [] {
      assert Exps(z, exp)[0] > 0.0;
      SumScaled(Exps(z, exp), Softmax(z, exp), Sum(Exps(z, exp)));
    }
  }

  lemma SoftRanked(z: seq<real>, exp: real -> real)
    requires Positive(exp) && Rising(exp)
    ensures Ranks(z, Softmax(z, exp))
  {
    hide Sum, MaxFrom, Exps, Softmax, Positive, Rising;
    SoftShares(z, exp);
    var m := MaxFrom(FLOOR, z, |z|);
    forall i, j | 0 <= i < |z| && 0 <= j < |z| && z[i] < z[j] ensures Softmax(z, exp)[i] < Softmax(z, exp)[j] {
      RisesTo(exp, z[i] - m, z[j] - m);
      CancelLess(Softmax(z, exp)[i], Softmax(z, exp)[j], Sum(Exps(z, exp)));
    }
  }

  lemma SoftExpRatios(z: seq<real>, exp: real -> real)
    requires Positive(exp) && Exponential(exp)
    ensures forall i, j :: 0 <= i < |z| && 0 <= j < |z| ==> Softmax(z, exp)[j] == Softmax(z, exp)[i] * exp(z[j] - z[i])
  {
    hide Sum, MaxFrom, Exps, Softmax, Positive, Exponential;
    SoftShares(z, exp);
    var m, e := MaxFrom(FLOOR, z, |z|), Exps(z, exp);
    forall i, j | 0 <= i < |z| && 0 <= j < |z| ensures Softmax(z, exp)[j] == Softmax(z, exp)[i] * exp(z[j] - z[i]) {
      ExpOfSum(exp, z[i] - m, z[j] - z[i], z[j] - m);
      ShareRatio(Softmax(z, exp)[i], Softmax(z, exp)[j], Sum(e), e[i], e[j], exp(z[j] - z[i]));
    }
  }

  lemma SharePositive(e: real, s: real)
    requires e > 0.0 && s > 0.0
    ensures (e / s) * s == e && e / s > 0.0
  {
  }

  lemma SumScaled(e: seq<real>, a: seq<real>, s: real)
    requires |a| == |e| && s == Sum(e) > 0.0 && forall j :: 0 <= j < |e| ==> a[j] * s == e[j]
    ensures Sum(a) == 1.0
  {
    SumScale(a, e, s);
    Cancel(Sum(a), 1.0, s);
  }

  /** rebuilding keys and values and mixing by the softmax of the scores is standard attention */
  lemma HeadOutIs(hd: Head, q: seq<real>, qr: seq<real>, kv: Kv, list: seq<nat>, exp: real -> real)
    requires hd.Valid() && hd.nope <= |q| && kv.Valid(hd.t.I, |qr|) && Listed(kv, list) && Positive(exp)
    ensures Attends(hd, q, qr, kv, list, exp, HeadOut(hd, q, qr, kv, list, exp))
  {
    hide Score, FullKey, Inner, Mixed, Row, SoftmaxLike, Positive, Softmax, ValuesAt;
    var z := Scores(hd, q, qr, kv, list);
    forall j | 0 <= j < |list| ensures z[j] == hd.scale * Inner(q[..hd.nope] + qr, FullKey(hd, kv, list[j])) {
      ScoreIs(hd, q, qr, kv, list[j]);
    }
    SoftmaxIs(z, exp);
    var a, ctx := Softmax(z, exp), HeadOut(hd, q, qr, kv, list, exp);
    forall d: nat | d < hd.vh ensures ctx[d] == Inner(a, ValuesAt(hd, kv, |qr|, list, d)) {
      MixedIs(hd, kv, |qr|, list, a, d, |list|);
      DotIsInner(a, ValuesAt(hd, kv, |qr|, list, d));
    }
    assert Logits(hd, q, qr, kv, list, z) && Mixes(hd, kv, |qr|, list, a, ctx);
  }

  // ---------- linearity ----------

  ghost function Axpy(a: seq<real>, c: real, b: seq<real>): (r: seq<real>)
    requires |a| == |b|
    ensures |r| == |a|
  {
    seq(|a|, i requires 0 <= i < |a| => Fma(a[i], c, b[i]))
  }

  ghost function Zeros(n: nat): (r: seq<real>)
    ensures |r| == n
  {
    seq(n, i => 0.0)
  }

  lemma {:induction false} DotAxpy(a: seq<real>, c: real, b: seq<real>, x: seq<real>, n: nat)
    requires |a| == |b| && n <= |a| && n <= |x|
    ensures Dot(Axpy(a, c, b), x, n) == Dot(a, x, n) + c * Dot(b, x, n)
  {
    if n > 0 {
      DotAxpy(a, c, b, x, n - 1);
      Spread(a[n - 1], c, b[n - 1], x[n - 1], Dot(b, x, n - 1));
    }
  }

  lemma Spread(a: real, c: real, b: real, x: real, s: real)
    ensures (a + c * b) * x + c * s == a * x + c * (s + b * x)
  {
    assert (a + c * b) * x == a * x + c * b * x;
    assert c * (s + b * x) == c * s + c * (b * x);
    assert c * b * x == c * (b * x);
  }

  lemma {:induction false} DotZeros(m: nat, x: seq<real>, n: nat)
    requires n <= m && n <= |x|
    ensures Dot(Zeros(m), x, n) == 0.0
  {
    if n > 0 { DotZeros(m, x, n - 1); }
  }

  lemma {:induction false} DotComm(a: seq<real>, b: seq<real>, n: nat)
    requires n <= |a| && n <= |b|
    ensures Dot(a, b, n) == Dot(b, a, n)
  {
    if n > 0 { DotComm(a, b, n - 1); }
  }

  // ---------- the absorbed form ----------

  /** W_K^T q: the query carried into latent space */
  ghost function Qabs(hd: Head, q: seq<real>, n: nat): (r: seq<real>)
    requires hd.Valid() && n <= hd.nope <= |q|
    ensures |r| == hd.t.I
  {
    if n == 0 then Zeros(hd.t.I) else Axpy(Qabs(hd, q, n - 1), q[n - 1], hd.Key(n - 1))
  }

  /** sum of a_j L_j: the context in latent space */
  ghost function Clat(kvl: nat, a: seq<real>, kv: Kv, list: seq<nat>, n: nat): (r: seq<real>)
    requires n <= |list| && n <= |a|
    requires forall j :: 0 <= j < |list| ==> list[j] < |kv.latent| && |kv.latent[list[j]]| == kvl
    ensures |r| == kvl
  {
    if n == 0 then Zeros(kvl) else Axpy(Clat(kvl, a, kv, list, n - 1), a[n - 1], kv.latent[list[n - 1]])
  }

  /** scoring in latent space gives the reconstructed score */
  lemma {:induction false} AbsorbedScore(hd: Head, q: seq<real>, latent: seq<real>, n: nat)
    requires hd.Valid() && n <= hd.nope <= |q| && |latent| == hd.t.I
    ensures Dot(Qabs(hd, q, n), latent, hd.t.I) == QK(hd, q, latent, n)
  {
    hide Dot, Axpy, Zeros, Row;
    if n == 0 {
      DotZeros(hd.t.I, latent, hd.t.I);
    } else {
      AbsorbedScore(hd, q, latent, n - 1);
      var was, key := Qabs(hd, q, n - 1), hd.Key(n - 1);
      DotAxpy(was, q[n - 1], key, latent, hd.t.I);
      var k := Dot(key, latent, hd.t.I);
      assert Qabs(hd, q, n) == Axpy(was, q[n - 1], key);
      assert Dot(Qabs(hd, q, n), latent, hd.t.I) == QK(hd, q, latent, n - 1) + q[n - 1] * k;
      assert QK(hd, q, latent, n) == QK(hd, q, latent, n - 1) + q[n - 1] * k;
    }
  }

  /** projecting the latent context gives the mix of the reconstructed values */
  lemma {:induction false} AbsorbedValue(row: seq<real>, a: seq<real>, kv: Kv, list: seq<nat>, n: nat)
    requires n <= |list| && n <= |a|
    requires forall j :: 0 <= j < |list| ==> list[j] < |kv.latent| && |kv.latent[list[j]]| == |row|
    ensures Dot(row, Clat(|row|, a, kv, list, n), |row|) == Mixed(row, a, kv, list, n)
  {
    hide Dot, Axpy, Zeros;
    var kvl := |row|;
    DotComm(row, Clat(kvl, a, kv, list, n), kvl);
    if n == 0 {
      DotZeros(kvl, row, kvl);
    } else {
      AbsorbedValue(row, a, kv, list, n - 1);
      var latent := kv.latent[list[n - 1]];
      DotComm(row, Clat(kvl, a, kv, list, n - 1), kvl);
      DotComm(row, latent, kvl);
      var was, d := Clat(kvl, a, kv, list, n - 1), Dot(row, latent, kvl);
      DotAxpy(was, a[n - 1], latent, row, kvl);
      assert Clat(kvl, a, kv, list, n) == Axpy(was, a[n - 1], latent);
      assert Dot(row, Clat(kvl, a, kv, list, n), kvl) == Mixed(row, a, kv, list, n - 1) + a[n - 1] * d;
      assert Mixed(row, a, kv, list, n) == Mixed(row, a, kv, list, n - 1) + a[n - 1] * d;
    }
  }

  /** acc += c * b */
  method AxpyInto(acc: seq<real>, c: real, b: seq<real>) returns (r: seq<real>)
    requires |acc| == |b|
    ensures r == Axpy(acc, c, b)
  {
    r := [];
    while |r| < |acc|
      invariant |r| <= |acc| && forall i :: 0 <= i < |r| ==> r[i] == Fma(acc[i], c, b[i])
    {
      r := r + [Fma(acc[|r|], c, b[|r|])];
    }
    assert r == Axpy(acc, c, b);
  }

  method DotOf(a: seq<real>, b: seq<real>, n: nat) returns (s: real)
    requires n <= |a| && n <= |b|
    ensures s == Dot(a, b, n)
  {
    var i := 0;
    s := 0.0;
    while i < n
      invariant 0 <= i <= n && s == Dot(a, b, i)
    {
      s := s + a[i] * b[i];
      i := i + 1;
    }
  }

  lemma RowAdded(hd: Head, d: nat, c: real, was: seq<real>, now: seq<real>)
    requires hd.Valid() && d < hd.nope && |was| == hd.t.I && Added(hd.t, hd.rbase + d, c, was, now, hd.t.I)
    ensures now == Axpy(was, c, hd.Key(d))
  {
    hide Deq, Fma;
    forall i | 0 <= i < |now| ensures now[i] == Fma(was[i], c, hd.Key(d)[i]) {}
  }

  method QabsOf(hd: Head, q: seq<real>) returns (r: seq<real>)
    requires hd.Valid() && hd.nope <= |q|
    ensures r == Qabs(hd, q, hd.nope)
  {
    hide Deq, Added, Axpy;
    var acc := new real[hd.t.I](i => 0.0);
    assert acc[..] == Zeros(hd.t.I);
    var d := 0;
    while d < hd.nope
      invariant 0 <= d <= hd.nope && acc[..] == Qabs(hd, q, d)
    {
      ghost var was := acc[..];
      AddRow(hd.t, hd.rbase + d, q[d], acc);
      RowAdded(hd, d, q[d], was, acc[..]);
      d := d + 1;
    }
    r := acc[..];
  }

  /** the absorbed branch of attention_rows for one row and head */
  method AbsorbHead(hd: Head, q: seq<real>, qr: seq<real>, kv: Kv, list: seq<nat>,
                    exp: real -> real) returns (ctx: seq<real>)
    requires hd.Valid() && hd.nope <= |q| && kv.Valid(hd.t.I, |qr|) && Listed(kv, list) && Positive(exp)
    ensures ctx == HeadOut(hd, q, qr, kv, list, exp) && Attends(hd, q, qr, kv, list, exp, ctx)
  {
    hide Dot, Softmax, Axpy, Qabs, QK, Positive, Row, Attends;
    HeadOutIs(hd, q, qr, kv, list, exp);
    var qabs := QabsOf(hd, q);
    var sc := [];
    while |sc| < |list|
      invariant |sc| <= |list| && forall j :: 0 <= j < |sc| ==> sc[j] == Score(hd, q, qr, kv, list[j])
    {
      var p := list[|sc|];
      AbsorbedScore(hd, q, kv.latent[p], hd.nope);
      var a := DotOf(qabs, kv.latent[p], hd.t.I);
      var b := DotOf(qr, kv.rope[p], |qr|);
      sc := sc + [(a + b) * hd.scale];
    }
    assert sc == Scores(hd, q, qr, kv, list);
    var a := SoftmaxOf(sc, exp);
    ctx := ProjectLatent(hd, q, qr, kv, list, a);
  }

  method ProjectLatent(hd: Head, q: seq<real>, qr: seq<real>, kv: Kv, list: seq<nat>,
                       a: seq<real>) returns (ctx: seq<real>)
    requires hd.Valid() && kv.Valid(hd.t.I, |qr|) && Listed(kv, list) && |a| == |list|
    ensures |ctx| == hd.vh && forall d :: 0 <= d < hd.vh ==> ctx[d] == Mixed(hd.Value(d), a, kv, list, |list|)
  {
    hide Dot, Axpy, Mixed, Row;
    var clat, j := seq(hd.t.I, i => 0.0), 0;
    assert clat == Zeros(hd.t.I);
    while j < |list|
      invariant 0 <= j <= |list| && clat == Clat(hd.t.I, a, kv, list, j)
    {
      clat := AxpyInto(clat, a[j], kv.latent[list[j]]);
      j := j + 1;
    }
    ctx := MatvecRows(hd.t, hd.rbase + hd.nope, hd.vh, clat);
    forall d | 0 <= d < hd.vh ensures ctx[d] == Mixed(hd.Value(d), a, kv, list, |list|) {
      AbsorbedValue(hd.Value(d), a, kv, list, |list|);
    }
  }

  /** the reconstructing branch: k_nope and v of every cached position are rebuilt first */
  method ReconstructHead(hd: Head, q: seq<real>, qr: seq<real>, kv: Kv, list: seq<nat>,
                         exp: real -> real) returns (ctx: seq<real>)
    requires hd.Valid() && hd.nope <= |q| && kv.Valid(hd.t.I, |qr|) && Listed(kv, list) && Positive(exp)
    ensures ctx == HeadOut(hd, q, qr, kv, list, exp) && Attends(hd, q, qr, kv, list, exp, ctx)
  {
    hide Dot, Softmax, Positive, Row, Mixed, Attends;
    HeadOutIs(hd, q, qr, kv, list, exp);
    var kvb := [];
    while |kvb| < |kv.latent|
      invariant |kvb| <= |kv.latent| && forall p :: 0 <= p < |kvb| ==> Rebuilt(hd, kv.latent[p], kvb[p])
    {
      var row := MatvecRows(hd.t, hd.rbase, hd.nope + hd.vh, kv.latent[|kvb|]);
      kvb := kvb + [row];
    }
    var sc := [];
    while |sc| < |list|
      invariant |sc| <= |list| && forall j :: 0 <= j < |sc| ==> sc[j] == Score(hd, q, qr, kv, list[j])
    {
      var p := list[|sc|];
      assert Rebuilt(hd, kv.latent[p], kvb[p]);
      var a := DotKey(hd, q, kv.latent[p], kvb[p]);
      var b := DotOf(qr, kv.rope[p], |qr|);
      sc := sc + [(a + b) * hd.scale];
    }
    assert sc == Scores(hd, q, qr, kv, list);
    var a := SoftmaxOf(sc, exp);
    ctx := [];
    while |ctx| < hd.vh
      invariant |ctx| <= hd.vh && forall d :: 0 <= d < |ctx| ==> ctx[d] == Mixed(hd.Value(d), a, kv, list, |list|)
    {
      var c := MixValues(hd, kv, list, a, kvb, |ctx|, |qr|);
      ctx := ctx + [c];
    }
  }

  /** the kv_b product of one latent: key part, then value part */
  ghost predicate Rebuilt(hd: Head, latent: seq<real>, row: seq<real>)
    requires hd.Valid() && |latent| == hd.t.I
  {
    |row| == hd.nope + hd.vh && forall j :: 0 <= j < |row| ==> row[j] == Dot(Row(hd.t, hd.rbase + j), latent, hd.t.I)
  }

  method DotKey(hd: Head, q: seq<real>, latent: seq<real>, row: seq<real>) returns (a: real)
    requires hd.Valid() && hd.nope <= |q| && |latent| == hd.t.I && Rebuilt(hd, latent, row)
    ensures a == QK(hd, q, latent, hd.nope)
  {
    hide Dot, Row;
    var d := 0;
    a := 0.0;
    while d < hd.nope
      invariant 0 <= d <= hd.nope && a == QK(hd, q, latent, d)
    {
      a := a + q[d] * row[d];
      d := d + 1;
    }
  }

  method MixValues(hd: Head, kv: Kv, list: seq<nat>, a: seq<real>, kvb: seq<seq<real>>, d: nat,
                   ghost r: nat) returns (c: real)
    requires hd.Valid() && kv.Valid(hd.t.I, r) && Listed(kv, list) && |a| == |list| && d < hd.vh
    requires |kvb| == |kv.latent| && forall p :: 0 <= p < |kvb| ==> Rebuilt(hd, kv.latent[p], kvb[p])
    ensures c == Mixed(hd.Value(d), a, kv, list, |list|)
  {
    hide Dot, Row;
    var j := 0;
    c := 0.0;
    while j < |list|
      invariant 0 <= j <= |list| && c == Mixed(hd.Value(d), a, kv, list, j)
    {
      assert Rebuilt(hd, kv.latent[list[j]], kvb[list[j]]);
      c := c + a[j] * kvb[list[j]][hd.nope + d];
      j := j + 1;
    }
  }
}
