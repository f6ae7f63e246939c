/** Sampling from a distribution (`dist_build`, `dist_sample`), over the reals.

    The chance of a token is the length of the set of uniform draws that select it: `Sample` selects token i
    exactly on the slice `Lower(i) < r <= Upper(i)` of (0,1], and `Mass` is that slice's length.
    A rejected draft is banned and the rest renormalised, but by no less than `Z_MIN`, as the code does. */
module Sampling {

  const Z_MIN: real := 0.000000000001

  // ---------- finite sums ----------

  ghost function Sum(p: seq<real>): real {
    if p == [] then 0.0 else Sum(p[..|p| - 1]) + p[|p| - 1]
  }

  lemma {:induction false} SumScale(p: seq<real>, q: seq<real>, c: real)
    requires |p| == |q| && forall i :: 0 <= i < |p| ==> q[i] == c * p[i]
    ensures Sum(q) == c * Sum(p)
  {
    if p != [] { SumScale(p[..|p| - 1], q[..|q| - 1], c); }
  }

  lemma {:induction false} SumNonneg(p: seq<real>)
    requires forall i :: 0 <= i < |p| ==> p[i] >= 0.0
    ensures Sum(p) >= 0.0
    ensures forall i :: 0 <= i < |p| ==> p[i] <= Sum(p)
  {
    if p != [] { SumNonneg(p[..|p| - 1]); }
  }

  ghost predicate IsDist(p: seq<real>) {
    p != [] && (forall i :: 0 <= i < |p| ==> p[i] >= 0.0) && Sum(p) == 1.0
  }

  // ---------- exponentials ----------

  ghost predicate Rising(exp: real -> real) {
    forall a, b :: a < b ==> exp(a) < exp(b)
  }

  /** sums to products, as the exponential does */
  ghost predicate Exponential(exp: real -> real) {
    forall a, b :: ExpAdds(exp, a, b)
  }

  ghost predicate ExpAdds(exp: real -> real, a: real, b: real) {
    exp(a + b) == exp(a) * exp(b)
  }

  /** a greater logit gets a greater weight */
  ghost predicate Ranks(lo: seq<real>, p: seq<real>) {
    |p| == |lo| && forall i, j :: 0 <= i < |lo| && 0 <= j < |lo| && lo[i] < lo[j] ==> p[i] < p[j]
  }

  lemma ExpOfSum(exp: real -> real, a: real, d: real, z: real)
    requires Exponential(exp) && z == a + d
    ensures exp(z) == exp(a) * exp(d)
  {
    assert ExpAdds(exp, a, d);
  }

  lemma RisesTo(exp: real -> real, a: real, b: real)
    requires Rising(exp) && a < b
    ensures exp(a) < exp(b)
  {
  }

  lemma CancelLess(a: real, b: real, m: real)
    requires m > 0.0 && a * m < b * m
    ensures a < b
  {
  }

  lemma ShareRatio(p: real, q: real, m: real, v: real, w: real, e: real)
    requires m > 0.0 && p * m == v && q * m == w && w == v * e
    ensures q == p * e
  {
    Regroup(p, m, e);
    Cancel(q, p * e, m);
  }

  lemma Regroup(a: real, m: real, e: real)
    ensures (a * e) * m == (a * m) * e
  {
  }

  lemma Cancel(a: real, b: real, m: real)
    requires m > 0.0 && a * m == b * m
    ensures a == b
  {
  }

  // ---------- dist_sample ----------

  /** weight before token i, the banned token left out */
  function Cum(p: seq<real>, ban: int, i: nat): real
    requires i <= |p|
  {
    if i == 0 then 0.0
    else Cum(p, ban, i - 1) + if i - 1 == ban then 0.0 else p[i - 1]
  }

  function Banned(p: seq<real>, ban: int): real {
    if 0 <= ban < |p| then p[ban] else 0.0
  }

  function Norm(p: seq<real>, ban: int): real {
    var z := 1.0 - Banned(p, ban);
    if z <= Z_MIN then Z_MIN else z
  }

  /** first token at or after i whose running weight reaches u */
  function Scan(p: seq<real>, ban: int, u: real, i: nat): (r: nat)
    requires i <= |p|
    ensures i <= r <= |p|
    decreases |p| - i
  {
    if i == |p| then i
    else if i != ban && Cum(p, ban, i + 1) >= u then i
    else Scan(p, ban, u, i + 1)
  }

  /** last token below i that is neither banned nor of weight 0, or 0 */
  function Last(p: seq<real>, ban: int, i: nat): (r: nat)
    requires i <= |p| && p != []
    ensures r < |p|
  {
    if i == 0 then 0
    else if i - 1 != ban && p[i - 1] > 0.0 then i - 1
    else Last(p, ban, i - 1)
  }

  function Sample(p: seq<real>, ban: int, r: real): (t: nat)
    requires p != []
    ensures t < |p|
  {
    var i := Scan(p, ban, r * Norm(p, ban), 0);
    if i < |p| then i else Last(p, ban, |p|)
  }

  /** the floored norm */
  method NormOf(p: seq<real>, ban: int) returns (z: real)
    ensures z == Norm(p, ban)
  {
    z := 1.0 - if 0 <= ban < |p| then p[ban] else 0.0;
    if z <= Z_MIN { z := Z_MIN; }
  }

  lemma SampleIs(p: seq<real>, ban: int, r: real, z: real, u: real)
    requires p != [] && z == Norm(p, ban) && u == r * z
    ensures Sample(p, ban, r) == if Scan(p, ban, u, 0) < |p| then Scan(p, ban, u, 0) else Last(p, ban, |p|)
  {
    hide Norm, Scan, Last;
  }

  method DistSample(p: seq<real>, ban: int, r: real) returns (t: nat)
    requires p != []
    ensures t == Sample(p, ban, r)
  {
    hide Sample, Norm;
    var z := NormOf(p, ban);
    var u, cum := r * z, 0.0;
    SampleIs(p, ban, r, z, u);
    var i := 0;
    while i < |p|
      invariant 0 <= i <= |p| && cum == Cum(p, ban, i) && Scan(p, ban, u, i) == Scan(p, ban, u, 0)
    {
      if i != ban {
        cum := cum + p[i];
        if cum >= u { return i; }
      }
      i := i + 1;
    }
    i := |p|;
    while i > 0
      invariant 0 <= i <= |p| && Last(p, ban, i) == Last(p, ban, |p|)
    {
      i := i - 1;
      if i != ban && p[i] > 0.0 { return i; }
    }
    return 0;
  }

  ghost function Lower(p: seq<real>, ban: int, i: nat): real
    requires i < |p|
  {
    Cum(p, ban, i) / Norm(p, ban)
  }

  ghost function Upper(p: seq<real>, ban: int, i: nat): real
    requires i < |p|
  {
    if i == Last(p, ban, |p|) then 1.0 else Cum(p, ban, i + 1) / Norm(p, ban)
  }

  /** the chance that a uniform draw selects token i */
  ghost function Mass(p: seq<real>, ban: int, i: nat): real
    requires i < |p|
  {
    Upper(p, ban, i) - Lower(p, ban, i)
  }

  lemma {:induction false} CumMono(p: seq<real>, ban: int, i: nat, j: nat)
    requires i <= j <= |p| && forall k :: 0 <= k < |p| ==> p[k] >= 0.0
    ensures Cum(p, ban, i) <= Cum(p, ban, j)
  {
    if i < j { CumMono(p, ban, i, j - 1); }
  }

  lemma {:induction false} CumIsSum(p: seq<real>, ban: int, i: nat)
    requires i <= |p|
    ensures Cum(p, ban, i) == Sum(p[..i]) - if 0 <= ban < i then p[ban] else 0.0
  {
    if i > 0 {
      CumIsSum(p, ban, i - 1);
      assert p[..i][..i - 1] == p[..i - 1];
    }
  }

  lemma CumTotal(p: seq<real>, ban: int)
    requires IsDist(p) && ban < |p|
    ensures Cum(p, ban, |p|) == 1.0 - Banned(p, ban)
    ensures 0.0 <= Cum(p, ban, |p|) <= Norm(p, ban)
  {
    assert p[..|p|] == p;
    CumIsSum(p, ban, |p|);
    CumMono(p, ban, 0, |p|);
  }

  /** past the last positive token nothing is added */
  lemma {:induction false} LastTail(p: seq<real>, ban: int, i: nat)
    requires i <= |p| && p != [] && (forall k :: 0 <= k < |p| ==> p[k] >= 0.0)
    ensures var l := Last(p, ban, i);
            (Cum(p, ban, i) > 0.0 ==> l < i && l != ban && p[l] > 0.0 && Cum(p, ban, l + 1) == Cum(p, ban, i))
            && (Cum(p, ban, i) == 0.0 ==> l == 0)
  {
    if i > 0 {
      CumMono(p, ban, 0, i - 1);
      LastTail(p, ban, i - 1);
    }
  }

  lemma {:induction false} ScanSlice(p: seq<real>, ban: int, u: real, i: nat)
    requires i <= |p| && (forall k :: 0 <= k < |p| ==> p[k] >= 0.0) && Cum(p, ban, i) < u
    ensures var s := Scan(p, ban, u, i);
            (s < |p| ==> Cum(p, ban, s) < u <= Cum(p, ban, s + 1)) && (s == |p| ==> Cum(p, ban, |p|) < u)
    decreases |p| - i
  {
    if i < |p| && !(i != ban && Cum(p, ban, i + 1) >= u) { ScanSlice(p, ban, u, i + 1); }
  }

  lemma DivLe(a: real, b: real, r: real)
    requires b > 0.0
    ensures (a < r * b <==> a / b < r) && (r * b <= a <==> r <= a / b)
  {
    var q := a / b;
    assert q * b == a;
    if q < r { assert (r - q) * b > 0.0; }
    if q >= r { assert (q - r) * b >= 0.0; }
  }

  /** a draw in (0,1) selects the token on whose slice it falls */
  lemma SampleSlice(p: seq<real>, ban: int, r: real)
    requires IsDist(p) && ban < |p| && 0.0 < r < 1.0
    ensures var t := Sample(p, ban, r); Lower(p, ban, t) < r <= Upper(p, ban, t)
  {
    ScanHit(p, ban, r, r * Norm(p, ban));
    CumTotal(p, ban);
    var t := Scan(p, ban, r * Norm(p, ban), 0);
    if t < |p| {
      HitSlice(p, ban, r, t);
    } else {
      LastSlice(p, ban, r);
    }
  }

  lemma ScanHit(p: seq<real>, ban: int, r: real, u: real)
    requires IsDist(p) && r > 0.0 && u == r * Norm(p, ban)
    ensures var t := Scan(p, ban, u, 0);
            (t < |p| ==> Cum(p, ban, t) < u <= Cum(p, ban, t + 1)) && (t == |p| ==> Cum(p, ban, |p|) < u)
  {
    Positive(r, Norm(p, ban));
    ScanSlice(p, ban, u, 0);
  }

  lemma Positive(r: real, z: real)
    requires r > 0.0 && z > 0.0
    ensures r * z > 0.0
  {
  }

  lemma HitSlice(p: seq<real>, ban: int, r: real, t: nat)
    requires t < |p| && r < 1.0 && Cum(p, ban, t) < r * Norm(p, ban) <= Cum(p, ban, t + 1)
    ensures Lower(p, ban, t) < r <= Upper(p, ban, t)
  {
    DivLe(Cum(p, ban, t), Norm(p, ban), r);
    DivLe(Cum(p, ban, t + 1), Norm(p, ban), r);
  }

  lemma LastSlice(p: seq<real>, ban: int, r: real)
    requires IsDist(p) && ban < |p| && 0.0 < r < 1.0 && Cum(p, ban, |p|) < r * Norm(p, ban)
    ensures Lower(p, ban, Last(p, ban, |p|)) < r
  {
    var t := Last(p, ban, |p|);
    CumMono(p, ban, t, |p|);
    DivLe(Cum(p, ban, t), Norm(p, ban), r);
  }

  /** the slices are disjoint, so Mass is the measure of the draws that select a token */
  lemma SlicesDisjoint(p: seq<real>, ban: int, i: nat, j: nat, r: real)
    requires IsDist(p) && ban < |p| && i < |p| && j < |p| && 0.0 < r < 1.0
    requires Lower(p, ban, i) < r <= Upper(p, ban, i) && Lower(p, ban, j) < r <= Upper(p, ban, j)
    ensures i == j
  {
    if i < j { SlicesApart(p, ban, i, j, r); }
    if j < i { SlicesApart(p, ban, j, i, r); }
  }

  lemma SlicesApart(p: seq<real>, ban: int, i: nat, j: nat, r: real)
    requires IsDist(p) && ban < |p| && i < j < |p| && 0.0 < r < 1.0
    ensures !(r <= Upper(p, ban, i) && Lower(p, ban, j) < r <= Upper(p, ban, j))
  {
    var z := Norm(p, ban);
    CumMono(p, ban, i + 1, j);
    DivLe(Cum(p, ban, j), z, r);
    if i == Last(p, ban, |p|) {
      CumTotal(p, ban);
      LastTail(p, ban, |p|);
      CumMono(p, ban, j, j + 1);
      CumMono(p, ban, j + 1, |p|);
      CumMono(p, ban, 0, i + 1);
      DivLe(Cum(p, ban, j + 1), z, r);
    } else {
      DivLe(Cum(p, ban, i + 1), z, r);
    }
  }

  // ---------- accept with p(draft), else resample with the draft banned ----------

  /** what makes one accept-or-resample step emit exactly p: the floor Z_MIN is not reached, or it does not matter */
  ghost predicate StepExact(p: seq<real>, d: nat)
    requires d < |p|
  {
    p[d] == 1.0 || 1.0 - p[d] >= Z_MIN || exists t :: 0 <= t < |p| && t != d && p[t] == 1.0 - p[d]
  }

  /** chance that the step emits t: the draft accepted, or rejected and t drawn instead */
  ghost function StepMass(p: seq<real>, d: nat, t: nat): real
    requires d < |p| && t < |p|
  {
    (if t == d then p[d] else 0.0) + (1.0 - p[d]) * Mass(p, d, t)
  }

  lemma DivSub(a: real, b: real, z: real)
    requires z > 0.0
    ensures (a + b) / z - a / z == b / z
  {
  }

  lemma {:induction false} Bounded(p: seq<real>, i: nat)
    requires IsDist(p) && i < |p|
    ensures 0.0 <= p[i] <= 1.0
  {
    SumNonneg(p);
  }

  lemma {:induction false} TwoBounded(p: seq<real>, i: nat, j: nat)
    requires (forall k :: 0 <= k < |p| ==> p[k] >= 0.0) && i < |p| && j < |p| && i != j
    ensures p[i] + p[j] <= Sum(p)
  {
    var q := p[..|p| - 1];
    SumNonneg(q);
    if i < |p| - 1 && j < |p| - 1 { TwoBounded(q, i, j); }
  }

  /** away from the last slice a slice is as long as its weight over the norm */
  lemma MassInner(p: seq<real>, ban: int, t: nat)
    requires IsDist(p) && ban < |p| && t < |p| && t != Last(p, ban, |p|)
    ensures Mass(p, ban, t) == (if t == ban then 0.0 else p[t] / Norm(p, ban))
  {
    DivSub(Cum(p, ban, t), if t == ban then 0.0 else p[t], Norm(p, ban));
  }

  lemma MassLast(p: seq<real>, ban: int, t: nat)
    requires IsDist(p) && ban < |p| && t == Last(p, ban, |p|) && Cum(p, ban, |p|) > 0.0
    ensures t != ban && p[t] > 0.0
    ensures Mass(p, ban, t) == 1.0 - (Cum(p, ban, |p|) - p[t]) / Norm(p, ban)
  {
    LastTail(p, ban, |p|);
  }

  /** with no ban, or a ban that leaves at least Z_MIN, the masses are the renormalised weights */
  lemma MassExact(p: seq<real>, ban: int, t: nat)
    requires IsDist(p) && ban < |p| && t < |p| && 1.0 - Banned(p, ban) >= Z_MIN
    ensures Mass(p, ban, t) == (if t == ban then 0.0 else p[t] / (1.0 - Banned(p, ban)))
  {
    hide Mass, Last, IsDist;
    CumTotal(p, ban);
    var z := Norm(p, ban);
    assert z == 1.0 - Banned(p, ban) == Cum(p, ban, |p|);
    if t == Last(p, ban, |p|) {
      MassLast(p, ban, t);
      DivRest(p[t], z);
    } else {
      MassInner(p, ban, t);
    }
  }

  lemma DivSelf(z: real)
    requires z > 0.0
    ensures z / z == 1.0
  {
  }

  lemma DivRest(v: real, z: real)
    requires z > 0.0
    ensures 1.0 - (z - v) / z == v / z
  {
    DivSelf(z);
    DivSub(z - v, v, z);
    assert z - v + v == z;
  }

  lemma MulDiv(a: real, z: real)
    requires z > 0.0
    ensures z * (a / z) == a
  {
  }

  /** One accept-or-resample step emits exactly p if and only if StepExact holds. */
  lemma StepExactIff(p: seq<real>, d: nat)
    requires IsDist(p) && d < |p|
    ensures StepExact(p, d) <==> forall t :: 0 <= t < |p| ==> StepMass(p, d, t) == p[t]
  {
    if StepExact(p, d) {
      forall t | 0 <= t < |p| ensures StepMass(p, d, t) == p[t] { StepIsExact(p, d, t); }
    } else {
      var t := StepIsNot(p, d);
    }
  }

  lemma StepIsExact(p: seq<real>, d: nat, t: nat)
    requires IsDist(p) && d < |p| && t < |p| && StepExact(p, d)
    ensures StepMass(p, d, t) == p[t]
  {
    hide Mass, Cum, Last, Norm, Sum;
    Bounded(p, d);
    var z := 1.0 - p[d];
    if t != d { TwoBounded(p, t, d); Bounded(p, t); }
    if z >= Z_MIN {
      MassExact(p, d, t);
      if t != d { MulDiv(p[t], z); }
    } else if z > 0.0 {
      var o :| 0 <= o < |p| && o != d && p[o] == z;
      CumTotal(p, d);
      OnlyPositive(p, d, o, t);
    }
  }

  /** one token holds all the weight the ban leaves */
  lemma OnlyPositive(p: seq<real>, d: nat, o: nat, t: nat)
    requires IsDist(p) && d < |p| && o < |p| && t < |p| && o != d && p[o] == 1.0 - p[d] > 0.0
    ensures Mass(p, d, t) == (if t == o then 1.0 else 0.0)
    ensures t != o && t != d ==> p[t] == 0.0
  {
    CumTotal(p, d);
    var l := Last(p, d, |p|);
    MassLast(p, d, l);
    ThreeBounded(p, d, o, l);
    if t != o && t != d { ThreeBounded(p, d, o, t); }
    if t != l { MassInner(p, d, t); }
  }

  lemma {:induction false} ThreeBounded(p: seq<real>, i: nat, j: nat, k: nat)
    requires IsDist(p) && i < |p| && j < |p| && k < |p| && i != j
    ensures k != i && k != j ==> p[i] + p[j] + p[k] <= 1.0
  {
    if k != i && k != j {
      var q := p[k := 0.0];
      SumUpdate(p, k, 0.0);
      TwoBounded(q, i, j);
    }
  }

  lemma {:induction false} SumUpdate(p: seq<real>, k: nat, v: real)
    requires k < |p|
    ensures Sum(p[k := v]) == Sum(p) - p[k] + v
  {
    var q := p[k := v];
    if k < |p| - 1 {
      SumUpdate(p[..|p| - 1], k, v);
      assert q[..|q| - 1] == p[..|p| - 1][k := v];
    } else {
      assert q[..|q| - 1] == p[..|p| - 1];
    }
  }

  /** some token is emitted too rarely when the floor bites */
  lemma StepIsNot(p: seq<real>, d: nat) returns (t: nat)
    requires IsDist(p) && d < |p| && !StepExact(p, d)
    ensures t < |p| && StepMass(p, d, t) != p[t]
  {
    hide Mass, Cum, Last;
    Bounded(p, d);
    var z := 1.0 - p[d];
    CumTotal(p, d);
    var l := Last(p, d, |p|);
    MassLast(p, d, l);
    t := Another(p, d, l);
    MassInner(p, d, t);
    TooSmall(z, p[t]);
  }

  lemma TooSmall(z: real, x: real)
    requires 0.0 < z < Z_MIN && x > 0.0
    ensures z * (x / Z_MIN) < x
  {
    MulDiv(x, Z_MIN);
    assert (Z_MIN - z) * (x / Z_MIN) > 0.0;
  }

  lemma {:induction false} Another(p: seq<real>, d: nat, l: nat) returns (t: nat)
    requires IsDist(p) && d < |p| && l < |p| && l != d && p[d] + p[l] != 1.0
    ensures t < |p| && t != d && t != l && p[t] > 0.0
  {
    if forall k :: 0 <= k < |p| && k != d && k != l ==> p[k] == 0.0 {
      var q := p[d := 0.0];
      SumUpdate(p, d, 0.0);
      SumUpdate(q, l, 0.0);
      SumScale(q[l := 0.0], q[l := 0.0], 0.0);
    }
    t :| 0 <= t < |p| && t != d && t != l && p[t] != 0.0;
  }

  // ---------- single-precision weights ----------

  ghost function Pow2(e: nat): (r: real)
    ensures r >= 1.0
  {
    if e == 0 then 1.0 else 2.0 * Pow2(e - 1)
  }

  const SIGNIFICAND := 16777216.0   // 2^24

  /** a single-precision value in [0,1]: a significand below 2^24 over a power of two */
  ghost predicate Single(x: real) {
    exists m: nat, e: nat :: Scaled(x, m, e)
  }

  ghost predicate Scaled(x: real, m: nat, e: nat) {
    m as real < SIGNIFICAND && x * Pow2(e) == m as real
  }

  lemma {:induction false} Pow2Mono(a: nat, b: nat)
    requires a <= b
    ensures Pow2(a) <= Pow2(b)
  {
    if a < b { Pow2Mono(a, b - 1); }
  }

  lemma Pow2Whole(e: nat) returns (n: nat)
    ensures Pow2(e) == n as real
  {
    n := 1;
    var i := 0;
    while i < e
      invariant 0 <= i <= e && Pow2(i) == n as real
    {
      n, i := 2 * n, i + 1;
    }
  }

  lemma Pow24()
    ensures Pow2(24) == SIGNIFICAND && Pow2(25) == 2.0 * SIGNIFICAND
  {
    assert Pow2(6) == 64.0;
    assert Pow2(12) == 4096.0;
    assert Pow2(18) == 262144.0;
  }

  /** the greatest single-precision value below 1 is 1 - 2^-24 */
  lemma SingleGap(x: real)
    requires Single(x) && 0.0 <= x < 1.0
    ensures 1.0 - x >= 1.0 / SIGNIFICAND
  {
    hide Pow2;
    var m: nat, e: nat :| Scaled(x, m, e);
    var n := Pow2Whole(e);
    var q := Pow2(e);
    WholeGap(x, q, m, n);
    if e <= 24 {
      Pow2Mono(e, 24);
      Pow24();
      CoarseGap(1.0 - x, q);
    } else {
      Pow2Mono(25, e);
      Pow24();
      FineGap(1.0 - x, q, m as real);
    }
  }

  lemma CoarseGap(a: real, q: real)
    requires 0.0 < q <= SIGNIFICAND && a * q >= 1.0
    ensures a >= 1.0 / SIGNIFICAND
  {
    AtLeast(a, q, 1.0);
    OneOver(q, SIGNIFICAND);
  }

  lemma FineGap(a: real, q: real, m: real)
    requires q >= 2.0 * SIGNIFICAND && m < SIGNIFICAND && a * q == q - m
    ensures a >= 1.0 / SIGNIFICAND
  {
    AtLeast(a, q, q / 2.0);
    OneHalf(q);
  }

  /** a fraction m / n below 1 is at least one n-th below 1 */
  lemma WholeGap(x: real, q: real, m: nat, n: nat)
    requires x < 1.0 && q > 0.0 && x * q == m as real && q == n as real
    ensures (1.0 - x) * q == q - m as real >= 1.0
  {
    Positive(1.0 - x, q);
    assert (1.0 - x) * q == q - x * q;
    assert m < n;
  }

  lemma OneHalf(q: real)
    requires q > 0.0
    ensures q / 2.0 / q == 0.5
  {
  }

  lemma AtLeast(a: real, q: real, r: real)
    requires q > 0.0 && a * q >= r
    ensures a >= r / q
  {
  }

  lemma OneOver(a: real, b: real)
    requires 0.0 < a <= b
    ensures 1.0 / a >= 1.0 / b
  {
  }

  /** beside a single-precision weight the floor is never reached: one step emits exactly p */
  lemma SingleStep(p: seq<real>, d: nat)
    requires IsDist(p) && d < |p| && Single(p[d])
    ensures StepExact(p, d)
  {
    Bounded(p, d);
    if p[d] < 1.0 { SingleGap(p[d]); }
  }

  /** real-valued weights only: two tokens sharing 2e-13 beside a weight no single-precision buffer holds */
  lemma FloorBites()
    ensures var p := [1.0 - 0.0000000000002, 0.0000000000001, 0.0000000000001];
            IsDist(p) && !StepExact(p, 0) && StepMass(p, 0, 1) != p[1]
  {
    var p := [1.0 - 0.0000000000002, 0.0000000000001, 0.0000000000001];
    var a, b := p[0], p[1];
    assert [a][..0] == [] && [a, b][..1] == [a] && p[..2] == [a, b];
    assert Sum([]) == 0.0 && Sum([a]) == a && Sum([a, b]) == a + b;
    assert Last(p, 0, 3) == 2;
    MassInner(p, 0, 1);
    assert Norm(p, 0) == Z_MIN;
    TooSmall(1.0 - p[0], p[1]);
  }
}
