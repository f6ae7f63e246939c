/** `dist_build`: the softmax of the logits over the temperature, truncated to the nucleus.

    `exp` is any positive function and `sort` stands for the library sort: it returns the indices in descending
    order of weight.  The result is a distribution, which is all the exactness of speculation needs of it. */
module DistBuild {
  import opened Sampling

  /** ord lists every index below n once */
  ghost predicate IsPerm(n: nat, ord: seq<nat>) {
    && |ord| == n
    && (forall j :: 0 <= j < |ord| ==> ord[j] < n)
    && (forall j, k :: 0 <= j < k < |ord| ==> ord[j] != ord[k])
    && (forall i: nat :: i < n ==> i in ord)
  }

  ghost predicate Descending(p: seq<real>, ord: seq<nat>)
    requires IsPerm(|p|, ord)
  {
    forall j, k :: 0 <= j < k < |ord| ==> p[ord[j]] >= p[ord[k]]
  }

  /** weight of the first k indices */
  ghost function CumOrd(p: seq<real>, ord: seq<nat>, k: nat): real
    requires IsPerm(|p|, ord) && k <= |ord|
  {
    if k == 0 then 0.0 else CumOrd(p, ord, k - 1) + p[ord[k - 1]]
  }

  /** p with the first k indices zeroed */
  ghost function Zeroed(p: seq<real>, ord: seq<nat>, k: nat): seq<real>
    requires k <= |ord|
  {
    seq(|p|, i requires 0 <= i < |p| => if i in ord[..k] then 0.0 else p[i])
  }

  lemma {:induction false} ZeroedSum(p: seq<real>, ord: seq<nat>, k: nat)
    requires IsPerm(|p|, ord) && k <= |ord|
    ensures Sum(Zeroed(p, ord, k)) == Sum(p) - CumOrd(p, ord, k)
  {
    if k == 0 {
      assert Zeroed(p, ord, 0) == p;
    } else {
      ZeroedSum(p, ord, k - 1);
      var z := Zeroed(p, ord, k - 1);
      assert ord[..k] == ord[..k - 1] + [ord[k - 1]];
      assert Zeroed(p, ord, k) == z[ord[k - 1] := 0.0];
      SumUpdate(z, ord[k - 1], 0.0);
    }
  }

  lemma {:induction false} SumZero(z: seq<real>)
    requires forall i :: 0 <= i < |z| ==> z[i] == 0.0
    ensures Sum(z) == 0.0
  {
    if z != [] { SumZero(z[..|z| - 1]); }
  }

  /** a permutation reaches every weight once */
  lemma OrdTotal(p: seq<real>, ord: seq<nat>)
    requires IsPerm(|p|, ord)
    ensures CumOrd(p, ord, |ord|) == Sum(p)
  {
    ZeroedSum(p, ord, |ord|);
    assert ord[..|ord|] == ord;
    SumZero(Zeroed(p, ord, |ord|));
  }

  lemma {:induction false} CumOrdScale(p: seq<real>, q: seq<real>, ord: seq<nat>, keep: nat, k: nat, m: real)
    requires IsPerm(|p|, ord) && |q| == |p| && keep <= |ord| && k <= |ord|
    requires forall j :: 0 <= j < |ord| ==> q[ord[j]] * m == if j < keep then p[ord[j]] else 0.0
    ensures CumOrd(q, ord, k) * m == CumOrd(p, ord, if k < keep then k else keep)
  {
    if k > 0 {
      CumOrdScale(p, q, ord, keep, k - 1, m);
      DistributeAdd(CumOrd(q, ord, k - 1), q[ord[k - 1]], m);
    }
  }

  lemma DistributeAdd(a: real, b: real, m: real)
    ensures (a + b) * m == a * m + b * m
  {
  }

  /** greatest entry */
  ghost predicate IsMax(lo: seq<real>, mx: real) {
    mx in lo && forall i :: 0 <= i < |lo| ==> lo[i] <= mx
  }

  function Weight(x: real, mx: real, invt: real, exp: real -> real): real {
    exp(Scale(x - mx, invt))
  }

  function Scale(v: real, invt: real): real {
    v * invt
  }

  ghost function Weights(lo: seq<real>, mx: real, invt: real, exp: real -> real): seq<real> {
    seq(|lo|, i requires 0 <= i < |lo| => Weight(lo[i], mx, invt, exp))
  }

  /** p is s cut to the shortest prefix of the order that weighs at least nuc, and renormalised */
  ghost predicate Nucleus(s: seq<real>, ord: seq<nat>, nuc: real, p: seq<real>, keep: nat) {
    && |p| == |s| && IsPerm(|s|, ord) && Descending(s, ord) && 1 <= keep <= |ord|
    && CumOrd(s, ord, keep - 1) < nuc <= CumOrd(s, ord, keep)
    && forall j :: 0 <= j < |ord| ==> p[ord[j]] * CumOrd(s, ord, keep) == if j < keep then s[ord[j]] else 0.0
  }

  lemma NucleusSize(s: seq<real>, ord: seq<nat>, nuc: real, p: seq<real>, keep: nat)
    requires Nucleus(s, ord, nuc, p, keep)
    ensures |p| == |s|
  {
  }

  lemma NucleusIsDist(s: seq<real>, ord: seq<nat>, nuc: real, p: seq<real>, keep: nat)
    requires IsDist(s) && nuc > 0.0 && Nucleus(s, ord, nuc, p, keep)
    ensures IsDist(p)
  {
    hide Descending, CumOrd;
    var m := CumOrd(s, ord, keep);
    CumOrdScale(s, p, ord, keep, |ord|, m);
    OrdTotal(p, ord);
    Cancel(Sum(p), 1.0, m);
    forall i: nat | i < |p| ensures p[i] >= 0.0 {
      assert i in ord;
      var j :| 0 <= j < |ord| && ord[j] == i;
      NonnegFactor(p[i], m);
    }
  }

  /** the weights of the tokens p has kept */
  ghost function Kept(s: seq<real>, p: seq<real>): (r: seq<real>)
    requires |p| == |s|
    ensures |r| == |s|
  {
    seq(|s|, i requires 0 <= i < |s| => if p[i] > 0.0 then s[i] else 0.0)
  }

  /** Tokens are kept from the top until their weight reaches nuc, and not one more: without its lightest token the
      kept part falls short. The kept weights stay in proportion. */
  ghost predicate TopPart(s: seq<real>, nuc: real, p: seq<real>) {
    && |p| == |s|
    && (forall i, j :: 0 <= i < |s| && 0 <= j < |s| && p[i] > 0.0 && p[j] == 0.0 ==> s[i] >= s[j])
    && (forall i, j :: 0 <= i < |s| && 0 <= j < |s| && p[i] > 0.0 && p[j] > 0.0 ==> p[i] * s[j] == p[j] * s[i])
    && Sum(Kept(s, p)) >= nuc
    && exists l: nat :: l < |s| && Lightest(s, p, l) && Sum(Kept(s, p)) - s[l] < nuc
  }

  ghost predicate Lightest(s: seq<real>, p: seq<real>, l: nat)
    requires l < |p| == |s|
  {
    p[l] > 0.0 && forall i :: 0 <= i < |s| && p[i] > 0.0 ==> s[l] <= s[i]
  }

  lemma NucleusIsTop(s: seq<real>, ord: seq<nat>, nuc: real, p: seq<real>, keep: nat)
    requires IsDist(s) && nuc > 0.0 && Nucleus(s, ord, nuc, p, keep)
    ensures TopPart(s, nuc, p)
  {
    hide TopPart, Descending, IsDist, CumOrd, Kept;
    KeptTop(s, ord, nuc, p, keep);
    KeptSum(s, ord, nuc, p, keep);
    KeptShares(s, ord, nuc, p, keep);
    TopFrom(s, nuc, p, ord[keep - 1]);
  }

  lemma TopFrom(s: seq<real>, nuc: real, p: seq<real>, l: nat)
    requires |p| == |s| && l < |s| && Lightest(s, p, l) && nuc <= Sum(Kept(s, p)) < nuc + s[l]
    requires forall i, j :: 0 <= i < |s| && 0 <= j < |s| && p[i] > 0.0 && p[j] == 0.0 ==> s[i] >= s[j]
    requires forall i, j :: 0 <= i < |s| && 0 <= j < |s| && p[i] > 0.0 && p[j] > 0.0 ==> p[i] * s[j] == p[j] * s[i]
    ensures TopPart(s, nuc, p)
  {
    hide Kept;
  }

  /** what the renormalised prefix says of one token */
  lemma KeptAt(s: seq<real>, ord: seq<nat>, nuc: real, p: seq<real>, keep: nat, j: nat)
    requires IsDist(s) && nuc > 0.0 && Nucleus(s, ord, nuc, p, keep) && j < |ord|
    ensures ord[j] < |s| == |p| && (p[ord[j]] > 0.0 <==> j < keep && s[ord[j]] > 0.0)
  {
    hide CumOrd, Descending;
    InPerm(|s|, ord);
    SameSign(p[ord[j]], CumOrd(s, ord, keep));
  }

  lemma KeptSum(s: seq<real>, ord: seq<nat>, nuc: real, p: seq<real>, keep: nat)
    requires IsDist(s) && nuc > 0.0 && Nucleus(s, ord, nuc, p, keep)
    ensures |p| == |s| == |ord| && ord[keep - 1] < |s| && nuc <= Sum(Kept(s, p)) < nuc + s[ord[keep - 1]]
  {
    hide CumOrd, Descending, IsPerm, Sum;
    InPerm(|s|, ord);
    var k := Kept(s, p);
    forall j | 0 <= j < |ord| ensures k[ord[j]] * 1.0 == if j < keep then s[ord[j]] else 0.0 {
      KeptAt(s, ord, nuc, p, keep, j);
      NonnegAt(s, ord[j]);
    }
    CumOrdScale(s, k, ord, keep, |ord|, 1.0);
    OrdTotal(k, ord);
    CumOrdStep(s, ord, keep - 1);
  }

  lemma NonnegAt(s: seq<real>, i: nat)
    requires IsDist(s) && i < |s|
    ensures s[i] >= 0.0
  {
  }

  lemma KeptTop(s: seq<real>, ord: seq<nat>, nuc: real, p: seq<real>, keep: nat)
    requires IsDist(s) && nuc > 0.0 && Nucleus(s, ord, nuc, p, keep)
    ensures |p| == |s| == |ord| && ord[keep - 1] < |s| && Lightest(s, p, ord[keep - 1])
    ensures forall i, j :: 0 <= i < |s| && 0 <= j < |s| && p[i] > 0.0 && p[j] == 0.0 ==> s[i] >= s[j]
  {
    hide CumOrd, IsPerm;
    InPerm(|s|, ord);
    forall i: nat, j: nat | i < |s| && j < |s| && p[i] > 0.0 && p[j] == 0.0 ensures s[i] >= s[j] {
      var a := Place(|s|, ord, i);
      var b := Place(|s|, ord, j);
      KeptAt(s, ord, nuc, p, keep, a);
      KeptAt(s, ord, nuc, p, keep, b);
      NonnegAt(s, j);
      if a < b { assert s[ord[a]] >= s[ord[b]]; }
    }
    CumOrdStep(s, ord, keep - 1);
    KeptAt(s, ord, nuc, p, keep, keep - 1);
    forall i: nat | i < |s| && p[i] > 0.0 ensures s[ord[keep - 1]] <= s[i] {
      var a := Place(|s|, ord, i);
      KeptAt(s, ord, nuc, p, keep, a);
      if a < keep - 1 { assert s[ord[a]] >= s[ord[keep - 1]]; }
    }
  }

  lemma KeptShares(s: seq<real>, ord: seq<nat>, nuc: real, p: seq<real>, keep: nat)
    requires IsDist(s) && nuc > 0.0 && Nucleus(s, ord, nuc, p, keep)
    ensures |p| == |s|
    ensures forall i, j :: 0 <= i < |s| && 0 <= j < |s| && p[i] > 0.0 && p[j] > 0.0 ==> p[i] * s[j] == p[j] * s[i]
  {
    hide CumOrd, IsPerm, Descending;
    var m := CumOrd(s, ord, keep);
    forall i: nat, j: nat | i < |s| && j < |s| && p[i] > 0.0 && p[j] > 0.0 ensures p[i] * s[j] == p[j] * s[i] {
      var a := Place(|s|, ord, i);
      var b := Place(|s|, ord, j);
      KeptAt(s, ord, nuc, p, keep, a);
      KeptAt(s, ord, nuc, p, keep, b);
      assert p[i] * m == s[i] && p[j] * m == s[j];
      CrossShare(p[i], p[j], m);
    }
  }

  lemma SameSign(x: real, m: real)
    requires m > 0.0
    ensures x * m > 0.0 <==> x > 0.0
  {
  }

  lemma CrossShare(x: real, y: real, m: real)
    ensures x * (y * m) == y * (x * m)
  {
  }

  lemma CumOrdStep(p: seq<real>, ord: seq<nat>, k: nat)
    requires IsPerm(|p|, ord) && k < |ord|
    ensures CumOrd(p, ord, k + 1) == CumOrd(p, ord, k) + p[ord[k]]
  {
  }

  lemma InPerm(n: nat, ord: seq<nat>)
    requires IsPerm(n, ord)
    ensures |ord| == n && forall j :: 0 <= j < |ord| ==> ord[j] < n
  {
  }

  lemma Place(n: nat, ord: seq<nat>, i: nat) returns (j: nat)
    requires IsPerm(n, ord) && i < n
    ensures j < |ord| && ord[j] == i
  {
    assert i in ord;
    j :| 0 <= j < |ord| && ord[j] == i;
  }

  lemma NonnegFactor(a: real, m: real)
    requires m > 0.0 && a * m >= 0.0
    ensures a >= 0.0
  {
  }

  lemma DivTimes(a: real, m: real)
    requires m > 0.0
    ensures (a / m) * m == a
  {
  }

  /** p is proportional to the exponentials of the logits, the greatest subtracted, over the temperature */
  ghost predicate Softmaxed(lo: seq<real>, invt: real, exp: real -> real, p: seq<real>, mx: real) {
    && IsMax(lo, mx) && |p| == |lo| && Sum(Weights(lo, mx, invt, exp)) > 0.0
    && forall i :: 0 <= i < |p| ==> p[i] * Sum(Weights(lo, mx, invt, exp)) == Weights(lo, mx, invt, exp)[i]
  }

  /** two weights differ by the exponential of their logits' difference over the temperature */
  ghost predicate Ratios(lo: seq<real>, p: seq<real>, exp: real -> real, temp: real)
    requires temp != 0.0
  {
    |p| == |lo| && forall i, j :: 0 <= i < |lo| && 0 <= j < |lo| ==> p[j] == p[i] * exp((lo[j] - lo[i]) / temp)
  }

  lemma SoftRanks(lo: seq<real>, invt: real, exp: real -> real, p: seq<real>, mx: real)
    requires Softmaxed(lo, invt, exp, p, mx) && invt > 0.0 && Rising(exp)
    ensures Ranks(lo, p)
  {
    hide Rising;
    var w := Weights(lo, mx, invt, exp);
    forall i, j | 0 <= i < |lo| && 0 <= j < |lo| && lo[i] < lo[j] ensures p[i] < p[j] {
      WeightRises(lo[i], lo[j], mx, invt, exp);
      CancelLess(p[i], p[j], Sum(w));
    }
  }

  lemma WeightRises(x: real, y: real, mx: real, invt: real, exp: real -> real)
    requires x < y && invt > 0.0 && Rising(exp)
    ensures Weight(x, mx, invt, exp) < Weight(y, mx, invt, exp)
  {
    hide Rising, Scale;
    MulLess(x - mx, y - mx, invt);
    RisesTo(exp, Scale(x - mx, invt), Scale(y - mx, invt));
  }

  lemma MulLess(a: real, b: real, c: real)
    requires a < b && c > 0.0
    ensures Scale(a, c) < Scale(b, c)
  {
  }

  lemma SoftRatios(lo: seq<real>, temp: real, exp: real -> real, p: seq<real>, mx: real)
    requires temp > 0.0 && Softmaxed(lo, 1.0 / temp, exp, p, mx) && Exponential(exp)
    ensures Ratios(lo, p, exp, temp)
  {
    hide Exponential;
    var w := Weights(lo, mx, 1.0 / temp, exp);
    forall i, j | 0 <= i < |lo| && 0 <= j < |lo| ensures p[j] == p[i] * exp((lo[j] - lo[i]) / temp) {
      WeightRatio(lo[i], lo[j], mx, temp, exp);
      ShareRatio(p[i], p[j], Sum(w), w[i], w[j], exp((lo[j] - lo[i]) / temp));
    }
  }

  lemma WeightRatio(x: real, y: real, mx: real, temp: real, exp: real -> real)
    requires temp > 0.0 && Exponential(exp)
    ensures Weight(y, mx, 1.0 / temp, exp) == Weight(x, mx, 1.0 / temp, exp) * exp((y - x) / temp)
  {
    hide Exponential, Scale;
    var invt := 1.0 / temp;
    Shifted(x - mx, y - x, y - mx, temp);
    ExpOfSum(exp, Scale(x - mx, invt), (y - x) / temp, Scale(y - mx, invt));
  }

  lemma Shifted(x: real, y: real, z: real, temp: real)
    requires temp > 0.0 && z == x + y
    ensures Scale(z, 1.0 / temp) == Scale(x, 1.0 / temp) + y / temp
  {
    assert y * (1.0 / temp) == y / temp;
    assert z * (1.0 / temp) == x * (1.0 / temp) + y * (1.0 / temp);
  }

  method Max(lo: seq<real>) returns (m: real)
    requires lo != []
    ensures IsMax(lo, m)
  {
    m := lo[0];
    var i := 1;
    while i < |lo|
      invariant 1 <= i <= |lo| && m in lo && forall j :: 0 <= j < i ==> lo[j] <= m
    {
      if lo[i] > m { m := lo[i]; }
      i := i + 1;
    }
  }

  lemma WeightPositive(x: real, mx: real, invt: real, exp: real -> real)
    requires forall y :: exp(y) > 0.0
    ensures Weight(x, mx, invt, exp) > 0.0
  {
  }

  method Exps(lo: seq<real>, m: real, invt: real, exp: real -> real) returns (e: seq<real>, s: real)
    requires lo != [] && forall x :: exp(x) > 0.0
    ensures e == Weights(lo, m, invt, exp) && s == Sum(e) > 0.0 && forall i :: 0 <= i < |e| ==> e[i] > 0.0
  {
    hide Weight;
    e, s := [], 0.0;
    while |e| < |lo|
      invariant |e| <= |lo| && forall i :: 0 <= i < |e| ==> e[i] == Weight(lo[i], m, invt, exp)
      invariant s == Sum(e) && s >= 0.0 && (|e| > 0 ==> s > 0.0) && forall i :: 0 <= i < |e| ==> e[i] > 0.0
    {
      var x := Weight(lo[|e|], m, invt, exp);
      WeightPositive(lo[|e|], m, invt, exp);
      assert (e + [x])[..|e|] == e;
      e, s := e + [x], s + x;
    }
  }

  /** the greatest logit is subtracted before exp; the weights are divided by their sum */
  method Softmax(lo: seq<real>, invt: real, exp: real -> real) returns (p: seq<real>, ghost mx: real)
    requires lo != [] && forall x :: exp(x) > 0.0
    ensures IsDist(p) && Softmaxed(lo, invt, exp, p, mx)
    ensures invt > 0.0 && Rising(exp) ==> Ranks(lo, p)
    ensures forall temp :: temp > 0.0 && invt == 1.0 / temp && Exponential(exp) ==> Ratios(lo, p, exp, temp)
  {
    hide Weight, Rising, Ranks, Exponential, Ratios, Shares, Softmaxed, IsDist, Weights, Sum, IsMax;
    var m := Max(lo);
    mx := m;
    var e, s := Exps(lo, m, invt, exp);
    WeightsSize(lo, m, invt, exp);
    p := [];
    while |p| < |lo|
      invariant |p| <= |lo| && forall j :: 0 <= j < |p| ==> Shares(p[j], s, e[j])
    {
      var q := Share(e[|p|], s);
      p := p + [q];
    }
    SoftIs(lo, m, invt, exp, e, s, p);
    if invt > 0.0 && Rising(exp) { SoftRanks(lo, invt, exp, p, mx); }
    forall temp | temp > 0.0 && invt == 1.0 / temp && Exponential(exp) ensures Ratios(lo, p, exp, temp) {
      SoftRatios(lo, temp, exp, p, mx);
    }
  }

  lemma WeightsSize(lo: seq<real>, mx: real, invt: real, exp: real -> real)
    ensures |Weights(lo, mx, invt, exp)| == |lo|
  {
  }

  lemma SoftIs(lo: seq<real>, m: real, invt: real, exp: real -> real, e: seq<real>, s: real, p: seq<real>)
    requires IsMax(lo, m) && e == Weights(lo, m, invt, exp) && s == Sum(e) > 0.0 && |p| == |e| && p != []
    requires forall j :: 0 <= j < |p| ==> e[j] > 0.0 && Shares(p[j], s, e[j])
    ensures IsDist(p) && Softmaxed(lo, invt, exp, p, m)
  {
    hide Weight, Sum, IsMax;
    SumScaleBack(e, p, s);
  }

  lemma SumScaleBack(e: seq<real>, p: seq<real>, s: real)
    requires |p| == |e| && p != [] && s == Sum(e) > 0.0
    requires forall j :: 0 <= j < |p| ==> e[j] > 0.0 && p[j] * s == e[j]
    ensures IsDist(p)
  {
    SumScale(p, e, s);
    Cancel(Sum(p), 1.0, s);
    forall j | 0 <= j < |p| ensures p[j] >= 0.0 { NonnegFactor(p[j], s); }
  }

  function Warm(temp: real): (t: real)
    ensures t > 0.0
  {
    if temp > 0.0001 then temp else 0.0001
  }

  lemma SoftSize(lo: seq<real>, invt: real, exp: real -> real, p: seq<real>, mx: real)
    requires Softmaxed(lo, invt, exp, p, mx)
    ensures |p| == |lo|
  {
  }

  /** dist_build */
  method Build(lo: seq<real>, temp: real, nuc: real, exp: real -> real, sort: seq<real> -> seq<nat>)
      returns (p: seq<real>, ghost soft: seq<real>, ghost keep: nat, ghost mx: real)
    requires lo != [] && (forall x :: exp(x) > 0.0)
    requires forall s: seq<real> :: IsPerm(|s|, sort(s)) && Descending(s, sort(s))
    ensures IsDist(p) && |p| == |lo| && IsDist(soft) && Softmaxed(lo, 1.0 / Warm(temp), exp, soft, mx)
    ensures !(0.0 < nuc < 1.0) ==> p == soft
    ensures 0.0 < nuc < 1.0 ==> Nucleus(soft, sort(soft), nuc, p, keep)
    ensures Rising(exp) ==> Ranks(lo, soft)
    ensures Exponential(exp) ==> Ratios(lo, soft, exp, if temp > 0.0001 then temp else 0.0001)
    ensures 0.0 < nuc < 1.0 ==> TopPart(soft, nuc, p)
  {
    hide Softmaxed, IsPerm, Descending, IsDist, Nucleus, Rising, Ranks, Exponential, Ratios, TopPart;
    p, mx := Softmax(lo, 1.0 / Warm(temp), exp);
    SoftSize(lo, 1.0 / Warm(temp), exp, p, mx);
    if Exponential(exp) { SoftRatios(lo, Warm(temp), exp, p, mx); }
    soft, keep := p, 0;
    if !(0.0 < nuc < 1.0) { return; }
    var ord := sort(p);
    p, keep := Truncate(p, ord, nuc);
    NucleusSize(soft, ord, nuc, p, keep);
    NucleusIsDist(soft, ord, nuc, p, keep);
    NucleusIsTop(soft, ord, nuc, p, keep);
  }

  /** the nucleus part of dist_build */
  method Truncate(soft: seq<real>, ord: seq<nat>, nuc: real) returns (p: seq<real>, ghost kept: nat)
    requires IsDist(soft) && IsPerm(|soft|, ord) && Descending(soft, ord) && 0.0 < nuc < 1.0
    ensures Nucleus(soft, ord, nuc, p, kept)
  {
    hide Descending, IsPerm, IsDist;
    var keep := FindKeep(soft, ord, nuc);
    kept := keep;
    p := ZeroTail(soft, ord, keep);
    p := Rescale(soft, ord, keep, p);
  }

  method FindKeep(soft: seq<real>, ord: seq<nat>, nuc: real) returns (keep: nat)
    requires IsDist(soft) && IsPerm(|soft|, ord) && 0.0 < nuc < 1.0
    ensures 1 <= keep <= |ord| && CumOrd(soft, ord, keep - 1) < nuc <= CumOrd(soft, ord, keep)
  {
    var cum, n := 0.0, 0;
    OrdTotal(soft, ord);
    keep := |soft|;
    while n < |soft|
      invariant 0 <= n <= |soft| && cum == CumOrd(soft, ord, n) && cum < nuc
    {
      cum := cum + soft[ord[n]];
      if cum >= nuc { keep := n + 1; break; }
      n := n + 1;
    }
  }

  method ZeroTail(soft: seq<real>, ord: seq<nat>, keep: nat) returns (p: seq<real>)
    requires IsPerm(|soft|, ord) && keep <= |ord|
    ensures |p| == |soft| && forall j :: 0 <= j < |ord| ==> p[ord[j]] == if keep <= j then 0.0 else soft[ord[j]]
  {
    p := soft;
    var i := keep;
    while i < |ord|
      invariant keep <= i <= |ord| && |p| == |soft|
      invariant forall j :: 0 <= j < |ord| ==> p[ord[j]] == if keep <= j < i then 0.0 else soft[ord[j]]
    {
      p := p[ord[i] := 0.0];
      i := i + 1;
    }
  }

  method Rescale(soft: seq<real>, ord: seq<nat>, keep: nat, cut: seq<real>) returns (p: seq<real>)
    requires IsPerm(|soft|, ord) && keep <= |ord| && CumOrd(soft, ord, keep) > 0.0 && |cut| == |soft|
    requires forall j :: 0 <= j < |ord| ==> cut[ord[j]] == if keep <= j then 0.0 else soft[ord[j]]
    ensures |p| == |soft|
    ensures forall j :: 0 <= j < |ord| ==> p[ord[j]] * CumOrd(soft, ord, keep) == if j < keep then soft[ord[j]] else 0.0
  {
    hide Shares;
    var s2, i := 0.0, 0;
    while i < keep
      invariant 0 <= i <= keep && s2 == CumOrd(soft, ord, i)
    {
      s2 := s2 + cut[ord[i]];
      i := i + 1;
    }
    p := cut;
    i := 0;
    while i < keep
      invariant 0 <= i <= keep && |p| == |soft|
      invariant forall j :: 0 <= j < i ==> Shares(p[ord[j]], s2, soft[ord[j]])
      invariant forall j :: i <= j < |ord| ==> p[ord[j]] == cut[ord[j]]
    {
      var q := Share(p[ord[i]], s2);
      p := p[ord[i] := q];
      i := i + 1;
    }
    AllShared(soft, ord, keep, s2, p);
  }

  ghost predicate Shares(q: real, m: real, v: real) {
    q * m == v
  }

  method Share(v: real, m: real) returns (q: real)
    requires m > 0.0
    ensures Shares(q, m, v)
  {
    DivTimes(v, m);
    q := v / m;
  }

  lemma AllShared(soft: seq<real>, ord: seq<nat>, keep: nat, m: real, p: seq<real>)
    requires |p| == |soft| && (forall j :: 0 <= j < |ord| ==> ord[j] < |soft|)
    requires forall j :: 0 <= j < keep && j < |ord| ==> Shares(p[ord[j]], m, soft[ord[j]])
    requires forall j :: keep <= j < |ord| ==> p[ord[j]] == 0.0
    ensures forall j :: 0 <= j < |ord| ==> p[ord[j]] * m == if j < keep then soft[ord[j]] else 0.0
  {
    forall j | 0 <= j < |ord| ensures p[ord[j]] * m == if j < keep then soft[ord[j]] else 0.0 {
      if j < keep { assert Shares(p[ord[j]], m, soft[ord[j]]); } else { assert 0.0 * m == 0.0; }
    }
  }
}
