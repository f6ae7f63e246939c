/** The sparse selection of `attention_rows`: threshold first, ties after, and what it does to the attention output. */
module Dsa {
  import Sampling
  import opened Quant
  import DistBuild
  import opened Lists
  import opened Attention

  /** desc holds the scores in descending order, as ord lists them */
  ghost predicate Sorted(isc: seq<real>, ord: seq<nat>, desc: seq<real>) {
    && DistBuild.IsPerm(|isc|, ord) && DistBuild.Descending(isc, ord) && |desc| == |isc|
    && forall j :: 0 <= j < |ord| ==> desc[j] == isc[ord[j]]
  }

  /** fewer than keep positions score above the threshold */
  lemma FewAbove(isc: seq<real>, ord: seq<nat>, desc: seq<real>, keep: nat, dst: seq<nat>)
    requires Sorted(isc, ord, desc) && 1 <= keep <= |isc| && Distinct(dst)
    requires forall t :: t in dst ==> t < |isc| && isc[t] > desc[keep - 1]
    ensures |dst| < keep
  {
    forall t: nat | t in dst ensures t in ord[..keep - 1] {
      assert t in ord;
      var j :| 0 <= j < |ord| && ord[j] == t;
      assert j < keep - 1;
      assert ord[..keep - 1][j] == t;
    }
    NoLonger(dst, ord[..keep - 1]);
  }

  /** at least keep positions reach the threshold */
  lemma ManyReach(isc: seq<real>, ord: seq<nat>, desc: seq<real>, keep: nat, dst: seq<nat>)
    requires Sorted(isc, ord, desc) && 1 <= keep <= |isc| && Distinct(dst)
    requires forall t: nat :: t < |isc| && isc[t] >= desc[keep - 1] ==> t in dst
    ensures |dst| >= keep
  {
    forall t | t in ord[..keep] ensures t in dst {
      var j :| 0 <= j < keep && ord[j] == t;
    }
    NoLonger(ord[..keep], dst);
  }

  /** keep distinct positions, none scoring below a position left out */
  ghost predicate TopSet(isc: seq<real>, keep: nat, dst: seq<nat>) {
    && |dst| == keep && Distinct(dst) && (forall t :: t in dst ==> t < |isc|)
    && forall t, u: nat :: t in dst && u < |isc| && u !in dst ==> isc[t] >= isc[u]
  }

  /** the two scans in position order: scores above the threshold, then scores equal to it */
  method TopKeep(isc: seq<real>, desc: seq<real>, ghost ord: seq<nat>, keep: nat) returns (dst: seq<nat>)
    requires Sorted(isc, ord, desc) && 1 <= keep <= |isc|
    ensures TopSet(isc, keep, dst)
  {
    hide Sorted;
    var thr := Threshold(isc, desc, ord, keep);
    var t: nat := 0;
    dst := [];
    while t < |isc| && |dst| < keep
      invariant t <= |isc| && |dst| < keep && Distinct(dst)
      invariant forall u :: u in dst ==> u < t && isc[u] > thr
      invariant forall u: nat :: u < t && isc[u] > thr ==> u in dst
    {
      if isc[t] > thr { dst := dst + [t]; }
      t := t + 1;
      FewAbove(isc, ord, desc, keep, dst);
    }
    t := 0;
    while t < |isc| && |dst| < keep
      invariant t <= |isc| && |dst| <= keep && Distinct(dst)
      invariant forall u :: u in dst ==> u < |isc| && (isc[u] > thr || (u < t && isc[u] == thr))
      invariant forall u: nat :: u < |isc| && (isc[u] > thr || (u < t && isc[u] == thr)) ==> u in dst
    {
      if isc[t] == thr { dst := dst + [t]; }
      t := t + 1;
    }
    if |dst| < keep { ManyReach(isc, ord, desc, keep, dst); }
  }

  method Threshold(isc: seq<real>, desc: seq<real>, ghost ord: seq<nat>, keep: nat) returns (thr: real)
    requires Sorted(isc, ord, desc) && 1 <= keep <= |isc|
    ensures |desc| == |isc| && thr == desc[keep - 1]
  {
    thr := desc[keep - 1];
  }

  // ---------- the output does not depend on the order of the list ----------

  ghost function Along<T>(s: seq<T>, ord: seq<nat>): (r: seq<T>)
    requires DistBuild.IsPerm(|s|, ord)
    ensures |r| == |s|
  {
    seq(|s|, j requires 0 <= j < |s| => s[ord[j]])
  }

  lemma {:induction false} SumPrefix(e: seq<real>, ord: seq<nat>, k: nat)
    requires DistBuild.IsPerm(|e|, ord) && k <= |e|
    ensures Sampling.Sum(Along(e, ord)[..k]) == DistBuild.CumOrd(e, ord, k)
  {
    var p := Along(e, ord);
    if k > 0 {
      SumPrefix(e, ord, k - 1);
      assert p[..k][..k - 1] == p[..k - 1];
    }
  }

  lemma SumAlong(e: seq<real>, ord: seq<nat>)
    requires DistBuild.IsPerm(|e|, ord)
    ensures Sampling.Sum(Along(e, ord)) == Sampling.Sum(e)
  {
    SumPrefix(e, ord, |e|);
    assert Along(e, ord)[..|e|] == Along(e, ord);
    DistBuild.OrdTotal(e, ord);
  }

  lemma MaxBelow(m: real, x: seq<real>, y: seq<real>, pos: seq<nat>)
    requires |pos| == |x| && forall i :: 0 <= i < |x| ==> pos[i] < |y| && y[pos[i]] == x[i]
    ensures MaxFrom(m, x, |x|) <= MaxFrom(m, y, |y|)
  {
    hide MaxFrom;
    if MaxFrom(m, x, |x|) != m {
      var i :| 0 <= i < |x| && x[i] == MaxFrom(m, x, |x|);
      assert y[pos[i]] == x[i];
    }
  }

  lemma MaxAlong(m: real, x: seq<real>, ord: seq<nat>)
    requires DistBuild.IsPerm(|x|, ord)
    ensures MaxFrom(m, Along(x, ord), |x|) == MaxFrom(m, x, |x|)
  {
    hide MaxFrom;
    MaxBelow(m, Along(x, ord), x, ord);
    var back := Inverse(|x|, ord);
    MaxBelow(m, x, Along(x, ord), back);
  }

  lemma Inverse(n: nat, ord: seq<nat>) returns (back: seq<nat>)
    requires DistBuild.IsPerm(n, ord)
    ensures |back| == n && forall i :: 0 <= i < n ==> back[i] < n && ord[back[i]] == i
  {
    back := [];
    while |back| < n
      invariant |back| <= n && forall i :: 0 <= i < |back| ==> back[i] < n && ord[back[i]] == i
    {
      assert |back| in ord;
      var j :| 0 <= j < |ord| && ord[j] == |back|;
      back := back + [j];
    }
  }

  lemma SoftmaxAlong(x: seq<real>, ord: seq<nat>, exp: real -> real)
    requires DistBuild.IsPerm(|x|, ord) && Positive(exp)
    ensures Softmax(Along(x, ord), exp) == Along(Softmax(x, exp), ord)
  {
    hide DistBuild.IsPerm, MaxFrom, Sampling.Sum;
    MaxAlong(FLOOR, x, ord);
    var e := Exps(x, exp);
    assert Exps(Along(x, ord), exp) == Along(e, ord) by { InBounds(|x|, ord); }
    SumAlong(e, ord);
    if x != [] {
      InBounds(|x|, ord);
      ExpsSum(x, exp);
    }
  }

  lemma InBounds(n: nat, ord: seq<nat>)
    requires DistBuild.IsPerm(n, ord)
    ensures |ord| == n && forall j :: 0 <= j < n ==> ord[j] < n
  {
  }

  /** the terms of a mix, by list index */
  ghost function Terms(row: seq<real>, a: seq<real>, kv: Kv, list: seq<nat>): (r: seq<real>)
    requires |list| == |a|
    requires forall j :: 0 <= j < |list| ==> list[j] < |kv.latent| && |kv.latent[list[j]]| == |row|
    ensures |r| == |a|
  {
    seq(|a|, j requires 0 <= j < |a| => a[j] * Dot(row, kv.latent[list[j]], |row|))
  }

  lemma {:induction false} MixedSum(row: seq<real>, a: seq<real>, kv: Kv, list: seq<nat>, n: nat)
    requires n <= |list| == |a|
    requires forall j :: 0 <= j < |list| ==> list[j] < |kv.latent| && |kv.latent[list[j]]| == |row|
    ensures Mixed(row, a, kv, list, n) == Sampling.Sum(Terms(row, a, kv, list)[..n])
  {
    hide Dot;
    var t := Terms(row, a, kv, list);
    if n > 0 {
      MixedSum(row, a, kv, list, n - 1);
      assert t[..n][..n - 1] == t[..n - 1];
    }
  }

  lemma MixedAlong(row: seq<real>, a: seq<real>, kv: Kv, list: seq<nat>, ord: seq<nat>)
    requires |list| == |a| && DistBuild.IsPerm(|a|, ord)
    requires forall j :: 0 <= j < |list| ==> list[j] < |kv.latent| && |kv.latent[list[j]]| == |row|
    ensures Mixed(row, Along(a, ord), kv, Along(list, ord), |a|) == Mixed(row, a, kv, list, |a|)
  {
    hide Mixed, Terms;
    var t, u := Terms(row, a, kv, list), Terms(row, Along(a, ord), kv, Along(list, ord));
    MixedSum(row, a, kv, list, |a|);
    MixedSum(row, Along(a, ord), kv, Along(list, ord), |a|);
    TermsAlong(row, a, kv, list, ord);
    assert t[..|a|] == t && u[..|a|] == u;
    SumAlong(t, ord);
  }

  lemma TermsAlong(row: seq<real>, a: seq<real>, kv: Kv, list: seq<nat>, ord: seq<nat>)
    requires |list| == |a| && DistBuild.IsPerm(|a|, ord)
    requires forall j :: 0 <= j < |list| ==> list[j] < |kv.latent| && |kv.latent[list[j]]| == |row|
    ensures Terms(row, Along(a, ord), kv, Along(list, ord)) == Along(Terms(row, a, kv, list), ord)
  {
    hide Dot;
    InBounds(|a|, ord);
    var t, u := Terms(row, a, kv, list), Terms(row, Along(a, ord), kv, Along(list, ord));
    forall j | 0 <= j < |a| ensures u[j] == t[ord[j]] {}
    assert u == Along(t, ord);
  }

  /** reordering the positions leaves the head's output as it was */
  lemma OrderIrrelevant(hd: Head, q: seq<real>, qr: seq<real>, kv: Kv, list: seq<nat>, ord: seq<nat>, exp: real -> real)
    requires hd.Valid() && hd.nope <= |q| && kv.Valid(hd.t.I, |qr|) && Listed(kv, list) && Positive(exp)
    requires DistBuild.IsPerm(|list|, ord)
    ensures Listed(kv, Along(list, ord))
    ensures HeadOut(hd, q, qr, kv, Along(list, ord), exp) == HeadOut(hd, q, qr, kv, list, exp)
  {
    hide Score, Softmax, Mixed, Row, Positive;
    var x := Scores(hd, q, qr, kv, list);
    assert Scores(hd, q, qr, kv, Along(list, ord)) == Along(x, ord);
    SoftmaxAlong(x, ord, exp);
    forall d: nat | d < hd.vh
      ensures HeadOut(hd, q, qr, kv, Along(list, ord), exp)[d] == HeadOut(hd, q, qr, kv, list, exp)[d]
    {
      MixedAlong(hd.Value(d), Softmax(x, exp), kv, list, ord);
    }
  }

  /** a selection that keeps every position attends as dense attention does */
  lemma KeepAllIsDense(hd: Head, q: seq<real>, qr: seq<real>, kv: Kv, isc: seq<real>, dst: seq<nat>, exp: real -> real)
    requires hd.Valid() && hd.nope <= |q| && kv.Valid(hd.t.I, |qr|) && |isc| <= |kv.latent| && Positive(exp)
    requires TopSet(isc, |isc|, dst)
    ensures Listed(kv, dst) && Listed(kv, Dense(|isc|))
    ensures HeadOut(hd, q, qr, kv, dst, exp) == HeadOut(hd, q, qr, kv, Dense(|isc|), exp)
  {
    hide Positive;
    Pigeonhole(|isc|, dst);
    forall j | 0 <= j < |dst| ensures dst[j] < |isc| { assert dst[j] in dst; }
    OrderIrrelevant(hd, q, qr, kv, Dense(|isc|), dst, exp);
    assert Along(Dense(|isc|), dst) == dst;
  }
}
