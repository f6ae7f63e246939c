/** `moe`: the union of the batch's experts in blocks of 64, over pins, LRU and working set.

    The output is shown to be the plain per-position weighted sum plus the shared expert, whatever the slots held. */
module Moe {
  import opened Lists
  import opened Experts

  // ---------- the plain sum ----------

  /** coordinate d of the first n weighted experts of one position, restricted to the ids in done */
  ghost function Part(idx: seq<nat>, w: seq<real>, h: nat -> seq<real>, done: set<nat>, d: nat, n: nat): real
    requires n <= |idx| == |w| && forall e :: d < |h(e)|
  {
    if n == 0 then 0.0
    else Part(idx, w, h, done, d, n - 1) + if idx[n - 1] in done then Scaled(w[n - 1], h(idx[n - 1])[d]) else 0.0
  }

  /** sum over k of w_k * expert_k(x), coordinate d */
  ghost function Mix(idx: seq<nat>, w: seq<real>, h: nat -> seq<real>, d: nat, n: nat): real
    requires n <= |idx| == |w| && forall e :: d < |h(e)|
  {
    if n == 0 then 0.0 else Mix(idx, w, h, d, n - 1) + w[n - 1] * h(idx[n - 1])[d]
  }

  function Scaled(w: real, v: real): real {
    w * v
  }

  lemma {:induction false} PartNone(idx: seq<nat>, w: seq<real>, h: nat -> seq<real>, d: nat, n: nat)
    requires n <= |idx| == |w| && forall e :: d < |h(e)|
    ensures Part(idx, w, h, {}, d, n) == 0.0
  {
    if n > 0 { PartNone(idx, w, h, d, n - 1); }
  }

  lemma {:induction false} PartAll(idx: seq<nat>, w: seq<real>, h: nat -> seq<real>, done: set<nat>, d: nat, n: nat)
    requires n <= |idx| == |w| && forall e :: d < |h(e)|
    requires forall k :: 0 <= k < |idx| ==> idx[k] in done
    ensures Part(idx, w, h, done, d, n) == Mix(idx, w, h, d, n)
  {
    if n > 0 { PartAll(idx, w, h, done, d, n - 1); }
  }

  /** one more expert adds its weighted output where it is routed, and nothing elsewhere */
  lemma {:induction false} PartStep(idx: seq<nat>, w: seq<real>, h: nat -> seq<real>, done: set<nat>, e: nat, d: nat,
                                    n: nat)
    requires n <= |idx| == |w| && Distinct(idx) && e !in done && forall e :: d < |h(e)|
    ensures e !in idx[..n] ==> Part(idx, w, h, done + {e}, d, n) == Part(idx, w, h, done, d, n)
    ensures forall k :: 0 <= k < n && idx[k] == e ==>
      Part(idx, w, h, done + {e}, d, n) == Part(idx, w, h, done, d, n) + Scaled(w[k], h(e)[d])
  {
    if n > 0 {
      PartStep(idx, w, h, done, e, d, n - 1);
      assert idx[..n] == idx[..n - 1] + [idx[n - 1]];
    }
  }

  // ---------- routing ----------

  /** every score lies above the value the search for the best starts from */
  ghost predicate Scored(choice: seq<real>) {
    forall e :: 0 <= e < |choice| ==> choice[e] > -1000000000000000000000000000000.0
  }

  /** b has the best score of those not taken, and is the first that has it */
  ghost predicate First(choice: seq<real>, taken: seq<nat>, b: nat) {
    && b < |choice| && b !in taken
    && forall f: nat :: f < |choice| && f !in taken ==> choice[f] < choice[b] || (choice[f] == choice[b] && b <= f)
  }

  /** round after round the best of the rest */
  ghost predicate Picks(choice: seq<real>, idx: seq<nat>) {
    forall j: nat :: j < |idx| ==> First(choice, idx[..j], idx[j])
  }

  /** k distinct experts in range, none scoring below one left out */
  ghost predicate TopK(choice: seq<real>, k: nat, idx: seq<nat>) {
    && |idx| == k && Distinct(idx) && (forall e :: e in idx ==> e < |choice|)
    && forall e, f: nat :: e in idx && f < |choice| && f !in idx ==> choice[e] >= choice[f]
  }

  lemma PicksTop(choice: seq<real>, idx: seq<nat>)
    requires Picks(choice, idx)
    ensures TopK(choice, |idx|, idx)
  {
    forall i, j | 0 <= i < j < |idx| ensures idx[i] != idx[j] {
      assert First(choice, idx[..j], idx[j]);
      assert idx[i] == idx[..j][i];
    }
    forall e, f: nat | e in idx && f < |choice| && f !in idx ensures choice[e] >= choice[f] {
      var j :| 0 <= j < |idx| && idx[j] == e;
      assert First(choice, idx[..j], idx[j]);
    }
    forall e | e in idx ensures e < |choice| {
      var j :| 0 <= j < |idx| && idx[j] == e;
      assert First(choice, idx[..j], idx[j]);
    }
  }

  /** ties go to the lowest expert, so the selection is determined by the scores */
  lemma {:induction false} PicksUnique(choice: seq<real>, a: seq<nat>, b: seq<nat>)
    requires Picks(choice, a) && Picks(choice, b) && |a| == |b|
    ensures a == b
  {
    if a != [] {
      var n := |a| - 1;
      forall j: nat | j < n
        ensures First(choice, a[..n][..j], a[..n][j]) && First(choice, b[..n][..j], b[..n][j])
      {
        assert a[..n][..j] == a[..j] && b[..n][..j] == b[..j];
        assert First(choice, a[..j], a[j]) && First(choice, b[..j], b[j]);
      }
      PicksUnique(choice, a[..n], b[..n]);
      assert First(choice, a[..n], a[n]) && First(choice, b[..n], b[n]);
      assert a == a[..n] + [a[n]] && b == b[..n] + [b[n]];
    }
  }

  /** the top-k selection of `moe`: k rounds, each taking the best expert not yet taken */
  method Select(choice: seq<real>, k: nat) returns (idx: seq<nat>)
    requires k <= |choice| && Scored(choice)
    ensures Picks(choice, idx) && TopK(choice, k, idx)
  {
    idx := [];
    while |idx| < k
      invariant |idx| <= k && Picks(choice, idx)
    {
      PicksTop(choice, idx);
      var best := Best(choice, idx);
      ghost var more := idx + [best];
      forall j: nat | j < |more| ensures First(choice, more[..j], more[j]) {
        assert more[..j] == idx[..j];
      }
      idx := idx + [best];
    }
    PicksTop(choice, idx);
  }

  method Best(choice: seq<real>, taken: seq<nat>) returns (best: nat)
    requires |taken| < |choice| && Distinct(taken) && Scored(choice)
    ensures First(choice, taken, best)
  {
    var found, bv: real, e: nat := false, -1000000000000000000000000000000.0, 0;
    best := 0;
    while e < |choice|
      invariant e <= |choice|
      invariant found ==> best < e && best !in taken && bv == choice[best]
      invariant forall f: nat :: f < e && f !in taken ==> found && (choice[f] < bv || (choice[f] == bv && best <= f))
      invariant !found ==> bv == -1000000000000000000000000000000.0
    {
      if e !in taken && choice[e] > bv { found, bv, best := true, choice[e], e; }
      e := e + 1;
    }
    if !found { NoLonger(Dense(|choice|), taken); }
  }

  ghost function Biased(score: seq<real>, bias: seq<real>): (c: seq<real>)
    requires |score| == |bias|
    ensures |c| == |bias|
  {
    seq(|bias|, e requires 0 <= e < |bias| => score[e] + bias[e])
  }

  /** the router of a layer: its matrix and sigmoid as one function of the input, the selection bias, and how many
      experts are selected, `limit` being the run's cap when positive */
  datatype Router =
    Router(score: seq<real> -> seq<real>, bias: seq<real>, k: nat, limit: int, norm: bool, scale: real)
  {
    ghost predicate Valid() {
      && k <= |bias| && (forall x :: |score(x)| == |bias|)
      && forall x :: Positive(score(x)) && Scored(Biased(score(x), bias))
    }

    function Keep(): nat {
      if 0 < limit < k then limit else k
    }

    ghost function Choice(x: seq<real>): (c: seq<real>)
      requires Valid()
      ensures |c| == |bias| && Scored(c)
    {
      Biased(score(x), bias)
    }
  }

  ghost predicate InRange(idx: seq<nat>, n: nat) {
    forall i :: 0 <= i < |idx| ==> idx[i] < n
  }

  /** the scores of the selected experts, without the bias */
  ghost function Scores(score: seq<real>, idx: seq<nat>): (top: seq<real>)
    requires InRange(idx, |score|)
    ensures |top| == |idx|
  {
    seq(|idx|, i requires 0 <= i < |idx| => score[idx[i]])
  }

  ghost predicate Positive(top: seq<real>) {
    forall i :: 0 <= i < |top| ==> top[i] > 0.0
  }

  function Sum(w: seq<real>): (t: real)
    ensures Positive(w) ==> t >= 0.0
  {
    if w == [] then 0.0 else Sum(w[..|w| - 1]) + w[|w| - 1]
  }

  function Over(a: real, b: real): real
    requires b > 0.0
  {
    a / b
  }

  const TINY := 0.00000000000000000001

  /** the gates made of the selected scores */
  ghost predicate Gates(r: Router, top: seq<real>, w: seq<real>)
    requires Positive(top)
  {
    && |w| == |top|
    && forall i :: 0 <= i < |w| ==> w[i] == Scaled(if r.norm then Over(top[i], Sum(top) + TINY) else top[i], r.scale)
  }

  /** The gates of a routed position are in proportion to its experts' scores, which leave the bias out; normalised ones
      share the model's scale out between them. */
  lemma GatesShare(r: Router, x: seq<real>, idx: seq<nat>, w: seq<real>, i: nat)
    requires r.Valid() && RouteOk(r, x, idx, w) && i < |idx|
    ensures var top := Scores(r.score(x), idx);
      && |w| == |idx| && Scaled(w[i], Sum(top)) == Scaled(r.score(x)[idx[i]], Sum(w))
      && (r.norm ==> Scaled(Sum(w), Sum(top) + TINY) == Scaled(Sum(top), r.scale))
  {
    hide Picks, TopK, Over, Scaled, Sum;
    var top := Scores(r.score(x), idx);
    if r.norm {
      var all := Sum(top) + TINY;
      SharedOut(top, w, all, r.scale);
      OneShare(w[i], top[i], Sum(w), Sum(top), all, r.scale);
    } else {
      ScaledOut(top, w, r.scale);
      SwapScale(top[i], Sum(top), r.scale);
    }
  }

  lemma OneShare(w: real, t: real, u: real, s: real, all: real, scale: real)
    requires all > 0.0 && w == Scaled(Over(t, all), scale) && Scaled(u, all) == Scaled(s, scale)
    ensures Scaled(w, s) == Scaled(t, u)
  {
    var o := Over(t, all);
    assert t == o * all;
    assert w * s == o * (s * scale) by { SwapScale(o, s, scale); }
    assert t * u == o * (u * all) by { Regroup(o, all, u); }
  }

  lemma Regroup(a: real, b: real, c: real)
    ensures (a * b) * c == a * (c * b)
  {
  }

  lemma SwapScale(t: real, s: real, scale: real)
    ensures Scaled(Scaled(t, scale), s) == Scaled(t, Scaled(s, scale))
    ensures (t * scale) * s == t * (s * scale)
  {
  }

  lemma {:induction false} ScaledOut(top: seq<real>, w: seq<real>, scale: real)
    requires |w| == |top| && forall i :: 0 <= i < |w| ==> w[i] == Scaled(top[i], scale)
    ensures Sum(w) == Scaled(Sum(top), scale)
  {
    if w != [] {
      var n := |w| - 1;
      ScaledOut(top[..n], w[..n], scale);
      AddScaled(Sum(top[..n]), top[n], scale);
    }
  }

  lemma AddScaled(a: real, b: real, scale: real)
    ensures Scaled(a + b, scale) == Scaled(a, scale) + Scaled(b, scale)
  {
  }

  lemma {:induction false} SharedOut(top: seq<real>, w: seq<real>, all: real, scale: real)
    requires all > 0.0 && |w| == |top| && forall i :: 0 <= i < |w| ==> w[i] == Scaled(Over(top[i], all), scale)
    ensures Scaled(Sum(w), all) == Scaled(Sum(top), scale)
  {
    if w != [] {
      var n := |w| - 1;
      SharedOut(top[..n], w[..n], all, scale);
      ShareStep(Sum(w[..n]), Sum(top[..n]), top[n], all, scale);
    }
  }

  lemma ShareStep(u: real, t: real, v: real, all: real, scale: real)
    requires all > 0.0 && Scaled(u, all) == Scaled(t, scale)
    ensures Scaled(u + Scaled(Over(v, all), scale), all) == Scaled(t + v, scale)
  {
    var o := Over(v, all);
    assert o * all == v;
    assert (o * scale) * all == scale * (o * all);
    assert (u + o * scale) * all == u * all + (o * scale) * all;
    assert (t + v) * scale == t * scale + v * scale;
  }

  /** the ids and gates of one position */
  ghost predicate RouteOk(r: Router, x: seq<real>, idx: seq<nat>, w: seq<real>)
    requires r.Valid()
  {
    && Picks(r.Choice(x), idx) && TopK(r.Choice(x), r.Keep(), idx)
    && InRange(idx, |r.bias|) && Positive(Scores(r.score(x), idx)) && Gates(r, Scores(r.score(x), idx), w)
  }

  /** What the routing promises of one position: as many experts as the model and the run ask for, none of them with a
      lower biased score than one left out; gates in proportion to the unbiased scores, scaled, and when the model
      normalises adding up to its scale but for the tiny term. */
  ghost predicate Routing(r: Router, x: seq<real>, idx: seq<nat>, w: seq<real>)
    requires r.Valid()
  {
    var s := r.score(x);
    && (r.limit <= 0 || r.limit >= r.k ==> |idx| == r.k) && (0 < r.limit < r.k ==> |idx| == r.limit)
    && |w| == |idx| && Distinct(idx) && InRange(idx, |r.bias|)
    && (forall e, f: nat :: e in idx && e < |r.bias| && f < |r.bias| && f !in idx ==>
        s[e] + r.bias[e] >= s[f] + r.bias[f])
    && (forall i :: 0 <= i < |idx| ==> w[i] * Sum(Scores(s, idx)) == s[idx[i]] * Sum(w))
    && (!r.norm ==> forall i :: 0 <= i < |idx| ==> w[i] == s[idx[i]] * r.scale)
    && (r.norm ==> Sum(w) * (Sum(Scores(s, idx)) + 0.00000000000000000001) == Sum(Scores(s, idx)) * r.scale)
    && (idx != [] && r.scale != 0.0 ==> exists i :: 0 <= i < |w| && w[i] != 0.0)
  }

  lemma RouteIs(r: Router, x: seq<real>, idx: seq<nat>, w: seq<real>)
    requires r.Valid() && RouteOk(r, x, idx, w)
    ensures Routing(r, x, idx, w)
  {
    hide Picks, Sum, Gates;
    var s, top := r.score(x), Scores(r.score(x), idx);
    GatesRaw(r, top, w);
    forall i: nat | i < |idx| ensures w[i] * Sum(top) == s[idx[i]] * Sum(w) { GatesShare(r, x, idx, w, i); }
    if idx != [] && r.scale != 0.0 { SomeGate(r, top, w); }
  }

  lemma GatesRaw(r: Router, top: seq<real>, w: seq<real>)
    requires Positive(top) && Gates(r, top, w)
    ensures |w| == |top| && (!r.norm ==> forall i :: 0 <= i < |w| ==> w[i] == top[i] * r.scale)
    ensures r.norm ==> Sum(w) * (Sum(top) + 0.00000000000000000001) == Sum(top) * r.scale
  {
    hide Sum;
    if r.norm { SharedOut(top, w, Sum(top) + TINY, r.scale); }
  }

  /** a positive score over a positive sum, times a scale that is not zero */
  lemma SomeGate(r: Router, top: seq<real>, w: seq<real>)
    requires Positive(top) && Gates(r, top, w) && top != [] && r.scale != 0.0
    ensures exists i :: 0 <= i < |w| && w[i] != 0.0
  {
    hide Sum;
    NotZero(if r.norm then Over(top[0], Sum(top) + TINY) else top[0], r.scale);
    assert w[0] != 0.0;
  }

  lemma NotZero(g: real, scale: real)
    requires g > 0.0 && scale != 0.0
    ensures Scaled(g, scale) != 0.0
  {
  }

  method RouteOne(r: Router, x: seq<real>) returns (idx: seq<nat>, w: seq<real>)
    requires r.Valid()
    ensures RouteOk(r, x, idx, w)
  {
    hide Picks, TopK;
    var score := r.score(x);
    var choice := Choices(r, x, score);
    idx := Select(choice, r.Keep());
    assert InRange(idx, |score|) by { TopInRange(choice, r.Keep(), idx); }
    w := Weigh(r, score, idx);
  }

  method Choices(r: Router, x: seq<real>, score: seq<real>) returns (choice: seq<real>)
    requires r.Valid() && score == r.score(x)
    ensures choice == r.Choice(x)
  {
    choice := [];
    while |choice| < |score|
      invariant |choice| <= |score| && choice == r.Choice(x)[..|choice|]
    {
      var e := |choice|;
      choice := choice + [score[e] + r.bias[e]];
    }
  }

  lemma TopInRange(choice: seq<real>, k: nat, idx: seq<nat>)
    requires TopK(choice, k, idx)
    ensures InRange(idx, |choice|)
  {
    forall i | 0 <= i < |idx| ensures idx[i] < |choice| { assert idx[i] in idx; }
  }

  /** the scores of the selected experts, divided by their sum when the model says so, times the model's scale */
  method Weigh(r: Router, score: seq<real>, idx: seq<nat>) returns (w: seq<real>)
    requires InRange(idx, |score|) && Positive(score)
    ensures Positive(Scores(score, idx)) && Gates(r, Scores(score, idx), w)
  {
    ghost var top := Scores(score, idx);
    var sm, kk := 0.0, 0;
    while kk < |idx|
      invariant 0 <= kk <= |idx| && sm == Sum(top[..kk])
    {
      assert top[..kk + 1][..kk] == top[..kk];
      sm := sm + score[idx[kk]];
      kk := kk + 1;
    }
    assert top[..kk] == top;
    w := [];
    while |w| < |idx|
      invariant |w| <= |idx|
      invariant forall i :: 0 <= i < |w| ==> w[i] == Scaled(if r.norm then Over(top[i], sm + TINY) else top[i], r.scale)
    {
      var g := score[idx[|w|]];
      if r.norm { g := Over(g, sm + TINY); }
      w := w + [Scaled(g, r.scale)];
    }
  }

  /** every position is routed on its own */
  ghost predicate RoutedBy(r: Router, x: seq<seq<real>>, b: Batch)
    requires r.Valid()
  {
    b.x == x && |b.idx| == |b.w| == |x| && forall s :: 0 <= s < |x| ==> RouteOk(r, x[s], b.idx[s], b.w[s])
  }

  method Route(r: Router, x: seq<seq<real>>, width: nat) returns (b: Batch)
    requires r.Valid()
    ensures RoutedBy(r, x, b) && b.Valid(|r.bias|) && b.width == width
    ensures |b.idx| == |b.w| == |x| && forall s :: 0 <= s < |x| ==> Routing(r, x[s], b.idx[s], b.w[s])
  {
    hide RouteOk, Routing;
    b := Batch([], [], [], width);
    while |b.x| < |x|
      invariant |b.x| <= |x| && RoutedBy(r, x[..|b.x|], b) && b.width == width
    {
      var s := |b.x|;
      var idx, w := RouteOne(r, x[s]);
      assert x[..s + 1] == x[..s] + [x[s]];
      b := Batch(b.x + [x[s]], b.idx + [idx], b.w + [w], width);
    }
    assert x[..|b.x|] == x;
    forall s | 0 <= s < |b.idx|
      ensures |b.idx[s]| == |b.w[s]| && Distinct(b.idx[s]) && forall e :: e in b.idx[s] ==> e < |r.bias|
    {
      RouteFits(r, x[s], b.idx[s], b.w[s]);
    }
    forall s | 0 <= s < |x| ensures Routing(r, x[s], b.idx[s], b.w[s]) { RouteIs(r, x[s], b.idx[s], b.w[s]); }
  }

  lemma RouteFits(r: Router, x: seq<real>, idx: seq<nat>, w: seq<real>)
    requires r.Valid() && RouteOk(r, x, idx, w)
    ensures |idx| == |w| && Distinct(idx) && forall e :: e in idx ==> e < |r.bias|
  {
  }

  /** the ids and gates depend on the input alone */
  lemma RouteUnique(r: Router, x: seq<real>, idx: seq<nat>, w: seq<real>, idx': seq<nat>, w': seq<real>)
    requires r.Valid() && RouteOk(r, x, idx, w) && RouteOk(r, x, idx', w')
    ensures idx == idx' && w == w'
  {
    hide Picks, TopK, Gates, Scores, Positive;
    TopSize(r.Choice(x), r.Keep(), idx);
    TopSize(r.Choice(x), r.Keep(), idx');
    PicksUnique(r.Choice(x), idx, idx');
    GatesUnique(r, Scores(r.score(x), idx), w, w');
  }

  lemma TopSize(choice: seq<real>, k: nat, idx: seq<nat>)
    requires TopK(choice, k, idx)
    ensures |idx| == k
  {
  }

  lemma GatesUnique(r: Router, top: seq<real>, w: seq<real>, w': seq<real>)
    requires Positive(top) && Gates(r, top, w) && Gates(r, top, w')
    ensures w == w'
  {
    hide Scaled, Over, Sum;
    assert forall i :: 0 <= i < |w| ==> w[i] == w'[i];
  }

  // ---------- the batch union ----------

  ghost predicate Routed(idx: seq<seq<nat>>, s: nat, e: nat) {
    exists t: nat :: t < |idx| && t < s && e in idx[t]
  }

  /** the distinct ids of one more position */
  method UnionRow(row: seq<nat>, seen0: set<nat>, uniq0: seq<nat>) returns (seen: set<nat>, uniq: seq<nat>)
    requires Distinct(uniq0) && forall e: nat :: e in uniq0 <==> e in seen0
    ensures Distinct(uniq) && forall e: nat :: e in uniq <==> e in seen
    ensures forall e: nat :: e in seen <==> e in seen0 || e in row
  {
    seen, uniq := seen0, uniq0;
    var k := 0;
    while k < |row|
      invariant 0 <= k <= |row| && Distinct(uniq) && forall e: nat :: e in uniq <==> e in seen
      invariant forall e: nat :: e in seen <==> e in seen0 || e in row[..k]
    {
      if row[k] !in seen { seen, uniq := seen + {row[k]}, uniq + [row[k]]; }
      k := k + 1;
    }
    assert row[..k] == row;
  }

  method Union(idx: seq<seq<nat>>) returns (uniq: seq<nat>)
    ensures Distinct(uniq) && forall e: nat :: e in uniq <==> Routed(idx, |idx|, e)
  {
    var seen: set<nat>, s: nat := {}, 0;
    uniq := [];
    while s < |idx|
      invariant s <= |idx| && Distinct(uniq) && forall e: nat :: e in uniq <==> e in seen
      invariant forall e: nat :: e in seen <==> Routed(idx, s, e)
    {
      ghost var before := seen;
      seen, uniq := UnionRow(idx[s], seen, uniq);
      forall e: nat ensures Routed(idx, s + 1, e) <==> Routed(idx, s, e) || e in idx[s] {}
      s := s + 1;
    }
  }

  // ---------- one batch over the slots ----------

  /** where a block's expert is read from */
  datatype Ref = Pinned(z: nat) | Cached(z: nat) | Working(q: nat)

  type Expert = (nat, nat, seq<real>) -> seq<real>

  /** inputs, routed ids and weights of a batch, and the experts' common width */
  datatype Batch = Batch(x: seq<seq<real>>, idx: seq<seq<nat>>, w: seq<seq<real>>, width: nat) {
    ghost predicate Valid(E: nat) {
      && |x| == |idx| == |w|
      && forall s :: 0 <= s < |idx| ==> |idx[s]| == |w[s]| && Distinct(idx[s]) && forall e :: e in idx[s] ==> e < E
    }
  }

  ghost predicate Widths(f: Expert, width: nat) {
    forall l, e, x :: |f(l, e, x)| == width
  }

  /** what the expert e of layer l makes of input s */
  ghost function Out(f: Expert, l: nat, b: Batch, s: nat): (h: nat -> seq<real>)
    requires s < |b.x|
  {
    (e: nat) => f(l, e, b.x[s])
  }

  /** the output rows after the experts in done */
  ghost predicate Accumulated(f: Expert, l: nat, b: Batch, E: nat, done: set<nat>, out: seq<seq<real>>)
    requires b.Valid(E) && Widths(f, b.width)
  {
    && |out| == |b.x|
    && forall s :: 0 <= s < |out| ==> RowIs(f, l, b, E, done, s, out[s])
  }

  ghost predicate RowIs(f: Expert, l: nat, b: Batch, E: nat, done: set<nat>, s: nat, row: seq<real>)
    requires b.Valid(E) && Widths(f, b.width) && s < |b.x|
  {
    && |row| == b.width
    && forall d: nat :: d < b.width ==> row[d] == Part(b.idx[s], b.w[s], Out(f, l, b, s), done, d, |b.idx[s]|)
  }

  /** positions routed to e, in order, with the weight each gives it */
  method Gather(b: Batch, ghost E: nat, e: nat) returns (rows: seq<nat>, rw: seq<real>)
    requires b.Valid(E)
    ensures |rows| == |rw| && Gathered(b, E, e, |b.x|, rows, rw)
  {
    rows, rw := [], [];
    var s: nat := 0;
    while s < |b.x|
      invariant s <= |b.x| && |rows| == |rw| && Gathered(b, E, e, s, rows, rw)
    {
      var k: nat := 0;
      while k < |b.idx[s]| && b.idx[s][k] != e
        invariant k <= |b.idx[s]| && e !in b.idx[s][..k]
      {
        k := k + 1;
      }
      if k < |b.idx[s]| { rows, rw := rows + [s], rw + [b.w[s][k]]; } else { assert b.idx[s][..k] == b.idx[s]; }
      s := s + 1;
    }
  }

  ghost predicate Gathered(b: Batch, E: nat, e: nat, n: nat, rows: seq<nat>, rw: seq<real>)
    requires b.Valid(E) && n <= |b.x| && |rows| == |rw|
  {
    && (forall i, j :: 0 <= i < j < |rows| ==> rows[i] < rows[j])
    && (forall i :: 0 <= i < |rows| ==> rows[i] < n && Takes(b, E, rows[i], e, rw[i]))
    && forall s: nat :: s < n && e in b.idx[s] ==> s in rows
  }

  ghost predicate Takes(b: Batch, E: nat, s: nat, e: nat, w: real)
    requires b.Valid(E) && s < |b.x|
  {
    exists k :: 0 <= k < |b.idx[s]| && b.idx[s][k] == e && b.w[s][k] == w
  }

  method AddRow(row: seq<real>, w: real, h: seq<real>) returns (r: seq<real>)
    requires |row| == |h|
    ensures |r| == |row| && forall d :: 0 <= d < |r| ==> r[d] == row[d] + Scaled(w, h[d])
  {
    r := [];
    while |r| < |row|
      invariant |r| <= |row| && forall d :: 0 <= d < |r| ==> r[d] == row[d] + Scaled(w, h[d])
    {
      r := r + [row[|r|] + Scaled(w, h[|r|])];
    }
  }

  lemma RowAdded(f: Expert, l: nat, b: Batch, E: nat, done: set<nat>, e: nat, s: nat, w: real, row: seq<real>,
                 r: seq<real>)
    requires b.Valid(E) && Widths(f, b.width) && s < |b.x| && e !in done && RowIs(f, l, b, E, done, s, row)
    requires Takes(b, E, s, e, w) && |r| == |row|
    requires forall d :: 0 <= d < |r| ==> r[d] == row[d] + Scaled(w, f(l, e, b.x[s])[d])
    ensures RowIs(f, l, b, E, done + {e}, s, r)
  {
    hide Distinct, Scaled;
    var k :| 0 <= k < |b.idx[s]| && b.idx[s][k] == e && b.w[s][k] == w;
    forall d: nat | d < b.width ensures r[d] == Part(b.idx[s], b.w[s], Out(f, l, b, s), done + {e}, d, |b.idx[s]|) {
      PartStep(b.idx[s], b.w[s], Out(f, l, b, s), done, e, d, |b.idx[s]|);
    }
  }

  lemma RowKept(f: Expert, l: nat, b: Batch, E: nat, done: set<nat>, e: nat, s: nat, row: seq<real>)
    requires b.Valid(E) && Widths(f, b.width) && s < |b.x| && e !in done
    requires RowIs(f, l, b, E, done, s, row) && e !in b.idx[s]
    ensures RowIs(f, l, b, E, done + {e}, s, row)
  {
    hide Distinct, Scaled;
    assert b.idx[s][..|b.idx[s]|] == b.idx[s];
    forall d: nat | d < b.width ensures row[d] == Part(b.idx[s], b.w[s], Out(f, l, b, s), done + {e}, d, |b.idx[s]|) {
      PartStep(b.idx[s], b.w[s], Out(f, l, b, s), done, e, d, |b.idx[s]|);
    }
  }

  /** gather, run, scatter: one expert over the positions that use it */
  method RunExpert(f: Expert, holds: Weights, b: Batch, ghost E: nat, ghost done: set<nat>,
                   out: seq<seq<real>>) returns (r: seq<seq<real>>)
    requires b.Valid(E) && Widths(f, b.width) && holds.Of? && holds.eid !in done
    requires Accumulated(f, holds.layer, b, E, done, out)
    ensures Accumulated(f, holds.layer, b, E, done + {holds.eid}, r)
  {
    hide RowIs, Takes, Scaled, Widths;
    var l, e := holds.layer, holds.eid;
    var rows, rw := Gather(b, E, e);
    r := out;
    var i: nat := 0;
    while i < |rows|
      invariant i <= |rows| && |r| == |out|
      invariant forall s :: 0 <= s < |r| && s in rows[..i] ==> RowIs(f, l, b, E, done + {e}, s, r[s])
      invariant forall s :: 0 <= s < |r| && s !in rows[..i] ==> r[s] == out[s]
    {
      var s := rows[i];
      assert s !in rows[..i];
      assert RowIs(f, l, b, E, done, s, r[s]);
      var h := Apply(f, l, e, b, E, done, s, r[s]);
      var row := AddRow(r[s], rw[i], h);
      RowAdded(f, l, b, E, done, e, s, rw[i], r[s], row);
      r := r[s := row];
      assert rows[..i + 1] == rows[..i] + [s];
      i := i + 1;
    }
    assert rows[..i] == rows;
    forall s | 0 <= s < |r| ensures RowIs(f, l, b, E, done + {e}, s, r[s]) {
      if s !in rows {
        assert RowIs(f, l, b, E, done, s, out[s]);
        RowKept(f, l, b, E, done, e, s, out[s]);
      }
    }
  }

  method Apply(f: Expert, l: nat, e: nat, b: Batch, ghost E: nat, ghost done: set<nat>, s: nat,
               row: seq<real>) returns (h: seq<real>)
    requires b.Valid(E) && Widths(f, b.width) && s < |b.x| && RowIs(f, l, b, E, done, s, row)
    ensures h == f(l, e, b.x[s]) && |h| == |row|
  {
    h := f(l, e, b.x[s]);
  }

  // ---------- resolve, load, compute, promote ----------

  method Find(s: seq<Slot>, n: nat, eid: nat) returns (z: nat)
    requires n <= |s|
    ensures z <= n && (z < n ==> s[z].eid == eid) && forall y :: 0 <= y < z ==> s[y].eid != eid
  {
    z := 0;
    while z < n && s[z].eid != eid
      invariant z <= n && forall y :: 0 <= y < z ==> s[y].eid != eid
    {
      z := z + 1;
    }
  }

  class Pool {
    const E: nat
    const cap: nat
    var pin: seq<seq<Slot>>
    var cells: seq<seq<Slot>>
    var ecn: seq<nat>
    var ws: seq<Slot>
    var clock: nat
    var slabs: nat

    /** pins as loaded at start-up; every LRU empty */
    constructor (experts: nat, ecap: nat, pins: seq<seq<Slot>>, buffers: nat)
      requires (forall l: nat :: l < |pins| ==> PinsOk(pins[l], l, experts)) && Owned(pins, buffers)
      ensures Valid() && E == experts && cap == ecap && pin == pins
    {
      E, cap, pin, clock, slabs := experts, ecap, pins, 0, buffers;
      cells, ecn := seq(|pins|, i => seq(ecap, j => Slot(0, 0, 0, Blank))), seq(|pins|, i => 0);
      ws := seq(BLOCK, i => Slot(0, 0, 0, Blank));
      new;
      StartOk(Now(), experts, ecap);
    }

    ghost function Now(): Bank
      reads this
    {
      Bank(pin, cells, ecn, ws, clock, slabs)
    }

    ghost predicate Valid()
      reads this
    {
      Ok(Now(), E, cap)
    }

    /** pin, then LRU (stamping the hit), then the next working slot */
    method ResolveOne(l: nat, eid: nat, miss0: seq<nat>) returns (r: Ref, miss: seq<nat>)
      requires Valid() && l < |cells| && |miss0| < BLOCK && eid < E
      modifies `cells, `clock
      ensures Valid() && SameLabels(old(Now()), Now(), l) && old(clock) <= clock
      ensures miss == if Absent(Now(), l, eid) then miss0 + [eid] else miss0
      ensures Refers(Now(), l, r, eid, miss)
      ensures r.Cached? ==>
          r.z < |old(cells[l])| && cells[l] == old(cells[l])[r.z := old(cells[l])[r.z].(used := old(clock) + 1)]
      ensures !r.Cached? ==> cells[l] == old(cells[l])
    {
      hide Owned, LayerOk;
      miss := miss0;
      var z := Find(pin[l], |pin[l]|, eid);
      if z < |pin[l]| { return Pinned(z), miss; }
      z := Find(cells[l], ecn[l], eid);
      if z < ecn[l] {
        Stamped(Now(), l, z, E, cap);
        cells, clock := cells[l := cells[l][z := cells[l][z].(used := clock + 1)]], clock + 1;
        return Cached(z), miss;
      }
      return Working(|miss|), miss + [eid];
    }

    method Resolve(l: nat, ids: seq<nat>) returns (use: seq<Ref>, miss: seq<nat>)
      requires Valid() && l < |cells| && |ids| <= BLOCK && Distinct(ids) && forall e :: e in ids ==> e < E
      modifies `cells, `clock
      ensures Valid() && SameLabels(old(Now()), Now(), l) && old(clock) <= clock
      ensures |use| == |ids| && AllRefer(Now(), l, use, ids, miss)
      ensures Misses(Now(), l, ids, miss)
      ensures Touched(old(cells[l]), cells[l], old(clock), use)
    {
      hide Owned, LayerOk, Absent, Refers, AllRefer, Misses, Touched;
      use, miss := [], [];
      var j: nat := 0;
      ghost var b0 := Now();
      ReferStart(b0, l);
      TouchNone(cells[l], clock);
      assert ids[..0] == [];
      while j < |ids|
        invariant j <= |ids| && Valid() && SameLabels(b0, Now(), l) && b0.clock <= clock
        invariant |use| == j && AllRefer(Now(), l, use, ids[..j], miss)
        invariant |miss| <= j && Misses(Now(), l, ids[..j], miss) && Touched(b0.cells[l], cells[l], b0.clock, use)
      {
        ghost var b1, miss1 := Now(), miss;
        assert ids[j] in ids;
        var r;
        r, miss := ResolveOne(l, ids[j], miss);
        LabelsTrans(b0, b1, Now(), l);
        TouchMore(b0.cells[l], b1.cells[l], cells[l], b0.clock, b1.clock, use, r);
        ReferMore(b1, Now(), l, use, ids, j, miss1, miss, r);
        MissesGrow(b1, Now(), l, ids, j, miss1, miss);
        use := use + [r];
        j := j + 1;
      }
      assert ids[..j] == ids;
    }

    /** every miss is loaded into its working slot */
    method Load(l: nat, miss: seq<nat>)
      requires Valid() && |miss| <= BLOCK
      modifies `ws, `slabs
      ensures Valid() && forall q :: 0 <= q < |miss| ==> ws[q].eid == miss[q] && ws[q].holds == Of(l, miss[q])
    {
      hide Owned, LayerOk;
      var q: nat := 0;
      while q < |miss|
        invariant q <= |miss| && Valid()
        invariant forall p :: 0 <= p < q ==> ws[p].eid == miss[p] && ws[p].holds == Of(l, miss[p])
      {
        WsLoaded(Now(), l, miss[q], q, E, cap);
        ws, slabs := ws[q := Loaded(ws[q], l, miss[q], slabs)], SlabsAfter(ws[q], slabs);
        q := q + 1;
      }
    }

    /** every expert of the block over its positions; no slot is read that does not hold the expert asked for */
    method Compute(f: Expert, l: nat, b: Batch, ids: seq<nat>, use: seq<Ref>, ghost miss: seq<nat>,
                   ghost done: set<nat>, out: seq<seq<real>>)
      returns (r: seq<seq<real>>)
      requires Valid() && l < |cells| && b.Valid(E) && Widths(f, b.width)
      requires |use| == |ids| && AllRefer(Now(), l, use, ids, miss)
      requires Distinct(ids) && forall e :: e in ids ==> e !in done
      requires |miss| <= BLOCK && forall q :: 0 <= q < |miss| ==> ws[q].holds == Of(l, miss[q])
      requires Accumulated(f, l, b, E, done, out)
      ensures Accumulated(f, l, b, E, done + Elems(ids), r)
    {
      hide Widths, Accumulated;
      r := out;
      var j: nat := 0;
      assert done + Elems(ids[..0]) == done;
      while j < |ids|
        invariant j <= |ids| && Accumulated(f, l, b, E, done + Elems(ids[..j]), r)
      {
        var holds := Holding(l, use[j], ids[j], miss);
        ElemsStep(ids, j);
        assert (done + Elems(ids[..j])) + {ids[j]} == done + Elems(ids[..j + 1]);
        r := RunExpert(f, holds, b, E, done + Elems(ids[..j]), r);
        j := j + 1;
      }
      assert ids[..j] == ids;
    }

    method Holding(l: nat, r: Ref, eid: nat, ghost miss: seq<nat>) returns (holds: Weights)
      requires Valid() && l < |cells| && Refers(Now(), l, r, eid, miss)
      requires |miss| <= |ws| && forall q :: 0 <= q < |miss| ==> ws[q].holds == Of(l, miss[q])
      ensures holds == Of(l, eid)
    {
      hide Owned;
      assert LayerOk(Now(), l, E, cap);
      match r {
        case Pinned(z) => holds := pin[l][z].holds;
        case Cached(z) =>
          assert cells[l][..ecn[l]][z] == cells[l][z];
          holds := cells[l][z].holds;
        case Working(q) => holds := ws[q].holds;
      }
    }

    method Oldest(s: seq<Slot>, n: nat) returns (lru: nat)
      requires 0 < n <= |s|
      ensures lru < n && forall y :: 0 <= y < n ==> s[lru].used <= s[y].used
    {
      lru := 0;
      var z: nat := 1;
      while z < n
        invariant 1 <= z <= n && lru < n && forall y :: 0 <= y < z ==> s[lru].used <= s[y].used
      {
        if s[z].used < s[lru].used { lru := z; }
        z := z + 1;
      }
    }

    /** the block's last misses move into the LRU, each exchanging buffers with a free or the oldest cell */
    method Promote(l: nat, nmiss: nat) returns (ghost put: seq<nat>)
      requires Valid() && l < |cells| && nmiss <= BLOCK
      requires forall q :: 0 <= q < nmiss ==> Missing(pin[l], cells[l][..ecn[l]], l, E, ws[q])
      requires forall p, q :: 0 <= p < q < nmiss ==> ws[p].eid != ws[q].eid
      modifies `cells, `ecn, `ws, `clock
      ensures Valid() && |put| == Min(nmiss, cap) && old(clock) <= clock
      ensures |cells| == |old(cells)|
      ensures forall k: nat :: k < |cells| && k != l ==> cells[k] == old(cells[k]) && ecn[k] == old(ecn[k])
      ensures Swapped(old(cells[l]), old(ws), old(clock), nmiss, put, cells[l], ws)
      ensures Chosen(old(cells[l]), old(ecn[l]), ecn[l], cap, put)
      ensures forall q :: nmiss - |put| <= q < nmiss ==> Resident(cells[l], ecn[l], old(ws)[q].eid)
    {
      hide Owned, LayerOk, Swapped, Chosen, Missing;
      put := [];
      ghost var b0 := Now();
      PromoteStart(b0, l, nmiss, cap);
      var promo, a := if nmiss < cap then nmiss else cap, 0;
      while a < promo
        invariant 0 <= a <= promo && |put| == a && Promoting(b0, Now(), l, nmiss, put, cap)
      {
        var z: nat;
        ghost var b1 := Now();
        PromotingShape(b0, b1, l, nmiss, put, cap);
        if ecn[l] < cap {
          z := ecn[l];
          PromoteGrow(b0, b1, l, nmiss, put, E, cap);
          ecn := ecn[l := ecn[l] + 1];
        } else {
          z := Oldest(cells[l], ecn[l]);
          PromoteEvict(b0, b1, l, nmiss, put, z, E, cap);
        }
        Exchange(l, z, nmiss - 1 - a);
        put := put + [z];
        a := a + 1;
      }
      PromoteEnd(b0, Now(), l, nmiss, put, E, cap);
    }

    /** one block of at most 64 distinct experts */
    method Block(f: Expert, l: nat, b: Batch, ids: seq<nat>, ghost done: set<nat>,
                 out: seq<seq<real>>) returns (r: seq<seq<real>>)
      requires Valid() && l < |cells| && b.Valid(E) && Widths(f, b.width)
      requires |ids| <= BLOCK && Distinct(ids) && forall e :: e in ids ==> e < E && e !in done
      requires Accumulated(f, l, b, E, done, out)
      modifies this
      ensures Valid() && |cells| == |old(cells)| && pin == old(pin) && old(clock) <= clock
      ensures forall k: nat :: k < |cells| && k != l ==> cells[k] == old(cells[k]) && ecn[k] == old(ecn[k])
      ensures Accumulated(f, l, b, E, done + Elems(ids), r)
    {
      hide Owned, LayerOk, Accumulated, Widths, AllRefer, Misses, Missing, Swapped, Chosen;
      var use, miss := Resolve(l, ids);
      MissesShort(Now(), l, ids, miss);
      ghost var b1 := Now();
      Load(l, miss);
      LoadKeeps(b1, Now(), l, use, ids, miss);
      r := Compute(f, l, b, ids, use, miss, done, out);
      MissesMissing(Now(), l, E, cap, ids, miss);
      ghost var put := Promote(l, |miss|);
    }

    /** out[s] = sum of w * expert(x[s]), plus the shared expert: independent of pins, LRU, stamps and block
        boundaries */
    method Moe(f: Expert, l: nat, b: Batch, shared: seq<real> -> seq<real>,
               withShared: bool) returns (r: seq<seq<real>>)
      requires Valid() && l < |cells| && b.Valid(E) && Widths(f, b.width) && forall x :: |shared(x)| == b.width
      modifies this
      ensures Valid() && |cells| == |old(cells)| && pin == old(pin) && old(clock) <= clock
      ensures forall k: nat :: k < |cells| && k != l ==> cells[k] == old(cells[k]) && ecn[k] == old(ecn[k])
      ensures Weighted(f, l, b, E, shared, withShared, r)
    {
      hide Owned, LayerOk, Accumulated, Widths, Distinct;
      var uniq := Union(b.idx);
      r := seq(|b.x|, i => seq(b.width, j => 0.0));
      NothingYet(f, l, b, E, r);
      assert Elems(uniq[..0]) == {};
      var base: nat := 0;
      while base < |uniq|
        invariant base <= |uniq| && Valid() && |cells| == |old(cells)| && pin == old(pin) && old(clock) <= clock
        invariant forall k: nat :: k < |cells| && k != l ==> cells[k] == old(cells[k]) && ecn[k] == old(ecn[k])
        invariant Accumulated(f, l, b, E, Elems(uniq[..base]), r)
      {
        var nb := if |uniq| - base < BLOCK then |uniq| - base else BLOCK;
        var ids := uniq[base..base + nb];
        BlockFresh(b, E, uniq, base, nb, ids);
        r := Block(f, l, b, ids, Elems(uniq[..base]), r);
        base := base + nb;
      }
      assert uniq[..base] == uniq;
      AllRouted(f, l, b, E, uniq, r);
      if withShared { r := AddShared(f, l, b, E, shared, r); }
    }

    /** routing and experts: every position gets the gated sum of its own top experts, plus the shared expert */
    method Layer(f: Expert, l: nat, router: Router, x: seq<seq<real>>, width: nat, shared: seq<real> -> seq<real>,
                 withShared: bool)
      returns (r: seq<seq<real>>, b: Batch)
      requires Valid() && l < |cells| && router.Valid() && |router.bias| == E
      requires Widths(f, width) && forall x :: |shared(x)| == width
      modifies this
      ensures Valid() && |cells| == |old(cells)| && pin == old(pin) && old(clock) <= clock
      ensures forall k: nat :: k < |cells| && k != l ==> cells[k] == old(cells[k]) && ecn[k] == old(ecn[k])
      ensures RoutedBy(router, x, b) && b.Valid(E) && b.width == width && Weighted(f, l, b, E, shared, withShared, r)
      ensures |b.idx| == |b.w| == |x| && forall s :: 0 <= s < |x| ==> Routing(router, x[s], b.idx[s], b.w[s])
    {
      hide Routing, RoutedBy, Weighted, Ok, Batch.Valid, Widths;
      b := Route(router, x, width);
      r := Moe(f, l, b, shared, withShared);
    }

    method AddShared(f: Expert, l: nat, b: Batch, ghost E: nat, shared: seq<real> -> seq<real>,
                     out: seq<seq<real>>) returns (r: seq<seq<real>>)
      requires b.Valid(E) && Widths(f, b.width) && (forall x :: |shared(x)| == b.width)
      requires Weighted(f, l, b, E, shared, false, out)
      ensures Weighted(f, l, b, E, shared, true, r)
    {
      hide Widths, Mix;
      r := [];
      while |r| < |out|
        invariant |r| <= |out| && forall s :: 0 <= s < |r| ==> WeightedRow(f, l, b, E, shared, true, s, r[s])
      {
        var s := |r|;
        assert WeightedRow(f, l, b, E, shared, false, s, out[s]);
        var row := AddRow(out[s], 1.0, shared(b.x[s]));
        r := r + [row];
      }
    }

    method Exchange(l: nat, z: nat, q: nat)
      requires Shape(Now(), cap) && l < |cells| && z < cap && q < BLOCK
      modifies `cells, `ws, `clock
      ensures Now() == Exchanged(old(Now()), l, z, q)
    {
      var tmp := cells[l][z];
      clock := clock + 1;
      cells, ws := cells[l := cells[l][z := ws[q].(used := clock)]], ws[q := tmp];
    }
  }

  // ---------- values of the slots, and how the steps change them ----------

  /** empty LRUs and blank working slots over good pins */
  lemma StartOk(b: Bank, E: nat, cap: nat)
    requires Shape(b, cap) && (forall l: nat :: l < |b.pin| ==> b.ecn[l] == 0 && PinsOk(b.pin[l], l, E))
    requires Owned(b.pin, b.slabs)
    requires forall l: nat, z: nat :: l < |b.cells| && z < cap ==> b.cells[l][z].slab == 0
    requires forall q :: 0 <= q < BLOCK ==> b.ws[q].slab == 0
    ensures Ok(b, E, cap)
  {
    var rows, n := Rows(b), |b.cells|;
    forall a: nat, i: nat | At(rows, a, i)
      ensures rows[a][i].slab == 0 || (n <= a < n + |b.pin| && At(b.pin, a - n, i) && rows[a][i] == b.pin[a - n][i]) {}
    forall a: nat, i: nat, c: nat, k: nat | At(rows, a, i) && At(rows, c, k)
      ensures Apart(rows[a][i], rows[c][k]) || (a == c && i == k)
    {
      if rows[a][i].slab != 0 && rows[c][k].slab != 0 {
        assert At(b.pin, a - n, i) && At(b.pin, c - n, k);
      }
    }
  }

  ghost predicate SameRow(s: seq<Slot>, t: seq<Slot>) {
    |s| == |t| && forall z :: 0 <= z < |s| ==> s[z].(used := 0) == t[z].(used := 0)
  }

  /** only stamps of layer l differ */
  ghost predicate SameLabels(b0: Bank, b1: Bank, l: nat) {
    && b0.pin == b1.pin && b0.ecn == b1.ecn && b0.ws == b1.ws && b0.slabs == b1.slabs && l < |b0.cells| == |b1.cells|
    && SameRow(b0.cells[l], b1.cells[l])
    && forall k: nat :: k < |b0.cells| && k != l ==> b1.cells[k] == b0.cells[k]
  }

  lemma LabelsTrans(b0: Bank, b1: Bank, b2: Bank, l: nat)
    requires SameLabels(b0, b1, l) && SameLabels(b1, b2, l)
    ensures SameLabels(b0, b2, l)
  {
    var s, t, u := b0.cells[l], b1.cells[l], b2.cells[l];
    forall z | 0 <= z < |s| ensures s[z].(used := 0) == u[z].(used := 0) {
      assert s[z].(used := 0) == t[z].(used := 0);
    }
  }

  /** the slot a block entry reads */
  ghost predicate Refers(b: Bank, l: nat, r: Ref, eid: nat, miss: seq<nat>)
    requires Indexed(b, l)
  {
    match r
    case Pinned(z) => z < |b.pin[l]| && b.pin[l][z].eid == eid
    case Cached(z) => z < b.ecn[l] && b.cells[l][z].eid == eid
    case Working(q) => q < |miss| <= |b.ws| && miss[q] == eid
  }

  ghost predicate AllRefer(b: Bank, l: nat, use: seq<Ref>, ids: seq<nat>, miss: seq<nat>)
    requires Indexed(b, l) && |use| == |ids|
  {
    forall j :: 0 <= j < |ids| ==> Refers(b, l, use[j], ids[j], miss)
  }

  /** miss lists, in order and once, the ids resident nowhere in the layer */
  ghost predicate Misses(b: Bank, l: nat, ids: seq<nat>, miss: seq<nat>)
    requires Indexed(b, l)
  {
    && Distinct(miss) && |miss| <= |ids|
    && forall e: nat :: e in miss <==> e in ids && Absent(b, l, e)
  }

  lemma AbsentKept(b0: Bank, b1: Bank, l: nat, e: nat)
    requires Indexed(b0, l) && Indexed(b1, l) && SameLabels(b0, b1, l)
    ensures Absent(b0, l, e) <==> Absent(b1, l, e)
  {
    assert forall z: nat :: z < b0.ecn[l] ==> b0.cells[l][z].eid == b1.cells[l][z].eid;
  }

  lemma ReferKept(b0: Bank, b1: Bank, l: nat, use: seq<Ref>, ids: seq<nat>, miss0: seq<nat>, miss1: seq<nat>)
    requires Indexed(b0, l) && Indexed(b1, l) && SameLabels(b0, b1, l)
    requires |use| == |ids| && miss0 <= miss1 && |miss1| <= |b1.ws|
    requires AllRefer(b0, l, use, ids, miss0)
    ensures AllRefer(b1, l, use, ids, miss1)
  {
    forall j | 0 <= j < |ids| ensures Refers(b1, l, use[j], ids[j], miss1) {
      assert Refers(b0, l, use[j], ids[j], miss0);
    }
  }

  /** exactly the cells hit are stamped, all later than anything before */
  ghost predicate Touched(c0: seq<Slot>, c1: seq<Slot>, clock: nat, use: seq<Ref>) {
    |c1| == |c0| && forall z: nat :: z < |c0| ==> if Cached(z) in use then c1[z].used > clock else c1[z] == c0[z]
  }

  lemma TouchNone(c: seq<Slot>, clock: nat)
    ensures Touched(c, c, clock, [])
  {
  }

  lemma TouchMore(c0: seq<Slot>, c1: seq<Slot>, c2: seq<Slot>, clock0: nat, clock1: nat, use: seq<Ref>, r: Ref)
    requires Touched(c0, c1, clock0, use) && clock0 <= clock1
    requires if r.Cached? then r.z < |c1| && c2 == c1[r.z := c1[r.z].(used := clock1 + 1)] else c2 == c1
    ensures Touched(c0, c2, clock0, use + [r])
  {
    forall z: nat | z < |c0| ensures if Cached(z) in use + [r] then c2[z].used > clock0 else c2[z] == c0[z] {
      assert Cached(z) in use + [r] <==> Cached(z) in use || r == Cached(z);
    }
  }

  lemma ReferStart(b: Bank, l: nat)
    requires Indexed(b, l)
    ensures AllRefer(b, l, [], [], []) && Misses(b, l, [], [])
  {
  }

  lemma ReferMore(b0: Bank, b1: Bank, l: nat, use: seq<Ref>, ids: seq<nat>, j: nat, miss0: seq<nat>, miss1: seq<nat>,
                  r: Ref)
    requires Indexed(b0, l) && Indexed(b1, l) && SameLabels(b0, b1, l) && j < |ids|
    requires |use| == j && miss0 <= miss1 && |miss1| <= |b1.ws|
    requires AllRefer(b0, l, use, ids[..j], miss0) && Refers(b1, l, r, ids[j], miss1)
    ensures AllRefer(b1, l, use + [r], ids[..j + 1], miss1)
  {
    hide Refers, SameLabels;
    ReferKept(b0, b1, l, use, ids[..j], miss0, miss1);
    assert ids[..j + 1] == ids[..j] + [ids[j]];
  }

  lemma MissesGrow(b0: Bank, b1: Bank, l: nat, ids: seq<nat>, j: nat, miss0: seq<nat>, miss1: seq<nat>)
    requires Indexed(b0, l) && Indexed(b1, l) && SameLabels(b0, b1, l) && j < |ids| && Distinct(ids)
    requires Misses(b0, l, ids[..j], miss0)
    requires miss1 == if Absent(b1, l, ids[j]) then miss0 + [ids[j]] else miss0
    ensures Misses(b1, l, ids[..j + 1], miss1)
  {
    hide Absent;
    assert ids[..j + 1] == ids[..j] + [ids[j]];
    assert ids[j] !in ids[..j];
    forall e: nat ensures Absent(b0, l, e) <==> Absent(b1, l, e) { AbsentKept(b0, b1, l, e); }
  }

  lemma ElemsStep(ids: seq<nat>, j: nat)
    requires j < |ids| && Distinct(ids)
    ensures Elems(ids[..j + 1]) == Elems(ids[..j]) + {ids[j]} && ids[j] !in Elems(ids[..j])
  {
    assert ids[..j + 1] == ids[..j] + [ids[j]];
  }

  // ---------- promotion, step by step ----------

  /** the bank after the misses in put have moved */
  ghost predicate Promoting(b0: Bank, b: Bank, l: nat, nmiss: nat, put: seq<nat>, cap: nat) {
    && Shape(b0, cap) && Shape(b, cap) && l < |b0.cells| == |b.cells| && b.pin == b0.pin && b.slabs == b0.slabs
    && b.clock == b0.clock + |put| && nmiss <= BLOCK && Owned(Rows(b), b.slabs)
    && (forall k: nat :: k < |b.cells| && k != l ==> b.cells[k] == b0.cells[k] && b.ecn[k] == b0.ecn[k])
    && Swapped(b0.cells[l], b0.ws, b0.clock, nmiss, put, b.cells[l], b.ws)
    && Chosen(b0.cells[l], b0.ecn[l], b.ecn[l], cap, put)
  }

  lemma PromoteStart(b0: Bank, l: nat, nmiss: nat, cap: nat)
    requires Shape(b0, cap) && l < |b0.cells| && nmiss <= BLOCK && Owned(Rows(b0), b0.slabs)
    ensures Promoting(b0, b0, l, nmiss, [], cap)
  {
    hide Owned;
  }

  lemma PromotingShape(b0: Bank, b: Bank, l: nat, nmiss: nat, put: seq<nat>, cap: nat)
    requires Promoting(b0, b, l, nmiss, put, cap)
    ensures Shape(b, cap) && l < |b.cells| && |put| <= nmiss <= BLOCK
  {
  }

  lemma PromoteGrow(b0: Bank, b: Bank, l: nat, nmiss: nat, put: seq<nat>, E: nat, cap: nat)
    requires Promoting(b0, b, l, nmiss, put, cap) && |put| < nmiss && b.ecn[l] < cap
    ensures var z := b.ecn[l];
      Promoting(b0, Exchanged(b.(ecn := b.ecn[l := z + 1]), l, z, nmiss - 1 - |put|), l, nmiss, put + [z], cap)
  {
    hide Owned, Swapped, Chosen;
    var z, q := b.ecn[l], nmiss - 1 - |put|;
    var b1 := b.(ecn := b.ecn[l := z + 1]);
    assert Rows(b1) == Rows(b);
    ExchangedOwned(b1, l, z, q, cap);
    ChosenGrow(b0.cells[l], b0.ecn[l], z, cap, put);
    SwapStep(b0.cells[l], b0.ws, b0.clock, nmiss, put, b.cells[l], b.ws, z);
  }

  lemma PromoteEvict(b0: Bank, b: Bank, l: nat, nmiss: nat, put: seq<nat>, z: nat, E: nat, cap: nat)
    requires Ok(b0, E, cap) && Promoting(b0, b, l, nmiss, put, cap) && |put| < nmiss && |put| < cap && b.ecn[l] == cap
    requires z < cap && forall y :: 0 <= y < cap ==> b.cells[l][z].used <= b.cells[l][y].used
    ensures Promoting(b0, Exchanged(b, l, z, nmiss - 1 - |put|), l, nmiss, put + [z], cap)
  {
    hide Owned, Swapped, Chosen;
    ExchangedOwned(b, l, z, nmiss - 1 - |put|, cap);
    assert LayerOk(b0, l, E, cap);
    forall y: nat | y < b0.ecn[l]
      ensures b0.cells[l][y].used <= b0.clock { assert b0.cells[l][..b0.ecn[l]][y] == b0.cells[l][y]; }
    ChosenEvict(b0.cells[l], b0.ws, b0.clock, nmiss, b0.ecn[l], cap, put, b.cells[l], b.ws, z);
    SwapStep(b0.cells[l], b0.ws, b0.clock, nmiss, put, b.cells[l], b.ws, z);
  }

  ghost predicate Resident(cells: seq<Slot>, n: nat, eid: int)
    requires n <= |cells|
  {
    exists z :: 0 <= z < n && cells[z].eid == eid
  }

  lemma PromoteEnd(b0: Bank, b: Bank, l: nat, nmiss: nat, put: seq<nat>, E: nat, cap: nat)
    requires Ok(b0, E, cap) && Promoting(b0, b, l, nmiss, put, cap)
    requires forall q :: 0 <= q < nmiss ==> Missing(b0.pin[l], b0.cells[l][..b0.ecn[l]], l, E, b0.ws[q])
    requires forall p, q :: 0 <= p < q < nmiss ==> b0.ws[p].eid != b0.ws[q].eid
    ensures Ok(b, E, cap) && b.clock == b0.clock + |put|
    ensures forall q :: nmiss - |put| <= q < nmiss ==> Resident(b.cells[l], b.ecn[l], b0.ws[q].eid)
  {
    hide Owned, LruOk, Missing, RoomOk;
    assert LayerOk(b0, l, E, cap);
    PromotedLru(b0.pin[l], l, E, b0.clock, b0.ecn[l], b.ecn[l], cap, nmiss, put, b0.cells[l], b0.ws, b.cells[l], b.ws);
    OtherLayers(b0, b, l, E, cap);
    forall q | nmiss - |put| <= q < nmiss ensures Resident(b.cells[l], b.ecn[l], b0.ws[q].eid) {
      var a := nmiss - 1 - q;
      assert Went(b0.cells[l], b0.ws, b0.clock, nmiss - 1 - a, a, put[a], b.cells[l], b.ws);
    }
  }

  // ---------- the whole batch ----------

  ghost predicate WeightedRow(f: Expert, l: nat, b: Batch, E: nat, shared: seq<real> -> seq<real>, withShared: bool,
                              s: nat, row: seq<real>)
    requires b.Valid(E) && Widths(f, b.width) && s < |b.x| && forall x :: |shared(x)| == b.width
  {
    && |row| == b.width
    && forall d: nat :: d < b.width ==>
      row[d] == Mix(b.idx[s], b.w[s], Out(f, l, b, s), d, |b.idx[s]|) + if withShared then shared(b.x[s])[d] else 0.0
  }

  /** the plain per-position formula: it mentions no slot */
  ghost predicate Weighted(f: Expert, l: nat, b: Batch, E: nat, shared: seq<real> -> seq<real>, withShared: bool,
                           out: seq<seq<real>>)
    requires b.Valid(E) && Widths(f, b.width) && forall x :: |shared(x)| == b.width
  {
    |out| == |b.x| && forall s :: 0 <= s < |out| ==> WeightedRow(f, l, b, E, shared, withShared, s, out[s])
  }

  /** a position's row depends on its input, ids and gates alone: not on the batch around it, its place in it, or what
      the slots held */
  lemma CacheTransparent(f: Expert, l: nat, b: Batch, c: Batch, E: nat, shared: seq<real> -> seq<real>,
                         withShared: bool, r: seq<seq<real>>, q: seq<seq<real>>, s: nat, t: nat)
    requires b.Valid(E) && c.Valid(E) && Widths(f, b.width) && b.width == c.width && forall x :: |shared(x)| == b.width
    requires Weighted(f, l, b, E, shared, withShared, r) && Weighted(f, l, c, E, shared, withShared, q)
    requires s < |b.x| && t < |c.x| && b.x[s] == c.x[t] && b.idx[s] == c.idx[t] && b.w[s] == c.w[t]
    ensures r[s] == q[t]
  {
    assert WeightedRow(f, l, b, E, shared, withShared, s, r[s]) && WeightedRow(f, l, c, E, shared, withShared, t, q[t]);
    forall d: nat | d < b.width ensures r[s][d] == q[t][d] {
      MixSame(f, l, b.idx[s], b.w[s], Out(f, l, b, s), Out(f, l, c, t), b.x[s], d, |b.idx[s]|);
    }
  }

  lemma {:induction false} MixSame(f: Expert, l: nat, idx: seq<nat>, w: seq<real>, h: nat -> seq<real>,
                                   k: nat -> seq<real>, x: seq<real>, d: nat, n: nat)
    requires n <= |idx| == |w| && (forall e :: d < |h(e)|) && (forall e :: d < |k(e)|)
    requires forall e :: h(e) == f(l, e, x) == k(e)
    ensures Mix(idx, w, h, d, n) == Mix(idx, w, k, d, n)
  {
    if n > 0 { MixSame(f, l, idx, w, h, k, x, d, n - 1); }
  }

  /** two layers run over different batches and different slots give a position with the same input the same row */
  lemma BatchIndependent(f: Expert, l: nat, router: Router, b: Batch, c: Batch, shared: seq<real> -> seq<real>,
                         withShared: bool, r: seq<seq<real>>, q: seq<seq<real>>, s: nat, t: nat)
    requires router.Valid() && RoutedBy(router, b.x, b) && RoutedBy(router, c.x, c)
    requires b.Valid(|router.bias|) && c.Valid(|router.bias|) && Widths(f, b.width) && b.width == c.width
    requires forall x :: |shared(x)| == b.width
    requires Weighted(f, l, b, |router.bias|, shared, withShared, r)
    requires Weighted(f, l, c, |router.bias|, shared, withShared, q)
    requires s < |b.x| && t < |c.x| && b.x[s] == c.x[t]
    ensures r[s] == q[t]
  {
    hide Widths, Weighted, RouteOk;
    assert RouteOk(router, b.x[s], b.idx[s], b.w[s]) && RouteOk(router, c.x[t], c.idx[t], c.w[t]);
    RouteUnique(router, b.x[s], b.idx[s], b.w[s], c.idx[t], c.w[t]);
    CacheTransparent(f, l, b, c, |router.bias|, shared, withShared, r, q, s, t);
  }

  lemma NothingYet(f: Expert, l: nat, b: Batch, E: nat, r: seq<seq<real>>)
    requires b.Valid(E) && Widths(f, b.width) && |r| == |b.x|
    requires forall s :: 0 <= s < |r| ==> |r[s]| == b.width && forall d :: 0 <= d < b.width ==> r[s][d] == 0.0
    ensures Accumulated(f, l, b, E, {}, r)
  {
    forall s | 0 <= s < |r| ensures RowIs(f, l, b, E, {}, s, r[s]) {
      forall d: nat | d < b.width ensures r[s][d] == Part(b.idx[s], b.w[s], Out(f, l, b, s), {}, d, |b.idx[s]|) {
        PartNone(b.idx[s], b.w[s], Out(f, l, b, s), d, |b.idx[s]|);
      }
    }
  }

  lemma AllRouted(f: Expert, l: nat, b: Batch, E: nat, uniq: seq<nat>, r: seq<seq<real>>)
    requires b.Valid(E) && Widths(f, b.width) && Accumulated(f, l, b, E, Elems(uniq), r)
    requires forall e: nat :: e in uniq <==> Routed(b.idx, |b.idx|, e)
    ensures forall shared: seq<real> -> seq<real> :: (forall x :: |shared(x)| == b.width) ==>
        Weighted(f, l, b, E, shared, false, r)
  {
    forall s: nat, d: nat | s < |b.x| && d < b.width
      ensures Part(b.idx[s], b.w[s], Out(f, l, b, s), Elems(uniq), d, |b.idx[s]|)
              == Mix(b.idx[s], b.w[s], Out(f, l, b, s), d, |b.idx[s]|)
    {
      forall k | 0 <= k < |b.idx[s]| ensures b.idx[s][k] in Elems(uniq) { assert Routed(b.idx, |b.idx|, b.idx[s][k]); }
      PartAll(b.idx[s], b.w[s], Out(f, l, b, s), Elems(uniq), d, |b.idx[s]|);
    }
    forall shared: seq<real> -> seq<real>, s: nat | (forall x :: |shared(x)| == b.width) && s < |b.x|
      ensures WeightedRow(f, l, b, E, shared, false, s, r[s])
    {
      assert RowIs(f, l, b, E, Elems(uniq), s, r[s]);
    }
  }

  lemma BlockFresh(b: Batch, E: nat, uniq: seq<nat>, base: nat, nb: nat, ids: seq<nat>)
    requires b.Valid(E) && Distinct(uniq) && base + nb <= |uniq| && ids == uniq[base..base + nb]
    requires forall e: nat :: e in uniq <==> Routed(b.idx, |b.idx|, e)
    ensures Distinct(ids) && forall e :: e in ids ==> e < E && e !in Elems(uniq[..base])
    ensures Elems(uniq[..base + nb]) == Elems(uniq[..base]) + Elems(ids)
  {
    assert uniq[..base + nb] == uniq[..base] + uniq[base..base + nb];
    forall i, j | 0 <= i < j < |ids| ensures ids[i] != ids[j] { assert uniq[base + i] != uniq[base + j]; }
    forall e: nat | e in ids ensures e < E && e !in Elems(uniq[..base]) {
      assert e in uniq && Routed(b.idx, |b.idx|, e);
      var j :| 0 <= j < |ids| && ids[j] == e;
      forall i | 0 <= i < base ensures uniq[..base][i] != e { assert uniq[i] != uniq[base + j]; }
    }
    assert forall e: nat :: e in uniq[..base + nb] <==> e in uniq[..base] || e in uniq[base..base + nb];
  }

  lemma LoadKeeps(b0: Bank, b1: Bank, l: nat, use: seq<Ref>, ids: seq<nat>, miss: seq<nat>)
    requires Indexed(b0, l) && |use| == |ids| && AllRefer(b0, l, use, ids, miss) && Misses(b0, l, ids, miss)
    requires b1.pin == b0.pin && b1.cells == b0.cells && b1.ecn == b0.ecn && |b1.ws| == |b0.ws|
    ensures AllRefer(b1, l, use, ids, miss) && Misses(b1, l, ids, miss)
  {
    forall j | 0 <= j < |ids| ensures Refers(b1, l, use[j], ids[j], miss) {
      assert Refers(b0, l, use[j], ids[j], miss);
    }
    forall e: nat ensures Absent(b1, l, e) <==> Absent(b0, l, e) {}
  }

  lemma MissesShort(b: Bank, l: nat, ids: seq<nat>, miss: seq<nat>)
    requires Indexed(b, l) && Misses(b, l, ids, miss)
    ensures |miss| <= |ids|
  {
  }

  lemma MissesMissing(b: Bank, l: nat, E: nat, cap: nat, ids: seq<nat>, miss: seq<nat>)
    requires Shape(b, cap) && l < |b.cells| && Misses(b, l, ids, miss)
    requires |miss| <= BLOCK && forall e :: e in ids ==> e < E
    requires forall q :: 0 <= q < |miss| ==> b.ws[q].eid == miss[q] && b.ws[q].holds == Of(l, miss[q])
    ensures forall q :: 0 <= q < |miss| ==> Missing(b.pin[l], b.cells[l][..b.ecn[l]], l, E, b.ws[q])
    ensures forall p, q :: 0 <= p < q < |miss| ==> b.ws[p].eid != b.ws[q].eid
  {
    forall q | 0 <= q < |miss| ensures Missing(b.pin[l], b.cells[l][..b.ecn[l]], l, E, b.ws[q]) {
      assert miss[q] in miss;
      assert Absent(b, l, miss[q]);
    }
  }
}
