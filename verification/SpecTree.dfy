/** Speculative decoding as a random process, and the plain autoregressive decoder it must be equal to.

    A `Tree` is a decoder with its coin flips and draws left open.  `Run` resolves them from a stream of uniform
    draws, `Prob` weighs them.  `HeadTree`/`VerifyTree` are the two loops of `spec_decode` (with the
    banned token that a rejection carries into the next iteration); `PlainTree` decodes one token at a time. */
module SpecTree {
  import opened Sampling

  type Token = nat

  datatype Tree =
    | Done
    | Emit(tok: Token, next: Tree)
    | Flip(p: real, yes: Tree, no: Tree)
    | Draw(dist: seq<real>, ban: int, nexts: seq<Tree>)

  ghost predicate WellFormed(t: Tree) {
    match t
    case Done => true
    case Emit(_, next) => WellFormed(next)
    case Flip(p, yes, no) => WellFormed(yes) && WellFormed(no)
    case Draw(p, ban, next) => p != [] && |next| == |p| && forall i :: 0 <= i < |next| ==> WellFormed(next[i])
  }

  ghost function Run(t: Tree, rnd: nat -> real, k: nat): seq<Token>
    requires WellFormed(t)
  {
    match t
    case Done => []
    case Emit(tok, next) => [tok] + Run(next, rnd, k)
    case Flip(p, yes, no) => if rnd(k) < p then Run(yes, rnd, k + 1) else Run(no, rnd, k + 1)
    case Draw(p, ban, next) => Run(next[Sample(p, ban, rnd(k))], rnd, k + 1)
  }

  /** the probability of emitting exactly out */
  ghost function Prob(t: Tree, out: seq<Token>): real
    requires WellFormed(t)
    decreases t, |out|
  {
    match t
    case Done => if out == [] then 1.0 else 0.0
    case Emit(tok, next) => if out != [] && out[0] == tok then Prob(next, out[1..]) else 0.0
    case Flip(p, yes, no) => p * Prob(yes, out) + (1.0 - p) * Prob(no, out)
    case Draw(p, ban, next) =>
      Sum(seq(|p|, i requires 0 <= i < |p| => Mass(p, ban, i) * Prob(next[i], out)))
  }

  // ---------- the decoders ----------

  /** what has happened so far; drafts and interrupts may depend on all of it */
  datatype Event = Picked(t: Token) | Accepted(t: Token) | Rejected(t: Token)

  datatype Engine = Engine(
    vocab: nat,
    logits: seq<Token> -> seq<real>,        // after a non-empty history
    greedy: bool,                           // g_temp <= 0
    dist: seq<real> -> seq<real>,           // dist_build
    stop: Token -> bool,                    // eos or one of the stop tokens
    drafter: seq<Event> -> seq<Token>,      // grammar, MTP or n-gram
    intr: seq<Event> -> bool,               // g_intr
    maxT: nat)
  {
    ghost predicate Valid() {
      && vocab > 0
      && (forall h :: h != [] ==> |logits(h)| == vocab)
      && (forall lo :: |lo| == vocab ==> |dist(lo)| == vocab && IsDist(dist(lo)))
      && (forall log :: |drafter(log)| <= 63 && forall i :: 0 <= i < |drafter(log)| ==> drafter(log)[i] < vocab)
    }

    ghost function P(h: seq<Token>): seq<real> { dist(logits(h)) }
  }

  /** argmax_v: the first greatest entry */
  function Argmax(lo: seq<real>, n: nat): (b: nat)
    requires 0 < n <= |lo|
    ensures b < n && (forall i :: 0 <= i < n ==> lo[i] <= lo[b]) && (forall i :: 0 <= i < b ==> lo[i] < lo[b])
  {
    if n == 1 then 0
    else var b := Argmax(lo, n - 1); if lo[n - 1] > lo[b] then n - 1 else b
  }

  function Min(a: int, b: int): int { if a < b then a else b }

  /** the clamps on a draft for kv cached tokens and n more tokens to emit */
  function Clamp(d: seq<Token>, n: nat, kv: nat, maxT: nat): (r: seq<Token>)
    ensures |r| <= n && |r| <= |d| && r <= d && (r == [] || kv + |r| + 2 <= maxT)
    ensures |r| == |d| || |r| == n || kv + |r| + 3 > maxT
  {
    var g := Min(|d|, n);
    var g' := if kv + 1 + g + 1 > maxT then maxT - kv - 2 else g;
    if g' < 0 then [] else d[..g']
  }

  ghost function Best(e: Engine, h: seq<Token>): (t: Token)
    requires e.Valid() && h != []
    ensures t < e.vocab
  {
    Argmax(e.logits(h), e.vocab)
  }

  ghost predicate InVocab(e: Engine, d: seq<Token>) {
    forall i :: 0 <= i < |d| ==> d[i] < e.vocab
  }

  /** the draft verified after the events in log, kv tokens being cached and n still to be emitted */
  ghost function Draft(e: Engine, log: seq<Event>, n: nat, kv: nat): (d: seq<Token>)
    requires e.Valid()
    ensures InVocab(e, d)
  {
    Clamp(e.drafter(log), n, kv, e.maxT)
  }

  ghost function PlainTree(e: Engine, h: seq<Token>, n: nat): (t: Tree)
    requires e.Valid() && h != []
    ensures WellFormed(t)
    decreases n, 1
  {
    if n == 0 then Done
    else if e.greedy then PlainNext(e, h, n, Best(e, h))
    else Draw(e.P(h), -1, seq(e.vocab, t requires 0 <= t < e.vocab => PlainNext(e, h, n, t)))
  }

  ghost function PlainNext(e: Engine, h: seq<Token>, n: nat, t: Token): (r: Tree)
    requires e.Valid() && h != [] && n > 0
    ensures WellFormed(r)
    decreases n, 0
  {
    if e.stop(t) then Done else Emit(t, PlainTree(e, h + [t], n - 1))
  }

  /** head of the outer loop: n tokens to go, `ban` rejected by the previous iteration */
  ghost function HeadTree(e: Engine, h: seq<Token>, log: seq<Event>, ban: int, n: nat): (t: Tree)
    requires e.Valid() && h != [] && ban < e.vocab
    ensures WellFormed(t)
    decreases n, 1, 0
  {
    if n == 0 || e.intr(log) then Done
    else if e.greedy then HeadNext(e, h, log, n, Best(e, h))
    else Draw(e.P(h), ban, seq(e.vocab, t requires 0 <= t < e.vocab => HeadNext(e, h, log, n, t)))
  }

  /** the picked token t is emitted, then a draft is verified against the model */
  ghost function HeadNext(e: Engine, h: seq<Token>, log: seq<Event>, n: nat, t: Token): (r: Tree)
    requires e.Valid() && h != [] && n > 0
    ensures WellFormed(r)
    decreases n, 0, 0
  {
    if e.stop(t) then Done
    else if n == 1 then Emit(t, Done)
    else
      var log' := log + [Picked(t)];
      Emit(t, VerifyTree(e, h + [t], log', Draft(e, log', n - 1, |h|), n - 1))
  }

  /** verification of the draft tokens d that are left */
  ghost function VerifyTree(e: Engine, h: seq<Token>, log: seq<Event>, d: seq<Token>, n: nat): (t: Tree)
    requires e.Valid() && h != [] && InVocab(e, d)
    ensures WellFormed(t)
    decreases n, 2, |d|
  {
    if d == [] || n == 0 then HeadTree(e, h, log, -1, n)
    else
      var yes := AcceptTree(e, h, log, d, n);
      var no := HeadTree(e, h, log + [Rejected(d[0])], if e.greedy then -1 else d[0], n);
      if e.greedy then (if Best(e, h) == d[0] then yes else no)
      else Flip(e.P(h)[d[0]], yes, no)
  }

  /** the first draft token was accepted */
  ghost function AcceptTree(e: Engine, h: seq<Token>, log: seq<Event>, d: seq<Token>, n: nat): (t: Tree)
    requires e.Valid() && h != [] && d != [] && n > 0 && InVocab(e, d)
    ensures WellFormed(t)
    decreases n, 0, 0
  {
    if e.stop(d[0]) then Done
    else Emit(d[0], VerifyTree(e, h + [d[0]], log + [Accepted(d[0])], d[1..], n - 1))
  }

  // ---------- greedy: the same tokens ----------

  ghost predicate Uninterrupted(e: Engine) {
    forall log :: !e.intr(log)
  }

  /** Greedy speculation emits what one-token greedy decoding emits: a prefix of it when interrupted, all of it
      otherwise. */
  lemma {:induction false} GreedyHead(e: Engine, h: seq<Token>, log: seq<Event>, n: nat, rnd: nat -> real, k: nat)
    requires e.Valid() && e.greedy && h != []
    ensures Run(HeadTree(e, h, log, -1, n), rnd, k) <= Run(PlainTree(e, h, n), rnd, k)
    ensures Uninterrupted(e) ==> Run(HeadTree(e, h, log, -1, n), rnd, k) == Run(PlainTree(e, h, n), rnd, k)
    decreases n, 1, 0
  {
    hide Engine.Valid, Draft;
    if n != 0 && !e.intr(log) {
      var t := Best(e, h);
      if !e.stop(t) {
        if n > 1 {
          var log' := log + [Picked(t)];
          GreedyVerify(e, h + [t], log', Draft(e, log', n - 1, |h|), n - 1, rnd, k);
        }
      }
    }
  }

  lemma {:induction false} GreedyVerify(e: Engine, h: seq<Token>, log: seq<Event>, d: seq<Token>, n: nat,
                                        rnd: nat -> real, k: nat)
    requires e.Valid() && e.greedy && h != [] && InVocab(e, d)
    ensures Run(VerifyTree(e, h, log, d, n), rnd, k) <= Run(PlainTree(e, h, n), rnd, k)
    ensures Uninterrupted(e) ==> Run(VerifyTree(e, h, log, d, n), rnd, k) == Run(PlainTree(e, h, n), rnd, k)
    decreases n, 2, |d|
  {
    hide Engine.Valid, Draft;
    if d == [] || n == 0 {
      GreedyHead(e, h, log, n, rnd, k);
    } else if Best(e, h) == d[0] {
      if !e.stop(d[0]) { GreedyVerify(e, h + [d[0]], log + [Accepted(d[0])], d[1..], n - 1, rnd, k); }
    } else {
      GreedyHead(e, h, log + [Rejected(d[0])], n, rnd, k);
    }
  }

  /** one-token greedy decoding */
  ghost function GreedyTokens(e: Engine, h: seq<Token>, n: nat): seq<Token>
    requires e.Valid() && h != []
    decreases n
  {
    if n == 0 || e.stop(Best(e, h)) then [] else [Best(e, h)] + GreedyTokens(e, h + [Best(e, h)], n - 1)
  }

  /** one-token greedy decoding, token by token: each is the first greatest logit after what is out, none stops, and
      it ends early only where the next one would */
  lemma {:induction false} GreedyIs(e: Engine, h: seq<Token>, n: nat, i: nat)
    requires e.Valid() && h != []
    ensures var out := GreedyTokens(e, h, n);
      && |out| <= n
      && (i < |out| ==> FirstGreatest(e.logits(h + out[..i]), out[i]) && !e.stop(out[i]))
      && (|out| < n ==> exists t :: FirstGreatest(e.logits(h + out), t) && e.stop(t))
    decreases n
  {
    hide Engine.Valid, Best, FirstGreatest;
    var b := Best(e, h);
    BestIs(e, h);
    assert h + [] == h && h + GreedyTokens(e, h, n)[..0] == h;
    if n > 0 && !e.stop(b) {
      var out, more := GreedyTokens(e, h, n), GreedyTokens(e, h + [b], n - 1);
      GreedyIs(e, h + [b], n - 1, if i > 0 then i - 1 else 0);
      assert out == [b] + more && h + [b] + more == h + out;
      if 0 < i < |out| { assert h + [b] + more[..i - 1] == h + out[..i]; }
    }
  }

  lemma BestIs(e: Engine, h: seq<Token>)
    requires e.Valid() && h != []
    ensures FirstGreatest(e.logits(h), Best(e, h))
  {
  }

  ghost predicate FirstGreatest(lo: seq<real>, t: Token) {
    t < |lo| && forall i :: 0 <= i < |lo| ==> lo[i] <= lo[t] && (i < t ==> lo[i] < lo[t])
  }

  lemma {:induction false} PlainGreedy(e: Engine, h: seq<Token>, n: nat, rnd: nat -> real, k: nat)
    requires e.Valid() && e.greedy && h != []
    ensures Run(PlainTree(e, h, n), rnd, k) == GreedyTokens(e, h, n)
    decreases n
  {
    hide Engine.Valid, Best;
    if n > 0 && !e.stop(Best(e, h)) { PlainGreedy(e, h + [Best(e, h)], n - 1, rnd, k); }
  }

  /** Whatever is drafted, greedy speculation emits exactly the tokens of one-token greedy decoding. */
  lemma GreedyLossless(e: Engine, h: seq<Token>, n: nat, rnd: nat -> real)
    requires e.Valid() && e.greedy && h != []
    ensures Run(HeadTree(e, h, [], -1, n), rnd, 0) <= GreedyTokens(e, h, n)
    ensures Uninterrupted(e) ==> Run(HeadTree(e, h, [], -1, n), rnd, 0) == GreedyTokens(e, h, n)
  {
    hide Engine.Valid;
    GreedyHead(e, h, [], n, rnd, 0);
    PlainGreedy(e, h, n, rnd, 0);
  }

  // ---------- interrupts ----------

  /** the interrupt flag has been raised */
  ghost predicate Raised(e: Engine, log: seq<Event>) {
    forall more: seq<Event> :: e.intr(log + more)
  }

  lemma RaisedOn(e: Engine, log: seq<Event>, v: Event)
    requires Raised(e, log)
    ensures e.intr(log) && Raised(e, log + [v])
  {
    assert log + [] == log;
    forall more: seq<Event> ensures e.intr(log + [v] + more) {
      assert log + [v] + more == log + ([v] + more);
    }
  }

  /** once it is raised nothing more is picked: at most the draft under verification still goes out */
  lemma {:induction false} InterruptEnds(e: Engine, h: seq<Token>, log: seq<Event>, d: seq<Token>, n: nat,
                                         rnd: nat -> real, k: nat)
    requires e.Valid() && h != [] && InVocab(e, d) && Raised(e, log)
    ensures Run(VerifyTree(e, h, log, d, n), rnd, k) <= d
    decreases |d|
  {
    hide Engine.Valid, HeadNext, Raised;
    var k' := if e.greedy then k else k + 1;
    if d == [] || n == 0 {
      RaisedOn(e, log, Picked(0));
    } else {
      RaisedOn(e, log, Rejected(d[0]));
      RaisedOn(e, log + [Rejected(d[0])], Picked(0));
      RaisedOn(e, log, Accepted(d[0]));
      if !e.stop(d[0]) { InterruptEnds(e, h + [d[0]], log + [Accepted(d[0])], d[1..], n - 1, rnd, k'); }
    }
  }

  // ---------- sampling: the same distribution ----------

  ghost predicate ExactSteps(e: Engine)
    requires e.Valid()
  {
    forall h: seq<Token>, d: Token :: h != [] && d < e.vocab ==> StepExact(e.P(h), d)
  }

  ghost function Weighed(p: seq<real>, ban: int, x: seq<real>): seq<real>
    requires |x| == |p|
  {
    seq(|p|, i requires 0 <= i < |p| => Mass(p, ban, i) * x[i])
  }

  ghost function Products(p: seq<real>, x: seq<real>): seq<real>
    requires |x| == |p|
  {
    seq(|p|, i requires 0 <= i < |p| => p[i] * x[i])
  }

  /** without a ban the draw weighs its outcomes by p */
  lemma DrawPlain(p: seq<real>, x: seq<real>)
    requires IsDist(p) && |x| == |p|
    ensures Sum(Weighed(p, -1, x)) == Sum(Products(p, x))
  {
    var w, all := Weighed(p, -1, x), Products(p, x);
    forall i | 0 <= i < |p| ensures w[i] == all[i] { PlainEntry(p, i, x[i]); }
    assert w == all;
  }

  lemma PlainEntry(p: seq<real>, i: nat, x: real)
    requires IsDist(p) && i < |p|
    ensures Mass(p, -1, i) * x == p[i] * x
  {
    hide Mass;
    MassExact(p, -1, i);
  }

  /** after a rejection of d the draw makes up exactly for what acceptance left out */
  lemma DrawBanned(p: seq<real>, d: nat, x: seq<real>)
    requires IsDist(p) && |x| == |p| && d < |p| && StepExact(p, d)
    ensures p[d] * x[d] + (1.0 - p[d]) * Sum(Weighed(p, d, x)) == Sum(Products(p, x))
  {
    hide IsDist, StepExact, Mass, Sum;
    var w, all, z := Weighed(p, d, x), Products(p, x), 1.0 - p[d];
    var left := all[d := all[d] - p[d] * x[d]];
    forall i | 0 <= i < |p| ensures left[i] == z * w[i] { BannedEntry(p, d, i, x[i]); }
    SumScale(w, left, z);
    SumUpdate(all, d, all[d] - p[d] * x[d]);
  }

  lemma BannedEntry(p: seq<real>, d: nat, i: nat, x: real)
    requires IsDist(p) && d < |p| && i < |p| && StepExact(p, d)
    ensures (1.0 - p[d]) * (Mass(p, d, i) * x) == if i == d then p[i] * x - p[d] * x else p[i] * x
  {
    hide Mass;
    StepIsExact(p, d, i);
    Distribute(1.0 - p[d], Mass(p, d, i), x);
  }

  lemma Distribute(z: real, m: real, x: real)
    ensures z * (m * x) == (z * m) * x
  {
  }

  ghost function Chances(ts: seq<Tree>, out: seq<Token>): seq<real>
    requires forall i :: 0 <= i < |ts| ==> WellFormed(ts[i])
  {
    seq(|ts|, i requires 0 <= i < |ts| => Prob(ts[i], out))
  }

  lemma ProbDraw(p: seq<real>, ban: int, ts: seq<Tree>, out: seq<Token>)
    requires WellFormed(Draw(p, ban, ts))
    ensures Prob(Draw(p, ban, ts), out) == Sum(Weighed(p, ban, Chances(ts, out)))
  {
    hide Mass;
    var x := Chances(ts, out);
    var a := seq(|p|, i requires 0 <= i < |p| => Mass(p, ban, i) * Prob(ts[i], out));
    forall i | 0 <= i < |p| ensures a[i] == Weighed(p, ban, x)[i] { assert x[i] == Prob(ts[i], out); }
    assert a == Weighed(p, ban, x);
  }

  ghost function PlainNexts(e: Engine, h: seq<Token>, n: nat): seq<Tree>
    requires e.Valid() && h != [] && n > 0
  {
    seq(e.vocab, t requires 0 <= t < e.vocab => PlainNext(e, h, n, t))
  }

  ghost function HeadNexts(e: Engine, h: seq<Token>, log: seq<Event>, n: nat): seq<Tree>
    requires e.Valid() && h != [] && n > 0
  {
    seq(e.vocab, t requires 0 <= t < e.vocab => HeadNext(e, h, log, n, t))
  }

  lemma HeadDraw(e: Engine, h: seq<Token>, log: seq<Event>, ban: int, n: nat)
    requires e.Valid() && !e.greedy && !e.intr(log) && h != [] && n > 0 && ban < e.vocab
    ensures HeadTree(e, h, log, ban, n) == Draw(e.P(h), ban, HeadNexts(e, h, log, n))
  {
  }

  lemma PlainDraw(e: Engine, h: seq<Token>, n: nat)
    requires e.Valid() && !e.greedy && h != [] && n > 0
    ensures PlainTree(e, h, n) == Draw(e.P(h), -1, PlainNexts(e, h, n))
  {
  }

  lemma {:induction false} SampledNext(e: Engine, h: seq<Token>, log: seq<Event>, n: nat, t: Token, out: seq<Token>)
    requires e.Valid() && !e.greedy && ExactSteps(e) && Uninterrupted(e) && h != [] && n > 0
    ensures Prob(HeadNext(e, h, log, n, t), out) == Prob(PlainNext(e, h, n, t), out)
    decreases n, 0, 0
  {
    hide Engine.Valid, ExactSteps, Draft;
    if !e.stop(t) && out != [] && out[0] == t {
      if n == 1 {
        assert PlainTree(e, h + [t], 0) == Done;
      } else {
        var log' := log + [Picked(t)];
        SampledVerify(e, h + [t], log', Draft(e, log', n - 1, |h|), n - 1, out[1..]);
      }
    }
  }

  lemma {:induction false} SampledNexts(e: Engine, h: seq<Token>, log: seq<Event>, n: nat, out: seq<Token>)
    requires e.Valid() && !e.greedy && ExactSteps(e) && Uninterrupted(e) && h != [] && n > 0
    ensures Chances(HeadNexts(e, h, log, n), out) == Chances(PlainNexts(e, h, n), out)
    decreases n, 0, 1
  {
    hide Engine.Valid, ExactSteps, Draft;
    forall t | 0 <= t < e.vocab ensures Prob(HeadNext(e, h, log, n, t), out) == Prob(PlainNext(e, h, n, t), out) {
      SampledNext(e, h, log, n, t, out);
    }
  }

  /** at the loop head without a ban */
  lemma {:induction false} SampledHead(e: Engine, h: seq<Token>, log: seq<Event>, n: nat, out: seq<Token>)
    requires e.Valid() && !e.greedy && ExactSteps(e) && Uninterrupted(e) && h != []
    ensures Prob(HeadTree(e, h, log, -1, n), out) == Prob(PlainTree(e, h, n), out)
    decreases n, 1, 0
  {
    hide Engine.Valid, ExactSteps, Draft;
    if n > 0 {
      SampledNexts(e, h, log, n, out);
      HeadDraw(e, h, log, -1, n);
      PlainDraw(e, h, n);
      ProbDraw(e.P(h), -1, HeadNexts(e, h, log, n), out);
      ProbDraw(e.P(h), -1, PlainNexts(e, h, n), out);
    }
  }

  lemma {:induction false} SampledAccept(e: Engine, h: seq<Token>, log: seq<Event>, d: seq<Token>, n: nat,
                                         out: seq<Token>)
    requires e.Valid() && !e.greedy && ExactSteps(e) && Uninterrupted(e) && h != [] && d != [] && n > 0 && InVocab(e, d)
    ensures Prob(AcceptTree(e, h, log, d, n), out) == Prob(PlainNext(e, h, n, d[0]), out)
    decreases n, 0, 0
  {
    hide Engine.Valid, ExactSteps, Draft;
    var t := d[0];
    if !e.stop(t) && out != [] && out[0] == t {
      SampledVerify(e, h + [t], log + [Accepted(t)], d[1..], n - 1, out[1..]);
    }
  }

  /** while a draft is verified, the carried ban included */
  lemma {:induction false} SampledVerify(e: Engine, h: seq<Token>, log: seq<Event>, d: seq<Token>, n: nat,
                                         out: seq<Token>)
    requires e.Valid() && !e.greedy && ExactSteps(e) && Uninterrupted(e) && h != [] && InVocab(e, d)
    ensures Prob(VerifyTree(e, h, log, d, n), out) == Prob(PlainTree(e, h, n), out)
    decreases n, 2, |d|
  {
    hide Engine.Valid, ExactSteps, Draft, AcceptTree, HeadTree, PlainTree, PlainNext;
    if d == [] || n == 0 {
      SampledHead(e, h, log, n, out);
    } else {
      SampledAccept(e, h, log, d, n, out);
      SampledNexts(e, h, log + [Rejected(d[0])], n, out);
      SampledReject(e, h, log + [Rejected(d[0])], n, d[0], out);
    }
  }

  /** the next iteration, entered with t banned, supplies the rest of the distribution */
  lemma SampledReject(e: Engine, h: seq<Token>, log: seq<Event>, n: nat, t: Token, out: seq<Token>)
    requires e.Valid() && !e.greedy && ExactSteps(e) && Uninterrupted(e) && h != [] && n > 0 && t < e.vocab
    requires Chances(HeadNexts(e, h, log, n), out) == Chances(PlainNexts(e, h, n), out)
    ensures var p := e.P(h);
            p[t] * Prob(PlainNext(e, h, n, t), out) + (1.0 - p[t]) * Prob(HeadTree(e, h, log, t, n), out)
            == Prob(PlainTree(e, h, n), out)
  {
    hide Mass, IsDist, Sum, StepExact, PlainNext, HeadNext, HeadTree, PlainTree, Prob, Weighed, Products;
    var p, x := e.P(h), Chances(PlainNexts(e, h, n), out);
    DrawBanned(p, t, x);
    DrawPlain(p, x);
    PlainDraw(e, h, n);
    ProbDraw(p, -1, PlainNexts(e, h, n), out);
    HeadDraw(e, h, log, t, n);
    ProbDraw(p, t, HeadNexts(e, h, log, n), out);
    assert Prob(HeadTree(e, h, log, t, n), out) == Sum(Weighed(p, t, x));
    assert Prob(PlainTree(e, h, n), out) == Sum(Products(p, x)) && x[t] == Prob(PlainNext(e, h, n, t), out);
  }

  // ---------- the probability of plain autoregressive sampling ----------

  /** the product of the weights of the tokens of out, each after those before it */
  ghost function Chain(e: Engine, h: seq<Token>, out: seq<Token>): real
    requires e.Valid() && h != [] && InVocab(e, out)
    decreases |out|
  {
    if out == [] then 1.0 else e.P(h)[out[0]] * Chain(e, h + [out[0]], out[1..])
  }

  /** the weight of the stop tokens after h */
  ghost function StopMass(e: Engine, h: seq<Token>): real
    requires e.Valid() && h != []
  {
    Sum(seq(e.vocab, t requires 0 <= t < e.vocab => if e.stop(t) then e.P(h)[t] else 0.0))
  }

  ghost predicate NoStop(e: Engine, out: seq<Token>) {
    forall i :: 0 <= i < |out| ==> !e.stop(out[i])
  }

  /** Plain sampling emits out with the product of its tokens' weights, times the weight of stopping there if it is
      shorter than asked for; it never emits a stop token or more than n tokens. */
  lemma {:induction false} PlainChance(e: Engine, h: seq<Token>, n: nat, out: seq<Token>)
    requires e.Valid() && !e.greedy && h != [] && InVocab(e, out)
    ensures |out| > n || !NoStop(e, out) ==> Prob(PlainTree(e, h, n), out) == 0.0
    ensures |out| == n && NoStop(e, out) ==> Prob(PlainTree(e, h, n), out) == Chain(e, h, out)
    ensures |out| < n && NoStop(e, out) ==> Prob(PlainTree(e, h, n), out) == Chain(e, h, out) * StopMass(e, h + out)
    decreases n
  {
    hide Mass, IsDist, Sum, PlainTree, PlainNext, Prob, Weighed, Products, StopMass, Engine.Valid;
    DistOk(e, h);
    if n == 0 {
      PlainDone(e, h, out);
    } else {
      PlainSums(e, h, n, out);
      if out == [] {
        PlainStops(e, h, n);
        assert h + [] == h;
      } else {
        var t := out[0];
        OneToken(e, h, n, out);
        assert [t] + out[1..] == out && h + [t] + out[1..] == h + out;
        if !e.stop(t) {
          PlainChance(e, h + [t], n - 1, out[1..]);
          StopLater(e, out);
          Regrouped(e.P(h)[t], Chain(e, h + [t], out[1..]), StopMass(e, h + out));
        }
      }
    }
  }

  lemma Regrouped(a: real, b: real, c: real)
    ensures a * (b * c) == (a * b) * c
  {
  }

  lemma StopLater(e: Engine, out: seq<Token>)
    requires out != [] && !e.stop(out[0])
    ensures NoStop(e, out) <==> NoStop(e, out[1..])
  {
    if NoStop(e, out[1..]) {
      forall i | 0 <= i < |out| ensures !e.stop(out[i]) { if i > 0 { assert out[i] == out[1..][i - 1]; } }
    }
  }

  lemma PlainDone(e: Engine, h: seq<Token>, out: seq<Token>)
    requires e.Valid() && h != [] && InVocab(e, out)
    ensures Prob(PlainTree(e, h, 0), out) == if out == [] then 1.0 else 0.0
    ensures out == [] ==> Chain(e, h, out) == 1.0
  {
  }

  lemma PlainSums(e: Engine, h: seq<Token>, n: nat, out: seq<Token>)
    requires e.Valid() && !e.greedy && h != [] && n > 0
    ensures |PlainNexts(e, h, n)| == e.vocab == |e.P(h)| == |Chances(PlainNexts(e, h, n), out)|
    ensures Prob(PlainTree(e, h, n), out) == Sum(Products(e.P(h), Chances(PlainNexts(e, h, n), out)))
  {
    hide Mass, Sum, PlainNext, Weighed, Products;
    DistOk(e, h);
    PlainDraw(e, h, n);
    ProbDraw(e.P(h), -1, PlainNexts(e, h, n), out);
    DrawPlain(e.P(h), Chances(PlainNexts(e, h, n), out));
  }

  /** only the stop tokens emit nothing */
  lemma PlainStops(e: Engine, h: seq<Token>, n: nat)
    requires e.Valid() && !e.greedy && h != [] && n > 0 && |e.P(h)| == e.vocab
    requires |Chances(PlainNexts(e, h, n), [])| == e.vocab
    ensures Sum(Products(e.P(h), Chances(PlainNexts(e, h, n), []))) == StopMass(e, h)
  {
    hide Sum;
    var p, x := e.P(h), Chances(PlainNexts(e, h, n), []);
    var a := seq(e.vocab, t requires 0 <= t < e.vocab => if e.stop(t) then p[t] else 0.0);
    forall t: nat | t < e.vocab ensures Products(p, x)[t] == a[t] {
      NextChance(e, h, n, t, []);
      assert x[t] == if e.stop(t) then 1.0 else 0.0;
      TimesUnit(p[t]);
    }
    assert Products(p, x) == a;
  }

  lemma TimesUnit(a: real)
    ensures a * 1.0 == a && a * 0.0 == 0.0
  {
  }

  lemma NextChance(e: Engine, h: seq<Token>, n: nat, t: Token, out: seq<Token>)
    requires e.Valid() && h != [] && n > 0
    ensures Prob(PlainNext(e, h, n, t), out) ==
            if e.stop(t) then if out == [] then 1.0 else 0.0
            else if out != [] && out[0] == t then Prob(PlainTree(e, h + [t], n - 1), out[1..])
            else 0.0
  {
    hide PlainTree;
  }

  lemma ChanceAt(e: Engine, h: seq<Token>, n: nat, t: Token, out: seq<Token>)
    requires e.Valid() && !e.greedy && h != [] && n > 0 && t < e.vocab && |Chances(PlainNexts(e, h, n), out)| == e.vocab
    ensures Chances(PlainNexts(e, h, n), out)[t] == Prob(PlainNext(e, h, n, t), out)
  {
    hide PlainNext, Prob;
  }

  lemma ProductSize(p: seq<real>, x: seq<real>)
    requires |x| == |p|
    ensures |Products(p, x)| == |p|
  {
  }

  lemma ProductAt(p: seq<real>, x: seq<real>, t: nat)
    requires |x| == |p| && t < |p|
    ensures |Products(p, x)| == |p| && Products(p, x)[t] == p[t] * x[t]
  {
  }

  /** only its first token can begin it */
  lemma OneToken(e: Engine, h: seq<Token>, n: nat, out: seq<Token>)
    requires e.Valid() && !e.greedy && h != [] && n > 0 && out != [] && InVocab(e, out) && |e.P(h)| == e.vocab
    requires |Chances(PlainNexts(e, h, n), out)| == e.vocab
    ensures Sum(Products(e.P(h), Chances(PlainNexts(e, h, n), out))) ==
            if e.stop(out[0]) then 0.0 else e.P(h)[out[0]] * Prob(PlainTree(e, h + [out[0]], n - 1), out[1..])
  {
    hide Sum, PlainTree, PlainNext, Prob, Products, Chances, Engine.Valid;
    var p, x, k := e.P(h), Chances(PlainNexts(e, h, n), out), out[0];
    forall t: nat | t < e.vocab
      ensures x[t] == if t == k && !e.stop(t) then Prob(PlainTree(e, h + [t], n - 1), out[1..]) else 0.0
    {
      ChanceAt(e, h, n, t, out);
      NextChance(e, h, n, t, out);
    }
    var s := Products(p, x);
    ProductSize(p, x);
    forall t: nat | t < e.vocab && t != k ensures s[t] == 0.0 {
      ProductAt(p, x, t);
      TimesUnit(p[t]);
    }
    SumOnly(s, k);
    ProductAt(p, x, k);
    TimesUnit(p[k]);
  }

  // ---------- the theorem ----------

  /** While every step is exact, every token sequence has the probability plain autoregressive sampling gives it. */
  lemma ExactStepsSuffice(e: Engine, h: seq<Token>, n: nat, out: seq<Token>)
    requires e.Valid() && !e.greedy && ExactSteps(e) && Uninterrupted(e) && h != []
    ensures Prob(HeadTree(e, h, [], -1, n), out) == Prob(PlainTree(e, h, n), out)
  {
    SampledHead(e, h, [], n, out);
  }

  /** the weights are held in single precision */
  ghost predicate SinglePrecision(e: Engine)
    requires e.Valid()
  {
    forall h: seq<Token>, t: Token :: h != [] && t < e.vocab ==> Single(e.P(h)[t])
  }

  /** Speculation is invisible: every token sequence has the same probability as under plain autoregressive sampling. */
  lemma SpeculativeSamplingExact(e: Engine, h: seq<Token>, n: nat, out: seq<Token>)
    requires e.Valid() && !e.greedy && SinglePrecision(e) && Uninterrupted(e) && h != []
    ensures Prob(HeadTree(e, h, [], -1, n), out) == Prob(PlainTree(e, h, n), out)
  {
    hide Engine.Valid, StepExact, Single, IsDist;
    forall g: seq<Token>, d: Token | g != [] && d < e.vocab ensures |e.P(g)| == e.vocab && StepExact(e.P(g), d) {
      DistOk(e, g);
      SingleStep(e.P(g), d);
    }
    ExactStepsSuffice(e, h, n, out);
  }

  // ---------- and only then ----------

  ghost predicate NeverStops(e: Engine) {
    forall t :: !e.stop(t)
  }

  /** every state of the verification loop yields the plain distribution */
  ghost predicate Invisible(e: Engine)
    requires e.Valid()
  {
    forall h: seq<Token>, log: seq<Event>, d: seq<Token>, n: nat, out: seq<Token> :: h != [] && InVocab(e, d) ==>
      Prob(VerifyTree(e, h, log, d, n), out) == Prob(PlainTree(e, h, n), out)
  }

  lemma {:induction false} SumOnly(p: seq<real>, t: nat)
    requires t < |p| && forall i :: 0 <= i < |p| && i != t ==> p[i] == 0.0
    ensures Sum(p) == p[t]
  {
    var q := p[t := 0.0];
    SumUpdate(p, t, 0.0);
    SumScale(q, q, 0.0);
  }

  lemma {:induction false} DrawOnly(p: seq<real>, ban: int, ts: seq<Tree>, t: nat)
    requires WellFormed(Draw(p, ban, ts)) && t < |p| && forall i :: 0 <= i < |p| ==> ts[i] == Emit(i, Done)
    ensures Prob(Draw(p, ban, ts), [t]) == Mass(p, ban, t)
  {
    hide Mass;
    assert [t][1..] == [];
    var x := Chances(ts, [t]);
    forall i | 0 <= i < |p| ensures x[i] == if i == t then 1.0 else 0.0 {
      assert Prob(Emit(i, Done), [t]) == if i == t then Prob(Done, []) else 0.0;
    }
    ProbDraw(p, ban, ts, [t]);
    SumOnly(Weighed(p, ban, x), t);
  }

  /** one draft token, one token to go: the step of StepMass against p */
  lemma OneStep(e: Engine, h: seq<Token>, log: seq<Event>, d: Token, t: Token)
    requires e.Valid() && !e.greedy && Uninterrupted(e) && NeverStops(e) && h != [] && d < e.vocab && t < e.vocab
    ensures Prob(VerifyTree(e, h, log, [d], 1), [t]) == StepMass(e.P(h), d, t)
  {
    hide Mass, Engine.Valid, HeadTree, AcceptTree, VerifyTree, Prob, WellFormed;
    var log', p := log + [Rejected(d)], e.P(h);
    DistOk(e, h);
    OneHead(e, h, log', d, t);
    OneFlip(e, h, log, d);
    FlipProb(p[d], d, HeadTree(e, h, log', d, 1), t);
  }

  lemma FlipProb(x: real, d: Token, no: Tree, t: Token)
    requires WellFormed(no)
    ensures Prob(Flip(x, Emit(d, Done), no), [t]) == x * (if t == d then 1.0 else 0.0) + (1.0 - x) * Prob(no, [t])
  {
    assert [t][1..] == [];
    assert Prob(Emit(d, Done), [t]) == if t == d then Prob(Done, []) else 0.0;
  }

  lemma OneFlip(e: Engine, h: seq<Token>, log: seq<Event>, d: Token)
    requires e.Valid() && !e.greedy && NeverStops(e) && h != [] && d < e.vocab
    ensures d < |e.P(h)|
    ensures VerifyTree(e, h, log, [d], 1) ==
            Flip(e.P(h)[d], Emit(d, Done), HeadTree(e, h, log + [Rejected(d)], d, 1))
  {
    hide Engine.Valid, HeadTree, AcceptTree;
    DistOk(e, h);
    OneAccept(e, h, log, d);
  }

  lemma OneAccept(e: Engine, h: seq<Token>, log: seq<Event>, d: Token)
    requires e.Valid() && !e.greedy && NeverStops(e) && h != [] && d < e.vocab
    ensures AcceptTree(e, h, log, [d], 1) == Emit(d, Done)
  {
    hide Engine.Valid;
    assert [d][1..] == [] && HeadTree(e, h + [d], log + [Accepted(d)], -1, 0) == Done;
  }

  lemma OneHead(e: Engine, h: seq<Token>, log: seq<Event>, ban: int, t: Token)
    requires e.Valid() && !e.greedy && Uninterrupted(e) && NeverStops(e) && h != [] && ban < e.vocab && t < e.vocab
    ensures t < |e.P(h)| && Prob(HeadTree(e, h, log, ban, 1), [t]) == Mass(e.P(h), ban, t)
  {
    hide Mass, Engine.Valid, HeadTree, Prob;
    DistOk(e, h);
    HeadDraw(e, h, log, ban, 1);
    DrawOnly(e.P(h), ban, HeadNexts(e, h, log, 1), t);
  }

  lemma OnePlain(e: Engine, h: seq<Token>, t: Token)
    requires e.Valid() && !e.greedy && NeverStops(e) && h != [] && t < e.vocab
    ensures t < |e.P(h)| && Prob(PlainTree(e, h, 1), [t]) == Mass(e.P(h), -1, t)
  {
    hide Mass, Engine.Valid, Prob;
    DistOk(e, h);
    PlainDraw(e, h, 1);
    forall i | 0 <= i < e.vocab ensures PlainNext(e, h, 1, i) == Emit(i, Done) {
      assert PlainTree(e, h + [i], 0) == Done;
    }
    DrawOnly(e.P(h), -1, PlainNexts(e, h, 1), t);
  }

  lemma DistOk(e: Engine, h: seq<Token>)
    requires e.Valid() && h != []
    ensures |e.P(h)| == e.vocab && IsDist(e.P(h))
  {
  }

  /** Speculation is invisible in every state exactly when each step is exact. */
  lemma InvisibleIff(e: Engine)
    requires e.Valid() && !e.greedy && Uninterrupted(e) && NeverStops(e)
    ensures Invisible(e) <==> ExactSteps(e)
  {
    hide Mass, IsDist, StepExact, HeadTree, PlainTree, VerifyTree, Prob;
    if ExactSteps(e) {
      forall h: seq<Token>, log: seq<Event>, d: seq<Token>, n: nat, out: seq<Token> | h != [] && InVocab(e, d)
        ensures Prob(VerifyTree(e, h, log, d, n), out) == Prob(PlainTree(e, h, n), out)
      {
        SampledVerify(e, h, log, d, n, out);
      }
    }
    if Invisible(e) {
      forall h: seq<Token>, d: Token | h != [] && d < e.vocab ensures StepExact(e.P(h), d) {
        var p := e.P(h);
        DistOk(e, h);
        forall t | 0 <= t < |p| ensures StepMass(p, d, t) == p[t] {
          OneStep(e, h, [], d, t);
          OnePlain(e, h, t);
          assert InVocab(e, [d]);
          assert Prob(VerifyTree(e, h, [], [d], 1), [t]) == Prob(PlainTree(e, h, 1), [t]);
          PlainEntry(p, t, 1.0);
        }
        StepExactIff(p, d);
      }
    }
  }
}
