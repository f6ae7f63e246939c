/** `spec_decode`: each forward verifies a draft over the key/value cache.

    The method is the engine's loop over the token history, the cache, the carried ban and the logits row it
    keeps; it emits exactly what its tree says (`SpecTree.HeadTree`), so the theorems on the tree are theorems on it. */
module SpecDecode {
  import opened Sampling
  import opened SpecTree
  import opened Forward

  /** the engine reads its logits off this network */
  ghost predicate Runs<Hid(!new), Row(!new)>(e: Engine, net: Net<Hid, Row>) {
    e.Valid() && forall h :: h != [] ==> e.logits(h) == Logits(net, h)
  }

  method ArgmaxV(lo: seq<real>, n: nat) returns (b: nat)
    requires 0 < n <= |lo|
    ensures b == Argmax(lo, n)
  {
    b := 0;
    var i := 1;
    while i < n
      invariant 1 <= i <= n && b == Argmax(lo, i)
    {
      if lo[i] > lo[b] { b := i; }
      i := i + 1;
    }
  }

  /** pick_tok: greedy, or a draw with the rejected token excluded */
  method PickTok(e: Engine, lo: seq<real>, ban: int, rnd: nat -> real, k: nat) returns (t: Token, k': nat)
    requires e.Valid() && |lo| == e.vocab
    ensures e.greedy ==> t == Argmax(lo, e.vocab) && k' == k
    ensures !e.greedy ==> t == Sample(e.dist(lo), ban, rnd(k)) && k' == k + 1
    ensures t < e.vocab
  {
    if e.greedy {
      t := ArgmaxV(lo, e.vocab);
      k' := k;
    } else {
      t := DistSample(e.dist(lo), ban, rnd(k));
      k' := k + 1;
    }
  }

  /** accept a draft token: it is the argmax, or a draw falls below its probability */
  method AcceptTok(e: Engine, lo: seq<real>, d: Token, rnd: nat -> real, k: nat) returns (accept: bool, k': nat)
    requires e.Valid() && |lo| == e.vocab && d < e.vocab
    ensures e.greedy ==> accept == (Argmax(lo, e.vocab) == d) && k' == k
    ensures !e.greedy ==> accept == (rnd(k) < e.dist(lo)[d]) && k' == k + 1
  {
    if e.greedy {
      var b := ArgmaxV(lo, e.vocab);
      accept, k' := b == d, k;
    } else {
      accept, k' := rnd(k) < e.dist(lo)[d], k + 1;
    }
  }

  // ---------- unfolding the trees ----------

  ghost predicate Picks(e: Engine, h: seq<Token>, ban: int, rnd: nat -> real, k: nat, t: Token, k': nat)
    requires e.Valid() && h != []
  {
    if e.greedy then t == Best(e, h) && k' == k else t == Sample(e.P(h), ban, rnd(k)) && k' == k + 1
  }

  lemma HeadPicks(e: Engine, h: seq<Token>, log: seq<Event>, ban: int, n: nat, rnd: nat -> real, k: nat, t: Token,
                  k': nat)
    requires e.Valid() && h != [] && ban < e.vocab && n > 0 && !e.intr(log) && Picks(e, h, ban, rnd, k, t, k')
    ensures Run(HeadTree(e, h, log, ban, n), rnd, k) ==
            if e.stop(t) then []
            else if n == 1 then [t]
            else
              var more := log + [Picked(t)];
              [t] + Run(VerifyTree(e, h + [t], more, Draft(e, more, n - 1, |h|), n - 1), rnd, k')
  {
    hide Run, HeadTree, VerifyTree, HeadNext, Draft, Sample;
    HeadRuns(e, h, log, ban, n, rnd, k, t, k');
    NextRuns(e, h, log, n, rnd, k', t);
  }

  lemma HeadRuns(e: Engine, h: seq<Token>, log: seq<Event>, ban: int, n: nat, rnd: nat -> real, k: nat, t: Token,
                 k': nat)
    requires e.Valid() && h != [] && ban < e.vocab && n > 0 && !e.intr(log) && Picks(e, h, ban, rnd, k, t, k')
    ensures Run(HeadTree(e, h, log, ban, n), rnd, k) == Run(HeadNext(e, h, log, n, t), rnd, k')
  {
    hide VerifyTree, Draft, Sample, HeadNext;
    if e.greedy {
      assert HeadTree(e, h, log, ban, n) == HeadNext(e, h, log, n, t);
    } else {
      HeadDraw(e, h, log, ban, n);
      DistOk(e, h);
      assert HeadNexts(e, h, log, n)[t] == HeadNext(e, h, log, n, t);
    }
  }

  lemma NextRuns(e: Engine, h: seq<Token>, log: seq<Event>, n: nat, rnd: nat -> real, k: nat, t: Token)
    requires e.Valid() && h != [] && n > 0
    ensures Run(HeadNext(e, h, log, n, t), rnd, k) ==
            if e.stop(t) then []
            else if n == 1 then [t]
            else
              var more := log + [Picked(t)];
              [t] + Run(VerifyTree(e, h + [t], more, Draft(e, more, n - 1, |h|), n - 1), rnd, k)
  {
    hide VerifyTree, Draft;
    if !e.stop(t) && n == 1 { assert HeadNext(e, h, log, n, t) == Emit(t, Done); }
  }

  lemma VerifyEnds(e: Engine, h: seq<Token>, log: seq<Event>, n: nat, d: seq<Token>)
    requires e.Valid() && h != [] && InVocab(e, d) && (d == [] || n == 0)
    ensures VerifyTree(e, h, log, d, n) == HeadTree(e, h, log, -1, n)
  {
  }

  ghost predicate Accepts(e: Engine, h: seq<Token>, d: Token, rnd: nat -> real, k: nat, accept: bool, k': nat)
    requires e.Valid() && h != [] && d < e.vocab
  {
    if e.greedy then accept == (Best(e, h) == d) && k' == k else accept == (rnd(k) < e.P(h)[d]) && k' == k + 1
  }

  lemma VerifySteps(e: Engine, h: seq<Token>, log: seq<Event>, d: seq<Token>, n: nat, rnd: nat -> real, k: nat,
                    accept: bool, k': nat)
    requires e.Valid() && h != [] && InVocab(e, d) && d != [] && n > 0 && Accepts(e, h, d[0], rnd, k, accept, k')
    ensures Run(VerifyTree(e, h, log, d, n), rnd, k) ==
            if !accept then Run(HeadTree(e, h, log + [Rejected(d[0])], if e.greedy then -1 else d[0], n), rnd, k')
            else if e.stop(d[0]) then []
            else [d[0]] + Run(VerifyTree(e, h + [d[0]], log + [Accepted(d[0])], d[1..], n - 1), rnd, k')
  {
    hide HeadTree;
    var no := HeadTree(e, h, log + [Rejected(d[0])], if e.greedy then -1 else d[0], n);
    var yes := AcceptTree(e, h, log, d, n);
    assert VerifyTree(e, h, log, d, n) ==
           if e.greedy then (if Best(e, h) == d[0] then yes else no) else Flip(e.P(h)[d[0]], yes, no);
  }

  /** valid rows of a sequence are valid rows of any sequence it agrees with there */
  lemma HoldsPrefix<Hid(!new), Row(!new)>(net: Net<Hid, Row>, kv: Store<Row>, slot: nat, a: seq<Token>, b: seq<Token>,
                        n: nat)
    requires n <= |a| && n <= |b| && a[..n] == b[..n] && Holds(net, kv, slot, a, n)
    ensures Holds(net, kv, slot, b, n)
  {
    forall l: nat, i: nat | l < net.layers && i < n ensures RowOk(net, kv, slot, b, i, l) {
      assert RowOk(net, kv, slot, a, i, l);
      assert a[..i + 1] == a[..n][..i + 1] && b[..i + 1] == b[..n][..i + 1];
      Causal(net, a, b, i, l);
    }
  }

  // ---------- the decoder ----------

  method Put(all: array<Token>, i: nat, t: Token)
    requires i < all.Length
    modifies all
    ensures all[..i + 1] == old(all[..i]) + [t] && all[..i] == old(all[..i])
  {
    all[i] := t;
  }

  lemma TakeNext(h: seq<Token>, d: seq<Token>, j: nat)
    requires j < |d|
    ensures d[..j + 1] == d[..j] + [d[j]] && d[j..][0] == d[j] && d[j..][1..] == d[j + 1..]
    ensures h + d[..j + 1] == h + d[..j] + [d[j]]
  {
  }

  lemma Assoc(a: seq<Token>, b: seq<Token>, c: seq<Token>)
    ensures a + (b + c) == a + b + c
  {
  }

  /** what remains to be emitted at the head of the outer loop */
  ghost function Tail(e: Engine, h: seq<Token>, log: seq<Event>, ban: int, n: nat, done: bool, rnd: nat -> real,
                      k: nat): seq<Token>
    requires e.Valid() && h != [] && ban < e.vocab
  {
    if done then [] else Run(HeadTree(e, h, log, ban, n), rnd, k)
  }

  /** what remains to be emitted inside the verification loop */
  ghost function VTail(e: Engine, h: seq<Token>, log: seq<Event>, d: seq<Token>, n: nat, rnd: nat -> real,
                       k: nat): seq<Token>
    requires e.Valid() && h != [] && InVocab(e, d)
  {
    Run(VerifyTree(e, h, log, d, n), rnd, k)
  }

  datatype Verdict = Kept | Stopped | Refused

  /** the model accepts t: it is the first greatest logit, or the draw falls below its probability */
  ghost predicate Takes(e: Engine, lo: seq<real>, t: Token, draw: real) {
    if e.greedy then FirstGreatest(lo, t) else t < |e.dist(lo)| && draw < e.dist(lo)[t]
  }

  lemma TakesIs(e: Engine, lo: seq<real>, t: Token, draw: real)
    requires e.Valid() && |lo| == e.vocab && t < e.vocab
    ensures Takes(e, lo, t, draw) <==> if e.greedy then Argmax(lo, e.vocab) == t else draw < e.dist(lo)[t]
  {
  }

  /** index of the draw for draft token i: greedy verification draws none */
  ghost function DrawAt(e: Engine, k: nat, i: nat): nat {
    if e.greedy then k else k + i
  }

  /** the first j draft tokens are accepted and go on */
  ghost predicate TakesAll(e: Engine, d: seq<Token>, lo: seq<seq<real>>, rnd: nat -> real, k: nat, j: nat)
    requires j <= |d| <= |lo|
  {
    forall i: nat :: i < j ==> Takes(e, lo[i], d[i], rnd(DrawAt(e, k, i))) && !e.stop(d[i])
  }

  /** one draft token: accepted and appended to `all`, accepted but a stop token, or refused */
  method VerifyOne(e: Engine, all: array<Token>, at: nat, lo: seq<real>, ghost d: seq<Token>, tok: Token, ghost n: nat,
                   log0: seq<Event>, rnd: nat -> real, k0: nat, ghost h: seq<Token>)
      returns (v: Verdict, log: seq<Event>, k: nat, ghost tail: seq<Token>)
    requires e.Valid() && InVocab(e, d) && d != [] && d[0] == tok && 0 < at < all.Length && n > 0
    requires all[..at] == h && lo == e.logits(h)
    modifies all
    ensures v == Kept ==> all[..at + 1] == h + [tok] && tail == VTail(e, h + [tok], log, d[1..], n - 1, rnd, k)
                          && VTail(e, h, log0, d, n, rnd, k0) == [tok] + tail
    ensures v != Refused <==> Takes(e, lo, tok, rnd(k0))
    ensures v != Refused ==> (v == Stopped <==> e.stop(tok))
    ensures k == DrawAt(e, k0, 1)
    ensures v != Kept ==> all[..at] == h && VTail(e, h, log0, d, n, rnd, k0) == tail
    ensures v != Kept ==>
        tail == Tail(e, h, log, if v == Refused && !e.greedy then tok else -1, n, v == Stopped, rnd, k)
  {
    hide VerifyTree, HeadTree, Run, VTail, Tail, Takes;
    TakesIs(e, lo, tok, rnd(k0));
    var accept, k1 := AcceptTok(e, lo, tok, rnd, k0);
    VTailStep(e, h, log0, d, n, rnd, k0, accept, k1);
    k, log, tail := k1, log0, VTail(e, h, log0, d, n, rnd, k0);
    if !accept { return Refused, log0 + [Rejected(tok)], k, tail; }
    if e.stop(tok) { StoppedTail(e, h, log0, n, rnd, k1); return Stopped, log0, k, tail; }
    Put(all, at, tok);
    log := log0 + [Accepted(tok)];
    return Kept, log, k, VTail(e, h + [tok], log, d[1..], n - 1, rnd, k1);
  }

  lemma StoppedTail(e: Engine, h: seq<Token>, log: seq<Event>, n: nat, rnd: nat -> real, k: nat)
    requires e.Valid() && h != []
    ensures Tail(e, h, log, -1, n, true, rnd, k) == []
  {
  }

  /** The verification loop: emits the accepted part d[..j] of the draft behind all[..kv]; a rejected token is
      returned as the ban of the next iteration. */
  method VerifyDraft(e: Engine, all: array<Token>, kv: nat, d: seq<Token>, lo: seq<seq<real>>, n: nat, log0: seq<Event>,
                     rnd: nat -> real, k0: nat, ghost h: seq<Token>)
      returns (j: nat, ban: int, done: bool, log: seq<Event>, k: nat, ghost hist: seq<Token>, ghost tail: seq<Token>)
    requires e.Valid() && InVocab(e, d) && 0 < kv && kv + |d| <= all.Length && |d| <= n && all[..kv] == h
    requires |lo| == |d| + 1 && forall i :: 0 <= i <= |d| ==> lo[i] == e.logits(h + d[..i])
    modifies all
    ensures j <= |d| && ban < e.vocab && all[..kv + j] == hist && hist == h + d[..j] && hist != []
    ensures VTail(e, h, log0, d, n, rnd, k0) == d[..j] + tail
    ensures tail == Tail(e, hist, log, ban, n - j, done, rnd, k)
    ensures TakesAll(e, d, lo, rnd, k0, j)
    ensures j == |d| ==> !done && ban == -1
    ensures j < |d| ==> done == Takes(e, lo[j], d[j], rnd(DrawAt(e, k0, j))) && (done ==> e.stop(d[j]))
    ensures j < |d| && !done ==> ban == if e.greedy then -1 else d[j]
  {
    hide Engine.Valid, InVocab, VTail, Tail, Takes;
    tail := VTail(e, h, log0, d, n, rnd, k0);
    ghost var goal := tail;
    j, ban, done, log, k, hist := 0, -1, false, log0, k0, h;
    assert h + d[..0] == h && d[..0] + goal == goal && d[0..] == d;
    while j < |d|
      invariant 0 <= j <= |d| && hist != [] && all[..kv + j] == hist && hist == h + d[..j] && goal == d[..j] + tail
      invariant k == DrawAt(e, k0, j) && TakesAll(e, d, lo, rnd, k0, j)
      invariant ban == -1 && !done && InVocab(e, d[j..]) && tail == VTail(e, hist, log, d[j..], n - j, rnd, k)
    {
      VocabTail(e, d, j);
      TakeNext(h, d, j);
      var v;
      ghost var t;
      v, log, k, t := VerifyOne(e, all, kv + j, lo[j], d[j..], d[j], n - j, log, rnd, k, hist);
      if v != Kept {
        ban, done, tail := if v == Refused && !e.greedy then d[j] else -1, v == Stopped, t;
        return;
      }
      Assoc(d[..j], [d[j]], t);
      hist, tail, j := hist + [d[j]], t, j + 1;
    }
    VTailEnds(e, hist, log, n - j, d[j..], rnd, k);
    BanOk(e);
  }

  lemma BanOk(e: Engine)
    requires e.Valid()
    ensures -1 < e.vocab
  {
  }

  lemma VTailStep(e: Engine, h: seq<Token>, log: seq<Event>, d: seq<Token>, n: nat, rnd: nat -> real, k: nat,
                  accept: bool, k': nat)
    requires e.Valid() && h != [] && InVocab(e, d) && d != [] && n > 0 && Accepts(e, h, d[0], rnd, k, accept, k')
    ensures !accept ==> VTail(e, h, log, d, n, rnd, k)
                        == Tail(e, h, log + [Rejected(d[0])], if e.greedy then -1 else d[0], n, false, rnd, k')
    ensures accept && e.stop(d[0]) ==> VTail(e, h, log, d, n, rnd, k) == [] == Tail(e, h, log, -1, n, true, rnd, k')
    ensures accept && !e.stop(d[0]) ==>
              VTail(e, h, log, d, n, rnd, k)
              == [d[0]] + VTail(e, h + [d[0]], log + [Accepted(d[0])], d[1..], n - 1, rnd, k')
  {
    hide VerifyTree, HeadTree, Run;
    VerifySteps(e, h, log, d, n, rnd, k, accept, k');
  }

  lemma VTailEnds(e: Engine, h: seq<Token>, log: seq<Event>, n: nat, d: seq<Token>, rnd: nat -> real, k: nat)
    requires e.Valid() && h != [] && InVocab(e, d) && (d == [] || n == 0)
    ensures VTail(e, h, log, d, n, rnd, k) == Tail(e, h, log, -1, n, false, rnd, k)
  {
    VerifyEnds(e, h, log, n, d);
  }

  lemma VocabTail(e: Engine, d: seq<Token>, j: nat)
    requires j < |d| && InVocab(e, d[j..])
    ensures d[j] < e.vocab && InVocab(e, d[j + 1..])
  {
    assert d[j] == d[j..][0];
    var r := d[j + 1..];
    forall i | 0 <= i < |r| ensures r[i] < e.vocab { assert r[i] == d[j..][i + 1]; }
  }

  /** the cache and the history of one slot agree, and the logits row is the next one */
  ghost predicate Ready<Hid(!new), Row(!new)>(net: Net<Hid, Row>, kv: Store<Row>, slot: nat, h: seq<Token>,
                            logit: seq<real>) {
    h != [] && Holds(net, kv, slot, h, |h|) && logit == Logits(net, h)
  }

  /** one forward over the picked token and its draft, then the verification */
  method ForwardDraft<Hid(!new), Row(!new)>(e: Engine, net: Net<Hid, Row>, cache: Cache<Row>, slot: nat,
                          all: array<Token>, kv: nat, n: nat, next: Token, log0: seq<Event>, rnd: nat -> real, k0: nat,
                                            ghost h: seq<Token>)
      returns (acc: seq<Token>, logit: seq<real>, ban: int, done: bool, log: seq<Event>, k: nat, ghost hist: seq<Token>,
               ghost tail: seq<Token>)
    requires Runs(e, net) && e.Valid() && e.maxT == cache.maxT && slot < cache.slots && n > 0
    requires |h| == kv && kv + 1 + n <= all.Length && kv + 1 + n <= cache.maxT
    requires all[..kv + 1] == h + [next] && Holds(net, cache.rows, slot, h, kv)
    modifies all, cache
    ensures |acc| <= n && ban < e.vocab && all[..kv + 1 + |acc|] == hist && hist == h + [next] + acc
    ensures Ready(net, cache.rows, slot, hist, logit) && Untouched(old(cache.rows), cache.rows, slot)
    ensures VTail(e, h + [next], log0, Draft(e, log0, n, kv), n, rnd, k0) == acc + tail
    ensures tail == Tail(e, hist, log, ban, n - |acc|, done, rnd, k)
  {
    hide Engine.Valid, Runs, InVocab, VTail, Tail, Ready, Holds, Untouched, Logits, Draft;
    var d := DraftNow(e, log0, n, kv);
    var lo := cache.StepAll(net, slot, [next] + d, kv, h);
    LogitsRows(e, net, h, next, d, lo);
    var j;
    j, ban, done, log, k, hist, tail := VerifyDraft(e, all, kv + 1, d, lo, n, log0, rnd, k0, h + [next]);
    ReadyAfter(e, net, cache.rows, slot, h, next, d, lo, j);
    acc, logit := d[..j], lo[j];
  }

  /** One turn of the outer loop: emits acc, which is at least one token unless a stop token is picked.  `last` says
      that the budget ended with the picked token, which is then not forwarded. */
  method Turn<Hid(!new), Row(!new)>(e: Engine, net: Net<Hid, Row>, cache: Cache<Row>, slot: nat, all: array<Token>,
                                    kv: nat, n: nat, logit0: seq<real>, log0: seq<Event>, ban0: int,
                                    rnd: nat -> real, k0: nat, ghost h: seq<Token>)
      returns (acc: seq<Token>, last: bool, logit: seq<real>, ban: int, done: bool, log: seq<Event>, k: nat,
               ghost hist: seq<Token>, ghost tail: seq<Token>)
    requires Runs(e, net) && e.Valid() && e.maxT == cache.maxT && slot < cache.slots && n > 0
    requires kv + n <= all.Length && kv + n <= cache.maxT && ban0 < e.vocab && !e.intr(log0)
    requires all[..kv] == h && h != [] && Ready(net, cache.rows, slot, h, logit0)
    modifies all, cache
    ensures |acc| <= n && ban < e.vocab && all[..kv + |acc|] == hist && hist == h + acc && (acc == [] ==> done)
    ensures Tail(e, h, log0, ban0, n, false, rnd, k0) == acc + tail
    ensures last ==> |acc| == n == 1 && tail == [] && all[..kv] == h && Holds(net, cache.rows, slot, h, kv)
    ensures !last ==>
        Ready(net, cache.rows, slot, hist, logit) && tail == Tail(e, hist, log, ban, n - |acc|, done, rnd, k)
    ensures Untouched(old(cache.rows), cache.rows, slot)
  {
    hide Ready, Untouched, Logits, Runs, Tail, VTail, Engine.Valid, Holds, Draft, Argmax, Sample;
    ReadyLogits(e, net, cache.rows, slot, h, logit0);
    ReadyHolds(net, cache.rows, slot, h, logit0);
    UntouchedRefl(cache.rows, slot);
    var next, k1 := PickTok(e, logit0, ban0, rnd, k0);
    TailPicks(e, h, log0, ban0, n, rnd, k0, next, k1);
    acc, last, logit, ban, done, log, k, hist, tail := [], false, logit0, -1, true, log0, k1, h, [];
    if e.stop(next) { StoppedTail(e, h, log0, n, rnd, k1); return; }
    Put(all, kv, next);
    log, hist, acc := log0 + [Picked(next)], h + [next], [next];
    if n == 1 { last := true; return; }
    ghost var vt := VTail(e, hist, log, Draft(e, log, n - 1, kv), n - 1, rnd, k1);
    var more;
    more, logit, ban, done, log, k, hist, tail :=
      ForwardDraft(e, net, cache, slot, all, kv, n - 1, next, log, rnd, k1, h);
    Assoc([next], more, tail);
    Assoc(h, [next], more);
    acc := [next] + more;
  }

  /** Emits, leaves in `all` and caches exactly what the tree for the old history dictates. */
  method Decode<Hid(!new), Row(!new)>(e: Engine, net: Net<Hid, Row>, cache: Cache<Row>, slot: nat, all: array<Token>,
                                      kv0: nat, nNew: nat, logit0: seq<real>, rnd: nat -> real)
      returns (emitted: seq<Token>, kv: nat)
    requires Runs(e, net) && e.maxT == cache.maxT && slot < cache.slots
    requires kv0 + nNew <= all.Length && kv0 + nNew <= cache.maxT && Ready(net, cache.rows, slot, all[..kv0], logit0)
    modifies all, cache
    ensures emitted == Run(HeadTree(e, old(all[..kv0]), [], -1, nNew), rnd, 0)
    ensures |emitted| <= nNew && all[..kv0 + |emitted|] == old(all[..kv0]) + emitted
    ensures kv == kv0 + |emitted| || (kv == kv0 + |emitted| - 1 && |emitted| == nNew)
    ensures Holds(net, cache.rows, slot, all[..kv], kv) && Untouched(old(cache.rows), cache.rows, slot)
  {
    hide Ready, Untouched, Logits, Runs, Tail, Engine.Valid, Holds, HeadTree, Run;
    ghost var start := all[..kv0];
    ReadyHolds(net, cache.rows, slot, start, logit0);
    RunsValid(e, net);
    ghost var hist, tail := start, Tail(e, start, [], -1, nNew, false, rnd, 0);
    ghost var goal := tail;
    TailIs(e, start, nNew, rnd);
    emitted, kv := [], kv0;
    var logit, ban, log, k, done := logit0, -1, [], 0, false;
    UntouchedRefl(cache.rows, slot);
    while |emitted| < nNew && !done && !e.intr(log)
      invariant |emitted| <= nNew && kv == kv0 + |emitted| && ban < e.vocab
      invariant all[..kv] == hist && hist == start + emitted && hist != [] && Ready(net, cache.rows, slot, hist, logit)
      invariant Untouched(old(cache.rows), cache.rows, slot)
      invariant goal == emitted + tail && tail == Tail(e, hist, log, ban, nNew - |emitted|, done, rnd, k)
      decreases nNew - |emitted|, !done
    {
      var acc, last;
      ghost var was := cache.rows;
      acc, last, logit, ban, done, log, k, hist, tail :=
        Turn(e, net, cache, slot, all, kv, nNew - |emitted|, logit, log, ban, rnd, k, hist);
      UntouchedTrans(old(cache.rows), was, cache.rows, slot);
      Assoc(start, emitted, acc);
      Assoc(emitted, acc, tail);
      emitted := emitted + acc;
      if last { return; }
      kv := kv + |acc|;
    }
    TailEnds(e, hist, log, ban, nNew - |emitted|, done, rnd, k);
    ReadyHolds(net, cache.rows, slot, hist, logit);
  }

  lemma TailIs(e: Engine, h: seq<Token>, n: nat, rnd: nat -> real)
    requires e.Valid() && h != []
    ensures Tail(e, h, [], -1, n, false, rnd, 0) == Run(HeadTree(e, h, [], -1, n), rnd, 0)
  {
  }

  lemma TailEnds(e: Engine, h: seq<Token>, log: seq<Event>, ban: int, n: nat, done: bool, rnd: nat -> real, k: nat)
    requires e.Valid() && h != [] && ban < e.vocab && (n == 0 || done || e.intr(log))
    ensures Tail(e, h, log, ban, n, done, rnd, k) == []
  {
  }

  lemma TailPicks(e: Engine, h: seq<Token>, log: seq<Event>, ban: int, n: nat, rnd: nat -> real, k: nat, t: Token,
                  k': nat)
    requires e.Valid() && h != [] && ban < e.vocab && n > 0 && !e.intr(log)
    requires e.greedy ==> t == Argmax(e.logits(h), e.vocab) && k' == k
    requires !e.greedy ==> t == Sample(e.P(h), ban, rnd(k)) && k' == k + 1
    ensures Tail(e, h, log, ban, n, false, rnd, k) ==
            if e.stop(t) then []
            else if n == 1 then [t]
            else [t] + VTail(e, h + [t], log + [Picked(t)], Draft(e, log + [Picked(t)], n - 1, |h|), n - 1, rnd, k')
  {
    hide VerifyTree, HeadTree, Run, Draft;
    HeadPicks(e, h, log, ban, n, rnd, k, t, k');
  }

  lemma RunsValid<Hid(!new), Row(!new)>(e: Engine, net: Net<Hid, Row>)
    requires Runs(e, net)
    ensures e.Valid()
  {
  }

  lemma ReadyHolds<Hid(!new), Row(!new)>(net: Net<Hid, Row>, kv: Store<Row>, slot: nat, h: seq<Token>, logit: seq<real>)
    requires Ready(net, kv, slot, h, logit)
    ensures h != [] && Holds(net, kv, slot, h, |h|)
  {
  }

  lemma ReadyLogits<Hid(!new), Row(!new)>(e: Engine, net: Net<Hid, Row>, kv: Store<Row>, slot: nat, h: seq<Token>,
                        logit: seq<real>)
    requires Runs(e, net) && Ready(net, kv, slot, h, logit)
    ensures h != [] && logit == e.logits(h) && |logit| == e.vocab
  {
  }

  /** behind the accepted part of the draft the cache, the history and the kept logits row agree again */
  lemma ReadyAfter<Hid(!new), Row(!new)>(e: Engine, net: Net<Hid, Row>, kv: Store<Row>, slot: nat, h: seq<Token>,
                       next: Token, d: seq<Token>, lo: seq<seq<real>>, j: nat)
    requires Runs(e, net) && j <= |d| && |lo| == |d| + 1 && Holds(net, kv, slot, h + ([next] + d), |h| + 1 + |d|)
    requires forall i :: 0 <= i <= |d| ==> lo[i] == e.logits(h + [next] + d[..i])
    ensures Ready(net, kv, slot, h + [next] + d[..j], lo[j])
  {
    var a, b := h + ([next] + d), h + [next] + d[..j];
    assert a[..|b|] == b[..|b|];
    assert Holds(net, kv, slot, a, |b|) by {
      forall l: nat, i: nat | l < net.layers && i < |b| ensures RowOk(net, kv, slot, a, i, l) {}
    }
    HoldsPrefix(net, kv, slot, a, b, |b|);
  }

  /** the draft with its clamps */
  method DraftNow(e: Engine, log: seq<Event>, n: nat, kv: nat) returns (d: seq<Token>)
    requires e.Valid()
    ensures d == Draft(e, log, n, kv) && |d| <= 63 && |d| <= n && InVocab(e, d)
    ensures d == [] || kv + |d| + 2 <= e.maxT
  {
    d := e.drafter(log);
    var g := |d|;
    if g > n { g := n; }
    if kv + 1 + g + 1 > e.maxT { g := e.maxT - kv - 2; }
    if g < 0 { g := 0; }
    d := d[..g];
  }

  lemma UntouchedRefl<Row(!new)>(kv: Store<Row>, slot: nat)
    ensures Untouched(kv, kv, slot)
  {
  }

  lemma UntouchedTrans<Row(!new)>(a: Store<Row>, b: Store<Row>, c: Store<Row>, slot: nat)
    requires Untouched(a, b, slot) && Untouched(b, c, slot)
    ensures Untouched(a, c, slot)
  {
  }

  /** row i of the verification logits is the next-token row after i draft tokens */
  lemma LogitsRows<Hid(!new), Row(!new)>(e: Engine, net: Net<Hid, Row>, h: seq<Token>, next: Token, d: seq<Token>,
                       lo: seq<seq<real>>)
    requires Runs(e, net) && |lo| == |d| + 1
    requires forall s :: 0 <= s < |d| + 1 ==> lo[s] == Logits(net, h + ([next] + d)[..s + 1])
    ensures forall i :: 0 <= i <= |d| ==> lo[i] == e.logits(h + [next] + d[..i])
  {
    forall i | 0 <= i <= |d| ensures lo[i] == e.logits(h + [next] + d[..i]) {
      assert ([next] + d)[..i + 1] == [next] + d[..i];
      assert h + ([next] + d)[..i + 1] == h + [next] + d[..i];
    }
  }
}
