/** The rule store of the GBNF parser and the desugaring of a postfix operator (`gr__postfix`).

    The store is updated one push at a time, as the parser does; `Desugared` is the store it ends in.
    The theorem compares it with `Reading`, the same store in which the enclosing alternate still holds the
    postfix itself: every rule denotes the same language in both. */
module Postfix {
  import opened Language

  const GR_MAX_RULES := 1024

  ghost predicate RefsBelow(f: Form, n: nat)
    decreases f
  {
    forall i :: 0 <= i < |f| ==> SymBelow(f[i], n)
  }

  ghost predicate SymBelow(s: Sym, n: nat)
    decreases s
  {
    match s
    case Cls(_) => true
    case Ref(r) => 0 <= r < n
    case Post(item, _) => RefsBelow(item, n)
  }

  /** every reference names a rule of the store */
  ghost predicate Closed(g: Rules) {
    forall r, a :: 0 <= r < |g| && 0 <= a < |g[r]| ==> RefsBelow(g[r][a], |g|)
  }

  ghost function WithAlt(g: Rules, ri: nat, ai: nat, f: Form): Rules
    requires ri < |g| && ai < |g[ri]|
  {
    g[ri := g[ri][ai := f]]
  }

  /** the store before desugaring, read as EBNF */
  ghost function Reading(g: Rules, ri: nat, ai: nat, n0: nat, op: Op): Rules
    requires ri < |g| && ai < |g[ri]| && n0 <= |g[ri][ai]|
  {
    WithAlt(g, ri, ai, g[ri][ai][..n0] + [Post(g[ri][ai][n0..], op)])
  }

  /** alternates of the synthetic rule R for item rule I:  I | ""   I R | ""   I R | I */
  ghost function OpAlts(i: int, r: int, op: Op): seq<Form> {
    match op
    case Opt => [[Ref(i)], []]
    case Star => [[Ref(i), Ref(r)], []]
    case Plus => [[Ref(i), Ref(r)], [Ref(i)]]
  }

  ghost function Desugared(g: Rules, ri: nat, ai: nat, n0: nat, op: Op): Rules
    requires ri < |g| && ai < |g[ri]| && n0 <= |g[ri][ai]|
  {
    WithAlt(g, ri, ai, g[ri][ai][..n0] + [Ref(|g| + 1)]) + [[g[ri][ai][n0..]], OpAlts(|g|, |g| + 1, op)]
  }

  lemma UpdateLast<T>(p: seq<T>, x: T, y: T)
    ensures (p + [x])[|p|] == x && (p + [x])[|p| := y] == p + [y]
  {
  }

  /** pushing on the newest alternate of the newest rule */
  lemma PushLast(p: Rules, alts: seq<Form>, f: Form, s: Sym)
    ensures WithAlt(p + [alts + [f]], |p|, |alts|, f + [s]) == p + [alts + [f + [s]]]
  {
    UpdateLast(alts, f, f + [s]);
    UpdateLast(p, alts + [f], alts + [f + [s]]);
  }

  class Grammar {
    var r: Rules

    constructor ()
      ensures r == []
    {
      r := [];
    }

    /** gr__alt_new */
    method AltNew(ri: nat) returns (ai: nat)
      requires ri < |r|
      modifies this
      ensures ai == |old(r)[ri]| && r == old(r)[ri := old(r)[ri] + [[]]]
    {
      ai := |r[ri]|;
      r := r[ri := r[ri] + [[]]];
    }

    /** gr__push */
    method Push(ri: nat, ai: nat, sy: Sym)
      requires ri < |r| && ai < |r[ri]|
      modifies this
      ensures r == WithAlt(old(r), ri, ai, old(r)[ri][ai] + [sy])
    {
      r := r[ri := r[ri][ai := r[ri][ai] + [sy]]];
    }

    /** gr__anon: a fresh rule, or -1 when the table is full */
    method Anon() returns (i: int)
      modifies this
      ensures if |old(r)| >= GR_MAX_RULES then i == -1 && r == old(r) else i == |old(r)| && r == old(r) + [[]]
    {
      if |r| >= GR_MAX_RULES { return -1; }
      i := |r|;
      r := r + [[]];
    }

    /** first half of gr__postfix: the item [n0, n) becomes the only alternate of a fresh rule and leaves its own */
    method ItemToRule(ri: nat, ai: nat, n0: nat) returns (ii: int)
      requires ri < |r| && ai < |r[ri]| && n0 < |r[ri][ai]|
      modifies this
      ensures if |old(r)| >= GR_MAX_RULES then ii == -1 && r == old(r)
              else ii == |old(r)| && r == WithAlt(old(r), ri, ai, old(r)[ri][ai][..n0]) + [[old(r)[ri][ai][n0..]]]
    {
      ghost var g, alt := r, r[ri][ai];
      var k := |r[ri][ai]| - n0;
      ii := Anon();
      if ii < 0 { return; }
      var ia := AltNew(ii);
      UpdateLast(g, [], [] + [[]]);
      assert alt[n0..n0 + 0] == [];
      var j := 0;
      while j < k
        invariant 0 <= j <= k && r == g + [[] + [alt[n0..n0 + j]]]
      {
        var sy := r[ri][ai][n0 + j];
        PushLast(g, [], alt[n0..n0 + j], sy);
        Push(ii, ia, sy);
        assert alt[n0..n0 + j] + [alt[n0 + j]] == alt[n0..n0 + j + 1];
        j := j + 1;
      }
      assert alt[n0..n0 + k] == alt[n0..] && [] + [alt[n0..]] == [alt[n0..]];
      r := r[ri := r[ri][ai := r[ri][ai][..n0]]];
    }

    /** second half of gr__postfix: the alternates of the fresh rule R over the item rule */
    method OpToRule(ii: int, op: Op) returns (rr: int)
      modifies this
      ensures if |old(r)| >= GR_MAX_RULES then rr == -1 && r == old(r)
              else rr == |old(r)| && r == old(r) + [OpAlts(ii, rr, op)]
    {
      ghost var g := r;
      rr := Anon();
      if rr < 0 { return; }
      var a0 := AltNew(rr);
      UpdateLast(g, [], [] + [[]]);
      PushLast(g, [], [], Ref(ii));
      Push(rr, a0, Ref(ii));
      assert [] + [Ref(ii)] == [Ref(ii)] && [Ref(ii)] + [Ref(rr)] == [Ref(ii), Ref(rr)];
      PushLast(g, [], [Ref(ii)], Ref(rr));
      if op == Star || op == Plus { Push(rr, a0, Ref(rr)); }
      ghost var first := [] + [OpAlts(ii, rr, op)[0]];
      assert r == g + [first];
      var a1 := AltNew(rr);
      UpdateLast(g, first, first + [[]]);
      PushLast(g, first, [], Ref(ii));
      if op == Plus { Push(rr, a1, Ref(ii)); }
      assert first + [OpAlts(ii, rr, op)[1]] == OpAlts(ii, rr, op);
    }

    /** gr__postfix on the item [n0, n) of alternate ai of rule ri */
    method Apply(ri: nat, ai: nat, n0: nat, op: Op) returns (ok: bool)
      requires ri < |r| && ai < |r[ri]| && n0 <= |r[ri][ai]|
      modifies this
      ensures ok <==> n0 == |old(r)[ri][ai]| || |old(r)| + 2 <= GR_MAX_RULES
      ensures ok && n0 == |old(r)[ri][ai]| ==> r == old(r)
      ensures ok && n0 < |old(r)[ri][ai]| ==> r == Desugared(old(r), ri, ai, n0, op)
    {
      var k := |r[ri][ai]| - n0;
      if k <= 0 { return true; }
      ghost var g := r;
      var ii := ItemToRule(ri, ai, n0);
      if ii < 0 { return false; }
      var rr := OpToRule(ii, op);
      if rr < 0 { return false; }
      Push(ri, ai, Ref(rr));
      ghost var d := Desugared(g, ri, ai, n0, op);
      assert r[ri] == d[ri] && r[ii] == d[ii] && r[rr] == d[rr];
      assert r == d;
      return true;
    }
  }

  // ---------- the synthetic rule denotes the postfix ----------

  ghost predicate PairOfRules(d: Rules, i: int, item: Form, op: Op) {
    0 <= i && i + 1 < |d| && d[i] == [item] && d[i + 1] == OpAlts(i, i + 1, op)
  }

  lemma ItemRule(d: Rules, i: int, item: Form, op: Op, f: Form, w: Word)
    requires PairOfRules(d, i, item, op)
    ensures In(d, [Ref(i)] + f, w) <==> In(d, item + f, w)
  {
    InRef(d, i, f, w);
    assert d[i][0] == item;
  }

  lemma OpRule(d: Rules, i: int, item: Form, op: Op, w: Word)
    requires PairOfRules(d, i, item, op)
    ensures In(d, [Ref(i + 1)], w) <==>
              match op
              case Opt => In(d, item, w) || w == []
              case Star => In(d, item + [Ref(i + 1)], w) || w == []
              case Plus => In(d, item + [Ref(i + 1)], w) || In(d, item, w)
  {
    var R := Ref(i + 1);
    InRule(d, i + 1, w);
    assert |d[i + 1]| == 2;
    assert d[i + 1][0] == if op == Opt then [Ref(i)] else [Ref(i)] + [R];
    assert d[i + 1][1] == if op == Plus then [Ref(i)] else [];
    assert In(d, d[i + 1][0], w) || In(d, d[i + 1][1], w) ==> In(d, [R], w);
    assert In(d, [R], w) ==> In(d, d[i + 1][0], w) || In(d, d[i + 1][1], w);
    ItemRule(d, i, item, op, [], w);
    assert [Ref(i)] + [] == [Ref(i)] && item + [] == item;
    ItemRule(d, i, item, op, [R], w);
    SeqNil(d, w);
  }

  /** some approximation of R yields only what the postfix denotes */
  lemma {:induction false} RuleToPost(d: Rules, i: int, item: Form, op: Op, w: Word, h: nat)
    requires PairOfRules(d, i, item, op) && SymGen(d, Ref(i + 1), w, h)
    ensures PostMeaning(d, item, op, w)
    decreases h
  {
    hide SymGen, SeqGen, PostMeaning, PairOfRules;
    SeqOne(d, Ref(i + 1), w, h);
    if op == Opt {
      OptRule(d, i, item, w);
    } else {
      var a := RuleAlt(d, i + 1, w, h);
      RuleShape(d, i, item, op);
      if a == 0 {
        var k := SeqSplit(d, [Ref(i)], [Ref(i + 1)], w, h - 1);
        SeqOne(d, Ref(i + 1), w[k..], h - 1);
        RuleToPost(d, i, item, op, w[k..], h - 1);
        ItemAlone(d, i, item, op, w[..k]);
        PowerStep(d, item, op, w, k);
      } else if op == Star {
        EmptyRepeat(d, item, w, h - 1);
      } else {
        ItemAlone(d, i, item, op, w);
        PowerOne(d, item, w);
        OncePlus(d, item, w);
      }
    }
  }

  lemma RuleAlt(d: Rules, r: int, w: Word, h: nat) returns (a: nat)
    requires SymGen(d, Ref(r), w, h)
    ensures 0 <= r < |d| && h > 0 && a < |d[r]| && SeqGen(d, d[r][a], w, h - 1)
  {
    a :| 0 <= a < |d[r]| && SeqGen(d, d[r][a], w, h - 1);
  }

  lemma RuleShape(d: Rules, i: int, item: Form, op: Op)
    requires PairOfRules(d, i, item, op)
    ensures 0 <= i && i + 1 < |d| && |d[i + 1]| == 2
    ensures op != Opt ==> d[i + 1][0] == [Ref(i)] + [Ref(i + 1)]
    ensures d[i + 1][1] == if op == Plus then [Ref(i)] else []
  {
  }

  lemma OptRule(d: Rules, i: int, item: Form, w: Word)
    requires PairOfRules(d, i, item, Opt) && In(d, [Ref(i + 1)], w)
    ensures PostMeaning(d, item, Opt, w)
  {
    OpRule(d, i, item, Opt, w);
  }

  lemma ItemAlone(d: Rules, i: int, item: Form, op: Op, w: Word)
    requires PairOfRules(d, i, item, op) && In(d, [Ref(i)], w)
    ensures In(d, item, w)
  {
    ItemRule(d, i, item, op, [], w);
    assert [Ref(i)] + [] == [Ref(i)] && item + [] == item;
  }

  lemma EmptyRepeat(d: Rules, item: Form, w: Word, h: nat)
    requires SeqGen(d, [], w, h)
    ensures PostMeaning(d, item, Star, w)
  {
    assert InPow(d, item, w, 0);
  }

  lemma OncePlus(d: Rules, item: Form, w: Word)
    requires InPow(d, item, w, 1)
    ensures PostMeaning(d, item, Plus, w)
  {
  }

  lemma PowerStep(d: Rules, item: Form, op: Op, w: Word, k: nat)
    requires op != Opt && k <= |w| && In(d, item, w[..k]) && PostMeaning(d, item, op, w[k..])
    ensures PostMeaning(d, item, op, w)
  {
    var n: nat :| InPow(d, item, w[k..], n) && (op == Plus ==> n > 0);
    assert InPow(d, item, w, n + 1);
  }

  lemma PowerOne(d: Rules, item: Form, w: Word)
    requires In(d, item, w)
    ensures InPow(d, item, w, 1)
  {
    assert w[..|w|] == w && InPow(d, item, w[|w|..], 0);
  }

  lemma {:induction false} PowerToRule(d: Rules, i: int, item: Form, op: Op, w: Word, n: nat)
    requires PairOfRules(d, i, item, op) && op != Opt && InPow(d, item, w, n) && (op == Plus ==> n > 0)
    ensures In(d, [Ref(i + 1)], w)
    decreases n
  {
    OpRule(d, i, item, op, w);
    if n > 0 {
      var k :| 0 <= k <= |w| && In(d, item, w[..k]) && InPow(d, item, w[k..], n - 1);
      if op == Plus && n == 1 {
        assert w[..k] == w;
      } else {
        PowerToRule(d, i, item, op, w[k..], n - 1);
        InJoin(d, item, [Ref(i + 1)], w[..k], w[k..]);
        assert w[..k] + w[k..] == w;
      }
    }
  }

  /** R denotes exactly item?, item* or item+ in the store that holds it, nullable items included */
  lemma RuleIsPostfix(d: Rules, i: int, item: Form, op: Op, w: Word)
    requires PairOfRules(d, i, item, op)
    ensures In(d, [Ref(i + 1)], w) <==> PostMeaning(d, item, op, w)
  {
    if In(d, [Ref(i + 1)], w) {
      var h: nat :| SeqGen(d, [Ref(i + 1)], w, h);
      SeqOne(d, Ref(i + 1), w, h);
      RuleToPost(d, i, item, op, w, h);
    }
    if PostMeaning(d, item, op, w) {
      OpRule(d, i, item, op, w);
      match op {
        case Opt =>
        case Star => var n: nat :| InPow(d, item, w, n); PowerToRule(d, i, item, op, w, n);
        case Plus => var n: nat :| n > 0 && InPow(d, item, w, n); PowerToRule(d, i, item, op, w, n);
      }
    }
  }

  // ---------- no rule changes its language ----------

  /** Two stores that differ in one alternate: it ends in the postfix in e and in the synthetic rule in d. */
  datatype Site = Site(e: Rules, d: Rules, ri: nat, ai: nat, pre: Form, item: Form, op: Op) {
    ghost predicate Ok() {
      && |d| == |e| + 2 && Closed(e) && RefsBelow(pre, |e|) && RefsBelow(item, |e|)
      && ri < |e| && ai < |e[ri]| && e[ri][ai] == pre + [Post(item, op)]
      && PairOfRules(d, |e|, item, op)
      && (forall r :: 0 <= r < |e| ==> |d[r]| == |e[r]|)
      && (forall r, a :: 0 <= r < |e| && 0 <= a < |e[r]| ==>
            d[r][a] == if r == ri && a == ai then pre + [Ref(|e| + 1)] else e[r][a])
    }
  }

  lemma {:induction false} ReadRef(c: Site, r: int, w: Word, h: nat)
    requires c.Ok() && 0 <= r < |c.e| && SymGen(c.e, Ref(r), w, h)
    ensures In(c.d, [Ref(r)], w)
    decreases h, Ref(r), 0, 0
  {
    hide SymGen, SeqGen, PostMeaning, In;
    var a := RuleAlt(c.e, r, w, h);
    ReadSeq(c, c.e[r][a], w, h - 1);
    if r == c.ri && a == c.ai {
      var k := InSplit(c.d, c.pre, [Post(c.item, c.op)], w);
      InPost(c.d, c.item, c.op, w[k..]);
      RuleIsPostfix(c.d, |c.e|, c.item, c.op, w[k..]);
      InJoin(c.d, c.pre, [Ref(|c.e| + 1)], w[..k], w[k..]);
      assert w[..k] + w[k..] == w;
    }
    assert In(c.d, c.d[r][a], w);
    InRule(c.d, r, w);
  }

  lemma {:induction false} ReadSym(c: Site, s: Sym, w: Word, h: nat)
    requires c.Ok() && SymBelow(s, |c.e|) && SymGen(c.e, s, w, h)
    ensures In(c.d, [s], w)
    decreases h, s, 1, 0
  {
    match s
    case Cls(_) => assert SymGen(c.d, s, w, 0); SeqOne(c.d, s, w, 0);
    case Ref(r) => ReadRef(c, r, w, h);
    case Post(it, o) =>
      if o == Opt {
        if w != [] { ReadSeq(c, it, w, h); }
      } else {
        var n: nat :| PowGen(c.e, it, w, h, n) && (o == Plus ==> n > 0);
        ReadPow(c, it, w, h, n);
      }
      InPost(c.d, it, o, w);
  }

  lemma {:induction false} ReadSeq(c: Site, f: Form, w: Word, h: nat)
    requires c.Ok() && RefsBelow(f, |c.e|) && SeqGen(c.e, f, w, h)
    ensures In(c.d, f, w)
    decreases h, f, 0, 0
  {
    if f == [] {
      SeqNil(c.d, w);
    } else {
      var i :| 0 <= i <= |w| && SymGen(c.e, f[0], w[..i], h) && SeqGen(c.e, f[1..], w[i..], h);
      ReadSym(c, f[0], w[..i], h);
      ReadSeq(c, f[1..], w[i..], h);
      InJoin(c.d, [f[0]], f[1..], w[..i], w[i..]);
      assert [f[0]] + f[1..] == f && w[..i] + w[i..] == w;
    }
  }

  lemma {:induction false} ReadPow(c: Site, it: Form, w: Word, h: nat, n: nat)
    requires c.Ok() && RefsBelow(it, |c.e|) && PowGen(c.e, it, w, h, n)
    ensures InPow(c.d, it, w, n)
    decreases h, it, 1, n
  {
    if n > 0 {
      var i :| 0 <= i <= |w| && SeqGen(c.e, it, w[..i], h) && PowGen(c.e, it, w[i..], h, n - 1);
      ReadSeq(c, it, w[..i], h);
      ReadPow(c, it, w[i..], h, n - 1);
    }
  }

  lemma {:induction false} StoredRef(c: Site, r: int, w: Word, h: nat)
    requires c.Ok() && 0 <= r < |c.e| && SymGen(c.d, Ref(r), w, h)
    ensures In(c.e, [Ref(r)], w)
    decreases h, Ref(r), 0, 0
  {
    hide SymGen, SeqGen, PostMeaning, In;
    var a := RuleAlt(c.d, r, w, h);
    if r == c.ri && a == c.ai {
      var k := SeqSplit(c.d, c.pre, [Ref(|c.e| + 1)], w, h - 1);
      StoredSeq(c, c.pre, w[..k], h - 1);
      SeqOne(c.d, Ref(|c.e| + 1), w[k..], h - 1);
      StoredRule(c, w[k..], h - 1);
      InPost(c.e, c.item, c.op, w[k..]);
      InJoin(c.e, c.pre, [Post(c.item, c.op)], w[..k], w[k..]);
      assert w[..k] + w[k..] == w;
    } else {
      StoredSeq(c, c.e[r][a], w, h - 1);
    }
    assert In(c.e, c.e[r][a], w);
    InRule(c.e, r, w);
  }

  lemma {:induction false} StoredSym(c: Site, s: Sym, w: Word, h: nat)
    requires c.Ok() && SymBelow(s, |c.e|) && SymGen(c.d, s, w, h)
    ensures In(c.e, [s], w)
    decreases h, s, 1, 0
  {
    match s
    case Cls(_) => assert SymGen(c.e, s, w, 0); SeqOne(c.e, s, w, 0);
    case Ref(r) => StoredRef(c, r, w, h);
    case Post(it, o) =>
      if o == Opt {
        if w != [] { StoredSeq(c, it, w, h); }
      } else {
        var n: nat :| PowGen(c.d, it, w, h, n) && (o == Plus ==> n > 0);
        StoredPow(c, it, w, h, n);
      }
      InPost(c.e, it, o, w);
  }

  lemma {:induction false} StoredSeq(c: Site, f: Form, w: Word, h: nat)
    requires c.Ok() && RefsBelow(f, |c.e|) && SeqGen(c.d, f, w, h)
    ensures In(c.e, f, w)
    decreases h, f, 0, 0
  {
    if f == [] {
      SeqNil(c.e, w);
    } else {
      hide InPow, PostMeaning, In;
      var i :| 0 <= i <= |w| && SymGen(c.d, f[0], w[..i], h) && SeqGen(c.d, f[1..], w[i..], h);
      StoredSym(c, f[0], w[..i], h);
      StoredSeq(c, f[1..], w[i..], h);
      InJoin(c.e, [f[0]], f[1..], w[..i], w[i..]);
      assert [f[0]] + f[1..] == f && w[..i] + w[i..] == w;
    }
  }

  lemma {:induction false} StoredPow(c: Site, it: Form, w: Word, h: nat, n: nat)
    requires c.Ok() && RefsBelow(it, |c.e|) && PowGen(c.d, it, w, h, n)
    ensures InPow(c.e, it, w, n)
    decreases h, it, 1, n
  {
    if n > 0 {
      var i :| 0 <= i <= |w| && SeqGen(c.d, it, w[..i], h) && PowGen(c.d, it, w[i..], h, n - 1);
      StoredSeq(c, it, w[..i], h);
      StoredPow(c, it, w[i..], h, n - 1);
    }
  }

  /** an approximation of the synthetic rule in d stays within the postfix as e reads it */
  lemma {:induction false} StoredRule(c: Site, w: Word, h: nat)
    requires c.Ok() && SymGen(c.d, Ref(|c.e| + 1), w, h)
    ensures PostMeaning(c.e, c.item, c.op, w)
    decreases h, Ref(|c.e| + 1), 0, 0
  {
    var i := |c.e|;
    var a :| 0 <= a < |c.d[i + 1]| && SeqGen(c.d, c.d[i + 1][a], w, h - 1);
    if c.d[i + 1][a] == [] {
      if c.op == Star { assert InPow(c.e, c.item, w, 0); }
    } else if a == 0 && c.op != Opt {
      assert c.d[i + 1][a] == [Ref(i)] + [Ref(i + 1)];
      var k := SeqSplit(c.d, [Ref(i)], [Ref(i + 1)], w, h - 1);
      SeqOne(c.d, Ref(i + 1), w[k..], h - 1);
      StoredRule(c, w[k..], h - 1);
      StoredItem(c, w[..k], h - 1);
      var n: nat :| InPow(c.e, c.item, w[k..], n) && (c.op == Plus ==> n > 0);
      assert InPow(c.e, c.item, w, n + 1);
    } else {
      assert c.d[i + 1][a] == [Ref(i)];
      StoredItem(c, w, h - 1);
      PowerOne(c.e, c.item, w);
    }
  }

  lemma {:induction false} StoredItem(c: Site, w: Word, h: nat)
    requires c.Ok() && SeqGen(c.d, [Ref(|c.e|)], w, h)
    ensures In(c.e, c.item, w)
    decreases h, Ref(|c.e|), 0, 0
  {
    SeqOne(c.d, Ref(|c.e|), w, h);
    var a :| 0 <= a < |c.d[|c.e|]| && SeqGen(c.d, c.d[|c.e|][a], w, h - 1);
    assert c.d[|c.e|][a] == c.item;
    StoredSeq(c, c.item, w, h - 1);
  }

  lemma AppendBelow(f: Form, s: Sym, n: nat)
    requires RefsBelow(f, n) && SymBelow(s, n)
    ensures RefsBelow(f + [s], n)
  {
  }

  /** Desugaring a postfix changes the language of no rule, however the rules refer to one another. */
  lemma DesugaringPreservesMeaning(g: Rules, ri: nat, ai: nat, n0: nat, op: Op, r: nat, w: Word)
    requires Closed(g) && ri < |g| && ai < |g[ri]| && n0 <= |g[ri][ai]| && r < |g|
    ensures In(Desugared(g, ri, ai, n0, op), [Ref(r)], w) <==> In(Reading(g, ri, ai, n0, op), [Ref(r)], w)
  {
    var pre, item := g[ri][ai][..n0], g[ri][ai][n0..];
    var e, d := Reading(g, ri, ai, n0, op), Desugared(g, ri, ai, n0, op);
    assert RefsBelow(g[ri][ai], |g|);
    assert SymBelow(Post(item, op), |g|);
    AppendBelow(pre, Post(item, op), |g|);
    var c := Site(e, d, ri, ai, pre, item, op);
    assert c.Ok();
    if In(e, [Ref(r)], w) {
      var h: nat :| SeqGen(e, [Ref(r)], w, h);
      ReadSeq(c, [Ref(r)], w, h);
    }
    if In(d, [Ref(r)], w) {
      var h: nat :| SeqGen(d, [Ref(r)], w, h);
      StoredSeq(c, [Ref(r)], w, h);
    }
  }

  /** the synthetic rule and the enclosing alternate after `Apply` */
  lemma DesugaredAlternate(g: Rules, ri: nat, ai: nat, n0: nat, op: Op, w: Word)
    requires ri < |g| && ai < |g[ri]| && n0 <= |g[ri][ai]|
    ensures var d, pre, item := Desugared(g, ri, ai, n0, op), g[ri][ai][..n0], g[ri][ai][n0..];
            && (In(d, [Ref(|g| + 1)], w) <==> PostMeaning(d, item, op, w))
            && (In(d, d[ri][ai], w)
                <==> exists k :: 0 <= k <= |w| && In(d, pre, w[..k]) && PostMeaning(d, item, op, w[k..]))
  {
    var d, pre, item := Desugared(g, ri, ai, n0, op), g[ri][ai][..n0], g[ri][ai][n0..];
    RuleIsPostfix(d, |g|, item, op, w);
    assert d[ri][ai] == pre + [Ref(|g| + 1)];
    if In(d, d[ri][ai], w) {
      var k := InSplit(d, pre, [Ref(|g| + 1)], w);
      RuleIsPostfix(d, |g|, item, op, w[k..]);
    }
    if exists k :: 0 <= k <= |w| && In(d, pre, w[..k]) && PostMeaning(d, item, op, w[k..]) {
      var k :| 0 <= k <= |w| && In(d, pre, w[..k]) && PostMeaning(d, item, op, w[k..]);
      RuleIsPostfix(d, |g|, item, op, w[k..]);
      InJoin(d, pre, [Ref(|g| + 1)], w[..k], w[k..]);
      assert w[..k] + w[k..] == w;
    }
  }
}
