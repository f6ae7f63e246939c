/** The byte-level grammar walker (`gr_state_init`, `gr_accept`, `gr_admissible`, `gr_forced`): a pushdown
    automaton that follows a set of stacks in normal form.

    The methods compute the sets that module Stacks defines, whatever the order in which the alternates and the stacks
    are visited. */
module Walker {
  import opened Language
  import opened Stacks

  // ---------- one byte ----------

  ghost predicate CanMove(g: Rules, k: Stack, b: Byte)
    requires Normal(g, k)
  {
    k != [] && b in AtTop(g, k).bytes
  }

  ghost predicate Sinks(g: Rules, root: nat, k: Stack, b: Byte)
    requires Grammar(g, root) && Normal(g, k)
  {
    CanMove(g, k, b) && Expand(g, root, Advance(k), 0).None?
  }

  ghost predicate NoSink(g: Rules, root: nat, ks: set<Stack>, b: Byte)
    requires Grammar(g, root) && NormalSet(g, ks)
  {
    forall k :: k in ks ==> !Sinks(g, root, k, b)
  }

  ghost function Leaves(g: Rules, root: nat, k: Stack, b: Byte): (ls: set<Stack>)
    requires Grammar(g, root) && Normal(g, k)
    ensures NormalSet(g, ls)
  {
    if CanMove(g, k, b) && Expand(g, root, Advance(k), 0).Some? then
      ExpandNormal(g, root, Advance(k), 0);
      Expand(g, root, Advance(k), 0).value
    else {}
  }

  /** the derivative by b */
  ghost function Derive(g: Rules, root: nat, ks: set<Stack>, b: Byte): (ls: set<Stack>)
    requires Grammar(g, root) && NormalSet(g, ks)
    ensures NormalSet(g, ls)
    ensures forall l :: l in ls <==> exists k :: k in ks && l in Leaves(g, root, k, b)
  {
    set k, l | k in ks && l in Leaves(g, root, k, b) :: l
  }

  ghost predicate Overflows(g: Rules, root: nat, ks: set<Stack>, b: Byte)
    requires Grammar(g, root) && NormalSet(g, ks)
  {
    (exists k :: k in ks && Sinks(g, root, k, b)) || |Derive(g, root, ks, b)| > GR_MAX_STACKS
  }

  /** The derivative denotes the continuations after b. */
  lemma DeriveMeaning(g: Rules, root: nat, ks: set<Stack>, b: Byte, w: Word)
    requires Grammar(g, root) && NormalSet(g, ks) && !Overflows(g, root, ks, b)
    ensures Denotes(g, Derive(g, root, ks, b), w) <==> Denotes(g, ks, [b] + w)
  {
    if Denotes(g, Derive(g, root, ks, b), w) {
      var l :| l in Derive(g, root, ks, b) && ValidStack(g, l) && In(g, Rest(g, l), w);
      var k :| k in ks && l in Leaves(g, root, k, b);
      MoveMeaning(g, root, k, b, w);
      assert In(g, Rest(g, k), [b] + w);
    }
    if Denotes(g, ks, [b] + w) {
      var k :| k in ks && ValidStack(g, k) && In(g, Rest(g, k), [b] + w);
      assert !Sinks(g, root, k, b);
      MoveMeaning(g, root, k, b, w);
      var l :| l in Leaves(g, root, k, b) && ValidStack(g, l) && In(g, Rest(g, l), w);
      assert l in Derive(g, root, ks, b);
    }
  }

  lemma MoveMeaning(g: Rules, root: nat, k: Stack, b: Byte, w: Word)
    requires Grammar(g, root) && Normal(g, k) && !Sinks(g, root, k, b)
    ensures Denotes(g, Leaves(g, root, k, b), w) <==> In(g, Rest(g, k), [b] + w)
  {
    assert ([b] + w)[0] == b && ([b] + w)[1..] == w;
    if k == [] {
      SeqNil(g, [b] + w);
    } else {
      RestAdvance(g, k);
      InCls(g, AtTop(g, k).bytes, Rest(g, Advance(k)), [b] + w);
      if CanMove(g, k, b) { ExpandMeaning(g, root, Advance(k), 0, w); }
    }
  }

  // ---------- the same of single steps ----------

  /** the stack has a terminal on top that admits b */
  ghost predicate Consumes(g: Rules, k: Stack, b: Byte) {
    exists bytes :: Awaits(g, k, Cls(bytes)) && b in bytes
  }

  /** some stack can consume b */
  ghost predicate Admits(g: Rules, ks: set<Stack>, b: Byte) {
    exists k :: k in ks && Consumes(g, k, b)
  }

  /** the stacks that consume b, each past its terminal */
  ghost function Moved(g: Rules, ks: set<Stack>, b: Byte): set<Stack> {
    set k | k in ks && k != [] && Top(k).s < 32767 && Consumes(g, k, b) :: Advance(k)
  }

  lemma MovesIs(g: Rules, k: Stack, b: Byte)
    requires Normal(g, k)
    ensures Consumes(g, k, b) <==> CanMove(g, k, b)
  {
    if CanMove(g, k, b) { assert Awaits(g, k, Cls(AtTop(g, k).bytes)); }
  }

  /** a stack that consumes b, as `Expand` has it and as its paths have it */
  lemma MovedOne(g: Rules, root: nat, ks: set<Stack>, k: Stack, b: Byte)
    requires Grammar(g, root) && NormalSet(g, ks) && k in ks && CanMove(g, k, b)
    ensures ValidStack(g, Advance(k)) && Advance(k) in Moved(g, ks, b)
    ensures Sinks(g, root, k, b) <==> Sticks(g, Advance(k), 0)
    ensures !Sinks(g, root, k, b) ==> forall n :: n in Leaves(g, root, k, b) <==> Unfolds(g, Advance(k), 0, n)
  {
    hide Sticks, Unfolds;
    MovesIs(g, k, b);
    RestAdvance(g, k);
    ExpandIs(g, root, Advance(k), 0);
  }

  lemma MovedFrom(g: Rules, ks: set<Stack>, b: Byte, l: Stack) returns (k: Stack)
    requires NormalSet(g, ks) && l in Moved(g, ks, b)
    ensures k in ks && CanMove(g, k, b) && k != [] && Top(k).s < 32767 && l == Advance(k)
  {
    k :| k in ks && k != [] && Top(k).s < 32767 && Consumes(g, k, b) && l == Advance(k);
    MovesIs(g, k, b);
  }

  lemma SinksIs(g: Rules, root: nat, ks: set<Stack>, b: Byte)
    requires Grammar(g, root) && NormalSet(g, ks)
    ensures (exists k :: k in ks && Sinks(g, root, k, b)) <==> exists l :: l in Moved(g, ks, b) && Sticks(g, l, 0)
  {
    hide Sticks, Expand, Moved, Normal, Grammar;
    if k :| k in ks && Sinks(g, root, k, b) { MovedOne(g, root, ks, k, b); }
    if l :| l in Moved(g, ks, b) && Sticks(g, l, 0) {
      var k := MovedFrom(g, ks, b, l);
      MovedOne(g, root, ks, k, b);
    }
  }

  lemma DeriveIs(g: Rules, root: nat, ks: set<Stack>, b: Byte, n: Stack)
    requires Grammar(g, root) && NormalSet(g, ks) && NoSink(g, root, ks, b)
    ensures n in Derive(g, root, ks, b) <==> Gains(g, Moved(g, ks, b), 0, n)
  {
    hide Unfolds, Sinks, Leaves, Moved, Normal, Grammar;
    if k :| k in ks && n in Leaves(g, root, k, b) {
      LeavesMove(g, root, k, b, n);
      MovedOne(g, root, ks, k, b);
    }
    if l :| l in Moved(g, ks, b) && Unfolds(g, l, 0, n) {
      var k := MovedFrom(g, ks, b, l);
      MovedOne(g, root, ks, k, b);
    }
  }

  lemma LeavesMove(g: Rules, root: nat, k: Stack, b: Byte, n: Stack)
    requires Grammar(g, root) && Normal(g, k) && n in Leaves(g, root, k, b)
    ensures CanMove(g, k, b)
  {
  }

  /** the walker goes off at b exactly when a moved stack meets a bound or they unfold to more than 64 stacks, and
      otherwise the derivative is exactly what they unfold to */
  lemma DeriveBounded(g: Rules, root: nat, ks: set<Stack>, b: Byte)
    requires Grammar(g, root) && NormalSet(g, ks)
    ensures Bounded(g, {}, Moved(g, ks, b), 0) <==> !Overflows(g, root, ks, b)
    ensures !Overflows(g, root, ks, b) ==> Adds(g, {}, Derive(g, root, ks, b), Moved(g, ks, b), 0)
    ensures !Overflows(g, root, ks, b) ==>
            (Derive(g, root, ks, b) == {} <==> forall n :: !Gains(g, Moved(g, ks, b), 0, n))
  {
    hide Sticks, Gains, Sinks, Bounded, Normal, Grammar, Moved, Derive;
    SinksIs(g, root, ks, b);
    var from, d := Moved(g, ks, b), Derive(g, root, ks, b);
    if NoSink(g, root, ks, b) {
      forall n ensures n in d <==> Gains(g, from, 0, n) { DeriveIs(g, root, ks, b, n); }
      BoundedIs(g, {}, from, 0, Some(d));
      assert {} + d == d;
    } else {
      BoundedIs(g, {}, from, 0, None);
    }
  }

  // ---------- the initial set ----------

  /** the normal stacks of the first n alternates of the root rule */
  ghost function Starts(g: Rules, root: nat, n: nat): Option<set<Stack>>
    requires Grammar(g, root) && n <= |g[root]|
  {
    if n == 0 then Some({})
    else
      var before, last := Starts(g, root, n - 1), Expand(g, root, [Frame(root, n - 1, 0)], 0);
      if before.None? || last.None? then None else Some(before.value + last.value)
  }

  lemma {:induction false} StartsMeaning(g: Rules, root: nat, n: nat, w: Word)
    requires Grammar(g, root) && n <= |g[root]| && Starts(g, root, n).Some?
    ensures NormalSet(g, Starts(g, root, n).value)
    ensures Denotes(g, Starts(g, root, n).value, w) <==> exists j :: 0 <= j < n && In(g, g[root][j], w)
  {
    hide In, Rest, Denotes, Expand;
    if n == 0 {
      DenotesNone(g, w);
    } else {
      var k := [Frame(root, n - 1, 0)];
      AltFrame(g, [], k[0]);
      assert [] + k == k;
      var before, last := Starts(g, root, n - 1).value, Expand(g, root, k, 0).value;
      StartsMeaning(g, root, n - 1, w);
      RestPush(g, [], k[0]);
      RestEmpty(g);
      assert g[root][n - 1] + [] == g[root][n - 1];
      ExpandNormal(g, root, k, 0);
      ExpandMeaning(g, root, k, 0, w);
      DenotesUnion(g, before, last, w);
    }
  }

  lemma RestEmpty(g: Rules)
    ensures Rest(g, []) == []
  {
  }

  /** the stacks the walker starts from: one for each alternate of the root rule */
  ghost function Begin(g: Rules, root: nat): set<Stack>
    requires Grammar(g, root)
  {
    set a: nat | a < |g[root]| :: [AltOf(g, root, root, a)]
  }

  lemma {:induction false} StartsIs(g: Rules, root: nat, n: nat)
    requires Grammar(g, root) && n <= |g[root]|
    ensures Starts(g, root, n).None? <==> AltSticks(g, root, [], root, -1, n)
    ensures Starts(g, root, n).Some? ==>
            forall m :: m in Starts(g, root, n).value <==> AltUnfolds(g, root, [], root, -1, n, m)
  {
    hide Sticks, Unfolds, Expand, AltSticks, AltUnfolds, Frames;
    AltsNone(g, root, [], root, -1);
    if n > 0 {
      var f := AltOf(g, root, root, n - 1);
      AltInGrammar(g, root, root, n - 1);
      AltFrame(g, [], f);
      assert [] + [f] == [f];
      StartsIs(g, root, n - 1);
      ExpandIs(g, root, [f], 0);
      AltsStep(g, root, [], root, -1, n);
      StartsStep(g, root, n);
    }
  }

  lemma StartsStep(g: Rules, root: nat, n: nat)
    requires Grammar(g, root) && 0 < n <= |g[root]| && ValidStack(g, [AltOf(g, root, root, n - 1)])
    ensures var before, last := Starts(g, root, n - 1), Expand(g, root, [AltOf(g, root, root, n - 1)], 0);
      Starts(g, root, n) == if before.None? || last.None? then None else Some(before.value + last.value)
  {
    hide Expand;
  }

  /** the walker starts off exactly when an alternate of the root meets a bound or they unfold to more than 64 stacks,
      and otherwise with exactly what they unfold to */
  lemma StartsBounded(g: Rules, root: nat)
    requires Grammar(g, root)
    ensures var e := Starts(g, root, |g[root]|);
      && (Bounded(g, {}, Begin(g, root), 0) <==> !TooMany({}, e))
      && (e.Some? ==> Adds(g, {}, e.value, Begin(g, root), 0))
      && (e == Some({}) <==> e.Some? && forall n :: !Gains(g, Begin(g, root), 0, n))
  {
    hide Sticks, Unfolds, Starts, Bounded;
    var e, from := Starts(g, root, |g[root]|), Begin(g, root);
    StartsIs(g, root, |g[root]|);
    forall a: nat | a < |g[root]|
      ensures [AltOf(g, root, root, a)] in from && [] + [AltOf(g, root, root, a)] == [AltOf(g, root, root, a)] {}
    BoundedIs(g, {}, from, 0, e);
    if e.Some? { assert {} + e.value == e.value; }
  }

  lemma StartsExact(g: Rules, root: nat)
    requires Grammar(g, root) && Starts(g, root, |g[root]|).Some?
    ensures forall w: Word :: Denotes(g, Starts(g, root, |g[root]|).value, w) <==> In(g, [Ref(root)], [] + w)
  {
    forall w: Word ensures Denotes(g, Starts(g, root, |g[root]|).value, w) <==> In(g, [Ref(root)], [] + w) {
      StartsMeaning(g, root, |g[root]|, w);
      InRule(g, root, w);
      assert [] + w == w;
    }
  }

  lemma {:induction false} StartsFail(g: Rules, root: nat, m: nat, n: nat)
    requires Grammar(g, root) && m <= n <= |g[root]| && TooMany({}, Starts(g, root, m))
    ensures TooMany({}, Starts(g, root, n))
  {
    if m < n {
      StartsFail(g, root, m, n - 1);
      var before, all := Starts(g, root, n - 1), Starts(g, root, n);
      if all.Some? {
        assert before.Some? && before.value <= all.value;
        SubsetSize({} + before.value, {} + all.value);
      }
    }
  }

  // ---------- the walker ----------

  ghost function Elems(st: seq<Stack>): set<Stack> {
    set k | k in st
  }

  ghost predicate Distinct(st: seq<Stack>) {
    |Elems(st)| == |st| <= GR_MAX_STACKS
  }

  lemma ElemsAppend(st: seq<Stack>, k: Stack)
    ensures Elems(st + [k]) == Elems(st) + {k}
  {
  }

  lemma Fits(st: seq<Stack>, held: set<Stack>, added: set<Stack>)
    requires Distinct(st) && Elems(st) == held + added
    ensures !TooMany(held, Some(added))
  {
  }

  lemma EmptySet(g: Rules)
    ensures Elems([]) == {} && Distinct([]) && NormalSet(g, {})
  {
  }

  class GrState {
    const g: Rules
    const root: nat
    var st: seq<Stack>
    var alive: bool
    ghost var consumed: Word

    /** pairwise distinct stacks in normal form, at most GR_MAX_STACKS of them */
    ghost predicate Shape()
      reads this
    {
      Grammar(g, root) && NormalSet(g, Elems(st)) && Distinct(st)
    }

    /** a live walker denotes exactly the continuations of what it has consumed */
    ghost predicate Exact()
      reads this
    {
      Shape() && (alive ==>
          st != [] && forall w: Word :: Denotes(g, Elems(st), w) <==> In(g, [Ref(root)], consumed + w))
    }

    constructor Empty(g: Rules, root: nat)
      requires Grammar(g, root)
      ensures this.g == g && this.root == root && st == [] && alive && consumed == [] && Shape()
    {
      this.g, this.root, st, alive, consumed := g, root, [], true, [];
      new;
      assert Elems(st) == {};
    }

    /** gr__set_add */
    method SetAdd(k: Stack) returns (ok: bool)
      requires Shape() && Normal(g, k)
      modifies this`st
      ensures Shape()
      ensures ok <==> !TooMany(Elems(old(st)), Some({k}))
      ensures Elems(st) == if ok then Elems(old(st)) + {k} else Elems(old(st))
    {
      var i := 0;
      while i < |st|
        invariant 0 <= i <= |st| && k !in st[..i]
      {
        if st[i] == k {
          assert Elems(st) + {k} == Elems(st);
          return true;
        }
        i := i + 1;
      }
      if |st| >= GR_MAX_STACKS { return false; }
      ElemsAppend(st, k);
      st := st + [k];
      return true;
    }

    /** gr__normalize: adds the normal stacks of k0 to the set */
    method Normalize(k0: Stack, depth: nat) returns (ok: bool)
      requires Shape() && ValidStack(g, k0) && depth <= GR_MAX_DEPTH
      modifies this`st
      ensures Shape()
      ensures ok <==> !TooMany(Elems(old(st)), Expand(g, root, k0, depth))
      ensures ok ==> Elems(st) == Elems(old(st)) + Expand(g, root, k0, depth).value
      ensures ok <==> Bounded(g, Elems(old(st)), {k0}, depth)
      ensures ok ==> Adds(g, Elems(old(st)), Elems(st), {k0}, depth)
      decreases GR_MAX_DEPTH - depth, 1
    {
      hide NormalSet, Rest, TooMany, Distinct, Bounded, Adds;
      OneBounded(g, root, Elems(st), k0, depth);
      var k := k0;
      while true
        invariant ValidStack(g, k) && st == old(st)
        invariant Expand(g, root, k, depth) == Expand(g, root, k0, depth)
        decreases |k|
      {
        if k == [] { ok := SetAdd(k); return; }
        var t := k[|k| - 1];
        if t.s >= |g[t.r][t.a]| { k := Pop(k); continue; }
        var sy := g[t.r][t.a][t.s];
        if sy.Cls? { ok := SetAdd(k); return; }
        if depth >= GR_MAX_DEPTH { return false; }
        RestAdvance(g, k);
        assert k[|k| - 1 := t.(s := t.s + 1)] == Advance(k);
        ok := NormalizeAlts(k[|k| - 1 := t.(s := t.s + 1)], sy.rule, depth);
        return;
      }
    }

    /** the loop of gr__normalize over the alternates of a referenced rule */
    method NormalizeAlts(k: Stack, r: nat, depth: nat) returns (ok: bool)
      requires Shape() && ValidStack(g, k) && depth < GR_MAX_DEPTH && r < |g|
      modifies this`st
      ensures Shape()
      ensures ok <==> !TooMany(Elems(old(st)), ExpandAlts(g, root, k, r, depth, |g[r]|))
      ensures ok ==> Elems(st) == Elems(old(st)) + ExpandAlts(g, root, k, r, depth, |g[r]|).value
      decreases GR_MAX_DEPTH - depth, 0
    {
      hide Grammar, NormalSet, Rest, Frames, Expand, TooMany, Distinct, Bounded, Adds;
      ghost var held := Elems(st);
      Sizes(g, root);
      assert ExpandAlts(g, root, k, r, depth, 0) == Some({}) && held + {} == held;
      var a := 0;
      while a < |g[r]|
        invariant 0 <= a <= |g[r]| && Shape()
        invariant ExpandAlts(g, root, k, r, depth, a).Some?
        invariant Elems(st) == held + ExpandAlts(g, root, k, r, depth, a).value
      {
        ghost var before := ExpandAlts(g, root, k, r, depth, a).value;
        if |k| >= GR_MAX_DEPTH { NoRoom(g, root, k, r, depth, held); return false; }
        var f := Frame(r, a, 0);
        RestPush(g, k, f);
        ghost var last := Expand(g, root, k + [f], depth + 1);
        TooManyStep(held, before, last);
        var child := Normalize(k + [f], depth + 1);
        if !child {
          assert TooMany(held, ExpandAlts(g, root, k, r, depth, a + 1));
          AltsFail(g, root, k, r, depth, a + 1, |g[r]|, held);
          return false;
        }
        a := a + 1;
      }
      Fits(st, held, ExpandAlts(g, root, k, r, depth, |g[r]|).value);
      return true;
    }

    /** the loop of gr_state_init over the alternates of the root rule */
    method StartAlts() returns (ok: bool)
      requires Shape() && st == []
      modifies this`st
      ensures Shape()
      ensures ok <==> !TooMany({}, Starts(g, root, |g[root]|))
      ensures ok ==> Starts(g, root, |g[root]|) == Some(Elems(st))
    {
      hide Grammar, Normal, Expand, NormalSet, Rest, Frames, TooMany, Distinct, Bounded, Adds;
      EmptySet(g);
      Sizes(g, root);
      var a := 0;
      while a < |g[root]|
        invariant 0 <= a <= |g[root]| && Shape()
        invariant Starts(g, root, a) == Some(Elems(st))
      {
        var k := [Frame(root, a, 0)];
        RestPush(g, [], k[0]);
        assert [] + k == k;
        ghost var was, more := Elems(st), Expand(g, root, k, 0);
        assert Starts(g, root, a + 1) == if more.None? then None else Some(was + more.value);
        TooManyStep({}, was, more);
        assert {} + was == was;
        var fits := Normalize(k, 0);
        if !fits {
          StartsFail(g, root, a + 1, |g[root]|);
          return false;
        }
        a := a + 1;
      }
      assert {} + Elems(st) == Elems(st);
      Fits(st, {}, Elems(st));
      return true;
    }

    /** gr_state_init */
    method Init()
      requires Grammar(g, root)
      modifies this
      ensures consumed == [] && Exact()
      ensures alive <==> !TooMany({}, Starts(g, root, |g[root]|)) && Starts(g, root, |g[root]|) != Some({})
      ensures alive ==> Some(Elems(st)) == Starts(g, root, |g[root]|)
      ensures alive <==> Bounded(g, {}, Begin(g, root), 0) && exists n :: Gains(g, Begin(g, root), 0, n)
      ensures alive ==> Adds(g, {}, Elems(st), Begin(g, root), 0)
    {
      hide Grammar, Starts, NormalSet, In, Denotes, TooMany, Distinct, Bounded, Adds, Gains, Begin;
      StartsBounded(g, root);
      st, alive, consumed := [], true, [];
      EmptySet(g);
      var ok := StartAlts();
      if !ok { alive := false; return; }
      if |st| == 0 { alive := false; } else { assert st[0] in Elems(st); }
      StartsExact(g, root);
    }

    /** the loop of gr_accept over the stacks that admit b */
    method AdvanceAll(out: GrState, b: Byte) returns (ok: bool)
      requires Shape() && out != this && out.g == g && out.root == root && out.Shape() && out.st == []
      modifies out`st
      ensures out.Shape()
      ensures ok <==> !Overflows(g, root, Elems(st), b)
      ensures ok ==> Elems(out.st) == Derive(g, root, Elems(st), b)
    {
      hide Bounded, Adds, Grammar, NormalSet, Normal, ValidStack, Expand, TooMany, Distinct;
      hide Derive, Overflows, NoSink, Leaves, Sinks;
      ghost var ks := Elems(st);
      EmptySet(g);
      DeriveEmpty(g, root, b);
      var i := 0;
      while i < |st|
        invariant 0 <= i <= |st| && out.Shape()
        invariant NormalSet(g, Elems(st[..i])) && Elems(out.st) == Derive(g, root, Elems(st[..i]), b)
        invariant NoSink(g, root, Elems(st[..i]), b)
      {
        var k := st[i];
        TakeOne(g, st, i);
        DeriveOne(g, root, Elems(st[..i]), k, b);
        i := i + 1;
        if k == [] { continue; }
        NormalTop(g, root, k);
        var t := k[|k| - 1];
        var sy := g[t.r][t.a][t.s];
        if b !in sy.bytes { continue; }
        assert k[|k| - 1 := t.(s := t.s + 1)] == Advance(k);
        ok := out.Normalize(k[|k| - 1 := t.(s := t.s + 1)], 0);
        if !ok {
          OverflowEarly(g, root, ks, Elems(st[..i - 1]), k, b);
          return;
        }
      }
      assert st[..i] == st;
      NoOverflow(g, root, out.st, ks, b);
      return true;
    }

    /** gr_accept: 1 the byte is consumed, 0 it is not admitted and nothing changes, -1 the walker is off */
    method Accept(b: Byte) returns (r: int)
      requires Exact()
      modifies this
      ensures Exact()
      ensures r == if !old(alive) || Overflows(g, root, Elems(old(st)), b) then -1
                   else if Derive(g, root, Elems(old(st)), b) == {} then 0 else 1
      ensures alive == (r != -1)
      ensures r == 1 ==> Elems(st) == Derive(g, root, Elems(old(st)), b) && consumed == old(consumed) + [b]
      ensures r != 1 ==> st == old(st) && consumed == old(consumed)
      ensures r == 0 ==> forall w: Word :: !In(g, [Ref(root)], consumed + [b] + w)
      ensures r == -1 <==> !old(alive) || !Bounded(g, {}, Moved(g, Elems(old(st)), b), 0)
      ensures r == 0 ==> forall n :: !Gains(g, Moved(g, Elems(old(st)), b), 0, n)
      ensures r == 1 ==> st != [] && Adds(g, {}, Elems(st), Moved(g, Elems(old(st)), b), 0)
    {
      hide Grammar, NormalSet, In, Distinct, Derive, Overflows, Bounded, Adds, Gains, Moved;
      DeriveBounded(g, root, Elems(st), b);
      if !alive { return -1; }
      var out := new GrState.Empty(g, root);
      var ok := AdvanceAll(out, b);
      if !ok { alive := false; return -1; }
      DeriveExact(g, root, Elems(st), b, consumed);
      if |out.st| == 0 { return 0; }
      assert out.st[0] in Elems(out.st);
      st, consumed := out.st, consumed + [b];
      return 1;
    }

    /** gr_admissible */
    method Admissible() returns (cnt: nat, mask: set<Byte>, canEnd: bool)
      requires Shape()
      ensures mask == Mask(g, Elems(st)) && cnt == |mask| && canEnd == ([] in Elems(st))
      ensures forall b :: b in mask <==> Admits(g, Elems(st), b)
    {
      mask, canEnd := {}, false;
      var i := 0;
      while i < |st|
        invariant 0 <= i <= |st| && mask == Mask(g, Elems(st[..i])) && canEnd == ([] in Elems(st[..i]))
      {
        assert st[i] in Elems(st) && st[..i + 1] == st[..i] + [st[i]];
        ElemsAppend(st[..i], st[i]);
        if st[i] == [] {
          canEnd := true;
          assert Mask(g, Elems(st[..i + 1])) == Mask(g, Elems(st[..i]));
        } else {
          mask := mask + AtTop(g, st[i]).bytes;
          assert mask == Mask(g, Elems(st[..i + 1]));
        }
        i := i + 1;
      }
      assert st[..i] == st;
      cnt := |mask|;
      forall b ensures b in mask <==> Admits(g, Elems(st), b) { MaskIs(g, Elems(st), b); }
    }

    /** gr_forced: the longest run of bytes that leave no choice, at most max of them */
    method Forced(max: nat) returns (out: seq<Byte>)
      requires Exact()
      ensures |out| <= max && (!alive ==> out == [])
      ensures alive ==> AllBeginWith(g, root, consumed, out) && AllForced(g, root, Elems(st), out)
      ensures alive ==> Run(g, root, Elems(st), out).Some?
      ensures alive && |out| < max ==> forall b :: !OneWay(g, Run(g, root, Elems(st), out).value, b)
    {
      hide Grammar, NormalSet, In, Denotes, Distinct, Derive, Overflows, Mask;
      hide ForcedByte, AllBeginWith, AllForced, OneWay, Run;
      hide Admits, Bounded, Adds, Gains, Moved;
      out := [];
      if !alive || |st| == 0 { return; }
      var cp := new GrState.Empty(g, root);
      cp.st, cp.consumed := st, consumed;
      ghost var ks := Elems(st);
      ForcedNothing(g, root, ks, consumed);
      while |out| < max
        invariant |out| <= max && cp.g == g && cp.root == root && fresh(cp) && cp.alive && cp.Exact()
        invariant cp.consumed == consumed + out && Run(g, root, ks, out) == Some(Elems(cp.st))
        invariant AllBeginWith(g, root, consumed, out) && AllForced(g, root, ks, out)
        decreases max - |out|
      {
        ghost var now := Elems(cp.st);
        var cnt, m, end := cp.Admissible();
        if cnt != 1 || end { NotForced(g, root, now); break; }
        var b := FirstBit(m);
        if b >= 256 { break; }
        var r := cp.Accept(b);
        if r != 1 { NotForcedHere(g, root, now, b); break; }
        ForcedMore(g, root, ks, consumed, out, now, b);
        out := out + [b];
      }
    }
  }

  /** the scan of gr_forced for the set bit of the mask */
  method FirstBit(m: set<Byte>) returns (b: int)
    requires |m| == 1
    ensures 0 <= b < 256 && m == {b}
  {
    b := 0;
    while b < 256 && b !in m
      invariant 0 <= b <= 256 && forall c: Byte :: c < b ==> c !in m
    {
      b := b + 1;
    }
    var c :| c in m;
    OnlyElement(m, c);
  }

  // ---------- facts about the sets used by the methods ----------

  lemma NoRoom(g: Rules, root: nat, k: Stack, r: nat, depth: nat, held: set<Stack>)
    requires Grammar(g, root) && ValidStack(g, k) && depth < GR_MAX_DEPTH
    requires r < |g| && |g[r]| > 0 && |k| >= GR_MAX_DEPTH
    ensures TooMany(held, ExpandAlts(g, root, k, r, depth, |g[r]|))
  {
  }

  /** more alternates never turn an overflow into a success */
  lemma {:induction false} AltsFail(g: Rules, root: nat, k: Stack, r: nat, depth: nat, m: nat, n: nat, held: set<Stack>)
    requires Grammar(g, root) && ValidStack(g, k) && depth < GR_MAX_DEPTH && r < |g| && m <= n <= |g[r]|
    requires TooMany(held, ExpandAlts(g, root, k, r, depth, m))
    ensures TooMany(held, ExpandAlts(g, root, k, r, depth, n))
    decreases n
  {
    if m < n {
      AltsFail(g, root, k, r, depth, m, n - 1, held);
      var before, all := ExpandAlts(g, root, k, r, depth, n - 1), ExpandAlts(g, root, k, r, depth, n);
      if all.Some? {
        assert before.Some? && before.value <= all.value;
        SubsetSize(held + before.value, held + all.value);
      }
    }
  }

  lemma NormalTop(g: Rules, root: nat, k: Stack)
    requires Grammar(g, root) && Normal(g, k) && k != []
    ensures InGrammar(g, Top(k)) && Top(k).s < |g[Top(k).r][Top(k).a]| <= 32767 && AtTop(g, k).Cls?
    ensures ValidStack(g, Advance(k))
  {
    RestAdvance(g, k);
  }

  lemma TakeOne(g: Rules, st: seq<Stack>, i: nat)
    requires i < |st| && NormalSet(g, Elems(st))
    ensures Normal(g, st[i]) && NormalSet(g, Elems(st[..i])) && NormalSet(g, Elems(st[..i + 1]))
    ensures Elems(st[..i + 1]) == Elems(st[..i]) + {st[i]} <= Elems(st)
  {
    assert st[..i + 1] == st[..i] + [st[i]];
    ElemsAppend(st[..i], st[i]);
  }

  lemma DeriveEmpty(g: Rules, root: nat, b: Byte)
    requires Grammar(g, root)
    ensures NormalSet(g, {}) && Derive(g, root, {}, b) == {} && NoSink(g, root, {}, b)
  {
  }

  /** what one more stack adds to the derivative */
  lemma DeriveOne(g: Rules, root: nat, ks: set<Stack>, k: Stack, b: Byte)
    requires Grammar(g, root) && NormalSet(g, ks) && Normal(g, k) && NormalSet(g, ks + {k})
    ensures !CanMove(g, k, b) ==> Derive(g, root, ks + {k}, b) == Derive(g, root, ks, b)
    ensures CanMove(g, k, b) && Expand(g, root, Advance(k), 0).Some? ==>
              Derive(g, root, ks + {k}, b) == Derive(g, root, ks, b) + Expand(g, root, Advance(k), 0).value
    ensures NoSink(g, root, ks, b) && (CanMove(g, k, b) ==> Expand(g, root, Advance(k), 0).Some?)
            ==> NoSink(g, root, ks + {k}, b)
  {
  }

  lemma OverflowEarly(g: Rules, root: nat, ks: set<Stack>, part: set<Stack>, k: Stack, b: Byte)
    requires Grammar(g, root) && NormalSet(g, ks) && NormalSet(g, part) && Normal(g, k) && part + {k} <= ks
    requires CanMove(g, k, b) && TooMany(Derive(g, root, part, b), Expand(g, root, Advance(k), 0))
    ensures Overflows(g, root, ks, b)
  {
    if !Sinks(g, root, k, b) {
      DeriveOne(g, root, part, k, b);
      SubsetSize(Derive(g, root, part + {k}, b), Derive(g, root, ks, b));
    }
  }

  lemma NoOverflow(g: Rules, root: nat, st: seq<Stack>, ks: set<Stack>, b: Byte)
    requires Grammar(g, root) && NormalSet(g, ks) && NoSink(g, root, ks, b)
    requires Distinct(st) && Elems(st) == Derive(g, root, ks, b)
    ensures !Overflows(g, root, ks, b)
  {
  }

  lemma DeriveExact(g: Rules, root: nat, ks: set<Stack>, b: Byte, consumed: Word)
    requires Grammar(g, root) && NormalSet(g, ks) && !Overflows(g, root, ks, b)
    requires forall w: Word :: Denotes(g, ks, w) <==> In(g, [Ref(root)], consumed + w)
    ensures forall w: Word :: Denotes(g, Derive(g, root, ks, b), w) <==> In(g, [Ref(root)], consumed + [b] + w)
    ensures Derive(g, root, ks, b) == {} ==> forall w: Word :: !In(g, [Ref(root)], consumed + [b] + w)
  {
    forall w: Word ensures Denotes(g, Derive(g, root, ks, b), w) <==> In(g, [Ref(root)], consumed + [b] + w) {
      DeriveMeaning(g, root, ks, b, w);
      assert consumed + [b] + w == consumed + ([b] + w);
    }
  }

  lemma OnlyElement(m: set<Byte>, b: Byte)
    requires |m| == 1 && b in m
    ensures m == {b}
  {
    assert |m - {b}| == 0;
  }

  // ---------- forced bytes ----------

  ghost function Mask(g: Rules, ks: set<Stack>): set<Byte>
    requires NormalSet(g, ks)
  {
    set k, b | k in ks && k != [] && b in AtTop(g, k).bytes :: b
  }

  /** the mask has the bytes that some stack has a terminal for */
  lemma MaskIs(g: Rules, ks: set<Stack>, b: Byte)
    requires NormalSet(g, ks)
    ensures b in Mask(g, ks) <==> Admits(g, ks, b)
  {
    forall k | k in ks ensures Consumes(g, k, b) <==> k != [] && b in AtTop(g, k).bytes { MovesIs(g, k, b); }
  }

  /** b is the one legal byte, the parse may not end before it, and the walker survives it */
  ghost predicate ForcedByte(g: Rules, root: nat, ks: set<Stack>, b: Byte)
    requires Grammar(g, root) && NormalSet(g, ks)
  {
    Mask(g, ks) == {b} && [] !in ks && !Overflows(g, root, ks, b) && Derive(g, root, ks, b) != {}
  }

  /** of all bytes exactly b can be consumed, the parse may not end here, and b leads on within the bounds */
  ghost predicate OneWay(g: Rules, ks: set<Stack>, b: Byte) {
    && (forall c :: Admits(g, ks, c) <==> c == b) && [] !in ks
    && Bounded(g, {}, Moved(g, ks, b), 0) && exists n :: Gains(g, Moved(g, ks, b), 0, n)
  }

  lemma ForcedByteIs(g: Rules, root: nat, ks: set<Stack>, b: Byte)
    requires Grammar(g, root) && NormalSet(g, ks)
    ensures ForcedByte(g, root, ks, b) <==> OneWay(g, ks, b)
  {
    hide Admits, Moved, Gains, Bounded, Mask, Overflows, Derive;
    DeriveBounded(g, root, ks, b);
    forall c ensures c in Mask(g, ks) <==> Admits(g, ks, c) { MaskIs(g, ks, c); }
    if forall c :: Admits(g, ks, c) <==> c == b { assert Mask(g, ks) == {b}; }
  }

  /** the stacks after the bytes of u, or None once the walker goes off or refuses one */
  ghost function Run(g: Rules, root: nat, ks: set<Stack>, u: Word): (r: Option<set<Stack>>)
    requires Grammar(g, root) && NormalSet(g, ks)
    ensures r.Some? ==> NormalSet(g, r.value)
  {
    if u == [] then Some(ks)
    else
      var before := Run(g, root, ks, u[..|u| - 1]);
      var b := u[|u| - 1];
      if before.None? || Overflows(g, root, before.value, b) || Derive(g, root, before.value, b) == {} then None
      else Some(Derive(g, root, before.value, b))
  }

  lemma RunSnoc(g: Rules, root: nat, ks: set<Stack>, u: Word, b: Byte)
    requires Grammar(g, root) && NormalSet(g, ks) && Run(g, root, ks, u).Some?
    requires !Overflows(g, root, Run(g, root, ks, u).value, b) && Derive(g, root, Run(g, root, ks, u).value, b) != {}
    ensures Run(g, root, ks, u + [b]) == Some(Derive(g, root, Run(g, root, ks, u).value, b))
  {
    assert (u + [b])[..|u|] == u;
  }

  /** every word of L(root) that extends what was consumed goes on with u */
  ghost predicate AllBeginWith(g: Rules, root: nat, consumed: Word, u: Word) {
    forall w: Word :: In(g, [Ref(root)], consumed + w) ==> u <= w
  }

  /** each byte of u was forced where it stands */
  ghost predicate AllForced(g: Rules, root: nat, ks: set<Stack>, u: Word)
    requires Grammar(g, root) && NormalSet(g, ks)
  {
    u != [] ==>
      var before := Run(g, root, ks, u[..|u| - 1]);
      before.Some? && ForcedByte(g, root, before.value, u[|u| - 1]) && AllForced(g, root, ks, u[..|u| - 1])
  }

  lemma ForcedNothing(g: Rules, root: nat, ks: set<Stack>, consumed: Word)
    requires Grammar(g, root) && NormalSet(g, ks)
    ensures Run(g, root, ks, []) == Some(ks) && AllBeginWith(g, root, consumed, []) && AllForced(g, root, ks, [])
    ensures consumed + [] == consumed
  {
  }

  lemma ForcedMore(g: Rules, root: nat, ks: set<Stack>, consumed: Word, u: Word, now: set<Stack>, b: Byte)
    requires Grammar(g, root) && NormalSet(g, ks) && Run(g, root, ks, u) == Some(now)
    requires AllBeginWith(g, root, consumed, u) && AllForced(g, root, ks, u)
    requires forall w: Word :: Denotes(g, now, w) <==> In(g, [Ref(root)], consumed + u + w)
    requires Mask(g, now) == {b} && [] !in now && !Overflows(g, root, now, b) && Derive(g, root, now, b) != {}
    ensures AllBeginWith(g, root, consumed, u + [b]) && AllForced(g, root, ks, u + [b])
    ensures Run(g, root, ks, u + [b]) == Some(Derive(g, root, now, b)) && consumed + (u + [b]) == consumed + u + [b]
  {
    hide Grammar, NormalSet, Overflows, Derive, Denotes, In, Mask, AllBeginWith, Run;
    RunSnoc(g, root, ks, u, b);
    assert (u + [b])[..|u|] == u;
    assert consumed + (u + [b]) == consumed + u + [b];
    BeginMore(g, root, consumed, u, now, b);
  }

  lemma BeginMore(g: Rules, root: nat, consumed: Word, u: Word, now: set<Stack>, b: Byte)
    requires Grammar(g, root) && NormalSet(g, now) && AllBeginWith(g, root, consumed, u)
    requires forall w: Word :: Denotes(g, now, w) <==> In(g, [Ref(root)], consumed + u + w)
    requires Mask(g, now) == {b} && [] !in now
    ensures AllBeginWith(g, root, consumed, u + [b])
  {
    hide Grammar, NormalSet, Denotes, In, Mask;
    forall w: Word | In(g, [Ref(root)], consumed + w) ensures u + [b] <= w {
      assert u <= w && consumed + w == consumed + u + w[|u|..];
      NextByte(g, root, now, w[|u|..]);
      assert w[|u|..][0] == b;
    }
  }

  lemma NotForcedHere(g: Rules, root: nat, ks: set<Stack>, b: Byte)
    requires Grammar(g, root) && NormalSet(g, ks) && Mask(g, ks) == {b}
    requires Overflows(g, root, ks, b) || Derive(g, root, ks, b) == {}
    ensures forall c :: !OneWay(g, ks, c)
  {
    hide OneWay, Overflows, Derive;
    forall c ensures !OneWay(g, ks, c) {
      ForcedByteIs(g, root, ks, c);
      assert ForcedByte(g, root, ks, c) ==> c in {b};
    }
  }

  lemma NotForced(g: Rules, root: nat, ks: set<Stack>)
    requires Grammar(g, root) && NormalSet(g, ks) && (|Mask(g, ks)| != 1 || [] in ks)
    ensures forall b :: !OneWay(g, ks, b)
  {
    hide OneWay, Overflows, Derive;
    forall b ensures !OneWay(g, ks, b) { ForcedByteIs(g, root, ks, b); }
  }

  /** a word of the state's language begins with an admissible byte, or the parse may end */
  lemma NextByte(g: Rules, root: nat, ks: set<Stack>, w: Word)
    requires Grammar(g, root) && NormalSet(g, ks) && Denotes(g, ks, w) && [] !in ks
    ensures w != [] && w[0] in Mask(g, ks)
  {
    var k :| k in ks && ValidStack(g, k) && In(g, Rest(g, k), w);
    RestAdvance(g, k);
    InCls(g, AtTop(g, k).bytes, Rest(g, Advance(k)), w);
  }

  // ---------- whole runs ----------

  /** After any run of admitted bytes u the stacks denote exactly the continuations of u in L(root). */
  lemma {:induction false} RunExact(g: Rules, root: nat, ks: set<Stack>, u: Word, w: Word)
    requires Grammar(g, root) && NormalSet(g, ks) && Starts(g, root, |g[root]|) == Some(ks)
    requires Run(g, root, ks, u).Some?
    ensures Denotes(g, Run(g, root, ks, u).value, w) <==> In(g, [Ref(root)], u + w)
    decreases |u|
  {
    hide Grammar, Denotes, NormalSet, Starts, In, Overflows, Derive;
    if u == [] {
      StartsExact(g, root);
    } else {
      var v, b := u[..|u| - 1], u[|u| - 1];
      RunExact(g, root, ks, v, [b] + w);
      DeriveMeaning(g, root, Run(g, root, ks, v).value, b, w);
      assert v + ([b] + w) == u + w;
    }
  }

  /** some word matches the symbol */
  ghost predicate Generates(g: Rules, s: Sym) {
    exists w: Word :: In(g, [s], w)
  }

  ghost predicate AllGenerate(g: Rules, f: Form) {
    forall s :: s in f ==> Generates(g, s)
  }

  /** a form generates something exactly when each of its symbols does */
  lemma {:induction false} FormGenerates(g: Rules, f: Form)
    ensures AllGenerate(g, f) <==> exists w: Word :: In(g, f, w)
  {
    if f == [] {
      SeqNil(g, []);
    } else {
      FormGenerates(g, f[1..]);
      assert [f[0]] + f[1..] == f;
      assert AllGenerate(g, f) <==> Generates(g, f[0]) && AllGenerate(g, f[1..]);
      if AllGenerate(g, f) {
        var u: Word :| In(g, [f[0]], u);
        var v: Word :| In(g, f[1..], v);
        InJoin(g, [f[0]], f[1..], u, v);
      }
      if w: Word :| In(g, f, w) {
        var i := InSplit(g, [f[0]], f[1..], w);
      }
    }
  }

  /** which symbols generate: a set with a byte in it, a rule one of whose alternates is made of symbols that do */
  lemma GeneratesSym(g: Rules, s: Sym, n: nat)
    requires Stored(s, n) && n <= |g|
    ensures Generates(g, s) <==>
            if s.Cls? then s.bytes != {} else exists a :: 0 <= a < |g[s.rule]| && AllGenerate(g, g[s.rule][a])
  {
    hide AllGenerate;
    match s
    case Cls(c) =>
      assert [s] + [] == [s];
      forall w: Word ensures In(g, [s], w) <==> |w| > 0 && w[0] in c && In(g, [], w[1..]) { InCls(g, c, [], w); }
      if b :| b in c {
        SeqNil(g, []);
        assert [b][1..] == [] && In(g, [s], [b]);
      }
    case Ref(r) =>
      forall w: Word ensures In(g, [s], w) <==> exists a :: 0 <= a < |g[r]| && In(g, g[r][a], w) { InRule(g, r, w); }
      if w: Word :| In(g, [s], w) {
        var a :| 0 <= a < |g[r]| && In(g, g[r][a], w);
        FormGenerates(g, g[r][a]);
      }
      if a :| 0 <= a < |g[r]| && AllGenerate(g, g[r][a]) {
        FormGenerates(g, g[r][a]);
        var w: Word :| In(g, g[r][a], w);
        assert In(g, [s], w);
      }
  }

  /** what is left to match once the terminal on top of k is consumed */
  ghost function After(g: Rules, root: nat, k: Stack): (f: Form)
    requires Grammar(g, root) && Normal(g, k) && k != []
    ensures Frames(g, Advance(k)) && f == Rest(g, Advance(k)) && Rest(g, k) == [AtTop(g, k)] + f
  {
    RestAdvance(g, k);
    Rest(g, Advance(k))
  }

  /** k moves on b and can still be completed */
  ghost predicate Completes(g: Rules, root: nat, k: Stack, b: Byte)
    requires Grammar(g, root) && Normal(g, k)
  {
    CanMove(g, k, b) && AllGenerate(g, After(g, root, k))
  }

  /** k moves on b only to where a symbol that generates nothing is still to be matched */
  ghost predicate Hopeless(g: Rules, root: nat, k: Stack, b: Byte)
    requires Grammar(g, root) && Normal(g, k)
  {
    CanMove(g, k, b) ==> exists s :: s in After(g, root, k) && !Generates(g, s)
  }

  /** one stack has a word that begins with b exactly when it moves on b and can still be completed */
  lemma CompletesIff(g: Rules, root: nat, k: Stack, b: Byte)
    requires Grammar(g, root) && Normal(g, k)
    ensures Completes(g, root, k, b) <==> exists w: Word :: In(g, Rest(g, k), [b] + w)
    ensures Completes(g, root, k, b) <==> !Hopeless(g, root, k, b)
  {
    hide Generates, Grammar;
    if k == [] {
      forall w: Word ensures !In(g, Rest(g, k), [b] + w) { SeqNil(g, [b] + w); }
    } else {
      var f := After(g, root, k);
      FormGenerates(g, f);
      forall w: Word ensures In(g, Rest(g, k), [b] + w) <==> CanMove(g, k, b) && In(g, f, w) {
        InCls(g, AtTop(g, k).bytes, f, [b] + w);
        assert ([b] + w)[0] == b && ([b] + w)[1..] == w;
      }
    }
  }

  /** A word continues with b if and only if some stack moves on b and every symbol left on it generates something. */
  lemma ContinuesIff(g: Rules, root: nat, ks: set<Stack>, b: Byte)
    requires Grammar(g, root) && NormalSet(g, ks)
    ensures (exists w: Word :: Denotes(g, ks, [b] + w)) <==> exists k :: k in ks && Completes(g, root, k, b)
  {
    hide Completes, Grammar, Rest, In;
    if w: Word :| Denotes(g, ks, [b] + w) {
      var k :| k in ks && ValidStack(g, k) && In(g, Rest(g, k), [b] + w);
      CompletesIff(g, root, k, b);
    }
    if k :| k in ks && Completes(g, root, k, b) {
      CompletesIff(g, root, k, b);
      var w: Word :| In(g, Rest(g, k), [b] + w);
      assert Denotes(g, ks, [b] + w);
    }
  }

  /** gr_accept takes b after the run u, and no word goes on with it */
  ghost predicate FollowedInVain(g: Rules, root: nat, ks: set<Stack>, u: Word, b: Byte)
    requires Grammar(g, root) && NormalSet(g, ks) && Run(g, root, ks, u).Some?
  {
    var now := Run(g, root, ks, u).value;
    !Overflows(g, root, now, b) && Derive(g, root, now, b) != {} && forall w: Word :: !In(g, [Ref(root)], u + ([b] + w))
  }

  /** After any run, a byte is followed in vain if and only if it is accepted and every stack that moves on it still
      has a symbol to match that generates nothing. */
  lemma FollowedInVainIff(g: Rules, root: nat, ks: set<Stack>, u: Word, b: Byte)
    requires Grammar(g, root) && NormalSet(g, ks) && Starts(g, root, |g[root]|) == Some(ks) && Run(g, root, ks, u).Some?
    ensures var now := Run(g, root, ks, u).value;
      FollowedInVain(g, root, ks, u, b) <==>
      !Overflows(g, root, now, b) && Derive(g, root, now, b) != {} && forall k :: k in now ==> Hopeless(g, root, k, b)
  {
    hide Starts, Run, Derive, Overflows, Grammar, Denotes, Completes, Hopeless, In;
    var now := Run(g, root, ks, u).value;
    forall w: Word ensures Denotes(g, now, [b] + w) <==> In(g, [Ref(root)], u + ([b] + w)) {
      RunExact(g, root, ks, u, [b] + w);
    }
    ContinuesIff(g, root, now, b);
    forall k | k in now ensures Completes(g, root, k, b) <==> !Hopeless(g, root, k, b) { CompletesIff(g, root, k, b); }
  }

  /** every rule and every terminal set generates something */
  ghost predicate Productive(g: Rules) {
    && (forall r :: 0 <= r < |g| ==> Generates(g, Ref(r)))
    && (forall r, a, s :: 0 <= r < |g| && 0 <= a < |g[r]| && 0 <= s < |g[r][a]| ==> g[r][a][s] != Cls({}))
  }

  lemma {:induction false} RestProductive(g: Rules, root: nat, k: Stack)
    requires Grammar(g, root) && Productive(g) && Frames(g, k)
    ensures AllGenerate(g, Rest(g, k))
    decreases |k|
  {
    if k != [] {
      RestProductive(g, root, Pop(k));
      var f := g[Top(k).r][Top(k).a];
      forall s | s in f ensures Generates(g, s) {
        var i :| 0 <= i < |f| && f[i] == s;
        GeneratesSym(g, s, |g|);
      }
    }
  }

  /** Without useless symbols, the answer 0 means exactly that no continuation exists. */
  lemma RefusedIffNoContinuation(g: Rules, root: nat, ks: set<Stack>, b: Byte)
    requires Grammar(g, root) && Productive(g) && NormalSet(g, ks) && !Overflows(g, root, ks, b)
    ensures Derive(g, root, ks, b) != {} <==> exists w: Word :: Denotes(g, ks, [b] + w)
  {
    hide Overflows, Productive, Derive;
    if Derive(g, root, ks, b) == {} {
      forall w: Word ensures !Denotes(g, ks, [b] + w) { DeriveMeaning(g, root, ks, b, w); }
    } else {
      var l :| l in Derive(g, root, ks, b);
      var k :| k in ks && l in Leaves(g, root, k, b);
      RestProductive(g, root, Advance(k));
      assert After(g, root, k) == Rest(g, Advance(k));
      ContinuesIff(g, root, ks, b);
      assert Completes(g, root, k, b);
    }
  }

  const USELESS: Rules := [[[Cls({97}), Ref(1)]], [[Cls({98}), Ref(1)]]]

  lemma UselessStart()
    ensures Grammar(USELESS, 0) && Normal(USELESS, [Frame(0, 0, 0)])
    ensures Starts(USELESS, 0, 1) == Some({[Frame(0, 0, 0)]})
  {
    var k := [Frame(0, 0, 0)];
    assert AtTop(USELESS, k) == Cls({97}) && Pop(k) == [] && Frames(USELESS, k);
    assert Expand(USELESS, 0, k, 0) == Some({k});
    assert {} + {k} == {k} && Starts(USELESS, 0, 0) == Some({});
  }

  lemma UselessStep()
    requires Grammar(USELESS, 0)
    ensures var k, l := [Frame(0, 0, 1)], [Frame(0, 0, 2), Frame(1, 0, 0)];
            ValidStack(USELESS, k) && Expand(USELESS, 0, k, 0) == Some({l})
  {
    var k, k', l := [Frame(0, 0, 1)], [Frame(0, 0, 2)], [Frame(0, 0, 2)] + [Frame(1, 0, 0)];
    assert Pop(k) == [] && Pop(k') == [] && Pop(l) == k' && Frames(USELESS, k');
    assert AtTop(USELESS, k) == Ref(1) && AtTop(USELESS, l) == Cls({98}) && Advance(k) == k';
    assert Expand(USELESS, 0, l, 1) == Some({l});
    assert {} + {l} == {l} && ExpandAlts(USELESS, 0, k', 1, 0, 0) == Some({});
    assert ExpandAlts(USELESS, 0, k', 1, 0, 1) == Some({l});
    assert l == [Frame(0, 0, 2), Frame(1, 0, 0)];
  }

  /** With a useless rule the walker may admit a byte no word continues:  root ::= "a" x   x ::= "b" x */
  lemma UselessRuleIsFollowed()
    ensures Grammar(USELESS, 0) && NormalSet(USELESS, {[Frame(0, 0, 0)]})
    ensures Starts(USELESS, 0, 1) == Some({[Frame(0, 0, 0)]})
    ensures !Overflows(USELESS, 0, {[Frame(0, 0, 0)]}, 97) && Derive(USELESS, 0, {[Frame(0, 0, 0)]}, 97) != {}
    ensures forall w: Word :: !In(USELESS, [Ref(0)], w)
  {
    UselessStart();
    UselessStep();
    hide Grammar, Expand, Starts, In, Frames, ValidStack;
    var k := [Frame(0, 0, 0)];
    assert Advance(k) == [Frame(0, 0, 1)];
    assert [Frame(0, 0, 2), Frame(1, 0, 0)] in Derive(USELESS, 0, {k}, 97);
    assert Derive(USELESS, 0, {k}, 97) == {[Frame(0, 0, 2), Frame(1, 0, 0)]};
    forall w: Word ensures !In(USELESS, [Ref(0)], w) {
      InRule(USELESS, 0, w);
      assert USELESS[0][0] == [Cls({97})] + [Ref(1)];
      InCls(USELESS, {97}, [Ref(1)], w);
      if |w| > 0 { NoFiniteWord(USELESS, w[1..]); }
    }
  }

  lemma {:induction false} NoFiniteWord(g: Rules, w: Word)
    requires |g| == 2 && g[1] == [[Cls({98}), Ref(1)]]
    ensures !In(g, [Ref(1)], w)
    decreases |w|
  {
    if In(g, [Ref(1)], w) {
      InRule(g, 1, w);
      assert g[1][0] == [Cls({98})] + [Ref(1)];
      InCls(g, {98}, [Ref(1)], w);
      NoFiniteWord(g, w[1..]);
    }
  }
}
