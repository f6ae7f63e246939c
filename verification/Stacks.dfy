/** The stacks of the grammar walker and their unfolding to normal form (`gr__normalize`).

    `Rest` reads a stack as the form still to be matched, so a set of stacks denotes a language.  `Expand` is the
    set of normal stacks a stack unfolds to, or nothing when a bound is hit.  The last section says the same of single
    steps, one frame popped or pushed at a time. */
module Stacks {
  import opened Language

  const GR_MAX_STACKS := 64
  const GR_MAX_DEPTH := 64

  type Int16 = x: int | -32768 <= x < 32768
  datatype Frame = Frame(r: Int16, a: Int16, s: Int16)
  type Stack = seq<Frame>
  datatype Option<+T> = None | Some(value: T)

  // ---------- grammars the walker runs on ----------

  /** symbols the parser stores */
  ghost predicate Stored(s: Sym, n: nat) {
    match s
    case Cls(_) => true
    case Ref(r) => 0 <= r < n
    case Post(_, _) => false
  }

  /** what gr_parse returns; the limits are those of the int16_t fields of a frame */
  ghost predicate Grammar(g: Rules, root: nat) {
    && root < |g| <= 1024
    && (forall r :: 0 <= r < |g| ==> |g[r]| <= 32768)
    && (forall r, a :: 0 <= r < |g| && 0 <= a < |g[r]| ==> |g[r][a]| <= 32767)
    && (forall r, a, s :: 0 <= r < |g| && 0 <= a < |g[r]| && 0 <= s < |g[r][a]| ==> Stored(g[r][a][s], |g|))
  }

  ghost predicate InGrammar(g: Rules, f: Frame) {
    0 <= f.r < |g| && 0 <= f.a < |g[f.r]| && 0 <= f.s <= |g[f.r][f.a]|
  }

  ghost predicate Frames(g: Rules, k: Stack) {
    k == [] || (InGrammar(g, Top(k)) && Frames(g, Pop(k)))
  }

  ghost predicate ValidStack(g: Rules, k: Stack) {
    |k| <= GR_MAX_DEPTH && Frames(g, k)
  }

  /** top is a terminal, or the parse is complete */
  ghost predicate Normal(g: Rules, k: Stack) {
    ValidStack(g, k) && (k == [] || (Top(k).s < |g[Top(k).r][Top(k).a]| && AtTop(g, k).Cls?))
  }

  ghost predicate NormalSet(g: Rules, ks: set<Stack>) {
    forall k :: k in ks ==> Normal(g, k)
  }

  lemma Sizes(g: Rules, root: nat)
    requires Grammar(g, root)
    ensures root < |g| <= 1024 && forall r :: 0 <= r < |g| ==> |g[r]| <= 32768
  {
  }

  function Top(k: Stack): Frame
    requires k != []
  {
    k[|k| - 1]
  }

  function Pop(k: Stack): Stack
    requires k != []
  {
    k[..|k| - 1]
  }

  function AtTop(g: Rules, k: Stack): Sym
    requires k != [] && 0 <= Top(k).r < |g| && 0 <= Top(k).a < |g[Top(k).r]| && 0 <= Top(k).s < |g[Top(k).r][Top(k).a]|
  {
    g[Top(k).r][Top(k).a][Top(k).s]
  }

  function Advance(k: Stack): Stack
    requires k != [] && Top(k).s < 32767
  {
    k[|k| - 1 := Top(k).(s := Top(k).s + 1)]
  }

  // ---------- what stacks denote ----------

  ghost function Rest(g: Rules, k: Stack): Form
    requires Frames(g, k)
  {
    if k == [] then []
    else g[Top(k).r][Top(k).a][Top(k).s..] + Rest(g, Pop(k))
  }

  ghost predicate Denotes(g: Rules, ks: set<Stack>, w: Word) {
    exists k :: k in ks && ValidStack(g, k) && In(g, Rest(g, k), w)
  }

  lemma RestPop(g: Rules, k: Stack)
    requires ValidStack(g, k) && k != [] && Top(k).s == |g[Top(k).r][Top(k).a]|
    ensures Rest(g, k) == Rest(g, Pop(k))
  {
  }

  lemma RestAdvance(g: Rules, k: Stack)
    requires ValidStack(g, k) && k != [] && Top(k).s < |g[Top(k).r][Top(k).a]| <= 32767
    ensures ValidStack(g, Advance(k)) && Rest(g, k) == [AtTop(g, k)] + Rest(g, Advance(k))
  {
    var k', alt, n := Advance(k), g[Top(k).r][Top(k).a], Top(k).s;
    assert Pop(k') == Pop(k) && Top(k') == Top(k).(s := n + 1);
    var rest := Rest(g, Pop(k));
    assert alt[n..] + rest == [alt[n]] + (alt[n + 1..] + rest);
  }

  lemma RestPush(g: Rules, k: Stack, f: Frame)
    requires ValidStack(g, k) && InGrammar(g, f) && f.s == 0
    ensures Frames(g, k + [f]) && Rest(g, k + [f]) == g[f.r][f.a] + Rest(g, k)
  {
    assert Pop(k + [f]) == k;
  }

  // ---------- unfolding to normal form ----------

  /** the normal stacks k unfolds to, or None when a depth bound is hit on the way */
  ghost function Expand(g: Rules, root: nat, k: Stack, depth: nat): Option<set<Stack>>
    requires Grammar(g, root) && ValidStack(g, k) && depth <= GR_MAX_DEPTH
    decreases GR_MAX_DEPTH - depth, 1, |k|
  {
    if k == [] then Some({k})
    else if Top(k).s >= |g[Top(k).r][Top(k).a]| then Expand(g, root, Pop(k), depth)
    else if AtTop(g, k).Cls? then Some({k})
    else if depth >= GR_MAX_DEPTH then None
    else
      assert ValidStack(g, Advance(k));
      ExpandAlts(g, root, Advance(k), AtTop(g, k).rule, depth, |g[AtTop(g, k).rule]|)
  }

  /** the union over the first n alternates of rule r */
  ghost function ExpandAlts(g: Rules, root: nat, k: Stack, r: nat, depth: nat, n: nat): Option<set<Stack>>
    requires Grammar(g, root) && ValidStack(g, k) && depth < GR_MAX_DEPTH && r < |g| && n <= |g[r]|
    decreases GR_MAX_DEPTH - depth, 0, n
  {
    if n == 0 then Some({})
    else if |k| >= GR_MAX_DEPTH then None
    else
      var before := ExpandAlts(g, root, k, r, depth, n - 1);
      var last := Expand(g, root, k + [Frame(r, n - 1, 0)], depth + 1);
      if before.None? || last.None? then None else Some(before.value + last.value)
  }

  lemma {:induction false} ExpandNormal(g: Rules, root: nat, k: Stack, depth: nat)
    requires Grammar(g, root) && ValidStack(g, k) && depth <= GR_MAX_DEPTH
    ensures Expand(g, root, k, depth).Some? ==> NormalSet(g, Expand(g, root, k, depth).value)
    decreases GR_MAX_DEPTH - depth, 1, |k|
  {
    if k != [] {
      if Top(k).s >= |g[Top(k).r][Top(k).a]| {
        ExpandNormal(g, root, Pop(k), depth);
      } else if AtTop(g, k).Ref? && depth < GR_MAX_DEPTH {
        RestAdvance(g, k);
        ExpandAltsNormal(g, root, Advance(k), AtTop(g, k).rule, depth, |g[AtTop(g, k).rule]|);
      }
    }
  }

  lemma {:induction false} ExpandAltsNormal(g: Rules, root: nat, k: Stack, r: nat, depth: nat, n: nat)
    requires Grammar(g, root) && ValidStack(g, k) && depth < GR_MAX_DEPTH && r < |g| && n <= |g[r]|
    ensures ExpandAlts(g, root, k, r, depth, n).Some? ==> NormalSet(g, ExpandAlts(g, root, k, r, depth, n).value)
    decreases GR_MAX_DEPTH - depth, 0, n
  {
    if n > 0 && |k| < GR_MAX_DEPTH {
      RestPush(g, k, Frame(r, n - 1, 0));
      ExpandAltsNormal(g, root, k, r, depth, n - 1);
      ExpandNormal(g, root, k + [Frame(r, n - 1, 0)], depth + 1);
    }
  }

  /** Unfolding preserves the language. */
  lemma {:induction false} ExpandMeaning(g: Rules, root: nat, k: Stack, depth: nat, w: Word)
    requires Grammar(g, root) && ValidStack(g, k) && depth <= GR_MAX_DEPTH
    requires Expand(g, root, k, depth).Some?
    ensures Denotes(g, Expand(g, root, k, depth).value, w) <==> In(g, Rest(g, k), w)
    decreases GR_MAX_DEPTH - depth, 1, |k|
  {
    if k == [] || (Top(k).s < |g[Top(k).r][Top(k).a]| && AtTop(g, k).Cls?) {
    } else if Top(k).s >= |g[Top(k).r][Top(k).a]| {
      RestPop(g, k);
      ExpandMeaning(g, root, Pop(k), depth, w);
    } else {
      var r := AtTop(g, k).rule;
      RestAdvance(g, k);
      ExpandAltsMeaning(g, root, Advance(k), r, depth, |g[r]|, w);
      InRef(g, r, Rest(g, Advance(k)), w);
    }
  }

  lemma {:induction false} ExpandAltsMeaning(g: Rules, root: nat, k: Stack, r: nat, depth: nat, n: nat, w: Word)
    requires Grammar(g, root) && ValidStack(g, k) && depth < GR_MAX_DEPTH && r < |g| && n <= |g[r]|
    requires ExpandAlts(g, root, k, r, depth, n).Some?
    ensures Denotes(g, ExpandAlts(g, root, k, r, depth, n).value, w)
            <==> exists a :: 0 <= a < n && In(g, g[r][a] + Rest(g, k), w)
    decreases GR_MAX_DEPTH - depth, 0, n
  {
    hide Grammar, In, Rest, Denotes, Expand;
    if n == 0 {
      DenotesNone(g, w);
    } else {
      Sizes(g, root);
      var f := Frame(r, n - 1, 0);
      AltFrame(g, k, f);
      var before := ExpandAlts(g, root, k, r, depth, n - 1).value;
      var last := Expand(g, root, k + [f], depth + 1).value;
      ExpandAltsMeaning(g, root, k, r, depth, n - 1, w);
      ExpandMeaning(g, root, k + [f], depth + 1, w);
      RestPush(g, k, f);
      DenotesUnion(g, before, last, w);
    }
  }

  lemma DenotesNone(g: Rules, w: Word)
    ensures !Denotes(g, {}, w)
  {
  }

  lemma DenotesUnion(g: Rules, a: set<Stack>, b: set<Stack>, w: Word)
    ensures Denotes(g, a + b, w) <==> Denotes(g, a, w) || Denotes(g, b, w)
  {
    hide In, Rest;
  }

  lemma AltFrame(g: Rules, k: Stack, f: Frame)
    requires ValidStack(g, k) && InGrammar(g, f)
    ensures |k| < GR_MAX_DEPTH ==> ValidStack(g, k + [f])
  {
    assert Pop(k + [f]) == k;
  }

  /** the set cannot take the normal stacks of this expansion */
  ghost predicate TooMany(held: set<Stack>, e: Option<set<Stack>>): (r: bool)
    ensures e.None? ==> r
  {
    e.None? || |held + e.value| > GR_MAX_STACKS
  }

  lemma TooManyStep(held: set<Stack>, before: set<Stack>, last: Option<set<Stack>>)
    ensures TooMany(held + before, last) <==> TooMany(held, if last.None? then None else Some(before + last.value))
    ensures last.Some? ==> held + before + last.value == held + (before + last.value)
  {
    if last.Some? { assert held + before + last.value == held + (before + last.value); }
  }

  // ---------- unfolding, step by step ----------

  /** a stack and how deep in references it was reached */
  datatype Conf = Conf(k: Stack, d: nat)

  /** the symbol a stack is about to match */
  ghost predicate Awaits(g: Rules, k: Stack, sy: Sym) {
    k != [] && InGrammar(g, Top(k)) && Top(k).s < |g[Top(k).r][Top(k).a]| && sy == g[Top(k).r][Top(k).a][Top(k).s]
  }

  /** an exhausted frame is popped, or the reference passed and one alternate of its rule pushed, one deeper */
  ghost predicate StepTo(g: Rules, c: Conf, e: Conf) {
    || (c.k != [] && InGrammar(g, Top(c.k)) && Top(c.k).s == |g[Top(c.k).r][Top(c.k).a]| && e == Conf(Pop(c.k), c.d))
    || exists r: nat, a: nat :: Pushes(g, c, e, r, a)
  }

  ghost predicate Pushes(g: Rules, c: Conf, e: Conf, r: nat, a: nat) {
    && Awaits(g, c.k, Ref(r)) && r < |g| && a < |g[r]| && Top(c.k).s < 32767 && r < 32768 && a < 32768
    && e == Conf(Advance(c.k) + [Frame(r, a, 0)], c.d + 1)
  }

  /** a reference met 64 deep, or one whose alternates do not fit on a stack of 64 frames */
  ghost predicate Stuck(g: Rules, c: Conf) {
    exists r: nat :: Awaits(g, c.k, Ref(r)) && (c.d >= 64 || (|c.k| >= 64 && r < |g| && |g[r]| > 0))
  }

  /** a terminal on top, or nothing left */
  ghost predicate Settled(g: Rules, k: Stack) {
    k == [] || exists bytes :: Awaits(g, k, Cls(bytes))
  }

  ghost predicate Path(g: Rules, p: seq<Conf>) {
    p != [] && forall i :: 0 < i < |p| ==> StepTo(g, p[i - 1], p[i])
  }

  /** some path of steps from here meets a bound */
  ghost predicate Sticks(g: Rules, k: Stack, d: nat) {
    exists p: seq<Conf> :: Path(g, p) && p[0] == Conf(k, d) && Stuck(g, p[|p| - 1])
  }

  /** some path of steps from here ends in the normal stack n */
  ghost predicate Unfolds(g: Rules, k: Stack, d: nat, n: Stack) {
    exists p: seq<Conf> :: Path(g, p) && p[0] == Conf(k, d) && p[|p| - 1].k == n && Settled(g, n)
  }

  lemma PathCons(g: Rules, c: Conf, p: seq<Conf>)
    requires Path(g, p) && StepTo(g, c, p[0])
    ensures Path(g, [c] + p) && ([c] + p)[|p|] == p[|p| - 1]
  {
    hide StepTo;
    var q := [c] + p;
    forall i | 0 < i < |q| ensures StepTo(g, q[i - 1], q[i]) {
      if i > 1 { assert q[i - 1] == p[i - 2] && q[i] == p[i - 1]; }
    }
  }

  lemma PathTail(g: Rules, p: seq<Conf>)
    requires Path(g, p) && |p| > 1
    ensures Path(g, p[1..]) && StepTo(g, p[0], p[1]) && p[1..][|p| - 2] == p[|p| - 1]
  {
    hide StepTo;
  }

  lemma StickStep(g: Rules, c: Conf)
    ensures Sticks(g, c.k, c.d) <==> Stuck(g, c) || exists e :: StepTo(g, c, e) && Sticks(g, e.k, e.d)
  {
    hide StepTo, Stuck;
    if Sticks(g, c.k, c.d) {
      var p: seq<Conf> :| Path(g, p) && p[0] == Conf(c.k, c.d) && Stuck(g, p[|p| - 1]);
      if |p| > 1 {
        PathTail(g, p);
        assert Sticks(g, p[1].k, p[1].d) by { assert p[1..][0] == Conf(p[1].k, p[1].d); }
      }
    }
    if Stuck(g, c) { assert Path(g, [c]) && [c][0] == Conf(c.k, c.d); }
    if e :| StepTo(g, c, e) && Sticks(g, e.k, e.d) {
      var p: seq<Conf> :| Path(g, p) && p[0] == Conf(e.k, e.d) && Stuck(g, p[|p| - 1]);
      PathCons(g, c, p);
      assert ([c] + p)[0] == Conf(c.k, c.d);
    }
  }

  lemma UnfoldStep(g: Rules, c: Conf, n: Stack)
    ensures Unfolds(g, c.k, c.d, n)
            <==> (c.k == n && Settled(g, n)) || exists e :: StepTo(g, c, e) && Unfolds(g, e.k, e.d, n)
  {
    hide StepTo, Settled;
    if Unfolds(g, c.k, c.d, n) {
      var p: seq<Conf> :| Path(g, p) && p[0] == Conf(c.k, c.d) && p[|p| - 1].k == n && Settled(g, n);
      if |p| > 1 {
        PathTail(g, p);
        assert Unfolds(g, p[1].k, p[1].d, n) by { assert p[1..][0] == Conf(p[1].k, p[1].d); }
      }
    }
    if c.k == n && Settled(g, n) { assert Path(g, [c]) && [c][0] == Conf(c.k, c.d); }
    if e :| StepTo(g, c, e) && Unfolds(g, e.k, e.d, n) {
      var p: seq<Conf> :| Path(g, p) && p[0] == Conf(e.k, e.d) && p[|p| - 1].k == n && Settled(g, n);
      PathCons(g, c, p);
      assert ([c] + p)[0] == Conf(c.k, c.d);
    }
  }

  /** the steps of an exhausted stack, of a settled one, and of one at a reference */
  lemma StepsPop(g: Rules, k: Stack, d: nat)
    requires ValidStack(g, k) && k != [] && Top(k).s >= |g[Top(k).r][Top(k).a]|
    ensures !Stuck(g, Conf(k, d)) && !Settled(g, k)
    ensures forall e :: StepTo(g, Conf(k, d), e) <==> e == Conf(Pop(k), d)
  {
  }

  lemma StepsNone(g: Rules, k: Stack, d: nat)
    requires ValidStack(g, k) && (k == [] || (Top(k).s < |g[Top(k).r][Top(k).a]| && AtTop(g, k).Cls?))
    ensures !Stuck(g, Conf(k, d)) && Settled(g, k)
    ensures forall e :: !StepTo(g, Conf(k, d), e)
  {
    if k != [] { assert Awaits(g, k, Cls(AtTop(g, k).bytes)); }
  }

  lemma StepsRef(g: Rules, root: nat, k: Stack, d: nat, r: nat)
    requires Grammar(g, root) && ValidStack(g, k) && k != []
    requires Top(k).s < |g[Top(k).r][Top(k).a]| && AtTop(g, k) == Ref(r)
    ensures r < |g| && ValidStack(g, Advance(k)) && |Advance(k)| == |k| && !Settled(g, k)
    ensures Stuck(g, Conf(k, d)) <==> d >= 64 || (|k| >= 64 && |g[r]| > 0)
    ensures forall e :: StepTo(g, Conf(k, d), e) <==> exists a: nat :: a < |g[r]| && e == PushOf(g, root, k, d, r, a)
  {
    RestAdvance(g, k);
    assert Awaits(g, k, Ref(r));
    forall e ensures StepTo(g, Conf(k, d), e) <==> exists a: nat :: a < |g[r]| && e == PushOf(g, root, k, d, r, a) {
      if a: nat :| a < |g[r]| && e == PushOf(g, root, k, d, r, a) { assert Pushes(g, Conf(k, d), e, r, a); }
      if StepTo(g, Conf(k, d), e) {
        var r': nat, a: nat :| Pushes(g, Conf(k, d), e, r', a);
        assert e == PushOf(g, root, k, d, r, a);
      }
    }
  }

  ghost function PushOf(g: Rules, root: nat, k: Stack, d: nat, r: nat, a: nat): Conf
    requires Grammar(g, root) && k != [] && Top(k).s < 32767 && r < |g| && a < |g[r]|
  {
    Conf(Advance(k) + [Frame(r, a, 0)], d + 1)
  }

  /** unfolding fails exactly when some path of steps meets a bound; otherwise it yields exactly what the paths reach */
  lemma {:induction false} ExpandIs(g: Rules, root: nat, k: Stack, d: nat)
    requires Grammar(g, root) && ValidStack(g, k) && d <= GR_MAX_DEPTH
    ensures Expand(g, root, k, d).None? <==> Sticks(g, k, d)
    ensures Expand(g, root, k, d).Some? ==> forall n :: n in Expand(g, root, k, d).value <==> Unfolds(g, k, d, n)
    decreases GR_MAX_DEPTH - d, 1, |k|
  {
    hide Sticks, Unfolds, StepTo, Stuck, Settled, Grammar;
    var c := Conf(k, d);
    StickStep(g, c);
    forall n
      ensures Unfolds(g, k, d, n)
              <==> (k == n && Settled(g, n)) || exists e :: StepTo(g, c, e) && Unfolds(g, e.k, e.d, n)
    {
      UnfoldStep(g, c, n);
    }
    if k == [] || (Top(k).s < |g[Top(k).r][Top(k).a]| && AtTop(g, k).Cls?) {
      StepsNone(g, k, d);
    } else if Top(k).s >= |g[Top(k).r][Top(k).a]| {
      StepsPop(g, k, d);
      assert StepTo(g, c, Conf(Pop(k), d));
      ExpandIs(g, root, Pop(k), d);
    } else {
      AtRef(g, root, k);
      var r := AtTop(g, k).rule;
      StepsRef(g, root, k, d, r);
      if d < GR_MAX_DEPTH {
        ExpandAltsIs(g, root, Advance(k), r, d, |g[r]|);
        AltsAre(g, root, k, d, r);
      }
    }
  }

  lemma AtRef(g: Rules, root: nat, k: Stack)
    requires Grammar(g, root) && ValidStack(g, k) && k != [] && Top(k).s < |g[Top(k).r][Top(k).a]| && !AtTop(g, k).Cls?
    ensures AtTop(g, k).Ref? && 0 <= AtTop(g, k).rule < |g|
  {
  }

  /** what the pushes of one reference reach is what its alternates reach */
  lemma AltsAre(g: Rules, root: nat, k: Stack, d: nat, r: nat)
    requires Grammar(g, root) && ValidStack(g, k) && k != []
    requires Top(k).s < |g[Top(k).r][Top(k).a]| && AtTop(g, k) == Ref(r)
    requires r < |g|
    ensures Top(k).s < 32767
    ensures (exists e :: StepTo(g, Conf(k, d), e) && Sticks(g, e.k, e.d))
            <==> AltSticks(g, root, Advance(k), r, d, |g[r]|)
    ensures forall n :: (exists e :: StepTo(g, Conf(k, d), e) && Unfolds(g, e.k, e.d, n))
                        <==> AltUnfolds(g, root, Advance(k), r, d, |g[r]|, n)
  {
    hide Sticks, Unfolds, StepTo, Stuck, Settled;
    StepsRef(g, root, k, d, r);
    var c, to := Conf(k, d), Advance(k);
    forall a: nat | a < |g[r]| ensures StepTo(g, c, Conf(to + [AltOf(g, root, r, a)], d + 1)) {
      assert PushOf(g, root, k, d, r, a) == Conf(to + [AltOf(g, root, r, a)], d + 1);
    }
    forall e | StepTo(g, c, e) ensures exists a: nat :: a < |g[r]| && e == Conf(to + [AltOf(g, root, r, a)], d + 1) {
      var a: nat :| a < |g[r]| && e == PushOf(g, root, k, d, r, a);
      assert e == Conf(to + [AltOf(g, root, r, a)], d + 1);
    }
    forall n
      ensures (exists e :: StepTo(g, c, e) && Unfolds(g, e.k, e.d, n)) <==> AltUnfolds(g, root, to, r, d, |g[r]|, n)
    {
      if a: nat :| a < |g[r]| && Unfolds(g, to + [AltOf(g, root, r, a)], d + 1, n) {
        assert StepTo(g, c, Conf(to + [AltOf(g, root, r, a)], d + 1));
      }
    }
    if a: nat :| a < |g[r]| && Sticks(g, to + [AltOf(g, root, r, a)], d + 1) {
      assert StepTo(g, c, Conf(to + [AltOf(g, root, r, a)], d + 1));
    }
  }

  ghost function AltOf(g: Rules, root: nat, r: nat, a: nat): Frame
    requires Grammar(g, root) && r < |g| && a < |g[r]|
  {
    Frame(r, a, 0)
  }

  ghost predicate AltSticks(g: Rules, root: nat, k: Stack, r: nat, d: int, n: nat)
    requires d >= -1 && Grammar(g, root) && r < |g| && n <= |g[r]|
  {
    exists a: nat :: a < n && Sticks(g, k + [AltOf(g, root, r, a)], d + 1)
  }

  ghost predicate AltUnfolds(g: Rules, root: nat, k: Stack, r: nat, d: int, n: nat, m: Stack)
    requires d >= -1 && Grammar(g, root) && r < |g| && n <= |g[r]|
  {
    exists a: nat :: a < n && Unfolds(g, k + [AltOf(g, root, r, a)], d + 1, m)
  }

  lemma AltsNone(g: Rules, root: nat, k: Stack, r: nat, d: int)
    requires d >= -1 && Grammar(g, root) && r < |g|
    ensures !AltSticks(g, root, k, r, d, 0) && forall m :: !AltUnfolds(g, root, k, r, d, 0, m)
  {
  }

  lemma AltsStep(g: Rules, root: nat, k: Stack, r: nat, d: int, n: nat)
    requires d >= -1 && Grammar(g, root) && r < |g| && 0 < n <= |g[r]|
    ensures var f := AltOf(g, root, r, n - 1);
      && (AltSticks(g, root, k, r, d, n) <==> AltSticks(g, root, k, r, d, n - 1) || Sticks(g, k + [f], d + 1))
      && forall m :: AltUnfolds(g, root, k, r, d, n, m)
                     <==> AltUnfolds(g, root, k, r, d, n - 1, m) || Unfolds(g, k + [f], d + 1, m)
  {
    hide Sticks, Unfolds, Grammar;
  }

  lemma {:induction false} ExpandAltsIs(g: Rules, root: nat, k: Stack, r: nat, d: nat, n: nat)
    requires Grammar(g, root) && ValidStack(g, k) && d < GR_MAX_DEPTH && r < |g| && n <= |g[r]|
    ensures ExpandAlts(g, root, k, r, d, n).None? <==> n > 0 && (|k| >= 64 || AltSticks(g, root, k, r, d, n))
    ensures ExpandAlts(g, root, k, r, d, n).Some? ==>
            forall m :: m in ExpandAlts(g, root, k, r, d, n).value <==> AltUnfolds(g, root, k, r, d, n, m)
    decreases GR_MAX_DEPTH - d, 0, n
  {
    hide Sticks, Unfolds, Grammar, Expand, AltSticks, AltUnfolds;
    AltsNone(g, root, k, r, d);
    if n > 0 && |k| < GR_MAX_DEPTH {
      AltsStep(g, root, k, r, d, n);
      var f := AltOf(g, root, r, n - 1);
      AltInGrammar(g, root, r, n - 1);
      AltFrame(g, k, f);
      ExpandAltsIs(g, root, k, r, d, n - 1);
      ExpandIs(g, root, k + [f], d + 1);
    }
  }

  lemma AltInGrammar(g: Rules, root: nat, r: nat, a: nat)
    requires Grammar(g, root) && r < |g| && a < |g[r]|
    ensures InGrammar(g, AltOf(g, root, r, a)) && AltOf(g, root, r, a) == Frame(r, a, 0)
  {
  }

  // ---------- unfolding a set of stacks into another ----------

  ghost predicate Gains(g: Rules, from: set<Stack>, d: nat, n: Stack) {
    exists k :: k in from && Unfolds(g, k, d, n)
  }

  /** no path meets a bound, and at most 64 stacks hold the old ones and all that is reached */
  ghost predicate Bounded(g: Rules, held: set<Stack>, from: set<Stack>, d: nat) {
    && (forall k :: k in from ==> !Sticks(g, k, d))
    && exists s: set<Stack> :: |s| <= 64 && held <= s && forall n :: Gains(g, from, d, n) ==> n in s
  }

  /** exactly what is reached has been added */
  ghost predicate Adds(g: Rules, held: set<Stack>, now: set<Stack>, from: set<Stack>, d: nat) {
    forall n :: n in now <==> n in held || Gains(g, from, d, n)
  }

  lemma BoundedIs(g: Rules, held: set<Stack>, from: set<Stack>, d: nat, e: Option<set<Stack>>)
    requires e.None? <==> exists k :: k in from && Sticks(g, k, d)
    requires e.Some? ==> forall n :: n in e.value <==> Gains(g, from, d, n)
    ensures Bounded(g, held, from, d) <==> !TooMany(held, e)
    ensures e.Some? ==> Adds(g, held, held + e.value, from, d)
  {
    hide Gains, Sticks;
    if e.Some? {
      var all := held + e.value;
      if s: set<Stack> :| |s| <= 64 && held <= s && forall n :: Gains(g, from, d, n) ==> n in s {
        assert all <= s;
        SubsetSize(all, s);
      }
      assert forall n :: Gains(g, from, d, n) ==> n in all;
    }
  }

  lemma SubsetSize(x: set<Stack>, y: set<Stack>)
    requires x <= y
    ensures |x| <= |y|
  {
    assert y == x + (y - x);
  }

  lemma OneBounded(g: Rules, root: nat, held: set<Stack>, k: Stack, d: nat)
    requires Grammar(g, root) && ValidStack(g, k) && d <= GR_MAX_DEPTH
    ensures Bounded(g, held, {k}, d) <==> !TooMany(held, Expand(g, root, k, d))
    ensures Expand(g, root, k, d).Some? ==> Adds(g, held, held + Expand(g, root, k, d).value, {k}, d)
  {
    hide Unfolds, Sticks, Expand, TooMany, Adds, Bounded;
    ExpandIs(g, root, k, d);
    BoundedIs(g, held, {k}, d, Expand(g, root, k, d));
  }
}
