/** The language a GBNF grammar denotes, as a least fixed point.

    A rule is a sequence of alternates and an alternate a sequence of symbols (`GrRule`, `GrAlt`, `GrSym`).
    `Post` is the reading of a postfix `?`, `*` or `+` before it is desugared: the parser never stores it,
    it belongs to the specification only.  `SeqGen(g, f, w, h)` is the h-th approximation of the least fixed
    point (rule references nested at most h deep); `In` is its limit. */
module Language {

  type Byte = x: int | 0 <= x < 256
  type Word = seq<Byte>

  datatype Op = Opt | Star | Plus
  datatype Sym = Cls(bytes: set<Byte>) | Ref(rule: int) | Post(item: seq<Sym>, op: Op)
  type Form = seq<Sym>
  type Rules = seq<seq<Form>>

  // ---------- the approximations ----------

  ghost predicate SymGen(g: Rules, s: Sym, w: Word, h: nat)
    decreases h, s, 0, 0
  {
    match s
    case Cls(c) => |w| == 1 && w[0] in c
    case Ref(r) => h > 0 && 0 <= r < |g| && exists a :: 0 <= a < |g[r]| && SeqGen(g, g[r][a], w, h - 1)
    case Post(item, op) =>
      match op
      case Opt => w == [] || SeqGen(g, item, w, h)
      case Star => exists n: nat :: PowGen(g, item, w, h, n)
      case Plus => exists n: nat :: n > 0 && PowGen(g, item, w, h, n)
  }

  ghost predicate SeqGen(g: Rules, f: Form, w: Word, h: nat)
    decreases h, f, 0, 0
  {
    if f == [] then w == []
    else exists i :: 0 <= i <= |w| && SymGen(g, f[0], w[..i], h) && SeqGen(g, f[1..], w[i..], h)
  }

  /** w is n words of the item, one after the other */
  ghost predicate PowGen(g: Rules, item: Form, w: Word, h: nat, n: nat)
    decreases h, item, 1, n
  {
    if n == 0 then w == []
    else exists i :: 0 <= i <= |w| && SeqGen(g, item, w[..i], h) && PowGen(g, item, w[i..], h, n - 1)
  }

  ghost predicate In(g: Rules, f: Form, w: Word) {
    exists h: nat :: SeqGen(g, f, w, h)
  }

  ghost predicate InPow(g: Rules, item: Form, w: Word, n: nat) {
    if n == 0 then w == []
    else exists i :: 0 <= i <= |w| && In(g, item, w[..i]) && InPow(g, item, w[i..], n - 1)
  }

  // ---------- the limit is compositional ----------

  lemma {:induction false} SymMono(g: Rules, s: Sym, w: Word, h: nat, h': nat)
    requires h <= h' && SymGen(g, s, w, h)
    ensures SymGen(g, s, w, h')
    decreases h, s, 0, 0
  {
    match s
    case Cls(_) =>
    case Ref(r) =>
      var a :| 0 <= a < |g[r]| && SeqGen(g, g[r][a], w, h - 1);
      SeqMono(g, g[r][a], w, h - 1, h' - 1);
    case Post(item, op) =>
      match op {
        case Opt => if w != [] { SeqMono(g, item, w, h, h'); }
        case Star => var n: nat :| PowGen(g, item, w, h, n); PowMono(g, item, w, h, h', n);
        case Plus => var n: nat :| n > 0 && PowGen(g, item, w, h, n); PowMono(g, item, w, h, h', n);
      }
  }

  lemma {:induction false} SeqMono(g: Rules, f: Form, w: Word, h: nat, h': nat)
    requires h <= h' && SeqGen(g, f, w, h)
    ensures SeqGen(g, f, w, h')
    decreases h, f, 0, 0
  {
    if f != [] {
      var i :| 0 <= i <= |w| && SymGen(g, f[0], w[..i], h) && SeqGen(g, f[1..], w[i..], h);
      SymMono(g, f[0], w[..i], h, h');
      SeqMono(g, f[1..], w[i..], h, h');
    }
  }

  lemma {:induction false} PowMono(g: Rules, item: Form, w: Word, h: nat, h': nat, n: nat)
    requires h <= h' && PowGen(g, item, w, h, n)
    ensures PowGen(g, item, w, h', n)
    decreases h, item, 1, n
  {
    if n > 0 {
      var i :| 0 <= i <= |w| && SeqGen(g, item, w[..i], h) && PowGen(g, item, w[i..], h, n - 1);
      SeqMono(g, item, w[..i], h, h');
      PowMono(g, item, w[i..], h, h', n - 1);
    }
  }

  lemma {:induction false} SeqSplit(g: Rules, f1: Form, f2: Form, w: Word, h: nat) returns (i: nat)
    requires SeqGen(g, f1 + f2, w, h)
    ensures i <= |w| && SeqGen(g, f1, w[..i], h) && SeqGen(g, f2, w[i..], h)
    decreases |f1|
  {
    hide SymGen;
    if f1 == [] {
      i := 0;
      assert f1 + f2 == f2 && w[0..] == w;
    } else {
      var f := f1 + f2;
      assert f[0] == f1[0] && f[1..] == f1[1..] + f2;
      var j :| 0 <= j <= |w| && SymGen(g, f[0], w[..j], h) && SeqGen(g, f[1..], w[j..], h);
      var k := SeqSplit(g, f1[1..], f2, w[j..], h);
      i := j + k;
      assert w[..i][..j] == w[..j] && w[..i][j..] == w[j..][..k] && w[j..][k..] == w[i..];
    }
  }

  lemma {:induction false} SeqJoin(g: Rules, f1: Form, f2: Form, u: Word, v: Word, h: nat)
    requires SeqGen(g, f1, u, h) && SeqGen(g, f2, v, h)
    ensures SeqGen(g, f1 + f2, u + v, h)
    decreases |f1|
  {
    hide SymGen;
    if f1 == [] {
      assert f1 + f2 == f2 && u + v == v;
    } else {
      var i :| 0 <= i <= |u| && SymGen(g, f1[0], u[..i], h) && SeqGen(g, f1[1..], u[i..], h);
      SeqJoin(g, f1[1..], f2, u[i..], v, h);
      var f, w := f1 + f2, u + v;
      assert f[0] == f1[0] && f[1..] == f1[1..] + f2;
      assert w[..i] == u[..i] && w[i..] == u[i..] + v;
    }
  }

  lemma InSplit(g: Rules, f1: Form, f2: Form, w: Word) returns (i: nat)
    requires In(g, f1 + f2, w)
    ensures i <= |w| && In(g, f1, w[..i]) && In(g, f2, w[i..])
  {
    var h: nat :| SeqGen(g, f1 + f2, w, h);
    i := SeqSplit(g, f1, f2, w, h);
  }

  lemma InJoin(g: Rules, f1: Form, f2: Form, u: Word, v: Word)
    requires In(g, f1, u) && In(g, f2, v)
    ensures In(g, f1 + f2, u + v)
  {
    var h1: nat :| SeqGen(g, f1, u, h1);
    var h2: nat :| SeqGen(g, f2, v, h2);
    var h := if h1 < h2 then h2 else h1;
    SeqMono(g, f1, u, h1, h);
    SeqMono(g, f2, v, h2, h);
    SeqJoin(g, f1, f2, u, v, h);
  }

  lemma SeqOne(g: Rules, s: Sym, w: Word, h: nat)
    ensures SeqGen(g, [s], w, h) <==> SymGen(g, s, w, h)
  {
    assert [s][0] == s && [s][1..] == [];
    if SymGen(g, s, w, h) {
      assert w[..|w|] == w && w[|w|..] == [];
      assert SeqGen(g, [s][1..], w[|w|..], h);
    }
    if SeqGen(g, [s], w, h) {
      var i :| 0 <= i <= |w| && SymGen(g, s, w[..i], h) && SeqGen(g, [s][1..], w[i..], h);
      assert w[i..] == [] && w[..i] == w;
    }
  }

  lemma SeqNil(g: Rules, w: Word)
    ensures In(g, [], w) <==> w == []
  {
    if w == [] { assert SeqGen(g, [], w, 0); }
  }

  /** a terminal in front consumes exactly one byte */
  lemma InCls(g: Rules, c: set<Byte>, f: Form, w: Word)
    ensures In(g, [Cls(c)] + f, w) <==> |w| > 0 && w[0] in c && In(g, f, w[1..])
  {
    if In(g, [Cls(c)] + f, w) {
      var i := InSplit(g, [Cls(c)], f, w);
      var h: nat :| SeqGen(g, [Cls(c)], w[..i], h);
      SeqOne(g, Cls(c), w[..i], h);
      assert i == 1;
    }
    if |w| > 0 && w[0] in c && In(g, f, w[1..]) {
      SeqOne(g, Cls(c), [w[0]], 0);
      InJoin(g, [Cls(c)], f, [w[0]], w[1..]);
      assert [w[0]] + w[1..] == w;
    }
  }

  /** a rule reference in front is the choice of its alternates */
  lemma InRef(g: Rules, r: int, f: Form, w: Word)
    ensures In(g, [Ref(r)] + f, w) <==> 0 <= r < |g| && exists a :: 0 <= a < |g[r]| && In(g, g[r][a] + f, w)
  {
    if In(g, [Ref(r)] + f, w) {
      var i := InSplit(g, [Ref(r)], f, w);
      var h: nat :| SeqGen(g, [Ref(r)], w[..i], h);
      SeqOne(g, Ref(r), w[..i], h);
      var a :| 0 <= a < |g[r]| && SeqGen(g, g[r][a], w[..i], h - 1);
      InJoin(g, g[r][a], f, w[..i], w[i..]);
      assert w[..i] + w[i..] == w;
    }
    if 0 <= r < |g| && exists a :: 0 <= a < |g[r]| && In(g, g[r][a] + f, w) {
      var a :| 0 <= a < |g[r]| && In(g, g[r][a] + f, w);
      var i := InSplit(g, g[r][a], f, w);
      var h: nat :| SeqGen(g, g[r][a], w[..i], h);
      assert SymGen(g, Ref(r), w[..i], h + 1);
      SeqOne(g, Ref(r), w[..i], h + 1);
      InJoin(g, [Ref(r)], f, w[..i], w[i..]);
      assert w[..i] + w[i..] == w;
    }
  }

  lemma InRule(g: Rules, r: int, w: Word)
    ensures In(g, [Ref(r)], w) <==> 0 <= r < |g| && exists a :: 0 <= a < |g[r]| && In(g, g[r][a], w)
  {
    InRef(g, r, [], w);
    assert [Ref(r)] + [] == [Ref(r)];
    if 0 <= r < |g| { assert forall a :: 0 <= a < |g[r]| ==> g[r][a] + [] == g[r][a]; }
  }

  // ---------- a postfix denotes the optional, the closure, the positive closure ----------

  lemma {:induction false} PowLimit(g: Rules, item: Form, w: Word, h: nat, n: nat)
    requires PowGen(g, item, w, h, n)
    ensures InPow(g, item, w, n)
    decreases n
  {
    if n > 0 {
      var i :| 0 <= i <= |w| && SeqGen(g, item, w[..i], h) && PowGen(g, item, w[i..], h, n - 1);
      PowLimit(g, item, w[i..], h, n - 1);
    }
  }

  lemma PowNone(g: Rules, item: Form, w: Word)
    requires InPow(g, item, w, 0)
    ensures PowGen(g, item, w, 0, 0)
  {
  }

  lemma PowJoin(g: Rules, item: Form, w: Word, i: nat, h1: nat, h2: nat, h: nat, n: nat)
    requires n > 0 && i <= |w| && h1 <= h && h2 <= h
    requires SeqGen(g, item, w[..i], h1) && PowGen(g, item, w[i..], h2, n - 1)
    ensures PowGen(g, item, w, h, n)
  {
    hide SeqGen;
    SeqMono(g, item, w[..i], h1, h);
    PowMono(g, item, w[i..], h2, h, n - 1);
  }

  lemma {:induction false} PowHeight(g: Rules, item: Form, w: Word, n: nat) returns (h: nat)
    requires InPow(g, item, w, n)
    ensures PowGen(g, item, w, h, n)
    decreases n
  {
    hide SeqGen, PowGen;
    if n == 0 {
      PowNone(g, item, w);
      h := 0;
    } else {
      var i :| 0 <= i <= |w| && In(g, item, w[..i]) && InPow(g, item, w[i..], n - 1);
      var h1: nat :| SeqGen(g, item, w[..i], h1);
      var h2 := PowHeight(g, item, w[i..], n - 1);
      h := if h1 < h2 then h2 else h1;
      PowJoin(g, item, w, i, h1, h2, h, n);
    }
  }

  ghost predicate PostMeaning(g: Rules, item: Form, op: Op, w: Word) {
    match op
    case Opt => w == [] || In(g, item, w)
    case Star => exists n: nat :: InPow(g, item, w, n)
    case Plus => exists n: nat :: n > 0 && InPow(g, item, w, n)
  }

  lemma InPost(g: Rules, item: Form, op: Op, w: Word)
    ensures In(g, [Post(item, op)], w) <==> PostMeaning(g, item, op, w)
  {
    var s := Post(item, op);
    if In(g, [s], w) {
      var h: nat :| SeqGen(g, [s], w, h);
      SeqOne(g, s, w, h);
      match op {
        case Opt =>
        case Star => var n: nat :| PowGen(g, item, w, h, n); PowLimit(g, item, w, h, n);
        case Plus => var n: nat :| n > 0 && PowGen(g, item, w, h, n); PowLimit(g, item, w, h, n);
      }
    }
    if PostMeaning(g, item, op, w) {
      var h: nat;
      match op {
        case Opt => h := if w == [] then 0 else var h: nat :| SeqGen(g, item, w, h); h;
        case Star => var n: nat :| InPow(g, item, w, n); h := PowHeight(g, item, w, n);
        case Plus => var n: nat :| n > 0 && InPow(g, item, w, n); h := PowHeight(g, item, w, n);
      }
      assert SymGen(g, s, w, h);
      SeqOne(g, s, w, h);
    }
  }
}
