/** Lists without repetition, counted. */
module Lists {
  ghost predicate Distinct(s: seq<nat>) {
    forall j, k :: 0 <= j < k < |s| ==> s[j] != s[k]
  }

  ghost function Elems(s: seq<nat>): set<nat> {
    set i | i in s
  }

  lemma {:induction false} DistinctSize(s: seq<nat>)
    requires Distinct(s)
    ensures |Elems(s)| == |s|
  {
    if s == [] {
      assert Elems(s) == {};
    } else {
      var m := |s| - 1;
      DistinctSize(s[..m]);
      assert s == s[..m] + [s[m]];
      assert Elems(s) == Elems(s[..m]) + {s[m]};
    }
  }

  lemma {:induction false} Smaller(a: set<nat>, b: set<nat>)
    requires a <= b
    ensures |a| <= |b|
  {
    if a != {} {
      var e :| e in a;
      Smaller(a - {e}, b - {e});
    }
  }

  lemma NoLonger(s: seq<nat>, t: seq<nat>)
    requires Distinct(s) && Distinct(t) && Elems(s) <= Elems(t)
    ensures |s| <= |t|
  {
    DistinctSize(s);
    DistinctSize(t);
    Smaller(Elems(s), Elems(t));
  }

  /** 0, 1, .., n - 1 */
  function Dense(n: nat): (r: seq<nat>)
    ensures |r| == n
  {
    seq(n, i requires 0 <= i < n => i as nat)
  }

  /** distinct numbers below n, n of them, are all numbers below n */
  lemma Pigeonhole(n: nat, s: seq<nat>)
    requires |s| == n && Distinct(s) && forall t :: t in s ==> t < n
    ensures forall i: nat :: i < n ==> i in s
  {
    forall i: nat | i < n ensures i in s {
      if i !in s {
        forall t: nat | t in s + [i] ensures t in Dense(n) { assert Dense(n)[t] == t; }
        NoLonger(s + [i], Dense(n));
      }
    }
  }

  /** a list shorter than n misses some number below n */
  lemma Unlisted(s: seq<nat>, n: nat) returns (u: nat)
    requires |s| < n && Distinct(s)
    ensures u < n && u !in s
  {
    if forall u: nat :: u < n ==> u in s {
      forall t: nat | t in Dense(n) ensures t in s {}
      forall j, k | 0 <= j < k < n ensures Dense(n)[j] != Dense(n)[k] {}
      NoLonger(Dense(n), s);
    }
    u :| u < n && u !in s;
  }
}
