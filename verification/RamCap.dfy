/** `cap_for_ram`: the LRU capacity that the memory left after the reserves can hold. */
module RamCap {
  import opened Experts

  /** which layers route, whether an MTP layer follows them, pins a layer, and expert count */
  datatype Plan = Plan(sparse: seq<bool>, mtp: bool, npin: seq<nat>, E: nat) {
    predicate Valid() {
      |npin| == |sparse| + 1
    }
    function Unpinned(l: nat): nat
      requires l < |npin|
    {
      if npin[l] > E then 0 else E - npin[l]
    }
  }

  /** slots a layer can fill at this capacity */
  function Filled(p: Plan, l: nat, cap: nat): nat
    requires l < |p.npin|
  {
    if cap < p.Unpinned(l) then cap else p.Unpinned(l)
  }

  /** expert slabs of the first n layers */
  function LayerSlabs(p: Plan, cap: nat, n: nat): nat
    requires p.Valid() && n <= |p.sparse|
  {
    if n == 0 then 0 else LayerSlabs(p, cap, n - 1) + if p.sparse[n - 1] then Filled(p, n - 1, cap) else 0
  }

  /** all slabs at this capacity: the MTP row counts twice */
  function Slabs(p: Plan, cap: nat): nat
    requires p.Valid()
  {
    LayerSlabs(p, cap, |p.sparse|) + if p.mtp then 2 * Filled(p, |p.sparse|, cap) else 0
  }

  function Bytes(slabs: nat, eb: real): real {
    slabs as real * eb
  }

  ghost predicate Affordable(p: Plan, eb: real, avail: real, cap: nat)
    requires p.Valid()
  {
    (Slabs(p, cap) as real) * eb <= avail
  }

  lemma {:induction false} LayersMono(p: Plan, a: nat, b: nat, n: nat)
    requires p.Valid() && a <= b && n <= |p.sparse|
    ensures LayerSlabs(p, a, n) <= LayerSlabs(p, b, n)
  {
    if n > 0 { LayersMono(p, a, b, n - 1); }
  }

  /** a larger cache takes no less memory */
  lemma Monotone(p: Plan, eb: real, avail: real, a: nat, b: nat)
    requires p.Valid() && a <= b && eb >= 0.0 && Affordable(p, eb, avail, b)
    ensures Affordable(p, eb, avail, a)
  {
    LayersMono(p, a, b, |p.sparse|);
    assert Slabs(p, a) <= Slabs(p, b);
    BytesMono(Slabs(p, a), Slabs(p, b), eb);
  }

  lemma BytesMono(a: nat, b: nat, eb: real)
    requires a <= b && eb >= 0.0
    ensures Bytes(a, eb) <= Bytes(b, eb)
  {
  }

  /** the search: capacities in turn until one no longer fits */
  method CapMax(p: Plan, eb: real, avail: real) returns (capmax: nat)
    requires p.Valid() && eb >= 0.0
    ensures capmax <= p.E && (capmax >= 1 ==> Affordable(p, eb, avail, capmax))
    ensures forall c: nat :: capmax < c <= p.E && avail > 0.0 && Routes(p) ==> !Affordable(p, eb, avail, c)
    ensures !(avail > 0.0 && Routes(p)) ==> capmax == 0
  {
    capmax := 0;
    var routes := CountRows(p);
    if avail > 0.0 && routes > 0 {
      var cap := 1;
      while cap <= p.E
        invariant 1 <= cap <= p.E + 1 && capmax == cap - 1 && (capmax >= 1 ==> Affordable(p, eb, avail, capmax))
      {
        var total := Total(p, cap);
        if Bytes(total, eb) > avail {
          forall c: nat | capmax < c <= p.E ensures !Affordable(p, eb, avail, c) {
            if Affordable(p, eb, avail, c) { Monotone(p, eb, avail, cap, c); }
          }
          return;
        }
        capmax := cap;
        cap := cap + 1;
      }
    }
  }

  /** some layer has experts */
  ghost predicate Routes(p: Plan) {
    p.mtp || exists i :: 0 <= i < |p.sparse| && p.sparse[i]
  }

  method CountRows(p: Plan) returns (nsp: nat)
    requires p.Valid()
    ensures nsp > 0 <==> Routes(p)
  {
    nsp := 0;
    var i := 0;
    while i < |p.sparse|
      invariant 0 <= i <= |p.sparse| && (nsp > 0 <==> exists k :: 0 <= k < i && p.sparse[k])
    {
      if p.sparse[i] { nsp := nsp + 1; }
      i := i + 1;
    }
    if p.mtp { nsp := nsp + 2; }
  }

  method Total(p: Plan, cap: nat) returns (total: nat)
    requires p.Valid()
    ensures total == Slabs(p, cap)
  {
    total := 0;
    var i := 0;
    while i < |p.sparse|
      invariant 0 <= i <= |p.sparse| && total == LayerSlabs(p, cap, i)
    {
      if p.sparse[i] { total := total + Filled(p, i, cap); }
      i := i + 1;
    }
    if p.mtp { total := total + 2 * Filled(p, |p.sparse|, cap); }
  }

  /** the capacity in force afterwards: lowered to what fits, raised to it when raising is on, never below one */
  method CapForRam(p: Plan, eb: real, avail: real, ecap: nat, raise: bool) returns (cap: nat, floored: bool)
    requires p.Valid() && eb >= 0.0 && p.E >= 1
    ensures !floored ==> Affordable(p, eb, avail, cap)
    ensures floored <==> !(Routes(p) && avail > 0.0 && Affordable(p, eb, avail, 1))
    ensures raise && !floored ==> 1 <= cap <= p.E && forall c: nat :: c <= p.E && Affordable(p, eb, avail, c) ==>
        c <= cap
    ensures raise && floored ==> cap == 1
    ensures !raise ==> cap <= ecap
  {
    var capmax := CapMax(p, eb, avail);
    floored := capmax < 1;
    if capmax >= 1 { Monotone(p, eb, avail, 1, capmax); }
    if floored { capmax := 1; }
    if capmax < ecap {
      cap := capmax;
    } else {
      var newcap := if capmax > p.E then p.E else capmax;
      cap := if raise && newcap > ecap then newcap else ecap;
      if !floored { Monotone(p, eb, avail, cap, capmax); }
    }
  }

  // ---------- what the LRUs of a run can hold ----------

  ghost predicate Matches(p: Plan, b: Bank, cap: nat)
  {
    && p.Valid() && Shape(b, cap) && |b.cells| == |p.npin| && forall l :: 0 <= l < |p.npin| ==> p.npin[l] == |b.pin[l]|
  }

  /** slots in the LRUs of the first n layers */
  ghost function LruSlots(p: Plan, b: Bank, n: nat): nat
    requires p.Valid() && |b.ecn| == |p.npin| && n <= |p.sparse|
  {
    if n == 0 then 0 else LruSlots(p, b, n - 1) + if p.sparse[n - 1] then b.ecn[n - 1] else 0
  }

  ghost function LruTotal(p: Plan, b: Bank): nat
    requires p.Valid() && |b.ecn| == |p.npin|
  {
    LruSlots(p, b, |p.sparse|) + if p.mtp then 2 * b.ecn[|p.sparse|] else 0
  }

  lemma {:induction false} LruWithin(p: Plan, b: Bank, cap: nat, n: nat)
    requires Matches(p, b, cap) && Ok(b, p.E, cap) && n <= |p.sparse|
    ensures LruSlots(p, b, n) <= LayerSlabs(p, cap, n)
  {
    hide Ok;
    if n > 0 {
      LruWithin(p, b, cap, n - 1);
      LruBounded(b, n - 1, p.E, cap);
    }
  }

  /** the count is exact: an LRU that is full, or as full as its unpinned experts allow, in every layer has just these
      slots */
  lemma LruReached(p: Plan, b: Bank, cap: nat)
    requires Matches(p, b, cap)
    requires forall l :: 0 <= l < |p.npin| ==> b.ecn[l] == Min(cap, if p.npin[l] > p.E then 0 else p.E - p.npin[l])
    ensures LruTotal(p, b) == Slabs(p, cap)
  {
    LruReachedTo(p, b, cap, |p.sparse|);
  }

  lemma {:induction false} LruReachedTo(p: Plan, b: Bank, cap: nat, n: nat)
    requires Matches(p, b, cap)
    requires forall l :: 0 <= l < |p.npin| ==> b.ecn[l] == Min(cap, if p.npin[l] > p.E then 0 else p.E - p.npin[l])
    requires n <= |p.sparse|
    ensures LruSlots(p, b, n) == LayerSlabs(p, cap, n)
  {
    if n > 0 { LruReachedTo(p, b, cap, n - 1); }
  }

  /** unless floored, the LRU slots of any reachable bank fit the memory the cap was computed for */
  lemma LruFits(p: Plan, b: Bank, cap: nat, eb: real, avail: real)
    requires Matches(p, b, cap) && Ok(b, p.E, cap) && eb >= 0.0 && Affordable(p, eb, avail, cap)
    ensures (LruTotal(p, b) as real) * eb <= avail
  {
    hide Ok;
    LruWithin(p, b, cap, |p.sparse|);
    LruBounded(b, |p.sparse|, p.E, cap);
    BytesMono(LruTotal(p, b), Slabs(p, cap), eb);
  }
}
