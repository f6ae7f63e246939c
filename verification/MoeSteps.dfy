/** A block of `moe` one write at a time, each an atomic step on slots and a clock that others may move in between.

    Module Moe runs the block alone and says what it computes; here any step may be preceded by changes to other layers,
    and the slots of the layer must stay good and the promotion in order all the same. */
module MoeSteps {
  import opened Lists
  import opened Experts

  /** where a block stands; put lists the cells filled since the clock read since */
  datatype Phase =
    | Rest
    | Resolving(ids: seq<nat>, j: nat, miss: seq<nat>)
    | Loading(miss: seq<nat>, q: nat)
    | Promoting(miss: seq<nat>, since: nat, put: seq<nat>)

  ghost predicate Ready(b: Bank, l: nat) {
    Indexed(b, l) && |b.ws| == BLOCK
  }

  ghost predicate Pinned(b: Bank, l: nat, eid: nat)
    requires Ready(b, l)
  {
    exists y :: 0 <= y < |b.pin[l]| && b.pin[l][y].eid == eid
  }

  /** one entry of the block: a pin, a stamped hit, or the next miss */
  ghost predicate ResolveStep(b: Bank, b': Bank, l: nat, eid: nat, miss: seq<nat>, miss': seq<nat>)
    requires Ready(b, l)
  {
    if Pinned(b, l, eid) then b' == b && miss' == miss
    else if !Absent(b, l, eid) then
      miss' == miss && exists z: nat :: z < b.ecn[l] && b.cells[l][z].eid == eid && b' == Stamp(b, l, z)
    else b' == b && miss' == miss + [eid]
  }

  /** a free cell, or the least recently used one of a full layer */
  ghost predicate Takes(b: Bank, l: nat, cap: nat, z: nat)
    requires Ready(b, l)
  {
    if b.ecn[l] < cap then z == b.ecn[l]
    else z < b.ecn[l] && forall y :: 0 <= y < b.ecn[l] ==> b.cells[l][z].used <= b.cells[l][y].used
  }

  ghost function Promoted(b: Bank, l: nat, cap: nat, z: nat, q: nat): Bank
    requires Ready(b, l) && |b.cells[l]| == cap && Takes(b, l, cap, z) && q < BLOCK
  {
    Exchanged(if b.ecn[l] < cap then b.(ecn := b.ecn[l := z + 1]) else b, l, z, q)
  }

  ghost predicate PromoteStep(b: Bank, b': Bank, l: nat, cap: nat, q: nat, z: nat)
    requires Ready(b, l) && |b.cells[l]| == cap
  {
    q < BLOCK && Takes(b, l, cap, z) && b' == Promoted(b, l, cap, z, q)
  }

  /** one step of a block on layer l */
  ghost predicate Step(b: Bank, p: Phase, b': Bank, p': Phase, l: nat, E: nat, cap: nat)
    requires Ready(b, l) && |b.cells[l]| == cap
  {
    match p
    case Rest =>
      && b' == b && p'.Resolving? && p'.j == 0 && p'.miss == []
      && |p'.ids| <= BLOCK && Distinct(p'.ids) && forall e :: e in p'.ids ==> e < E
    case Resolving(ids, j, miss) =>
      if j < |ids| then p'.Resolving? && p'.ids == ids && p'.j == j + 1 && ResolveStep(b, b', l, ids[j], miss, p'.miss)
      else b' == b && p' == Loading(miss, 0)
    case Loading(miss, q) =>
      if q < |miss| then q < BLOCK && b' == WsLoad(b, l, miss[q], q) && p' == Loading(miss, q + 1)
      else b' == b && p' == Promoting(miss, b.clock, [])
    case Promoting(miss, since, put) =>
      if |put| < |miss| && |put| < cap then
        exists z: nat :: PromoteStep(b, b', l, cap, |miss| - 1 - |put|, z) && p' == Promoting(miss, since, put + [z])
      else b' == b && p' == Rest
  }

  // ---------- the invariant of a block ----------

  /** distinct misses, resident nowhere in the layer */
  ghost predicate MissesOk(b: Bank, l: nat, E: nat, miss: seq<nat>, n: nat)
    requires Ready(b, l)
  {
    |miss| <= BLOCK && Distinct(miss) && forall q :: 0 <= q < n && q < |miss| ==> miss[q] < E && Absent(b, l, miss[q])
  }

  /** the first n misses are whole in their working slots */
  ghost predicate WsHold(b: Bank, l: nat, miss: seq<nat>, n: nat) {
    forall q :: 0 <= q < n && q < |miss| && q < |b.ws| ==> b.ws[q].eid == miss[q] && b.ws[q].holds == Of(l, miss[q])
  }

  /** a promotion has filled distinct cells, all stamped after it began, and stamped no other */
  ghost predicate PutOk(b: Bank, l: nat, since: nat, put: seq<nat>)
    requires Ready(b, l)
  {
    && Distinct(put) && since <= b.clock && (forall z :: z in put ==> z < b.ecn[l] && b.cells[l][z].used > since)
    && forall z: nat :: z < b.ecn[l] && z !in put ==> b.cells[l][z].used <= since
  }

  ghost predicate PhaseOk(b: Bank, p: Phase, l: nat, E: nat, cap: nat)
    requires Ready(b, l)
  {
    match p
    case Rest => true
    case Resolving(ids, j, miss) =>
      && |ids| <= BLOCK && Distinct(ids) && (forall e :: e in ids ==> e < E)
      && j <= |ids| && |miss| <= j && (forall e :: e in miss ==> e in ids[..j]) && MissesOk(b, l, E, miss, |miss|)
    case Loading(miss, q) => q <= |miss| && MissesOk(b, l, E, miss, |miss|) && WsHold(b, l, miss, q)
    case Promoting(miss, since, put) =>
      && |put| <= |miss| && |put| <= cap
      && MissesOk(b, l, E, miss, |miss| - |put|) && WsHold(b, l, miss, |miss| - |put|)
      && PutOk(b, l, since, put) && PutHold(b, l, miss, put)
  }

  /** the cells filled hold the last misses, the last one first */
  ghost predicate PutHold(b: Bank, l: nat, miss: seq<nat>, put: seq<nat>)
    requires Ready(b, l)
  {
    forall i :: 0 <= i < |put| && i < |miss| && put[i] < |b.cells[l]| ==> b.cells[l][put[i]].eid == miss[|miss| - 1 - i]
  }

  // ---------- each write keeps the bank good ----------

  /** only layer l, the working set and the clock may differ */
  ghost predicate Frame(b: Bank, b': Bank, l: nat) {
    && b'.pin == b.pin && |b'.cells| == |b.cells| == |b.ecn| == |b'.ecn| && b.clock <= b'.clock
    && forall k: nat :: k < |b.cells| && k != l ==> b'.cells[k] == b.cells[k] && b'.ecn[k] == b.ecn[k]
  }

  /** one promoted miss: distinct labels, contents as labelled, one owner a buffer */
  lemma PromotedOk(b: Bank, l: nat, z: nat, q: nat, E: nat, cap: nat)
    requires Ok(b, E, cap) && l < |b.cells| && q < BLOCK && cap > 0
    requires Ready(b, l) && |b.cells[l]| == cap && Takes(b, l, cap, z)
    requires Missing(b.pin[l], b.cells[l][..b.ecn[l]], l, E, b.ws[q])
    ensures Ok(Promoted(b, l, cap, z, q), E, cap) && Frame(b, Promoted(b, l, cap, z, q), l)
  {
    hide Owned, Missing, LruOk, RoomOk, PinsOk;
    var b1 := if b.ecn[l] < cap then b.(ecn := b.ecn[l := z + 1]) else b;
    var b' := Exchanged(b1, l, z, q);
    assert Rows(b1) == Rows(b);
    ExchangedOwned(b1, l, z, q, cap);
    assert LayerOk(b, l, E, cap);
    FilledLru(b.pin[l], b.cells[l], b.ecn[l], b'.cells[l], b'.ecn[l], b.ws[q], l, E, cap, b.clock, z);
    OtherLayers(b, b', l, E, cap);
  }

  lemma FilledLru(pin: seq<Slot>, c: seq<Slot>, n: nat, c': seq<Slot>, n': nat, x: Slot, l: nat, E: nat, cap: nat,
                  clock: nat, z: nat)
    requires n <= |c| == cap && z < cap && c' == c[z := x.(used := clock + 1)]
    requires if n < cap then z == n && n' == n + 1 else n' == n
    requires LruOk(pin, c[..n], l, E, clock) && RoomOk(|pin|, c[..n], E, cap) && Missing(pin, c[..n], l, E, x)
    ensures LruOk(pin, c'[..n'], l, E, clock + 1) && RoomOk(|pin|, c'[..n'], E, cap)
  {
    var lru, lru' := c[..n], c'[..n'];
    assert forall y :: 0 <= y < n ==> lru[y] == c[y];
    assert forall y :: 0 <= y < n' ==> lru'[y] == if y == z then x.(used := clock + 1) else lru[y];
  }

  // ---------- and the block in order ----------

  /** a layer whose labels are those of another bank's */
  lemma AbsentSame(b: Bank, b': Bank, l: nat, eid: nat)
    requires Ready(b, l) && Ready(b', l) && b'.pin[l] == b.pin[l] && b'.ecn[l] == b.ecn[l]
    requires forall z: nat :: z < b.ecn[l] ==> b'.cells[l][z].eid == b.cells[l][z].eid
    ensures Absent(b', l, eid) <==> Absent(b, l, eid)
  {
  }

  lemma ResolveKeeps(b: Bank, p: Phase, b': Bank, p': Phase, l: nat, E: nat, cap: nat)
    requires Ok(b, E, cap) && l < |b.cells| && Ready(b, l) && |b.cells[l]| == cap && PhaseOk(b, p, l, E, cap)
    requires p.Resolving? && p.j < |p.ids| && Step(b, p, b', p', l, E, cap)
    ensures Ok(b', E, cap) && Frame(b, b', l) && Ready(b', l) && PhaseOk(b', p', l, E, cap)
  {
    hide Ok;
    var e := p.ids[p.j];
    assert p.ids[..p.j + 1] == p.ids[..p.j] + [e];
    assert e in p.ids && e !in p.ids[..p.j];
    if b' != b {
      var z: nat :| z < b.ecn[l] && b.cells[l][z].eid == e && b' == Stamp(b, l, z);
      Stamped(b, l, z, E, cap);
      forall q | 0 <= q < |p.miss| ensures Absent(b', l, p.miss[q]) { AbsentSame(b, b', l, p.miss[q]); }
    }
    MissMore(p.ids, p.j, p.miss, p'.miss);
  }

  /** the misses stay distinct entries of the block's resolved part */
  lemma MissMore(ids: seq<nat>, j: nat, miss: seq<nat>, miss': seq<nat>)
    requires j < |ids| && Distinct(ids) && Distinct(miss) && (forall e :: e in miss ==> e in ids[..j])
    requires miss' == miss || miss' == miss + [ids[j]]
    ensures Distinct(miss') && forall e :: e in miss' ==> e in ids[..j + 1]
  {
    assert ids[..j + 1] == ids[..j] + [ids[j]];
    forall i | 0 <= i < |miss| ensures miss[i] != ids[j] { assert miss[i] in miss; }
  }

  lemma LoadKeeps(b: Bank, p: Phase, b': Bank, p': Phase, l: nat, E: nat, cap: nat)
    requires Ok(b, E, cap) && l < |b.cells| && Ready(b, l) && |b.cells[l]| == cap && PhaseOk(b, p, l, E, cap)
    requires p.Loading? && p.q < |p.miss| && Step(b, p, b', p', l, E, cap)
    ensures Ok(b', E, cap) && Frame(b, b', l) && Ready(b', l) && PhaseOk(b', p', l, E, cap)
  {
    hide Ok;
    WsLoaded(b, l, p.miss[p.q], p.q, E, cap);
    forall q | 0 <= q < |p.miss| ensures Absent(b', l, p.miss[q]) { AbsentSame(b, b', l, p.miss[q]); }
  }

  lemma IsMissing(b: Bank, l: nat, E: nat, q: nat, eid: nat)
    requires Ready(b, l) && q < BLOCK && eid < E && Absent(b, l, eid)
    requires b.ws[q].eid == eid && b.ws[q].holds == Of(l, eid)
    ensures Missing(b.pin[l], b.cells[l][..b.ecn[l]], l, E, b.ws[q])
  {
    forall z | 0 <= z < b.ecn[l] ensures b.cells[l][..b.ecn[l]][z].eid != eid { assert b.cells[l][z].eid != eid; }
  }

  /** the oldest cell of a full layer is none of those this promotion filled */
  lemma OldestOld(b: Bank, l: nat, cap: nat, since: nat, put: seq<nat>, z: nat)
    requires Ready(b, l) && |b.cells[l]| == cap && PutOk(b, l, since, put) && |put| < cap && Takes(b, l, cap, z)
    ensures z !in put
  {
    if b.ecn[l] == cap {
      var u := Unlisted(put, cap);
      assert b.cells[l][z].used <= b.cells[l][u].used;
    }
  }

  lemma PromoteKeeps(b: Bank, p: Phase, b': Bank, p': Phase, l: nat, E: nat, cap: nat)
    requires Ok(b, E, cap) && l < |b.cells| && Ready(b, l) && |b.cells[l]| == cap && PhaseOk(b, p, l, E, cap)
    requires p.Promoting? && |p.put| < |p.miss| && |p.put| < cap && Step(b, p, b', p', l, E, cap)
    ensures Ok(b', E, cap) && Frame(b, b', l) && Ready(b', l) && PhaseOk(b', p', l, E, cap)
  {
    hide Ok, Absent, Distinct, Takes, Missing;
    var q := |p.miss| - 1 - |p.put|;
    var z: nat :| PromoteStep(b, b', l, cap, q, z) && p' == Promoting(p.miss, p.since, p.put + [z]);
    IsMissing(b, l, E, q, p.miss[q]);
    PromotedOk(b, l, z, q, E, cap);
    OldestOld(b, l, cap, p.since, p.put, z);
    TakesIn(b, l, cap, z);
    PutMore(b, b', l, cap, p.since, p.put, z, q);
    HoldMore(b, b', l, cap, p.miss, p.put, z, q);
    forall r | 0 <= r < q ensures Absent(b', l, p.miss[r]) { StillAbsent(b, b', l, cap, z, q, p.miss, r); }
  }

  lemma HoldMore(b: Bank, b': Bank, l: nat, cap: nat, miss: seq<nat>, put: seq<nat>, z: nat, q: nat)
    requires Ready(b, l) && |b.cells[l]| == cap && PromoteStep(b, b', l, cap, q, z) && z !in put && z < cap
    requires |put| < |miss| && q == |miss| - 1 - |put| && b.ws[q].eid == miss[q] && PutHold(b, l, miss, put)
    ensures Ready(b', l) && PutHold(b', l, miss, put + [z])
  {
    var put' := put + [z];
    forall i | 0 <= i < |put'| && i < |miss| && put'[i] < |b'.cells[l]|
      ensures b'.cells[l][put'[i]].eid == miss[|miss| - 1 - i]
    {
      if i < |put| { assert put[i] in put; }
    }
  }

  lemma TakesIn(b: Bank, l: nat, cap: nat, z: nat)
    requires Ready(b, l) && |b.cells[l]| == cap && cap > 0 && Takes(b, l, cap, z)
    ensures z < cap
  {
  }

  lemma PutMore(b: Bank, b': Bank, l: nat, cap: nat, since: nat, put: seq<nat>, z: nat, q: nat)
    requires Ready(b, l) && |b.cells[l]| == cap && PutOk(b, l, since, put)
    requires PromoteStep(b, b', l, cap, q, z) && z !in put && z < cap
    ensures Ready(b', l) && PutOk(b', l, since, put + [z])
  {
    forall y: nat | y < b'.ecn[l] && y != z ensures b'.cells[l][y] == b.cells[l][y] && y < b.ecn[l] {}
    forall y: nat | y < b'.ecn[l] && y !in put + [z] ensures b'.cells[l][y].used <= since {
      assert z in put + [z] && y !in put by { assert (put + [z])[|put|] == z; }
    }
  }

  lemma StillAbsent(b: Bank, b': Bank, l: nat, cap: nat, z: nat, q: nat, miss: seq<nat>, r: nat)
    requires Ready(b, l) && |b.cells[l]| == cap && PromoteStep(b, b', l, cap, q, z) && z < cap
    requires r < q < |miss| && Distinct(miss) && b.ws[q].eid == miss[q] && Absent(b, l, miss[r])
    ensures Ready(b', l) && Absent(b', l, miss[r])
  {
    assert miss[r] != miss[q];
    forall y: nat | y < b'.ecn[l] ensures b'.cells[l][y].eid != miss[r] {
      if y != z { assert b'.cells[l][y] == b.cells[l][y] && y < b.ecn[l]; }
    }
  }

  /** a block ends with its last misses resident, as many as the layer has cells for */
  lemma BlockPromotes(b: Bank, p: Phase, b': Bank, l: nat, E: nat, cap: nat, q: nat)
    requires Ready(b, l) && |b.cells[l]| == cap && PhaseOk(b, p, l, E, cap)
    requires p.Promoting? && Step(b, p, b', Rest, l, E, cap)
    requires |p.miss| <= q + cap && q < |p.miss|
    ensures b' == b && exists z: nat :: z < b.ecn[l] && b.cells[l][z].eid == p.miss[q]
  {
    var i := |p.miss| - 1 - q;
    assert p.put[i] in p.put;
    assert b.cells[l][p.put[i]].eid == p.miss[|p.miss| - 1 - i];
  }

  /** every step of a block keeps the bank good, touches no other layer and keeps the block in order */
  lemma StepKeeps(b: Bank, p: Phase, b': Bank, p': Phase, l: nat, E: nat, cap: nat)
    requires Ok(b, E, cap) && l < |b.cells| && Ready(b, l) && |b.cells[l]| == cap && PhaseOk(b, p, l, E, cap)
    requires Step(b, p, b', p', l, E, cap)
    ensures Ok(b', E, cap) && Frame(b, b', l) && Ready(b', l) && |b'.cells[l]| == cap && PhaseOk(b', p', l, E, cap)
  {
    if p.Resolving? && p.j < |p.ids| {
      ResolveKeeps(b, p, b', p', l, E, cap);
    } else if p.Loading? && p.q < |p.miss| {
      LoadKeeps(b, p, b', p', l, E, cap);
    } else if p.Promoting? && |p.put| < |p.miss| && |p.put| < cap {
      PromoteKeeps(b, p, b', p', l, E, cap);
    } else if p.Loading? {
      Stamps(b, l, E, cap);
    }
    hide Owned, Absent, LayerOk;
  }

  /** no stamp lies beyond the clock */
  lemma Stamps(b: Bank, l: nat, E: nat, cap: nat)
    requires Ok(b, E, cap) && l < |b.cells| && Ready(b, l)
    ensures forall z: nat :: z < b.ecn[l] ==> b.cells[l][z].used <= b.clock
  {
    assert LayerOk(b, l, E, cap);
    forall z: nat | z < b.ecn[l]
      ensures b.cells[l][z].used <= b.clock { assert b.cells[l][..b.ecn[l]][z] == b.cells[l][z]; }
  }

  /** writes to other layers, and a clock they have moved, leave the block in order */
  lemma OthersKeep(b: Bank, p: Phase, b': Bank, l: nat, E: nat, cap: nat)
    requires Ready(b, l) && PhaseOk(b, p, l, E, cap) && Ready(b', l) && b.clock <= b'.clock
    requires b'.pin[l] == b.pin[l] && b'.cells[l] == b.cells[l] && b'.ecn[l] == b.ecn[l] && b'.ws == b.ws
    ensures PhaseOk(b', p, l, E, cap)
  {
    forall eid: nat ensures Absent(b', l, eid) <==> Absent(b, l, eid) { AbsentSame(b, b', l, eid); }
  }
}
