/** The expert slots of `moe`: pins, per-layer LRU, working set, and the promotion by swap. */
module Experts {
  import opened Lists

  /** which expert's weights a slot's buffer holds */
  datatype Weights = Blank | Of(layer: nat, eid: nat)

  /** slab 0 is the null pointer; eid -1 is a slot hidden by an abandoned load */
  datatype Slot = Slot(eid: int, slab: nat, used: nat, holds: Weights)

  /** the slot arrays of all layers; the first ecn[l] cells of layer l are its LRU */
  datatype Bank = Bank(pin: seq<seq<Slot>>, cells: seq<seq<Slot>>, ecn: seq<nat>, ws: seq<Slot>, clock: nat, slabs: nat)

  const BLOCK := 64

  // ---------- what every run keeps ----------

  ghost predicate Shape(b: Bank, cap: nat) {
    && |b.pin| == |b.cells| == |b.ecn| && |b.ws| == BLOCK
    && forall l :: 0 <= l < |b.cells| ==> |b.cells[l]| == cap && b.ecn[l] <= cap
  }

  ghost predicate PinsOk(pin: seq<Slot>, l: nat, E: nat) {
    && (forall z :: 0 <= z < |pin| ==> 0 <= pin[z].eid < E && pin[z].holds == Of(l, pin[z].eid))
    && forall y, z :: 0 <= y < z < |pin| ==> pin[y].eid != pin[z].eid
  }

  /** the LRU: contents as labelled, labels distinct and not pinned */
  ghost predicate LruOk(pin: seq<Slot>, lru: seq<Slot>, l: nat, E: nat, clock: nat) {
    && (forall z :: 0 <= z < |lru| ==> -1 <= lru[z].eid < E && lru[z].used <= clock)
    && (forall z :: 0 <= z < |lru| && lru[z].eid >= 0 ==> lru[z].holds == Of(l, lru[z].eid))
    && (forall y, z :: 0 <= y < z < |lru| && lru[z].eid >= 0 ==> lru[y].eid != lru[z].eid)
    && forall y, z :: 0 <= y < |pin| && 0 <= z < |lru| ==> pin[y].eid != lru[z].eid
  }

  /** a hidden slot exists only in a full LRU that could hold no more than the unpinned experts */
  ghost predicate RoomOk(pins: nat, lru: seq<Slot>, E: nat, cap: nat) {
    (forall z :: 0 <= z < |lru| ==> lru[z].eid >= 0) || (|lru| == cap && cap + pins <= E)
  }

  ghost predicate LayerOk(b: Bank, l: nat, E: nat, cap: nat)
    requires Shape(b, cap) && l < |b.cells|
  {
    var lru := b.cells[l][..b.ecn[l]];
    PinsOk(b.pin[l], l, E) && LruOk(b.pin[l], lru, l, E, b.clock) && RoomOk(|b.pin[l]|, lru, E, cap)
  }

  ghost predicate At(rows: seq<seq<Slot>>, a: nat, i: nat) {
    a < |rows| && i < |rows[a]|
  }

  /** no buffer belongs to two slots */
  ghost predicate Owned(rows: seq<seq<Slot>>, slabs: nat) {
    && (forall a: nat, i: nat :: At(rows, a, i) ==> rows[a][i].slab <= slabs)
    && forall a: nat, i: nat, c: nat, k: nat :: At(rows, a, i) && At(rows, c, k) ==>
        Apart(rows[a][i], rows[c][k]) || (a == c && i == k)
  }

  ghost predicate Apart(s: Slot, t: Slot) {
    s.slab != t.slab || s.slab == 0
  }

  ghost function Rows(b: Bank): seq<seq<Slot>> {
    b.cells + b.pin + [b.ws]
  }

  ghost predicate Ok(b: Bank, E: nat, cap: nat) {
    && Shape(b, cap)
    && (forall l: nat :: l < |b.cells| ==> LayerOk(b, l, E, cap))
    && Owned(Rows(b), b.slabs)
  }

  ghost predicate Indexed(b: Bank, l: nat) {
    l < |b.pin| == |b.cells| == |b.ecn| && b.ecn[l] <= |b.cells[l]|
  }

  /** resident neither among the pins nor in the LRU */
  ghost predicate Absent(b: Bank, l: nat, eid: nat)
    requires Indexed(b, l)
  {
    && (forall y :: 0 <= y < |b.pin[l]| ==> b.pin[l][y].eid != eid)
    && forall z :: 0 <= z < b.ecn[l] ==> b.cells[l][z].eid != eid
  }

  // ---------- memory of the LRU ----------

  function Min(a: int, b: int): int {
    if a < b then a else b
  }

  ghost function Eids(s: seq<Slot>): (r: seq<nat>)
    requires forall z :: 0 <= z < |s| ==> s[z].eid >= 0
    ensures |r| == |s|
  {
    seq(|s|, z requires 0 <= z < |s| => s[z].eid as nat)
  }

  /** in every reachable bank a layer's LRU has at most min(cap, unpinned) slots */
  lemma LruBounded(b: Bank, l: nat, E: nat, cap: nat)
    requires Ok(b, E, cap) && l < |b.cells|
    ensures b.ecn[l] <= Min(cap, E - |b.pin[l]|)
  {
    assert LayerOk(b, l, E, cap);
    var lru, pin := b.cells[l][..b.ecn[l]], b.pin[l];
    if forall z :: 0 <= z < |lru| ==> lru[z].eid >= 0 {
      var ids := Eids(lru) + Eids(pin);
      forall t: nat | t in ids ensures t in Dense(E) {
        assert t < E;
        assert Dense(E)[t] == t;
      }
      NoLonger(ids, Dense(E));
    }
  }

  // ---------- promotion ----------

  /** the working slot and the cell the i-th promoted miss exchanged */
  ghost predicate Went(c0: seq<Slot>, w0: seq<Slot>, clock: nat, q: nat, i: nat, z: nat, c1: seq<Slot>, w1: seq<Slot>) {
    && z < |c0| == |c1| && q < |w0| == |w1|
    && c1[z] == w0[q].(used := clock + 1 + i) && w1[q] == c0[z]
  }

  /** the i-th promoted miss came from working slot nmiss-1-i and went to cell put[i]; nothing else moved */
  ghost predicate Swapped(c0: seq<Slot>, w0: seq<Slot>, clock: nat, nmiss: nat, put: seq<nat>, c1: seq<Slot>,
                          w1: seq<Slot>) {
    && |c1| == |c0| && |w1| == |w0| && |put| <= nmiss <= |w0| && Distinct(put)
    && (forall i :: 0 <= i < |put| ==> Went(c0, w0, clock, nmiss - 1 - i, i, put[i], c1, w1))
    && (forall z: nat :: z < |c0| && z !in put ==> c1[z] == c0[z])
    && forall q: nat :: q < |w0| && (q < nmiss - |put| || q >= nmiss) ==> w1[q] == w0[q]
  }

  /** free cells were filled first, and no evicted slot was used later than a kept one */
  ghost predicate Chosen(c0: seq<Slot>, n0: nat, n1: nat, cap: nat, put: seq<nat>) {
    && n0 <= n1 <= |c0| == cap && n1 == Min(cap, n0 + |put|)
    && (forall i :: 0 <= i < |put| ==> put[i] < n1)
    && (forall z: nat :: n0 <= z < n1 ==> z in put)
    && forall y: nat, z: nat :: y in put && y < n0 && z < n0 && z !in put ==> c0[y].used <= c0[z].used
  }

  lemma SwapStep(c0: seq<Slot>, w0: seq<Slot>, clock: nat, nmiss: nat, put: seq<nat>, c: seq<Slot>, w: seq<Slot>,
                 z: nat)
    requires Swapped(c0, w0, clock, nmiss, put, c, w) && |put| < nmiss && z < |c| && z !in put
    ensures var q := nmiss - 1 - |put|;
      Swapped(c0, w0, clock, nmiss, put + [z], c[z := w[q].(used := clock + 1 + |put|)], w[q := c[z]])
  {
    var q := nmiss - 1 - |put|;
    var put', c', w' := put + [z], c[z := w[q].(used := clock + 1 + |put|)], w[q := c[z]];
    forall i: nat | i < |put'| ensures Went(c0, w0, clock, nmiss - 1 - i, i, put'[i], c', w') {
      if i < |put| {
        assert Went(c0, w0, clock, nmiss - 1 - i, i, put[i], c, w);
        assert put[i] in put;
      }
    }
    forall y: nat | y < |c0| && y !in put' ensures c'[y] == c0[y] {
      assert y !in put && y != z by { assert z == put'[|put|]; assert forall i :: 0 <= i < |put| ==>
          put[i] == put'[i]; }
    }
  }

  lemma ChosenGrow(c0: seq<Slot>, n0: nat, n1: nat, cap: nat, put: seq<nat>)
    requires Chosen(c0, n0, n1, cap, put) && n1 < cap
    ensures Chosen(c0, n0, n1 + 1, cap, put + [n1]) && n1 !in put
  {
    forall z: nat | n0 <= z < n1 + 1 ensures z in put + [n1] {}
  }

  /** the least recently used cell is none of those just filled */
  lemma ChosenEvict(c0: seq<Slot>, w0: seq<Slot>, clock: nat, nmiss: nat, n0: nat, cap: nat, put: seq<nat>,
                    c: seq<Slot>, w: seq<Slot>, z: nat)
    requires Swapped(c0, w0, clock, nmiss, put, c, w) && Chosen(c0, n0, cap, cap, put) && |put| < cap
    requires forall y :: 0 <= y < n0 ==> c0[y].used <= clock
    requires z < cap && forall y :: 0 <= y < cap ==> c[z].used <= c[y].used
    ensures z !in put && Chosen(c0, n0, cap, cap, put + [z])
  {
    var u := Unlisted(put, cap);
    assert c[u] == c0[u];
    assert z !in put;
    forall y: nat, v: nat | y in put + [z] && y < n0 && v < n0 && v !in put + [z] ensures c0[y].used <= c0[v].used {
      assert v !in put;
      if y !in put { assert y == z; assert c[z].used <= c[v].used; }
    }
  }

  /** exchanging the buffers of two slots leaves every buffer with one owner */
  lemma ExchangeOwned(rows: seq<seq<Slot>>, slabs: nat, a: nat, i: nat, c: nat, k: nat, x: Slot, y: Slot)
    requires Owned(rows, slabs) && At(rows, a, i) && At(rows, c, k) && a != c
    requires x.slab == rows[c][k].slab && y.slab == rows[a][i].slab
    ensures Owned(rows[a := rows[a][i := x]][c := rows[c][k := y]], slabs)
  {
    var r := rows[a := rows[a][i := x]][c := rows[c][k := y]];
    forall d: nat, j: nat, e: nat, m: nat | At(r, d, j) && At(r, e, m)
      ensures Apart(r[d][j], r[e][m]) || (d == e && j == m)
    {
      var (d', j') := if d == a && j == i then (c, k) else if d == c && j == k then (a, i) else (d, j);
      var (e', m') := if e == a && m == i then (c, k) else if e == c && m == k then (a, i) else (e, m);
      assert At(rows, d', j') && At(rows, e', m');
    }
    forall d: nat, j: nat | At(r, d, j) ensures r[d][j].slab <= slabs {
      assert At(rows, d, j);
    }
  }

  /** the swap of one promoted miss, stamped by the shared clock */
  ghost function Exchanged(b: Bank, l: nat, z: nat, q: nat): Bank
    requires l < |b.cells| && z < |b.cells[l]| && q < |b.ws|
  {
    b.(cells := b.cells[l := b.cells[l][z := b.ws[q].(used := b.clock + 1)]],
       ws := b.ws[q := b.cells[l][z]], clock := b.clock + 1)
  }

  /** the exchange itself keeps one owner a buffer */
  lemma ExchangedOwned(b: Bank, l: nat, z: nat, q: nat, cap: nat)
    requires Shape(b, cap) && l < |b.cells| && z < cap && q < BLOCK && Owned(Rows(b), b.slabs)
    ensures Owned(Rows(Exchanged(b, l, z, q)), b.slabs)
  {
    hide Owned;
    var rows, w, b' := Rows(b), |b.cells| + |b.pin|, Exchanged(b, l, z, q);
    assert rows[l] == b.cells[l] && rows[w] == b.ws && At(rows, l, z) && At(rows, w, q);
    ExchangeOwned(rows, b.slabs, l, z, w, q, b'.cells[l][z], b'.ws[q]);
    assert Rows(b') == rows[l := rows[l][z := b'.cells[l][z]]][w := rows[w][q := b'.ws[q]]];
  }

  /** what promotion makes of a good layer is a good layer */
  lemma PromotedLru(pin: seq<Slot>, l: nat, E: nat, clock: nat, n0: nat, n1: nat, cap: nat, nmiss: nat, put: seq<nat>,
                    c0: seq<Slot>, w0: seq<Slot>, c1: seq<Slot>, w1: seq<Slot>)
    requires Swapped(c0, w0, clock, nmiss, put, c1, w1) && Chosen(c0, n0, n1, cap, put)
    requires LruOk(pin, c0[..n0], l, E, clock) && RoomOk(|pin|, c0[..n0], E, cap)
    requires forall q :: 0 <= q < nmiss ==> Missing(pin, c0[..n0], l, E, w0[q])
    requires forall p, q :: 0 <= p < q < nmiss ==> w0[p].eid != w0[q].eid
    ensures LruOk(pin, c1[..n1], l, E, clock + |put|) && RoomOk(|pin|, c1[..n1], E, cap)
  {
    var lru, was := c1[..n1], c0[..n0];
    AllCame(clock, n0, n1, cap, nmiss, put, c0, w0, c1, w1);
    CameLru(pin, l, E, clock, nmiss, put, was, w0, lru);
    if n0 < cap {
      forall z: nat | z < n1 ensures lru[z].eid >= 0 { assert Came(was, w0, clock, nmiss, put, lru[z], z); }
    }
  }

  lemma AllCame(clock: nat, n0: nat, n1: nat, cap: nat, nmiss: nat, put: seq<nat>, c0: seq<Slot>, w0: seq<Slot>,
                c1: seq<Slot>, w1: seq<Slot>)
    requires Swapped(c0, w0, clock, nmiss, put, c1, w1) && Chosen(c0, n0, n1, cap, put)
    ensures forall z: nat :: z < n1 ==> Came(c0[..n0], w0, clock, nmiss, put, c1[..n1][z], z)
  {
    hide Distinct;
    forall z: nat | z < n1 ensures Came(c0[..n0], w0, clock, nmiss, put, c1[..n1][z], z) {
      if z in put {
        var i :| 0 <= i < |put| && put[i] == z;
        assert Went(c0, w0, clock, nmiss - 1 - i, i, put[i], c1, w1);
      }
    }
  }

  lemma CameLru(pin: seq<Slot>, l: nat, E: nat, clock: nat, nmiss: nat, put: seq<nat>, was: seq<Slot>, w0: seq<Slot>,
                lru: seq<Slot>)
    requires |put| <= nmiss <= |w0| && forall z: nat :: z < |lru| ==> Came(was, w0, clock, nmiss, put, lru[z], z)
    requires LruOk(pin, was, l, E, clock)
    requires forall q :: 0 <= q < nmiss ==> Missing(pin, was, l, E, w0[q])
    requires forall p, q :: 0 <= p < q < nmiss ==> w0[p].eid != w0[q].eid
    ensures LruOk(pin, lru, l, E, clock + |put|)
  {
    forall y: nat, z: nat | y < z < |lru| && lru[z].eid >= 0 ensures lru[y].eid != lru[z].eid {
      CameApart(pin, was, w0, l, E, clock, nmiss, put, lru, y, z);
    }
    forall z: nat | z < |lru| ensures OneOk(pin, lru[z], l, E, clock + |put|) {
      assert Came(was, w0, clock, nmiss, put, lru[z], z);
      if z < |was| && z !in put && lru[z] == was[z] {
      } else {
        var i :| 0 <= i < |put| && put[i] == z && lru[z] == w0[nmiss - 1 - i].(used := clock + 1 + i);
        assert Missing(pin, was, l, E, w0[nmiss - 1 - i]);
      }
    }
  }

  ghost predicate OneOk(pin: seq<Slot>, s: Slot, l: nat, E: nat, clock: nat) {
    && -1 <= s.eid < E && s.used <= clock && (s.eid >= 0 ==> s.holds == Of(l, s.eid))
    && forall y :: 0 <= y < |pin| ==> pin[y].eid != s.eid
  }

  /** a loaded miss: right contents, resident nowhere in the layer */
  ghost predicate Missing(pin: seq<Slot>, lru: seq<Slot>, l: nat, E: nat, s: Slot) {
    && 0 <= s.eid < E && s.holds == Of(l, s.eid)
    && (forall y :: 0 <= y < |pin| ==> pin[y].eid != s.eid)
    && forall z :: 0 <= z < |lru| ==> lru[z].eid != s.eid
  }

  /** the slot in cell z is a promoted miss or the one that was there */
  ghost predicate Came(was: seq<Slot>, w0: seq<Slot>, clock: nat, nmiss: nat, put: seq<nat>, s: Slot, z: nat)
    requires |put| <= nmiss <= |w0|
  {
    || (z < |was| && z !in put && s == was[z])
    || exists i :: 0 <= i < |put| && put[i] == z && s == w0[nmiss - 1 - i].(used := clock + 1 + i)
  }

  lemma CameApart(pin: seq<Slot>, was: seq<Slot>, w0: seq<Slot>, l: nat, E: nat, clock: nat, nmiss: nat, put: seq<nat>,
                  lru: seq<Slot>, y: nat, z: nat)
    requires |put| <= nmiss <= |w0| && LruOk(pin, was, l, E, clock) && y < z < |lru| && lru[z].eid >= 0
    requires Came(was, w0, clock, nmiss, put, lru[y], y) && Came(was, w0, clock, nmiss, put, lru[z], z)
    requires forall q :: 0 <= q < nmiss ==> Missing(pin, was, l, E, w0[q])
    requires forall p, q :: 0 <= p < q < nmiss ==> w0[p].eid != w0[q].eid
    ensures lru[y].eid != lru[z].eid
  {
    if y in put && z in put {
      var i :| 0 <= i < |put| && put[i] == y && lru[y] == w0[nmiss - 1 - i].(used := clock + 1 + i);
      var j :| 0 <= j < |put| && put[j] == z && lru[z] == w0[nmiss - 1 - j].(used := clock + 1 + j);
      var p, q := nmiss - 1 - i, nmiss - 1 - j;
      assert w0[p].eid != w0[q].eid by { if p < q {} else if q < p {} }
    } else if y in put {
      var i :| 0 <= i < |put| && put[i] == y && lru[y] == w0[nmiss - 1 - i].(used := clock + 1 + i);
    } else if z in put {
      var j :| 0 <= j < |put| && put[j] == z && lru[z] == w0[nmiss - 1 - j].(used := clock + 1 + j);
    }
  }

  // ---------- the other writes ----------

  /** a row rewritten in place with every buffer where it was */
  lemma SameSlabs(rows: seq<seq<Slot>>, rows': seq<seq<Slot>>, slabs: nat)
    requires Owned(rows, slabs) && |rows'| == |rows|
    requires forall a: nat :: a < |rows| ==> |rows'[a]| == |rows[a]|
    requires forall a: nat, i: nat :: At(rows, a, i) ==> rows'[a][i].slab == rows[a][i].slab || rows'[a][i].slab == 0
    ensures Owned(rows', slabs)
  {
    forall a: nat, i: nat, c: nat, k: nat | At(rows', a, i) && At(rows', c, k)
      ensures Apart(rows'[a][i], rows'[c][k]) || (a == c && i == k)
    {
      assert At(rows, a, i) && At(rows, c, k);
    }
    forall a: nat, i: nat | At(rows', a, i) ensures rows'[a][i].slab <= slabs {
      assert At(rows, a, i);
    }
  }

  /** a buffer allocated for a slot that had none */
  lemma FreshOwned(rows: seq<seq<Slot>>, slabs: nat, a: nat, i: nat, x: Slot)
    requires Owned(rows, slabs) && At(rows, a, i) && x.slab == slabs + 1
    ensures Owned(rows[a := rows[a][i := x]], slabs + 1)
  {
    var r := rows[a := rows[a][i := x]];
    forall c: nat, j: nat, e: nat, k: nat | At(r, c, j) && At(r, e, k)
      ensures Apart(r[c][j], r[e][k]) || (c == e && j == k)
    {
      assert At(rows, c, j) && At(rows, e, k);
    }
    forall c: nat, j: nat | At(r, c, j) ensures r[c][j].slab <= slabs + 1 {
      assert At(rows, c, j);
    }
  }

  /** layers other than the one written stay good as the clock advances */
  lemma OtherLayers(b: Bank, b': Bank, l: nat, E: nat, cap: nat)
    requires Shape(b, cap) && Shape(b', cap) && l < |b.cells| == |b'.cells| && b.pin == b'.pin && b.clock <= b'.clock
    requires forall k: nat :: k < |b.cells| && k != l ==> b'.cells[k] == b.cells[k] && b'.ecn[k] == b.ecn[k]
    requires forall k: nat :: k < |b.cells| ==> LayerOk(b, k, E, cap)
    requires LayerOk(b', l, E, cap)
    ensures forall k: nat :: k < |b'.cells| ==> LayerOk(b', k, E, cap)
  {
    forall k: nat | k < |b'.cells| ensures LayerOk(b', k, E, cap) {
      assert LayerOk(b, k, E, cap);
    }
  }

  /** a hit stamps the slot */
  lemma Stamped(b: Bank, l: nat, z: nat, E: nat, cap: nat)
    requires Ok(b, E, cap) && l < |b.cells| && z < b.ecn[l]
    ensures Ok(Stamp(b, l, z), E, cap)
  {
    var b' := Stamp(b, l, z);
    assert LayerOk(b, l, E, cap);
    var lru, lru' := b.cells[l][..b.ecn[l]], b'.cells[l][..b'.ecn[l]];
    assert forall y :: 0 <= y < |lru| ==> lru'[y] == lru[y] || (y == z && lru'[y] == lru[y].(used := b.clock + 1));
    OtherLayers(b, b', l, E, cap);
    SameSlabs(Rows(b), Rows(b'), b.slabs);
  }

  ghost function Stamp(b: Bank, l: nat, z: nat): Bank
    requires l < |b.cells| && z < |b.cells[l]|
  {
    b.(cells := b.cells[l := b.cells[l][z := b.cells[l][z].(used := b.clock + 1)]], clock := b.clock + 1)
  }

  function Loaded(s: Slot, l: nat, eid: nat, slabs: nat): Slot {
    Slot(eid, if s.slab == 0 then slabs + 1 else s.slab, s.used, Of(l, eid))
  }

  function SlabsAfter(s: Slot, slabs: nat): nat {
    if s.slab == 0 then slabs + 1 else slabs
  }

  ghost function WsLoad(b: Bank, l: nat, eid: nat, q: nat): Bank
    requires q < |b.ws|
  {
    b.(ws := b.ws[q := Loaded(b.ws[q], l, eid, b.slabs)], slabs := SlabsAfter(b.ws[q], b.slabs))
  }

  /** a load into the working set */
  lemma WsLoaded(b: Bank, l: nat, eid: nat, q: nat, E: nat, cap: nat)
    requires Ok(b, E, cap) && q < BLOCK
    ensures Ok(WsLoad(b, l, eid, q), E, cap)
  {
    var b' := WsLoad(b, l, eid, q);
    var a := |b.cells| + |b.pin|;
    assert At(Rows(b), a, q) && Rows(b)[a] == b.ws;
    forall k: nat | k < |b'.cells| ensures LayerOk(b', k, E, cap) { assert LayerOk(b, k, E, cap); }
    if b.ws[q].slab == 0 {
      FreshOwned(Rows(b), b.slabs, a, q, b'.ws[q]);
      assert Rows(b') == Rows(b)[a := Rows(b)[a][q := b'.ws[q]]];
    } else {
      SameSlabs(Rows(b), Rows(b'), b.slabs);
    }
  }
}
