/** The batched forward pass over a key/value cache (`layers_forward_rows`, `step`, `step_all`, `step_decode_batch`).

    The maths of a layer is a parameter; what is modelled is which cache rows a pass writes and reads.  A pass
    goes layer by layer: first every batch row writes its cache row, then every batch row attends to the rows
    up to its own position.  `KvRow` and `Logits` are what one token sequence determines on its own; the
    theorems say that a batch computes exactly them, whatever lies in the cache beyond the valid rows. */
module Forward {
  import opened SpecTree

  datatype Net<!Hid(!new), !Row(!new)> = Net(
    layers: nat,
    embed: Token -> Hid,
    key: (nat, Hid, nat) -> Row,                 // the row a layer caches for a position
    block: (nat, Hid, seq<Row>, nat) -> Hid,     // attention over rows [0, pos] and the rest of the layer
    head: Hid -> seq<real>)

  // ---------- what a token sequence determines ----------

  /** input of layer l at position p */
  ghost function Hidden<Hid(!new), Row(!new)>(net: Net<Hid, Row>, toks: seq<Token>, p: nat, l: nat): Hid
    requires p < |toks|
    decreases l, 2
  {
    if l == 0 then net.embed(toks[p])
    else net.block(l - 1, Hidden(net, toks, p, l - 1), Rows(net, toks, p + 1, l - 1), p)
  }

  ghost function KvRow<Hid(!new), Row(!new)>(net: Net<Hid, Row>, toks: seq<Token>, p: nat, l: nat): Row
    requires p < |toks|
    decreases l, 3
  {
    net.key(l, Hidden(net, toks, p, l), p)
  }

  ghost function Rows<Hid(!new), Row(!new)>(net: Net<Hid, Row>, toks: seq<Token>, n: nat, l: nat): seq<Row>
    requires n <= |toks|
    decreases l, 4
  {
    seq(n, i requires 0 <= i < n => KvRow(net, toks, i, l))
  }

  ghost function Logits<Hid(!new), Row(!new)>(net: Net<Hid, Row>, toks: seq<Token>): seq<real>
    requires toks != []
  {
    net.head(Hidden(net, toks, |toks| - 1, net.layers))
  }

  /** a position depends on the tokens up to it only */
  lemma {:induction false} Causal<Hid(!new), Row(!new)>(net: Net<Hid, Row>, a: seq<Token>, b: seq<Token>, p: nat,
                                      l: nat)
    requires p < |a| && p < |b| && a[..p + 1] == b[..p + 1]
    ensures Hidden(net, a, p, l) == Hidden(net, b, p, l) && KvRow(net, a, p, l) == KvRow(net, b, p, l)
    decreases l, 0
  {
    assert a[..p + 1][p] == b[..p + 1][p];
    if l > 0 {
      Causal(net, a, b, p, l - 1);
      var ra, rb := Rows(net, a, p + 1, l - 1), Rows(net, b, p + 1, l - 1);
      forall i | 0 <= i < p + 1 ensures ra[i] == rb[i] {
        assert a[..p + 1][..i + 1] == a[..i + 1] && b[..p + 1][..i + 1] == b[..i + 1];
        Causal(net, a, b, i, l - 1);
      }
      assert ra == rb;
    }
  }

  /** hidden states layer by layer: x(l, p) enters layer l at position p, and every position attends to the rows of
      the positions up to itself */
  ghost predicate Pass<Hid(!new), Row(!new)>(net: Net<Hid, Row>, toks: seq<Token>, x: (nat, nat) -> Hid) {
    && (forall p :: 0 <= p < |toks| ==> x(0, p) == net.embed(toks[p]))
    && forall l: nat, p: nat :: l < net.layers && p < |toks| ==>
         x(l + 1, p) == net.block(l, x(l, p), seq(p + 1, i requires 0 <= i < p + 1 => net.key(l, x(l, i), i)), p)
  }

  /** any pass through the layers ends in these hidden states */
  lemma {:induction false} PassIs<Hid(!new), Row(!new)>(net: Net<Hid, Row>, toks: seq<Token>, x: (nat, nat) -> Hid,
                                      p: nat, l: nat)
    requires Pass(net, toks, x) && p < |toks| && l <= net.layers
    ensures Hidden(net, toks, p, l) == x(l, p) && KvRow(net, toks, p, l) == net.key(l, x(l, p), p)
    decreases l
  {
    if l > 0 {
      var m := l - 1;
      PassIs(net, toks, x, p, m);
      var rows := seq(p + 1, i requires 0 <= i < p + 1 => net.key(m, x(m, i), i));
      forall i: nat | i < p + 1 ensures Rows(net, toks, p + 1, m)[i] == rows[i] { PassIs(net, toks, x, i, m); }
      assert Rows(net, toks, p + 1, m) == rows;
      assert x(m + 1, p) == net.block(m, x(m, p), rows, p);
    }
  }

  /** the logits are those of the last position after the last layer */
  lemma LogitsIs<Hid(!new), Row(!new)>(net: Net<Hid, Row>, toks: seq<Token>, x: (nat, nat) -> Hid)
    requires Pass(net, toks, x) && toks != []
    ensures Logits(net, toks) == net.head(x(net.layers, |toks| - 1))
  {
    PassIs(net, toks, x, |toks| - 1, net.layers);
  }

  // ---------- the cache ----------

  /** cached rows by slot, layer and position */
  type Store<!Row> = map<(nat, nat, nat), Row>

  /** row i of layer l in the slot is the one toks determines */
  ghost predicate RowOk<Hid(!new), Row(!new)>(net: Net<Hid, Row>, kv: Store<Row>, slot: nat, toks: seq<Token>, i: nat,
                            l: nat)
    requires i < |toks|
  {
    (slot, l, i) in kv && kv[(slot, l, i)] == KvRow(net, toks, i, l)
  }

  /** the first n rows of the slot are those of toks, in every layer */
  ghost predicate Holds<Hid(!new), Row(!new)>(net: Net<Hid, Row>, kv: Store<Row>, slot: nat, toks: seq<Token>, n: nat)
    requires n <= |toks|
  {
    forall l: nat, i: nat :: l < net.layers && i < n ==> RowOk(net, kv, slot, toks, i, l)
  }

  // ---------- one batch ----------

  /** a batch row: the last token of its context, in the position after the others */
  datatype BatchRow = BatchRow(slot: nat, context: seq<Token>) {
    function Pos(): nat { if context == [] then 0 else |context| - 1 }
  }

  /** the cache positions the batch writes */
  ghost predicate Written(rows: seq<BatchRow>, slot: nat, i: nat) {
    exists s :: 0 <= s < |rows| && At(rows[s], slot, i)
  }

  ghost predicate At(r: BatchRow, slot: nat, i: nat) {
    r.slot == slot && r.Pos() == i
  }

  /** no two rows write the same cache position */
  ghost predicate Placed(rows: seq<BatchRow>) {
    && (forall s :: 0 <= s < |rows| ==> rows[s].context != [])
    && (forall s, t :: 0 <= s < t < |rows| ==> rows[s].slot != rows[t].slot || rows[s].Pos() != rows[t].Pos())
  }

  /** Before its own position, a row's context is either computed in the batch or valid in the cache. */
  ghost predicate Backed<Hid(!new), Row(!new)>(net: Net<Hid, Row>, kv: Store<Row>, rows: seq<BatchRow>) {
    forall s :: 0 <= s < |rows| ==> BackedRow(net, kv, rows, rows[s])
  }

  ghost predicate BackedRow<Hid(!new), Row(!new)>(net: Net<Hid, Row>, kv: Store<Row>, rows: seq<BatchRow>,
                                r: BatchRow) {
    forall i :: 0 <= i < r.Pos() ==> BackedAt(net, kv, rows, r, i)
  }

  ghost predicate BackedAt<Hid(!new), Row(!new)>(net: Net<Hid, Row>, kv: Store<Row>, rows: seq<BatchRow>, r: BatchRow,
                               i: nat)
    requires i < r.Pos()
  {
    if Written(rows, r.slot, i) then BatchRow(r.slot, r.context[..i + 1]) in rows
    else forall l :: 0 <= l < net.layers ==> RowOk(net, kv, r.slot, r.context, i, l)
  }

  /** only the positions the batch writes have changed */
  ghost predicate OnlyWritten<Row(!new)>(was: Store<Row>, kv: Store<Row>, rows: seq<BatchRow>) {
    forall k: nat, l: nat, i: nat :: (k, l, i) in was ==>
      (k, l, i) in kv && (Written(rows, k, i) || kv[(k, l, i)] == was[(k, l, i)])
  }

  ghost predicate OnlyLayer<Row(!new)>(was: Store<Row>, kv: Store<Row>, rows: seq<BatchRow>, m: nat) {
    forall k: nat, l: nat, i: nat :: (k, l, i) in was ==>
      (k, l, i) in kv && ((l == m && Written(rows, k, i)) || kv[(k, l, i)] == was[(k, l, i)])
  }

  lemma OnlyOne<Row(!new)>(was: Store<Row>, kv: Store<Row>, rows: seq<BatchRow>, m: nat)
    requires OnlyLayer(was, kv, rows, m)
    ensures OnlyWritten(was, kv, rows)
  {
  }

  lemma BackedStays<Hid(!new), Row(!new)>(net: Net<Hid, Row>, was: Store<Row>, kv: Store<Row>, rows: seq<BatchRow>)
    requires Backed(net, was, rows) && OnlyWritten(was, kv, rows)
    ensures Backed(net, kv, rows)
  {
    forall s | 0 <= s < |rows| ensures BackedRow(net, kv, rows, rows[s]) {
      assert BackedRow(net, was, rows, rows[s]);
      forall i: nat | i < rows[s].Pos() ensures BackedAt(net, kv, rows, rows[s], i) {
        assert BackedAt(net, was, rows, rows[s], i);
        if !Written(rows, rows[s].slot, i) {
          forall l | 0 <= l < net.layers ensures RowOk(net, kv, rows[s].slot, rows[s].context, i, l) {
            assert RowOk(net, was, rows[s].slot, rows[s].context, i, l);
          }
        }
      }
    }
  }

  /** x holds the inputs of layer l */
  ghost predicate AtLayer<Hid(!new), Row(!new)>(net: Net<Hid, Row>, rows: seq<BatchRow>, x: seq<Hid>, l: nat)
    requires Placed(rows)
  {
    |x| == |rows| && forall s :: 0 <= s < |rows| ==> x[s] == Hidden(net, rows[s].context, rows[s].Pos(), l)
  }

  /** the batch's own positions are valid in the first n layers */
  ghost predicate Cached<Hid(!new), Row(!new)>(net: Net<Hid, Row>, kv: Store<Row>, rows: seq<BatchRow>, n: nat)
    requires Placed(rows)
  {
    forall s, l :: 0 <= s < |rows| && 0 <= l < n ==> RowOk(net, kv, rows[s].slot, rows[s].context, rows[s].Pos(), l)
  }

  lemma WriteOk<Hid(!new), Row(!new)>(net: Net<Hid, Row>, was: Store<Row>, kv: Store<Row>, rows: seq<BatchRow>,
                    x: seq<Hid>, l: nat)
    requires Placed(rows) && l < net.layers && AtLayer(net, rows, x, l) && Cached(net, was, rows, l)
    requires forall s :: 0 <= s < |rows| ==>
               var key := (rows[s].slot, l, rows[s].Pos()); key in kv && kv[key] == net.key(l, x[s], rows[s].Pos())
    requires OnlyLayer(was, kv, rows, l)
    ensures Cached(net, kv, rows, l + 1)
  {
    forall s, m | 0 <= s < |rows| && 0 <= m < l + 1
      ensures RowOk(net, kv, rows[s].slot, rows[s].context, rows[s].Pos(), m)
    {
      if m < l { assert RowOk(net, was, rows[s].slot, rows[s].context, rows[s].Pos(), m); }
    }
  }

  /** what layer l reads for a row, once the batch has written, is what the row's context determines */
  lemma ReadOk<Hid(!new), Row(!new)>(net: Net<Hid, Row>, kv: Store<Row>, rows: seq<BatchRow>, s: nat, l: nat)
    requires Placed(rows) && s < |rows| && l < net.layers && Backed(net, kv, rows) && Cached(net, kv, rows, l + 1)
    ensures forall i: nat :: i < rows[s].Pos() + 1 ==> RowOk(net, kv, rows[s].slot, rows[s].context, i, l)
  {
    var r := rows[s];
    assert BackedRow(net, kv, rows, r);
    forall i: nat | i < r.Pos() + 1 ensures RowOk(net, kv, r.slot, r.context, i, l) {
      if i < r.Pos() {
        assert BackedAt(net, kv, rows, r, i);
        if Written(rows, r.slot, i) {
          var t :| 0 <= t < |rows| && rows[t] == BatchRow(r.slot, r.context[..i + 1]);
          assert RowOk(net, kv, rows[t].slot, rows[t].context, rows[t].Pos(), l);
          Causal(net, r.context, rows[t].context, i, l);
        } else {
          BackedCached(net, kv, rows, r, i, l);
        }
      } else {
        assert RowOk(net, kv, rows[s].slot, rows[s].context, rows[s].Pos(), l);
      }
    }
  }

  lemma BackedCached<Hid(!new), Row(!new)>(net: Net<Hid, Row>, kv: Store<Row>, rows: seq<BatchRow>, r: BatchRow, i: nat,
                         l: nat)
    requires i < r.Pos() && BackedAt(net, kv, rows, r, i) && !Written(rows, r.slot, i) && l < net.layers
    ensures RowOk(net, kv, r.slot, r.context, i, l)
  {
  }

  /** what the engine passes for a batch row */
  datatype DecodeRow = DecodeRow(slot: nat, token: Token, pos: nat)

  /** rs are the batch rows of these contexts */
  ghost predicate Describes(rs: seq<DecodeRow>, batch: seq<BatchRow>) {
    |rs| == |batch| && Placed(batch)
    && forall s :: 0 <= s < |rs| ==>
         rs[s].slot == batch[s].slot && rs[s].pos == batch[s].Pos() && rs[s].token == batch[s].context[rs[s].pos]
  }

  /** per layer: whether the buffers of a slot are there, and its first cached position */
  datatype Buffers = Buffers(there: seq<bool>, start: seq<int>)

  /** the row has cached its own key, and has attended over the cached rows of its slot up to itself */
  ghost predicate Attended<Hid(!new), Row(!new)>(net: Net<Hid, Row>, kv: Store<Row>, r: DecodeRow, l: nat, x: Hid,
                               y: Hid) {
    && (r.slot, l, r.pos) in kv && kv[(r.slot, l, r.pos)] == net.key(l, x, r.pos)
    && exists ks: seq<Row> :: |ks| == r.pos + 1 && y == net.block(l, x, ks, r.pos)
         && forall i: nat :: i < r.pos + 1 ==> (r.slot, l, i) in kv && ks[i] == kv[(r.slot, l, i)]
  }

  lemma IsAttended<Hid(!new), Row(!new)>(net: Net<Hid, Row>, kv: Store<Row>, r: DecodeRow, l: nat, x: Hid, y: Hid,
                                         ks: seq<Row>)
    requires (r.slot, l, r.pos) in kv && kv[(r.slot, l, r.pos)] == net.key(l, x, r.pos)
    requires |ks| == r.pos + 1 && y == net.block(l, x, ks, r.pos)
    requires forall i: nat :: i < r.pos + 1 ==> (r.slot, l, i) in kv && ks[i] == kv[(r.slot, l, i)]
    ensures Attended(net, kv, r, l, x, y)
  {
  }

  class Cache<Row(!new)> {
    const slots: nat
    const maxT: nat
    const kvLora: nat
    const buffers: seq<Buffers>
    var rows: Store<Row>

    /** with the rows read back from the files */
    constructor (slots: nat, maxT: nat, kvLora: nat, layers: nat, rows: Store<Row>)
      ensures this.slots == slots && this.maxT == maxT && this.kvLora == kvLora && this.rows == rows && AllThere(layers)
    {
      this.slots, this.maxT, this.kvLora, this.rows := slots, maxT, kvLora, rows;
      buffers := seq(slots, k => Buffers(seq(layers, l => true), seq(layers, l => 0)));
    }

    ghost predicate Shaped(layers: nat) {
      |buffers| == slots && forall k :: 0 <= k < slots ==> |buffers[k].there| == |buffers[k].start| == layers
    }

    /** every slot has all its buffers, filled from position 0 on */
    ghost predicate AllThere(layers: nat) {
      Shaped(layers) && forall k, l :: 0 <= k < slots && 0 <= l < layers ==>
          buffers[k].there[l] && buffers[k].start[l] == 0
    }

    /** what step_decode_batch accepts */
    ghost predicate Acceptable(rs: seq<DecodeRow>, vocab: nat, layers: nat)
      requires Shaped(layers) && forall s :: 0 <= s < |rs| ==> rs[s].slot < slots
    {
      && 1 <= |rs| <= 64 && kvLora <= 512
      && (forall s :: 0 <= s < |rs| ==> RowUsable(rs[s], vocab, layers))
      && (forall s, t :: 0 <= s < t < |rs| ==> rs[s].slot != rs[t].slot)
    }

    ghost predicate RowUsable(r: DecodeRow, vocab: nat, layers: nat)
      requires Shaped(layers) && r.slot < slots
    {
      && r.token < vocab && r.pos < maxT
      && forall l :: 0 <= l < layers ==> buffers[r.slot].there[l] && 0 <= buffers[r.slot].start[l] <= r.pos
    }

    method CheckRow(r: DecodeRow, vocab: nat, layers: nat) returns (ok: bool)
      requires Shaped(layers) && r.slot < slots
      ensures ok == RowUsable(r, vocab, layers)
    {
      if r.token >= vocab || r.pos >= maxT { return false; }
      var l := 0;
      while l < layers
        invariant 0 <= l <= layers
        invariant forall k :: 0 <= k < l ==> buffers[r.slot].there[k] && 0 <= buffers[r.slot].start[k] <= r.pos
      {
        var start := buffers[r.slot].start[l];
        if !buffers[r.slot].there[l] || start < 0 || start > r.pos { return false; }
        l := l + 1;
      }
      return true;
    }

    /** the checks of step_decode_batch */
    method Check(rs: seq<DecodeRow>, vocab: nat, layers: nat) returns (ok: bool)
      requires Shaped(layers) && forall s :: 0 <= s < |rs| ==> rs[s].slot < slots
      ensures ok == Acceptable(rs, vocab, layers)
    {
      hide RowUsable;
      if |rs| < 1 || |rs| > 64 || kvLora > 512 { return false; }
      var s := 0;
      while s < |rs|
        invariant 0 <= s <= |rs| && forall t :: 0 <= t < s ==> RowUsable(rs[t], vocab, layers)
        invariant forall t, u :: 0 <= t < u < s ==> rs[t].slot != rs[u].slot
      {
        var usable := CheckRow(rs[s], vocab, layers);
        if !usable { return false; }
        var p := 0;
        while p < s
          invariant 0 <= p <= s && forall t :: 0 <= t < p ==> rs[t].slot != rs[s].slot
        {
          if rs[p].slot == rs[s].slot { return false; }
          p := p + 1;
        }
        s := s + 1;
      }
      return true;
    }

    ghost predicate Fits(rs: seq<DecodeRow>) {
      forall s :: 0 <= s < |rs| ==> rs[s].slot < slots && rs[s].pos < maxT
    }

    method EmbedRows<Hid(!new)>(net: Net<Hid, Row>, rs: seq<DecodeRow>,
                         ghost batch: seq<BatchRow>) returns (x: seq<Hid>)
      requires Describes(rs, batch)
      ensures AtLayer(net, batch, x, 0) && Cached(net, rows, batch, 0)
    {
      x := [];
      while |x| < |rs|
        invariant |x| <= |rs| && forall s :: 0 <= s < |x| ==> x[s] == net.embed(batch[s].context[batch[s].Pos()])
      {
        x := x + [net.embed(rs[|x|].token)];
      }
    }

    /** the cached rows [0, pos] of a layer */
    method ReadRows<Hid(!new)>(ghost net: Net<Hid, Row>, slot: nat, pos: nat, ghost context: seq<Token>,
                        l: nat) returns (ks: seq<Row>)
      requires |context| == pos + 1 && forall i: nat :: i < pos + 1 ==> RowOk(net, rows, slot, context, i, l)
      ensures ks == Rows(net, context, pos + 1, l)
      ensures |ks| == pos + 1 && forall i: nat :: i < pos + 1 ==> (slot, l, i) in rows && ks[i] == rows[(slot, l, i)]
    {
      ks := [];
      while |ks| < pos + 1
        invariant |ks| <= pos + 1 && forall i :: 0 <= i < |ks| ==> ks[i] == KvRow(net, context, i, l)
        invariant forall i: nat :: i < |ks| ==> (slot, l, i) in rows && ks[i] == rows[(slot, l, i)]
      {
        assert RowOk(net, rows, slot, context, |ks|, l);
        ks := ks + [rows[(slot, l, |ks|)]];
      }
    }

    /** layer_forward_rows: every batch row caches its row, then every one attends */
    method ForwardLayer<Hid(!new)>(net: Net<Hid, Row>, rs: seq<DecodeRow>, ghost batch: seq<BatchRow>, x: seq<Hid>,
                            l: nat)
        returns (y: seq<Hid>)
      requires Fits(rs) && Describes(rs, batch) && Backed(net, rows, batch) && l < net.layers
      requires AtLayer(net, batch, x, l) && Cached(net, rows, batch, l)
      modifies this
      ensures AtLayer(net, batch, y, l + 1) && Cached(net, rows, batch, l + 1) && Backed(net, rows, batch)
      ensures OnlyWritten(old(rows), rows, batch)
      ensures |y| == |x| == |rs| && forall s :: 0 <= s < |rs| ==> Attended(net, rows, rs[s], l, x[s], y[s])
    {
      hide Backed, Cached, AtLayer, Attended, Hidden, Written, OnlyLayer;
      ghost var was := rows;
      WriteRows(net, rs, batch, x, l);
      OnlyOne(was, rows, batch, l);
      WriteOk(net, was, rows, batch, x, l);
      BackedStays(net, was, rows, batch);
      y := AttendRows(net, rs, batch, x, l);
    }

    /** the first half: every batch row caches its row of the layer */
    method WriteRows<Hid(!new)>(net: Net<Hid, Row>, rs: seq<DecodeRow>, ghost batch: seq<BatchRow>, x: seq<Hid>, l: nat)
      requires Describes(rs, batch) && AtLayer(net, batch, x, l)
      modifies this
      ensures |x| == |rs| && OnlyLayer(old(rows), rows, batch, l)
      ensures forall t :: 0 <= t < |batch| ==> var key := (batch[t].slot, l, batch[t].Pos());
                key in rows && rows[key] == net.key(l, x[t], batch[t].Pos())
    {
      ghost var was := rows;
      var s := 0;
      while s < |rs|
        invariant 0 <= s <= |rs|
        invariant forall t :: 0 <= t < s ==> var key := (batch[t].slot, l, batch[t].Pos());
                    key in rows && rows[key] == net.key(l, x[t], batch[t].Pos())
        invariant OnlyLayer(was, rows, batch, l)
      {
        assert At(batch[s], rs[s].slot, rs[s].pos);
        rows := rows[(rs[s].slot, l, rs[s].pos) := net.key(l, x[s], rs[s].pos)];
        s := s + 1;
      }
    }

    /** the second half: every batch row attends over the cached rows of its slot */
    method AttendRows<Hid(!new)>(net: Net<Hid, Row>, rs: seq<DecodeRow>, ghost batch: seq<BatchRow>, x: seq<Hid>,
                          l: nat)
        returns (y: seq<Hid>)
      requires Describes(rs, batch) && Backed(net, rows, batch) && Cached(net, rows, batch, l + 1) && l < net.layers
      requires AtLayer(net, batch, x, l) && |x| == |rs|
      requires forall t :: 0 <= t < |batch| ==> var key := (batch[t].slot, l, batch[t].Pos());
                 key in rows && rows[key] == net.key(l, x[t], batch[t].Pos())
      ensures AtLayer(net, batch, y, l + 1) && |y| == |rs|
      ensures forall s :: 0 <= s < |rs| ==> Attended(net, rows, rs[s], l, x[s], y[s])
    {
      hide Backed, Cached, Attended;
      y := [];
      while |y| < |rs|
        invariant |y| <= |rs|
        invariant forall t :: 0 <= t < |y| ==> y[t] == Hidden(net, batch[t].context, batch[t].Pos(), l + 1)
        invariant forall t :: 0 <= t < |y| ==> Attended(net, rows, rs[t], l, x[t], y[t])
      {
        ReadOk(net, rows, batch, |y|, l);
        var ks := ReadRows(net, rs[|y|].slot, rs[|y|].pos, batch[|y|].context, l);
        ghost var t := |y|;
        y := y + [net.block(l, x[|y|], ks, rs[|y|].pos)];
        IsAttended(net, rows, rs[t], l, x[t], y[t], ks);
      }
    }

    /** layers_forward_rows */
    method LayersForward<Hid(!new)>(net: Net<Hid, Row>, rs: seq<DecodeRow>,
                             ghost batch: seq<BatchRow>) returns (x: seq<Hid>)
      requires Fits(rs) && Describes(rs, batch) && Backed(net, rows, batch)
      modifies this
      ensures AtLayer(net, batch, x, net.layers) && Cached(net, rows, batch, net.layers)
      ensures OnlyWritten(old(rows), rows, batch)
    {
      hide Backed, Cached, AtLayer, Written;
      x := EmbedRows(net, rs, batch);
      var l := 0;
      while l < net.layers
        invariant 0 <= l <= net.layers && OnlyWritten(old(rows), rows, batch)
        invariant AtLayer(net, batch, x, l) && Cached(net, rows, batch, l) && Backed(net, rows, batch)
      {
        x := ForwardLayer(net, rs, batch, x, l);
        l := l + 1;
      }
    }

    // ---------- the entry points ----------

    /** forward over new tokens of one slot, in the positions from base on */
    method ForwardOne<Hid(!new)>(net: Net<Hid, Row>, slot: nat, ids: seq<Token>, base: nat, ghost hist: seq<Token>)
        returns (x: seq<Hid>)
      requires slot < slots && ids != [] && base + |ids| <= maxT && |hist| == base && Holds(net, rows, slot, hist, base)
      modifies this
      ensures |x| == |ids| && Holds(net, rows, slot, hist + ids, base + |ids|) && Untouched(old(rows), rows, slot)
      ensures forall s :: 0 <= s < |ids| ==> x[s] == Hidden(net, hist + ids[..s + 1], base + s, net.layers)
    {
      ghost var batch := seq(|ids|, s requires 0 <= s < |ids| => BatchRow(slot, hist + ids[..s + 1]));
      ContiguousOk(net, rows, slot, hist, ids, batch);
      var rs := seq(|ids|, s requires 0 <= s < |ids| => DecodeRow(slot, ids[s], base + s));
      x := LayersForward(net, rs, batch);
      ContiguousHolds(net, old(rows), rows, slot, hist, ids, batch);
    }

    /** step: the logits after the last of the new tokens */
    method Step<Hid(!new)>(net: Net<Hid, Row>, slot: nat, ids: seq<Token>, base: nat,
                    ghost hist: seq<Token>) returns (lo: seq<real>)
      requires slot < slots && ids != [] && base + |ids| <= maxT && |hist| == base && Holds(net, rows, slot, hist, base)
      modifies this
      ensures lo == Logits(net, hist + ids)
      ensures Holds(net, rows, slot, hist + ids, base + |ids|) && Untouched(old(rows), rows, slot)
    {
      var x := ForwardOne(net, slot, ids, base, hist);
      assert ids[..|ids|] == ids;
      lo := net.head(x[|ids| - 1]);
    }

    /** step_all: the logits after each of the new tokens; its hidden-state buffer holds 64 rows */
    method StepAll<Hid(!new)>(net: Net<Hid, Row>, slot: nat, ids: seq<Token>, base: nat, ghost hist: seq<Token>)
        returns (lo: seq<seq<real>>)
      requires slot < slots && 0 < |ids| <= 64 && base + |ids| <= maxT
      requires |hist| == base && Holds(net, rows, slot, hist, base)
      modifies this
      ensures |lo| == |ids| && forall s :: 0 <= s < |ids| ==> lo[s] == Logits(net, hist + ids[..s + 1])
      ensures Holds(net, rows, slot, hist + ids, base + |ids|) && Untouched(old(rows), rows, slot)
    {
      var x := ForwardOne(net, slot, ids, base, hist);
      ghost var now := rows;
      lo := [];
      while |lo| < |ids|
        invariant |lo| <= |ids| && rows == now
        invariant forall s :: 0 <= s < |lo| ==> lo[s] == Logits(net, hist + ids[..s + 1])
      {
        lo := lo + [net.head(x[|lo|])];
      }
    }

    /** step_decode_batch: one token from each of several sequences; nothing happens when a row is refused */
    method StepDecodeBatch<Hid(!new)>(net: Net<Hid, Row>, vocab: nat, rs: seq<DecodeRow>, ghost hists: seq<seq<Token>>)
        returns (ok: bool, lo: seq<seq<real>>)
      requires |hists| == |rs| && forall s :: 0 <= s < |rs| ==> rs[s].slot < slots && |hists[s]| == rs[s].pos
      requires Shaped(net.layers) && forall s :: 0 <= s < |rs| ==> Holds(net, rows, rs[s].slot, hists[s], rs[s].pos)
      modifies this
      ensures ok <==> Acceptable(rs, vocab, net.layers)
      ensures !ok ==> rows == old(rows)
      ensures ok ==> |lo| == |rs| && forall s :: 0 <= s < |rs| ==> lo[s] == Logits(net, hists[s] + [rs[s].token])
      ensures ok ==> forall s :: 0 <= s < |rs| ==> Holds(net, rows, rs[s].slot, hists[s] + [rs[s].token], rs[s].pos + 1)
      ensures forall k: nat :: (forall s :: 0 <= s < |rs| ==> rs[s].slot != k) ==> SlotKept(old(rows), rows, k)
    {
      lo := [];
      ok := Check(rs, vocab, net.layers);
      if !ok { return; }
      ghost var batch := seq(|rs|, s requires 0 <= s < |rs| => BatchRow(rs[s].slot, hists[s] + [rs[s].token]));
      RaggedOk(net, rows, rs, hists, batch);
      var x := LayersForward(net, rs, batch);
      RaggedHolds(net, old(rows), rows, rs, hists, batch);
      ghost var now := rows;
      while |lo| < |rs|
        invariant |lo| <= |rs| && rows == now
        invariant forall s :: 0 <= s < |lo| ==> lo[s] == Logits(net, hists[s] + [rs[s].token])
      {
        lo := lo + [net.head(x[|lo|])];
      }
      return true, lo;
    }
  }

  ghost predicate SlotKept<Row(!new)>(was: Store<Row>, kv: Store<Row>, slot: nat) {
    forall l: nat, i: nat :: (slot, l, i) in was ==> (slot, l, i) in kv && kv[(slot, l, i)] == was[(slot, l, i)]
  }

  ghost predicate RaggedRows(rs: seq<DecodeRow>, hists: seq<seq<Token>>, batch: seq<BatchRow>) {
    && |hists| == |rs| == |batch|
    && (forall s :: 0 <= s < |rs| ==>
        |hists[s]| == rs[s].pos && batch[s] == BatchRow(rs[s].slot, hists[s] + [rs[s].token]))
    && (forall s, t :: 0 <= s < t < |rs| ==> rs[s].slot != rs[t].slot)
  }

  lemma RaggedOk<Hid(!new), Row(!new)>(net: Net<Hid, Row>, kv: Store<Row>, rs: seq<DecodeRow>, hists: seq<seq<Token>>,
                     batch: seq<BatchRow>)
    requires RaggedRows(rs, hists, batch)
    requires forall s :: 0 <= s < |rs| ==> Holds(net, kv, rs[s].slot, hists[s], rs[s].pos)
    ensures Describes(rs, batch) && Backed(net, kv, batch)
  {
    forall s | 0 <= s < |batch| ensures BackedRow(net, kv, batch, batch[s]) {
      forall i: nat | i < batch[s].Pos() ensures BackedAt(net, kv, batch, batch[s], i) {
        var c := batch[s].context;
        assert !Written(batch, rs[s].slot, i);
        assert c[..i + 1] == hists[s][..i + 1];
        forall l | 0 <= l < net.layers ensures RowOk(net, kv, rs[s].slot, c, i, l) {
          assert RowOk(net, kv, rs[s].slot, hists[s], i, l);
          Causal(net, c, hists[s], i, l);
        }
      }
    }
  }

  lemma RaggedHolds<Hid(!new), Row(!new)>(net: Net<Hid, Row>, was: Store<Row>, kv: Store<Row>, rs: seq<DecodeRow>,
                                          hists: seq<seq<Token>>, batch: seq<BatchRow>)
    requires RaggedRows(rs, hists, batch) && Placed(batch)
    requires forall s :: 0 <= s < |rs| ==> Holds(net, was, rs[s].slot, hists[s], rs[s].pos)
    requires OnlyWritten(was, kv, batch) && Cached(net, kv, batch, net.layers)
    ensures forall s :: 0 <= s < |rs| ==> Holds(net, kv, rs[s].slot, hists[s] + [rs[s].token], rs[s].pos + 1)
    ensures forall k: nat :: (forall s :: 0 <= s < |rs| ==> rs[s].slot != k) ==> SlotKept(was, kv, k)
  {
    forall s | 0 <= s < |rs| ensures Holds(net, kv, rs[s].slot, hists[s] + [rs[s].token], rs[s].pos + 1) {
      var c := batch[s].context;
      forall l: nat, i: nat | l < net.layers && i < |c| ensures RowOk(net, kv, rs[s].slot, c, i, l) {
        if i < rs[s].pos {
          assert !Written(batch, rs[s].slot, i);
          assert RowOk(net, was, rs[s].slot, hists[s], i, l);
          assert c[..i + 1] == hists[s][..i + 1];
          Causal(net, c, hists[s], i, l);
        } else {
          assert RowOk(net, kv, batch[s].slot, batch[s].context, batch[s].Pos(), l);
        }
      }
    }
  }

  /** the other slots keep their rows */
  ghost predicate Untouched<Row(!new)>(was: Store<Row>, kv: Store<Row>, slot: nat) {
    forall k: nat, l: nat, i: nat :: k != slot && (k, l, i) in was ==>
        (k, l, i) in kv && kv[(k, l, i)] == was[(k, l, i)]
  }

  ghost predicate Contiguous(slot: nat, hist: seq<Token>, ids: seq<Token>, batch: seq<BatchRow>) {
    |batch| == |ids| && forall s :: 0 <= s < |ids| ==> batch[s] == BatchRow(slot, hist + ids[..s + 1])
  }

  lemma ContiguousOk<Hid(!new), Row(!new)>(net: Net<Hid, Row>, kv: Store<Row>, slot: nat, hist: seq<Token>,
                         ids: seq<Token>, batch: seq<BatchRow>)
    requires Contiguous(slot, hist, ids, batch) && Holds(net, kv, slot, hist, |hist|)
    ensures Placed(batch) && Backed(net, kv, batch)
    ensures forall s :: 0 <= s < |batch| ==> batch[s].Pos() == |hist| + s
  {
    forall s | 0 <= s < |batch| ensures BackedRow(net, kv, batch, batch[s]) {
      forall i: nat | i < batch[s].Pos() ensures BackedAt(net, kv, batch, batch[s], i) {
        var c := batch[s].context;
        if i < |hist| {
          assert !Written(batch, slot, i);
          assert c[..i + 1] == hist[..i + 1];
          forall l | 0 <= l < net.layers ensures RowOk(net, kv, slot, c, i, l) {
            assert RowOk(net, kv, slot, hist, i, l);
            Causal(net, c, hist, i, l);
          }
        } else {
          assert At(batch[i - |hist|], slot, i);
          assert c[..i + 1] == batch[i - |hist|].context;
        }
      }
    }
  }

  lemma ContiguousHolds<Hid(!new), Row(!new)>(net: Net<Hid, Row>, was: Store<Row>, kv: Store<Row>, slot: nat,
                                              hist: seq<Token>, ids: seq<Token>, batch: seq<BatchRow>)
    requires Contiguous(slot, hist, ids, batch) && Placed(batch) && Holds(net, was, slot, hist, |hist|)
    requires OnlyWritten(was, kv, batch) && Cached(net, kv, batch, net.layers)
    ensures Holds(net, kv, slot, hist + ids, |hist + ids|) && Untouched(was, kv, slot)
  {
    var c := hist + ids;
    forall l: nat, i: nat | l < net.layers && i < |c| ensures RowOk(net, kv, slot, c, i, l) {
      if i < |hist| {
        assert !Written(batch, slot, i);
        assert RowOk(net, was, slot, hist, i, l);
        assert c[..i + 1] == hist[..i + 1];
        Causal(net, c, hist, i, l);
      } else {
        var s := i - |hist|;
        assert RowOk(net, kv, batch[s].slot, batch[s].context, batch[s].Pos(), l);
        assert c[..i + 1] == batch[s].context[..i + 1];
        Causal(net, c, batch[s].context, i, l);
      }
    }
  }
}
