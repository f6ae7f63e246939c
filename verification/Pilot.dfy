/** The pilot thread's real loads against the main thread: every interleaving of the mutex sections.

    A step is one section under `g_pilot_mx`, or one stretch of the worker's read outside it, or one step of a block of
    `moe` on the slots.  The slots are those of module Experts, the steps of a block those of module MoeSteps. */
module Pilot {
  import opened Experts
  import MoeSteps

  datatype Main = Outside | Waiting(l: nat, woken: bool) | InMoe(l: nat, p: MoeSteps.Phase)

  /** the worker between its two mutex sections: reading, or done reading with the label written on success */
  datatype Worker =
    | Idle
    | Reading(l: nat, slot: nat, isNew: bool, eid: nat)
    | Read(l: nat, slot: nat, isNew: bool, ok: bool)

  datatype State = State(cur: int, inflight: seq<nat>, main: Main, worker: Worker, bank: Bank)

  /** expert count, LRU capacity, and which layers have a router (the MTP layer is the last one) */
  datatype Net = Net(E: nat, cap: nat, sparse: set<nat>)

  // ---------- steps of the main thread ----------

  /** a new forward: ownership restarts */
  ghost predicate Reset(s: State, t: State) {
    s.main.Outside? && t == s.(cur := -1)
  }

  /** moe(l) is entered in layer order; the MTP layer may be entered again */
  ghost predicate InOrder(n: Net, cur: int, l: nat) {
    l in n.sparse && (cur == l || (cur < l && forall k: nat :: k in n.sparse ==> k <= cur || l <= k))
  }

  ghost predicate Enter(n: Net, s: State, t: State, l: nat) {
    && s.main.Outside? && InOrder(n, s.cur, l) && l < |s.inflight| && l < |s.bank.cells|
    && t == s.(cur := l, main := if s.inflight[l] > 0 then Waiting(l, false) else InMoe(l, MoeSteps.Rest))
  }

  ghost predicate Wake(s: State, t: State) {
    && s.main.Waiting? && s.main.woken && s.main.l < |s.inflight|
    && t == s.(main := if s.inflight[s.main.l] > 0 then Waiting(s.main.l, false) else InMoe(s.main.l, MoeSteps.Rest))
  }

  /** a condition variable may wake its waiter without a broadcast */
  ghost predicate Spurious(s: State, t: State) {
    s.main.Waiting? && t == s.(main := s.main.(woken := true))
  }

  /** one step of a block of moe(l): the hit it stamps, the working slot it fills, the swap it makes */
  ghost predicate Work(n: Net, s: State, t: State) {
    && s.main.InMoe? && t.main.InMoe? && t.main.l == s.main.l < |s.bank.cells| && Shape(s.bank, n.cap)
    && MoeSteps.Step(s.bank, s.main.p, t.bank, t.main.p, s.main.l, n.E, n.cap)
    && t == s.(bank := t.bank, main := t.main)
  }

  ghost predicate Leave(s: State, t: State) {
    s.main.InMoe? && s.main.p.Rest? && t == s.(main := Outside)
  }

  // ---------- steps of the worker ----------

  ghost predicate ResidentAt(b: Bank, l: nat, eid: nat)
    requires l < |b.cells| == |b.pin| == |b.ecn| && b.ecn[l] <= |b.cells[l]|
  {
    || (exists y :: 0 <= y < |b.pin[l]| && b.pin[l][y].eid == eid)
    || exists z :: 0 <= z < b.ecn[l] && b.cells[l][z].eid == eid
  }

  ghost function WithCell(b: Bank, l: nat, z: nat, s: Slot): Bank
    requires l < |b.cells| && z < |b.cells[l]|
  {
    b.(cells := b.cells[l := b.cells[l][z := s]])
  }

  /** first section: drop, skip, or hide a free or least recently used slot and announce the load */
  ghost predicate Begin(n: Net, s: State, t: State, l: nat, eid: nat, slot: nat)
    requires Shape(s.bank, n.cap)
  {
    && s.worker.Idle? && l < |s.bank.cells| <= |s.inflight| && eid < n.E && n.cap > 0 && l in n.sparse
    && if l <= s.cur || ResidentAt(s.bank, l, eid) then t == s
       else
         var isNew := s.bank.ecn[l] < n.cap;
         && slot < n.cap && (isNew ==> slot == s.bank.ecn[l])
         && (!isNew ==> forall y :: 0 <= y < n.cap ==> s.bank.cells[l][slot].used <= s.bank.cells[l][y].used)
         && t == s.(worker := Reading(l, slot, isNew, eid), inflight := s.inflight[l := s.inflight[l] + 1],
                    bank := WithCell(s.bank, l, slot, s.bank.cells[l][slot].(eid := -1)))
  }

  /** outside the mutex the buffer is overwritten: until the label is written its contents are nobody's */
  ghost predicate Scribble(n: Net, s: State, t: State)
    requires Shape(s.bank, n.cap)
  {
    && s.worker.Reading? && s.worker.l < |s.bank.cells| && s.worker.slot < n.cap
    && var c := s.bank.cells[s.worker.l][s.worker.slot];
       var c' := c.(slab := if c.slab == 0 then s.bank.slabs + 1 else c.slab, holds := Blank);
       t == s.(bank := WithCell(s.bank, s.worker.l, s.worker.slot, c').(slabs := SlabsAfter(c, s.bank.slabs)))
  }

  /** the read ends: on success contents then label; on failure the slot stays hidden, its buffer kept or freed */
  ghost predicate Finish(n: Net, s: State, t: State, ok: bool, freed: bool)
    requires Shape(s.bank, n.cap)
  {
    && s.worker.Reading? && s.worker.l < |s.bank.cells| && s.worker.slot < n.cap
    && var (l, z) := (s.worker.l, s.worker.slot);
       var c := s.bank.cells[l][z];
       t == s.(worker := Read(l, z, s.worker.isNew, ok),
               bank := WithCell(s.bank, l, z, if ok then c.(eid := s.worker.eid, holds := Of(l, s.worker.eid))
                                              else c.(holds := Blank, slab := if freed then 0 else c.slab)))
  }

  /** second section: stamp and publish, drop the count, broadcast */
  ghost predicate Publish(n: Net, s: State, t: State)
    requires Shape(s.bank, n.cap)
  {
    && s.worker.Read? && s.worker.l < |s.bank.cells| <= |s.inflight| && s.worker.slot < n.cap
    && s.inflight[s.worker.l] > 0
    && var (l, z) := (s.worker.l, s.worker.slot);
       t == s.(worker := Idle, inflight := s.inflight[l := s.inflight[l] - 1],
               main := if s.main.Waiting? then s.main.(woken := true) else s.main,
               bank := if s.worker.ok then Published(s.bank, l, z, s.worker.isNew) else s.bank)
  }

  ghost function Published(b: Bank, l: nat, z: nat, isNew: bool): Bank
    requires l < |b.cells| == |b.ecn| && z < |b.cells[l]|
  {
    var b' := WithCell(b, l, z, b.cells[l][z].(used := b.clock + 1)).(clock := b.clock + 1);
    if isNew then b'.(ecn := b'.ecn[l := z + 1]) else b'
  }

  ghost predicate MainStep(n: Net, s: State, t: State) {
    Reset(s, t) || Wake(s, t) || Spurious(s, t) || Work(n, s, t) || Leave(s, t) || exists l: nat :: Enter(n, s, t, l)
  }

  ghost predicate WorkerStep(n: Net, s: State, t: State) {
    && Shape(s.bank, n.cap)
    && (Scribble(n, s, t) || Publish(n, s, t)
        || (exists l: nat, eid: nat, slot: nat :: Begin(n, s, t, l, eid, slot))
        || exists ok, freed :: Finish(n, s, t, ok, freed))
  }

  ghost predicate Next(n: Net, s: State, t: State) {
    MainStep(n, s, t) || WorkerStep(n, s, t)
  }

  // ---------- the invariant ----------

  ghost predicate Busy(s: State) {
    s.worker.Reading? || s.worker.Read?
  }

  ghost function Target(s: State): int {
    if Busy(s) then s.worker.l else -1
  }

  ghost predicate Counts(s: State) {
    forall l: nat :: l < |s.inflight| ==> s.inflight[l] == if Target(s) == l then 1 else 0
  }

  /** the load targets a layer above the owned one, or main waits for it at the barrier */
  ghost predicate Above(n: Net, s: State) {
    Busy(s) ==> s.worker.l in n.sparse && (s.worker.l > s.cur || (s.worker.l == s.cur && s.main.Waiting?))
  }

  ghost predicate MainOk(s: State) {
    && (s.main.InMoe? ==> s.main.l == s.cur && Target(s) != s.main.l && s.main.l < |s.bank.cells|)
    && (s.main.Waiting? ==> s.main.l == s.cur && s.main.l < |s.inflight| && s.main.l < |s.bank.cells|)
    && (s.main.Waiting? ==> s.main.woken || Target(s) == s.main.l)
  }

  /** the worker's slot: outside the LRU or hidden in a full one until labelled; the expert resident nowhere else */
  ghost predicate WorkerOk(n: Net, s: State)
    requires Shape(s.bank, n.cap)
  {
    Busy(s) ==>
      && s.worker.l < |s.bank.cells| && s.worker.slot < n.cap
      && (if s.worker.isNew then s.worker.slot == s.bank.ecn[s.worker.l] else s.bank.ecn[s.worker.l] == n.cap)
      && var c := s.bank.cells[s.worker.l][s.worker.slot];
         && (s.worker.Reading? ==> c.eid == -1 && s.worker.eid < n.E && !ResidentAt(s.bank, s.worker.l, s.worker.eid))
         && (s.worker.Read? && !s.worker.ok ==> c.eid == -1)
         && (s.worker.Read? && s.worker.ok ==> 0 <= c.eid < n.E && c.holds == Of(s.worker.l, c.eid))
         && (s.worker.Read? && s.worker.ok && s.worker.isNew ==> !ResidentAt(s.bank, s.worker.l, c.eid))
  }

  ghost predicate Inv(n: Net, s: State) {
    && Ok(s.bank, n.E, n.cap) && |s.bank.cells| <= |s.inflight|
    && Counts(s) && Above(n, s) && MainOk(s) && WorkerOk(n, s)
  }

  /** the block of moe is in order: its misses are resident nowhere in its layer, and no cell it filled is swapped
      again */
  ghost predicate BlockOk(n: Net, s: State)
    requires Shape(s.bank, n.cap)
  {
    s.main.InMoe? ==> s.main.l < |s.bank.cells| && MoeSteps.PhaseOk(s.bank, s.main.p, s.main.l, n.E, n.cap)
  }

  ghost predicate Init(n: Net, s: State) {
    && Ok(s.bank, n.E, n.cap) && |s.bank.cells| <= |s.inflight| && s.cur == -1 && s.main.Outside? && s.worker.Idle?
    && forall l: nat :: l < |s.inflight| ==> s.inflight[l] == 0
  }

  lemma InitInv(n: Net, s: State)
    requires Init(n, s)
    ensures Inv(n, s) && BlockOk(n, s)
  {
    hide Ok;
  }

  // ---------- writes of the worker keep the slots good ----------

  /** replacing one cell of layer l */
  lemma CellOk(n: Net, b: Bank, b': Bank, l: nat, z: nat)
    requires Ok(b, n.E, n.cap) && l < |b.cells| && z < n.cap && Shape(b', n.cap)
    requires b'.pin == b.pin && b'.ws == b.ws && |b'.cells| == |b.cells|
    requires forall k: nat :: k < |b.cells| && k != l ==> b'.cells[k] == b.cells[k] && b'.ecn[k] == b.ecn[k]
    requires forall y :: 0 <= y < n.cap && y != z ==> b'.cells[l][y] == b.cells[l][y]
    requires b.clock <= b'.clock && LayerOk(b', l, n.E, n.cap)
    requires var s, s' := b.cells[l][z], b'.cells[l][z];
      || ((s'.slab == s.slab || s'.slab == 0) && b'.slabs == b.slabs)
      || (s'.slab == b.slabs + 1 && b'.slabs == b.slabs + 1)
    ensures Ok(b', n.E, n.cap)
  {
    hide LruOk, PinsOk, RoomOk;
    assert b'.cells[l] == b.cells[l][z := b'.cells[l][z]];
    OtherLayers(b, b', l, n.E, n.cap);
    var rows, rows' := Rows(b), Rows(b');
    assert rows[l] == b.cells[l] && rows'[l] == b'.cells[l] && At(rows, l, z);
    forall a: nat | a < |rows| && a != l ensures rows'[a] == rows[a] {}
    hide Owned, Rows;
    if b'.cells[l][z].slab == b.slabs + 1 && b'.slabs == b.slabs + 1 {
      FreshOwned(rows, b.slabs, l, z, b'.cells[l][z]);
      assert rows' == rows[l := rows[l][z := b'.cells[l][z]]];
    } else {
      SameSlabs(rows, rows', b.slabs);
    }
  }

  lemma BeginInv(n: Net, s: State, t: State, l: nat, eid: nat, slot: nat)
    requires Inv(n, s) && Begin(n, s, t, l, eid, slot)
    ensures Inv(n, t)
  {
    hide Owned;
    if l > s.cur && !ResidentAt(s.bank, l, eid) {
      var b, b' := s.bank, t.bank;
      assert LayerOk(b, l, n.E, n.cap);
      LruBounded(b, l, n.E, n.cap);
      var lru, lru' := b.cells[l][..b.ecn[l]], b'.cells[l][..b'.ecn[l]];
      assert forall z :: 0 <= z < |lru| ==> lru'[z] == if z == slot then lru[z].(eid := -1) else lru[z];
      CellOk(n, b, b', l, slot);
    }
  }

  lemma ScribbleInv(n: Net, s: State, t: State)
    requires Inv(n, s) && Scribble(n, s, t)
    ensures Inv(n, t)
  {
    hide Owned, LruOk, RoomOk, PinsOk;
    var b, b', l, slot := s.bank, t.bank, s.worker.l, s.worker.slot;
    assert LayerOk(b, l, n.E, n.cap);
    LabelLru(b.pin[l], b.cells[l], b'.cells[l], b.ecn[l], l, n.E, n.cap, b.clock, slot);
    CellOk(n, b, b', l, slot);
  }

  lemma FinishInv(n: Net, s: State, t: State, ok: bool, freed: bool)
    requires Inv(n, s) && Finish(n, s, t, ok, freed)
    ensures Inv(n, t)
  {
    hide Owned, LruOk, RoomOk, PinsOk;
    var b, b', l, slot := s.bank, t.bank, s.worker.l, s.worker.slot;
    assert LayerOk(b, l, n.E, n.cap);
    LabelLru(b.pin[l], b.cells[l], b'.cells[l], b.ecn[l], l, n.E, n.cap, b.clock, slot);
    CellOk(n, b, b', l, slot);
  }

  /** labelling a hidden slot, or leaving it hidden, keeps the LRU good */
  lemma LabelLru(pin: seq<Slot>, c: seq<Slot>, c': seq<Slot>, ecn: nat, l: nat, E: nat, cap: nat, clock: nat, slot: nat)
    requires ecn <= |c| == |c'| && slot < |c| && LruOk(pin, c[..ecn], l, E, clock) && RoomOk(|pin|, c[..ecn], E, cap)
    requires (forall y :: 0 <= y < |c| && y != slot ==> c'[y] == c[y])
    requires c[slot].eid == -1 && c'[slot].used == c[slot].used
    requires c'[slot].eid == -1 || (0 <= c'[slot].eid < E && c'[slot].holds == Of(l, c'[slot].eid))
    requires c'[slot].eid >= 0 ==> forall y :: 0 <= y < |pin| ==> pin[y].eid != c'[slot].eid
    requires c'[slot].eid >= 0 ==> forall y :: 0 <= y < ecn ==> c[y].eid != c'[slot].eid
    ensures LruOk(pin, c'[..ecn], l, E, clock) && RoomOk(|pin|, c'[..ecn], E, cap)
  {
    var lru, lru' := c[..ecn], c'[..ecn];
    assert forall z :: 0 <= z < ecn ==> lru'[z] == c'[z] && lru[z] == c[z];
  }

  lemma PublishInv(n: Net, s: State, t: State)
    requires Inv(n, s) && Publish(n, s, t)
    ensures Inv(n, t)
  {
    hide Owned, LruOk, RoomOk, PinsOk;
    var b, b', l, slot := s.bank, t.bank, s.worker.l, s.worker.slot;
    if s.worker.ok {
      assert LayerOk(b, l, n.E, n.cap);
      PublishLru(b.pin[l], b.cells[l], b'.cells[l], b.ecn[l], b'.ecn[l], l, n.E, n.cap, b.clock, slot);
      CellOk(n, b, b', l, slot);
    }
  }

  /** stamping a labelled slot, and counting it in if it is new, keeps the LRU good */
  lemma PublishLru(pin: seq<Slot>, c: seq<Slot>, c': seq<Slot>, ecn: nat, ecn': nat, l: nat, E: nat, cap: nat,
                   clock: nat, slot: nat)
    requires ecn <= |c| == |c'| == cap && slot < |c|
    requires LruOk(pin, c[..ecn], l, E, clock) && RoomOk(|pin|, c[..ecn], E, cap)
    requires c' == c[slot := c[slot].(used := clock + 1)] && 0 <= c[slot].eid < E && c[slot].holds == Of(l, c[slot].eid)
    requires ecn' == ecn || (ecn' == ecn + 1 <= cap && slot == ecn)
    requires ecn' == ecn + 1 ==> forall y :: 0 <= y < |pin| ==> pin[y].eid != c[slot].eid
    requires ecn' == ecn + 1 ==> forall y :: 0 <= y < ecn ==> c[y].eid != c[slot].eid
    ensures LruOk(pin, c'[..ecn'], l, E, clock + 1) && RoomOk(|pin|, c'[..ecn'], E, cap)
  {
    var lru, lru' := c[..ecn], c'[..ecn'];
    assert forall z :: 0 <= z < ecn ==> lru[z] == c[z];
    assert forall z :: 0 <= z < ecn' ==> lru'[z] == c'[z];
  }

  lemma MainInv(n: Net, s: State, t: State)
    requires Inv(n, s) && BlockOk(n, s) && MainStep(n, s, t)
    ensures Inv(n, t) && BlockOk(n, t)
  {
    InvShape(n, s);
    hide Ok, MoeSteps.PhaseOk;
    if Work(n, s, t) {
      WorkKeeps(n, s, t);
    } else {
      RestOk(n, t);
    }
  }

  lemma RestOk(n: Net, t: State)
    requires Shape(t.bank, n.cap) && (t.main.InMoe? ==> t.main.l < |t.bank.cells| && t.main.p.Rest?)
    ensures BlockOk(n, t)
  {
  }

  lemma WorkKeeps(n: Net, s: State, t: State)
    requires Inv(n, s) && BlockOk(n, s) && Work(n, s, t)
    ensures Inv(n, t) && BlockOk(n, t)
  {
    MoeSteps.StepKeeps(s.bank, s.main.p, t.bank, t.main.p, s.main.l, n.E, n.cap);
    hide LayerOk, Owned, MoeSteps.Step, MoeSteps.PhaseOk;
  }

  /** a step of the worker leaves the layer of a running block, the working set and the pins alone */
  lemma WorkerApart(n: Net, s: State, t: State)
    requires Inv(n, s) && BlockOk(n, s) && WorkerStep(n, s, t) && Inv(n, t)
    ensures BlockOk(n, t)
  {
    if s.main.InMoe? {
      var l := s.main.l;
      ApartWrites(n, s, t, l);
      hide WorkerStep, Inv, MoeSteps.PhaseOk;
      MoeSteps.OthersKeep(s.bank, s.main.p, t.bank, l, n.E, n.cap);
    }
  }

  lemma ApartWrites(n: Net, s: State, t: State, l: nat)
    requires Shape(s.bank, n.cap) && Shape(t.bank, n.cap)
    requires WorkerStep(n, s, t) && s.main.InMoe? && s.main.l == l == s.cur
    requires l < |s.bank.cells| && Target(s) != l
    ensures t.main == s.main && |t.bank.cells| == |s.bank.cells| && s.bank.clock <= t.bank.clock
    ensures t.bank.pin == s.bank.pin && t.bank.cells[l] == s.bank.cells[l]
    ensures t.bank.ecn[l] == s.bank.ecn[l] && t.bank.ws == s.bank.ws
  {
  }

  lemma NextInv(n: Net, s: State, t: State)
    requires Inv(n, s) && BlockOk(n, s) && Next(n, s, t)
    ensures Inv(n, t) && BlockOk(n, t)
  {
    InvShape(n, s);
    hide Inv, Begin, Scribble, Finish, Publish, MainStep, BlockOk;
    if MainStep(n, s, t) {
      MainInv(n, s, t);
      return;
    }
    if Scribble(n, s, t) {
      ScribbleInv(n, s, t);
    } else if Publish(n, s, t) {
      PublishInv(n, s, t);
    } else if l: nat, eid: nat, slot: nat :| Begin(n, s, t, l, eid, slot) {
      BeginInv(n, s, t, l, eid, slot);
    } else {
      var ok, freed :| Finish(n, s, t, ok, freed);
      FinishInv(n, s, t, ok, freed);
    }
    InvShape(n, t);
    WorkerApart(n, s, t);
  }

  lemma InvShape(n: Net, s: State)
    requires Inv(n, s)
    ensures Shape(s.bank, n.cap)
  {
  }

  // ---------- every run ----------

  ghost predicate Run(n: Net, tr: seq<State>) {
    && tr != [] && Init(n, tr[0])
    && forall i :: 0 < i < |tr| ==> Next(n, tr[i - 1], tr[i])
  }

  lemma {:induction false} RunInv(n: Net, tr: seq<State>, i: nat)
    requires Run(n, tr) && i < |tr|
    ensures Inv(n, tr[i]) && BlockOk(n, tr[i])
  {
    hide Inv, Next, Init, BlockOk;
    if i == 0 {
      InitInv(n, tr[0]);
    } else {
      RunInv(n, tr, i - 1);
      NextInv(n, tr[i - 1], tr[i]);
    }
  }

  /** while moe(l) runs, no load on l is in flight and every labelled slot of l holds its expert's weights in full */
  lemma MatmulSafe(n: Net, tr: seq<State>, i: nat, l: nat)
    requires Run(n, tr) && i < |tr| && tr[i].main.InMoe? && tr[i].main.l == l
    ensures Inv(n, tr[i]) && l < |tr[i].bank.cells| && tr[i].inflight[l] == 0 && Target(tr[i]) != l && tr[i].cur == l
    ensures forall z :: 0 <= z < tr[i].bank.ecn[l] && tr[i].bank.cells[l][z].eid >= 0 ==>
      tr[i].bank.cells[l][z].holds == Of(l, tr[i].bank.cells[l][z].eid)
    ensures PinsOk(tr[i].bank.pin[l], l, n.E)
  {
    RunInv(n, tr, i);
    hide Owned, Run;
    var b := tr[i].bank;
    assert LayerOk(b, l, n.E, n.cap);
    assert forall z :: 0 <= z < b.ecn[l] ==> b.cells[l][..b.ecn[l]][z] == b.cells[l][z];
  }

  lemma {:induction false} PassedStays(n: Net, tr: seq<State>, i: nat, j: nat, l: nat)
    requires Run(n, tr) && i <= j < |tr| && tr[i].main.InMoe? && tr[i].main.l == l
    requires forall k :: i < k <= j ==> !Reset(tr[k - 1], tr[k])
    ensures l <= tr[j].cur && Target(tr[j]) != l
  {
    hide Ok, Run;
    RunInv(n, tr, i);
    if i < j {
      PassedStays(n, tr, i, j - 1, l);
      RunInv(n, tr, j - 1);
      assert Next(n, tr[j - 1], tr[j]) by { NextAt(n, tr, j); }
    }
  }

  lemma NextAt(n: Net, tr: seq<State>, j: nat)
    requires Run(n, tr) && 0 < j < |tr|
    ensures Next(n, tr[j - 1], tr[j])
  {
    hide Next, Init;
  }

  /** after moe(l) has passed its barrier, no load on l is in flight or starts until a forward resets ownership */
  lemma NoLoadUntilReset(n: Net, tr: seq<State>, i: nat, j: nat, l: nat)
    requires Run(n, tr) && i <= j < |tr| && tr[i].main.InMoe? && tr[i].main.l == l && l < |tr[j].inflight|
    requires forall k :: i < k <= j ==> !Reset(tr[k - 1], tr[k])
    ensures tr[j].inflight[l] == 0 && (Busy(tr[j]) ==> tr[j].worker.l != l)
  {
    hide Ok, Run, Reset;
    PassedStays(n, tr, i, j, l);
    RunInv(n, tr, j);
  }

  /** a waiting main has not missed its broadcast: either it was woken, or the load it waits for is still to publish,
      which wakes it */
  lemma NoLostWakeup(n: Net, tr: seq<State>, i: nat)
    requires Run(n, tr) && i < |tr| && tr[i].main.Waiting? && !tr[i].main.woken
    ensures Busy(tr[i]) && tr[i].worker.l == tr[i].main.l
    ensures Shape(tr[i].bank, n.cap) && forall t :: Publish(n, tr[i], t) ==> t.main.woken && t.inflight[t.main.l] == 0
  {
    hide Run;
    RunInv(n, tr, i);
  }

  // ---------- what the protocol gets done ----------

  /** a request is dropped exactly for an owned or passed layer, or an expert resident there */
  lemma DropsIff(n: Net, s: State, t: State, l: nat, eid: nat, slot: nat)
    requires Shape(s.bank, n.cap) && Begin(n, s, t, l, eid, slot)
    ensures t == s <==> l <= s.cur || !Absent(s.bank, l, eid)
  {
  }

  /** the cell a load takes: a free one, or one used no later than any other */
  lemma TheCell(n: Net, s: State, l: nat) returns (z: nat)
    requires Shape(s.bank, n.cap) && l < |s.bank.cells| && n.cap > 0
    ensures z < n.cap && (s.bank.ecn[l] < n.cap ==> z == s.bank.ecn[l])
    ensures s.bank.ecn[l] == n.cap ==> forall y :: 0 <= y < n.cap ==> s.bank.cells[l][z].used <= s.bank.cells[l][y].used
  {
    if s.bank.ecn[l] < n.cap { return s.bank.ecn[l]; }
    z := OldestOf(s.bank.cells[l], n.cap);
  }

  lemma {:induction false} OldestOf(c: seq<Slot>, m: nat) returns (z: nat)
    requires 0 < m <= |c|
    ensures z < m && forall y :: 0 <= y < m ==> c[z].used <= c[y].used
  {
    if m == 1 {
      z := 0;
    } else {
      z := OldestOf(c, m - 1);
      if c[m - 1].used < c[z].used { z := m - 1; }
    }
  }

  /** layer l after a load of eid into cell z: that cell labelled, whole and stamped last, counted in if it was free,
      and nothing else of the slots moved */
  ghost predicate Landed(n: Net, b: Bank, b': Bank, l: nat, eid: nat, z: nat)
    requires Shape(b, n.cap) && l < |b.cells| && z < n.cap
  {
    && Shape(b', n.cap) && b'.pin == b.pin && b'.ws == b.ws && |b'.cells| == |b.cells| && b'.clock == b.clock + 1
    && b'.ecn == b.ecn[l := if b.ecn[l] < n.cap then b.ecn[l] + 1 else n.cap]
    && (forall k: nat :: k < |b.cells| && k != l ==> b'.cells[k] == b.cells[k])
    && (forall y: nat :: y < n.cap && y != z ==> b'.cells[l][y] == b.cells[l][y])
    && var c := b'.cells[l][z]; c.eid == eid && c.holds == Of(l, eid) && c.slab != 0 && c.used == b'.clock
  }

  /** from every good state an idle worker can load any expert that is not resident into a layer not yet reached */
  lemma LoadLands(n: Net, s: State, l: nat, eid: nat) returns (tr: seq<State>, z: nat)
    requires Inv(n, s) && s.worker.Idle? && l < |s.bank.cells| && l in n.sparse && eid < n.E && n.cap > 0
    requires l > s.cur && Absent(s.bank, l, eid)
    ensures |tr| == 5 && tr[0] == s && forall i :: 0 < i < 5 ==> WorkerStep(n, tr[i - 1], tr[i])
    ensures tr[4].worker.Idle? && tr[4].inflight == s.inflight && tr[4].cur == s.cur
    ensures tr[4].main == if s.main.Waiting? then s.main.(woken := true) else s.main
    ensures Shape(s.bank, n.cap) && z < n.cap && Landed(n, s.bank, tr[4].bank, l, eid, z)
    ensures s.bank.ecn[l] == n.cap ==> forall y :: 0 <= y < n.cap ==> s.bank.cells[l][z].used <= s.bank.cells[l][y].used
  {
    hide Ok, Counts, Above, MainOk, WorkerOk, Landed, WorkerStep, Published, Absent;
    InvShape(n, s);
    z := TheCell(n, s, l);
    var isNew := s.bank.ecn[l] < n.cap;
    var s1 := BeginTo(n, s, l, eid, z);
    var s2 := ScribbleTo(n, s1);
    var s3 := FinishTo(n, s2);
    var t := PublishTo(n, s3);
    LandedIs(n, s.bank, s1.bank, s2.bank, s3.bank, l, eid, z, isNew);
    tr := [s, s1, s2, s3, t];
  }

  /** hidden, overwritten, labelled, published */
  lemma LandedIs(n: Net, b: Bank, b1: Bank, b2: Bank, b3: Bank, l: nat, eid: nat, z: nat, isNew: bool)
    requires Shape(b, n.cap) && l < |b.cells| && z < n.cap && isNew == (b.ecn[l] < n.cap) && (isNew ==> z == b.ecn[l])
    requires b1 == WithCell(b, l, z, b.cells[l][z].(eid := -1))
    requires var c := b1.cells[l][z];
      var c' := c.(slab := if c.slab == 0 then b1.slabs + 1 else c.slab, holds := Blank);
      b2 == WithCell(b1, l, z, c').(slabs := SlabsAfter(c, b1.slabs))
    requires b3 == WithCell(b2, l, z, b2.cells[l][z].(eid := eid, holds := Of(l, eid)))
    ensures Landed(n, b, Published(b3, l, z, isNew), l, eid, z)
  {
  }

  lemma BeginTo(n: Net, s: State, l: nat, eid: nat, z: nat) returns (t: State)
    requires Shape(s.bank, n.cap) && s.worker.Idle? && l < |s.bank.cells| <= |s.inflight| && eid < n.E && n.cap > 0
    requires l in n.sparse && l > s.cur && Absent(s.bank, l, eid) && z < n.cap
    requires s.bank.ecn[l] < n.cap ==> z == s.bank.ecn[l]
    requires s.bank.ecn[l] == n.cap ==> forall y :: 0 <= y < n.cap ==>
        s.bank.cells[l][z].used <= s.bank.cells[l][y].used
    ensures WorkerStep(n, s, t) && Shape(t.bank, n.cap)
    ensures t == s.(worker := Reading(l, z, s.bank.ecn[l] < n.cap, eid), inflight := s.inflight[l := s.inflight[l] + 1],
                    bank := WithCell(s.bank, l, z, s.bank.cells[l][z].(eid := -1)))
  {
    t := s.(worker := Reading(l, z, s.bank.ecn[l] < n.cap, eid), inflight := s.inflight[l := s.inflight[l] + 1],
            bank := WithCell(s.bank, l, z, s.bank.cells[l][z].(eid := -1)));
    assert Begin(n, s, t, l, eid, z);
  }

  lemma ScribbleTo(n: Net, s: State) returns (t: State)
    requires Shape(s.bank, n.cap) && s.worker.Reading? && s.worker.l < |s.bank.cells| && s.worker.slot < n.cap
    ensures WorkerStep(n, s, t) && Shape(t.bank, n.cap)
    ensures var c := s.bank.cells[s.worker.l][s.worker.slot];
      t == s.(bank := WithCell(s.bank, s.worker.l, s.worker.slot,
                               c.(slab := if c.slab == 0 then s.bank.slabs + 1 else c.slab, holds := Blank))
                      .(slabs := SlabsAfter(c, s.bank.slabs)))
  {
    var c := s.bank.cells[s.worker.l][s.worker.slot];
    var c' := c.(slab := if c.slab == 0 then s.bank.slabs + 1 else c.slab, holds := Blank);
    t := s.(bank := WithCell(s.bank, s.worker.l, s.worker.slot, c').(slabs := SlabsAfter(c, s.bank.slabs)));
    assert Scribble(n, s, t);
  }

  lemma FinishTo(n: Net, s: State) returns (t: State)
    requires Shape(s.bank, n.cap) && s.worker.Reading? && s.worker.l < |s.bank.cells| && s.worker.slot < n.cap
    ensures WorkerStep(n, s, t) && Shape(t.bank, n.cap)
    ensures var (x, c) := (s.worker, s.bank.cells[s.worker.l][s.worker.slot]);
      t == s.(worker := Read(x.l, x.slot, x.isNew, true),
              bank := WithCell(s.bank, x.l, x.slot, c.(eid := x.eid, holds := Of(x.l, x.eid))))
  {
    var x, c := s.worker, s.bank.cells[s.worker.l][s.worker.slot];
    t := s.(worker := Read(x.l, x.slot, x.isNew, true),
            bank := WithCell(s.bank, x.l, x.slot, c.(eid := x.eid, holds := Of(x.l, x.eid))));
    assert Finish(n, s, t, true, false);
  }

  lemma PublishTo(n: Net, s: State) returns (t: State)
    requires Shape(s.bank, n.cap) && s.worker.Read?
    requires s.worker.l < |s.bank.cells| <= |s.inflight| && s.worker.slot < n.cap
    requires s.inflight[s.worker.l] > 0 && (s.worker.isNew ==> s.worker.slot == s.bank.ecn[s.worker.l])
    ensures WorkerStep(n, s, t)
    ensures t == s.(worker := Idle, inflight := s.inflight[s.worker.l := s.inflight[s.worker.l] - 1],
                    main := if s.main.Waiting? then s.main.(woken := true) else s.main,
                    bank := if s.worker.ok then Published(s.bank, s.worker.l, s.worker.slot, s.worker.isNew)
                            else s.bank)
  {
    t := s.(worker := Idle, inflight := s.inflight[s.worker.l := s.inflight[s.worker.l] - 1],
            main := if s.main.Waiting? then s.main.(woken := true) else s.main,
            bank := if s.worker.ok then Published(s.bank, s.worker.l, s.worker.slot, s.worker.isNew) else s.bank);
    assert Publish(n, s, t);
  }

  /** a waiting main thread gets through: the load it waits for can end, and then it owns its layer */
  lemma WaitEnds(n: Net, s: State) returns (tr: seq<State>)
    requires Inv(n, s) && BlockOk(n, s) && s.main.Waiting?
    ensures tr != [] && tr[0] == s && forall i :: 0 < i < |tr| ==> Next(n, tr[i - 1], tr[i])
    ensures tr[|tr| - 1].main == InMoe(s.main.l, MoeSteps.Rest)
  {
    hide Ok;
    InvShape(n, s);
    tr := [s];
    var t := s;
    if t.worker.Reading? && t.worker.l == t.main.l {
      var u := FinishTo(n, t);
      NextInv(n, t, u);
      InvShape(n, u);
      tr, t := tr + [u], u;
    }
    if t.worker.Read? && t.worker.l == t.main.l {
      var u := PublishTo(n, t);
      NextInv(n, t, u);
      InvShape(n, u);
      tr, t := tr + [u], u;
    }
    var u := t.(main := InMoe(t.main.l, MoeSteps.Rest));
    assert Wake(t, u);
    tr := tr + [u];
  }

  /** the next layer with a router, or the layer again, can always be entered, and its barrier ends */
  lemma EntersMoe(n: Net, s: State, l: nat) returns (tr: seq<State>)
    requires Inv(n, s) && BlockOk(n, s) && s.main.Outside? && l in n.sparse && l < |s.bank.cells|
    requires s.cur == l || (s.cur < l && forall k: nat :: k in n.sparse ==> k <= s.cur || l <= k)
    ensures tr != [] && tr[0] == s && forall i :: 0 < i < |tr| ==> Next(n, tr[i - 1], tr[i])
    ensures tr[|tr| - 1].main == InMoe(l, MoeSteps.Rest)
  {
    hide Ok, Counts, Above, WorkerOk;
    InvShape(n, s);
    var t := s.(cur := l, main := if s.inflight[l] > 0 then Waiting(l, false) else InMoe(l, MoeSteps.Rest));
    assert Enter(n, s, t, l);
    if t.main.InMoe? { return [s, t]; }
    NextInv(n, s, t);
    var more := WaitEnds(n, t);
    tr := [s] + more;
  }
}
