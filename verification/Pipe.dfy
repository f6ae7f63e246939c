/** The load pipeline: a generation-tagged cursor, dispatch store by store, and any number of workers.

    One step is one atomic load, store or compare-and-swap, one mutex section, or one completed read from disk.
    The window of a dispatch runs from its `njobs` store to the store of `cur`. */
module Pipe {
  datatype Job = Job(layer: nat, eid: nat)

  datatype Worker =
    | Parking(seen: nat)                              // about to take the mutex and compare generations
    | Asleep(seen: nat)                               // in the condition wait
    | Top(seen: nat)                                  // about to load cur
    | Have(gen: nat, i: nat)                          // cur loaded, about to load njobs
    | Checked(gen: nat, i: nat)                       // i < njobs seen, about to compare-and-swap
    | Won(gen: nat, i: nat)                           // about to load layer
    | HasLayer(gen: nat, i: nat, layer: nat)          // about to load eids[i]
    | Loading(gen: nat, i: nat, job: Job)             // reading from disk into ws[i]
    | Done(gen: nat, i: nat)                          // about to store ready[i]

  datatype Main =
    | Idle
    | SetLayer(l: nat, ids: seq<nat>)
    | SetEids(l: nat, ids: seq<nat>, q: nat)
    | Clear(l: nat, ids: seq<nat>, q: nat)
    | Publish(l: nat, ids: seq<nat>)
    | Wake(l: nat, ids: seq<nat>)
    | Wait(l: nat, ids: seq<nat>, q: nat)

  /** shared variables, with ghost hist[q]: the reads completed into slot q since the last publication */
  datatype Core = Core(gen: nat, idx: nat, njobs: nat, layer: nat, eids: seq<nat>, ready: seq<bool>, ws: seq<Job>,
                       hist: seq<seq<Job>>, main: Main)

  datatype State = State(c: Core, pool: seq<Worker>)

  const SLOTS := 64

  ghost predicate Sized(c: Core) {
    |c.eids| == |c.ready| == |c.ws| == |c.hist| == SLOTS
  }

  // ---------- the main thread ----------

  ghost predicate Begin(s: State, t: State, l: nat, ids: seq<nat>) {
    s.c.main.Idle? && |ids| <= SLOTS && t == s.(c := s.c.(njobs := |ids|, main := SetLayer(l, ids)))
  }

  ghost predicate MainStep(s: State, t: State)
    requires Sized(s.c)
  {
    var c := s.c;
    match c.main
    case Idle => exists l: nat, ids: seq<nat> :: Begin(s, t, l, ids)
    case SetLayer(l, ids) => t == s.(c := c.(layer := l, main := SetEids(l, ids, 0)))
    case SetEids(l, ids, q) =>
      if q < |ids| && q < SLOTS then t == s.(c := c.(eids := c.eids[q := ids[q]], main := SetEids(l, ids, q + 1)))
      else t == s.(c := c.(main := Clear(l, ids, 0)))
    case Clear(l, ids, q) =>
      if q < |ids| && q < SLOTS then t == s.(c := c.(ready := c.ready[q := false], main := Clear(l, ids, q + 1)))
      else t == s.(c := c.(main := Publish(l, ids)))
    case Publish(l, ids) =>
      t == s.(c := c.(gen := c.gen + 1, idx := 0, hist := seq(SLOTS, i => []), main := Wake(l, ids)))
    case Wake(l, ids) => t == State(c.(main := Wait(l, ids, 0)), Broadcast(s.pool))
    case Wait(l, ids, q) =>
      if q < |ids| && q < SLOTS then c.ready[q] && t == s.(c := c.(main := Wait(l, ids, q + 1)))
      else t == s.(c := c.(main := Idle))
  }

  function Broadcast(pool: seq<Worker>): (r: seq<Worker>)
    ensures |r| == |pool|
  {
    seq(|pool|, w requires 0 <= w < |pool| => if pool[w].Asleep? then Parking(pool[w].seen) else pool[w])
  }

  // ---------- a worker ----------

  /** the shared variables and the worker after one step of worker x; the weak compare-and-swap may also fail for no
      reason */
  ghost predicate Acts(c: Core, x: Worker, d: Core, y: Worker)
    requires Sized(c)
  {
    match x
    case Parking(seen) => d == c && y == if c.gen == seen then Asleep(seen) else Top(seen)
    case Asleep(seen) => d == c && y == Parking(seen)   // a spurious wake-up
    case Top(seen) => d == c && y == Have(c.gen, c.idx)
    case Have(g, i) => d == c && y == if i >= c.njobs then Parking(g) else Checked(g, i)
    case Checked(g, i) =>
      || (d == c && y == Top(g))
      || (g == c.gen && i == c.idx && d == c.(idx := c.idx + 1) && y == Won(g, i))
    case Won(g, i) => d == c && y == HasLayer(g, i, c.layer)
    case HasLayer(g, i, l) => i < SLOTS && d == c && y == Loading(g, i, Job(l, c.eids[i]))
    case Loading(g, i, job) =>
      i < SLOTS && d == c.(ws := c.ws[i := job], hist := c.hist[i := c.hist[i] + [job]]) && y == Done(g, i)
    case Done(g, i) => i < SLOTS && d == c.(ready := c.ready[i := true]) && y == Top(g)
  }

  ghost predicate WorkerStep(s: State, t: State, w: nat)
    requires Sized(s.c)
  {
    w < |s.pool| == |t.pool| && Acts(s.c, s.pool[w], t.c, t.pool[w]) && t.pool == s.pool[w := t.pool[w]]
  }

  ghost predicate Next(s: State, t: State) {
    Sized(s.c) && (MainStep(s, t) || exists w: nat :: WorkerStep(s, t, w))
  }

  /** inside the window of a dispatch */
  ghost predicate Window(c: Core) {
    c.main.SetLayer? || c.main.SetEids? || c.main.Clear? || c.main.Publish?
  }

  /** no worker wins a compare-and-swap inside the window */
  ghost predicate Quiet(s: State, t: State) {
    Window(s.c) && Window(t.c) ==> t.c.idx == s.c.idx
  }

  // ---------- the invariant of quiet runs ----------

  ghost predicate Holds(w: Worker) {
    w.Won? || w.HasLayer? || w.Loading? || w.Done?
  }

  ghost predicate InBatch(c: Core) {
    c.main.Wake? || c.main.Wait?
  }

  /** the variables as the dispatch has stored them so far */
  ghost predicate MainOk(c: Core)
    requires Sized(c) && c.njobs <= SLOTS
  {
    match c.main
    case Idle => c.idx == c.njobs
    case SetLayer(l, ids) => c.njobs == |ids|
    case SetEids(l, ids, q) => c.njobs == |ids| && c.layer == l && q <= |ids| && c.eids[..q] == ids[..q]
    case Clear(l, ids, q) => Stored(c, l, ids) && q <= |ids| && forall k :: 0 <= k < q ==> !c.ready[k]
    case Publish(l, ids) => Stored(c, l, ids) && forall k :: 0 <= k < |ids| ==> !c.ready[k]
    case Wake(l, ids) => BatchOk(c, l, ids, 0)
    case Wait(l, ids, q) => BatchOk(c, l, ids, q)
  }

  ghost predicate Stored(c: Core, l: nat, ids: seq<nat>)
    requires Sized(c) && c.njobs <= SLOTS
  {
    c.njobs == |ids| && c.layer == l && c.eids[..|ids|] == ids
  }

  /** slots below q are ready; a slot is ready only with its own job in it, read once; a slot not yet grabbed is
      untouched */
  ghost predicate BatchOk(c: Core, l: nat, ids: seq<nat>, q: nat)
    requires Sized(c) && c.njobs <= SLOTS
  {
    && Stored(c, l, ids) && c.idx <= c.njobs && q <= |ids|
    && (forall k :: 0 <= k < q ==> c.ready[k])
    && forall k: nat :: k < |ids| ==> SlotOk(c, Job(l, ids[k]), k)
  }

  ghost predicate SlotOk(c: Core, job: Job, k: nat)
    requires Sized(c) && k < SLOTS
  {
    && (c.ready[k] ==> k < c.idx && c.hist[k] == [job] && c.ws[k] == job)
    && (k >= c.idx ==> c.hist[k] == [])
  }

  ghost predicate WorkerOk(c: Core, x: Worker)
    requires Sized(c)
  {
    match x
    case Parking(seen) => seen <= c.gen
    case Asleep(seen) => seen == c.gen || (seen < c.gen && c.main.Wake?)
    case Top(seen) => seen <= c.gen
    case Have(g, i) => g <= c.gen && (g == c.gen ==> i <= c.idx)
    case Checked(g, i) => g <= c.gen && (g == c.gen ==> i <= c.idx) && (g == c.gen && i == c.idx ==> i < c.njobs)
    case Won(g, i) => Grabbed(c, g, i) && c.hist[i] == []
    case HasLayer(g, i, l) => Grabbed(c, g, i) && c.hist[i] == [] && l == c.layer
    case Loading(g, i, job) => Grabbed(c, g, i) && c.hist[i] == [] && job == Job(c.layer, c.eids[i])
    case Done(g, i) => Grabbed(c, g, i) && c.hist[i] == [Job(c.layer, c.eids[i])] && c.ws[i] == Job(c.layer, c.eids[i])
  }

  ghost predicate Grabbed(c: Core, g: nat, i: nat)
    requires Sized(c)
  {
    InBatch(c) && g == c.gen && i < c.idx && i < c.njobs && i < SLOTS && !c.ready[i]
  }

  /** no two workers hold one slot */
  ghost predicate Exclusive(pool: seq<Worker>) {
    forall u, v :: 0 <= u < v < |pool| && Holds(pool[u]) && Holds(pool[v]) ==> pool[u].i != pool[v].i
  }

  ghost predicate Inv(s: State) {
    && Sized(s.c) && s.c.njobs <= SLOTS && MainOk(s.c) && Exclusive(s.pool)
    && forall w :: 0 <= w < |s.pool| ==> WorkerOk(s.c, s.pool[w])
  }

  ghost predicate Init(s: State) {
    && Sized(s.c) && s.c.gen == 0 && s.c.idx == 0 && s.c.njobs == 0 && s.c.main.Idle?
    && forall w :: 0 <= w < |s.pool| ==> s.pool[w] == Parking(0)
  }

  /** a main step leaves the workers good, one at a time */
  lemma MainKeepsWorker(s: State, t: State, w: nat)
    requires Inv(s) && MainStep(s, t) && w < |s.pool| == |t.pool|
    ensures WorkerOk(t.c, t.pool[w])
  {
    assert WorkerOk(s.c, s.pool[w]);
    if s.c.main.Wait? && t.c.main.Idle? && Holds(s.pool[w]) {
      assert s.c.ready[s.pool[w].i];
    }
  }

  lemma MainKeepsMain(s: State, t: State)
    requires Inv(s) && MainStep(s, t)
    ensures t.c.njobs <= SLOTS && MainOk(t.c)
  {
    match s.c.main
    case SetEids(l, ids, q) =>
      if q < |ids| {
        assert ids[..q + 1] == ids[..q] + [ids[q]];
        assert t.c.eids[..q + 1] == s.c.eids[..q] + [ids[q]];
      } else {
        assert ids[..q] == ids;
      }
    case Wake(l, ids) =>
      forall k: nat | k < |ids| ensures SlotOk(t.c, Job(l, ids[k]), k) { assert SlotOk(s.c, Job(l, ids[k]), k); }
    case Wait(l, ids, q) => WaitKeeps(s.c, t.c, l, ids, q);
    case _ =>
  }

  lemma WaitKeeps(c: Core, d: Core, l: nat, ids: seq<nat>, q: nat)
    requires Sized(c) && c.njobs <= SLOTS && BatchOk(c, l, ids, q) && (q < |ids| ==> c.ready[q])
    requires d == c.(main := if q < |ids| then Wait(l, ids, q + 1) else Idle)
    ensures MainOk(d)
  {
    forall k: nat | k < |ids| ensures SlotOk(d, Job(l, ids[k]), k) { assert SlotOk(c, Job(l, ids[k]), k); }
    if 0 < |ids| == q { assert SlotOk(c, Job(l, ids[q - 1]), q - 1); }
  }

  lemma MainInv(s: State, t: State)
    requires Inv(s) && MainStep(s, t)
    ensures Inv(t)
  {
    MainKeepsMain(s, t);
    hide MainOk, WorkerOk;
    forall w: nat | w < |t.pool| ensures WorkerOk(t.c, t.pool[w]) { MainKeepsWorker(s, t, w); }
  }

  /** what one worker does leaves another good */
  lemma OtherWorker(c: Core, x: Worker, d: Core, y: Worker, o: Worker)
    requires Sized(c) && Acts(c, x, d, y) && WorkerOk(c, x) && WorkerOk(c, o)
    requires Holds(x) && Holds(o) ==> x.i != o.i
    ensures WorkerOk(d, o)
  {
  }

  lemma ActsOwn(c: Core, x: Worker, d: Core, y: Worker)
    requires Sized(c) && c.njobs <= SLOTS && MainOk(c) && Acts(c, x, d, y) && WorkerOk(c, x)
    requires Window(c) ==> d.idx == c.idx
    ensures d.njobs <= SLOTS && MainOk(d) && WorkerOk(d, y)
  {
    if InBatch(c) {
      var l, ids := c.main.l, c.main.ids;
      forall k: nat | k < |ids| ensures SlotOk(d, Job(l, ids[k]), k) { assert SlotOk(c, Job(l, ids[k]), k); }
      if x.Checked? && c.idx < |ids| { assert SlotOk(c, Job(l, ids[c.idx]), c.idx); }
    }
  }

  lemma StepInv(s: State, t: State, w: nat)
    requires Inv(s) && WorkerStep(s, t, w) && Quiet(s, t)
    ensures Inv(t)
  {
    var x, y := s.pool[w], t.pool[w];
    assert WorkerOk(s.c, x);
    ActsOwn(s.c, x, t.c, y);
    ActsHolder(s, t, w);
    hide MainOk, WorkerOk, Acts;
    forall v | 0 <= v < |t.pool| ensures WorkerOk(t.c, t.pool[v]) {
      if v != w {
        assert WorkerOk(s.c, s.pool[v]);
        OtherWorker(s.c, x, t.c, y, s.pool[v]);
      }
    }
  }

  /** the slot a worker holds is its old one, or the one it just grabbed, which nobody held */
  lemma ActsHolder(s: State, t: State, w: nat)
    requires Inv(s) && WorkerStep(s, t, w)
    ensures Exclusive(t.pool)
  {
    hide MainOk;
    forall v | 0 <= v < |s.pool| && v != w && Holds(s.pool[v]) ensures Holds(t.pool[w]) ==> s.pool[v].i != t.pool[w].i {
      assert WorkerOk(s.c, s.pool[v]);
    }
  }

  // ---------- every quiet run ----------

  ghost predicate Run(tr: seq<State>) {
    tr != [] && Init(tr[0]) && forall i :: 0 < i < |tr| ==> Next(tr[i - 1], tr[i])
  }

  lemma NextInv(s: State, t: State)
    requires Inv(s) && Next(s, t) && Quiet(s, t)
    ensures Inv(t)
  {
    hide Inv, Quiet, MainStep, WorkerStep;
    if MainStep(s, t) {
      MainInv(s, t);
    } else {
      var w: nat :| WorkerStep(s, t, w);
      StepInv(s, t, w);
    }
  }

  lemma {:induction false} QuietInv(tr: seq<State>, i: nat)
    requires Run(tr) && i < |tr| && forall k :: 0 < k <= i ==> Quiet(tr[k - 1], tr[k])
    ensures Inv(tr[i])
  {
    hide Inv, Next, Quiet;
    if i == 0 {
      assert Inv(tr[0]) by { InitInv(tr[0]); }
    } else {
      QuietInv(tr, i - 1);
      NextInv(tr[i - 1], tr[i]);
    }
  }

  lemma InitInv(s: State)
    requires Init(s)
    ensures Inv(s)
  {
  }

  /** when pipe_wait(k) has returned, slot k holds its own generation's job, was read exactly once, and nobody holds
      it */
  lemma ExactlyOnce(tr: seq<State>, i: nat, k: nat)
    requires Run(tr) && i < |tr| && forall j :: 0 < j <= i ==> Quiet(tr[j - 1], tr[j])
    requires tr[i].c.main.Wait? && k < tr[i].c.main.q && k < |tr[i].c.main.ids|
    ensures Inv(tr[i]) && k < SLOTS
    ensures var (c, job) := (tr[i].c, Job(tr[i].c.main.l, tr[i].c.main.ids[k])); c.hist[k] == [job] && c.ws[k] == job
    ensures forall w :: 0 <= w < |tr[i].pool| && Holds(tr[i].pool[w]) ==> tr[i].pool[w].i != k
  {
    hide Run, Quiet;
    QuietInv(tr, i);
    var s := tr[i];
    assert SlotOk(s.c, Job(s.c.main.l, s.c.main.ids[k]), k);
    forall w | 0 <= w < |s.pool| && Holds(s.pool[w]) ensures s.pool[w].i != k { assert WorkerOk(s.c, s.pool[w]); }
  }

  /** from the start of a dispatch to the end of its window no worker is between its winning exchange and ready store */
  lemma AloneInDispatch(tr: seq<State>, i: nat, w: nat)
    requires Run(tr) && i < |tr| && forall j :: 0 < j <= i ==> Quiet(tr[j - 1], tr[j])
    requires (tr[i].c.main.Idle? || Window(tr[i].c)) && w < |tr[i].pool|
    ensures !Holds(tr[i].pool[w])
  {
    hide Run, Quiet;
    QuietInv(tr, i);
    assert WorkerOk(tr[i].c, tr[i].pool[w]);
  }

  /** a worker asleep on an old generation has its broadcast still to come, and wakes to see the new one */
  lemma NoLostWakeup(tr: seq<State>, i: nat, w: nat, t: State)
    requires Run(tr) && i < |tr| && forall j :: 0 < j <= i ==> Quiet(tr[j - 1], tr[j])
    requires w < |tr[i].pool| && tr[i].pool[w].Asleep? && tr[i].pool[w].seen != tr[i].c.gen
    ensures Inv(tr[i]) && tr[i].c.main.Wake?
    ensures MainStep(tr[i], t) ==> |t.pool| == |tr[i].pool| && t.pool[w].Parking? && t.pool[w].seen != t.c.gen
  {
    hide Run, Quiet;
    QuietInv(tr, i);
    assert WorkerOk(tr[i].c, tr[i].pool[w]);
  }

  // ---------- exactly when dispatch needs its stores to be one step ----------

  /** k steps into the dispatch of (l, ids) from s */
  ghost predicate Into(s: State, t: State, l: nat, ids: seq<nat>, k: nat)
    decreases k
  {
    if k == 0 then Begin(s, t, l, ids)
    else exists m :: Into(s, m, l, ids, k - 1) && !m.c.main.Idle? && Next(m, t)
  }

  /** a slot reads as ready in this dispatch with another job in it */
  ghost predicate WrongReady(t: State, l: nat, ids: seq<nat>, k: nat) {
    && Sized(t.c) && k < |ids| && k < SLOTS && t.c.main.Wait? && t.c.main.l == l && t.c.main.ids == ids
    && t.c.ready[k] && t.c.ws[k] != Job(l, ids[k])
  }

  ghost predicate Of(c: Core, l: nat, ids: seq<nat>) {
    c.main.Idle? || (c.main.l == l && c.main.ids == ids)
  }

  /** every worker is asleep or about to be: none has to look at the cursor before the next publication */
  ghost predicate Still(s: State) {
    forall w :: 0 <= w < |s.pool| ==> AtRest(s.c, s.pool[w])
  }

  ghost predicate AtRest(c: Core, x: Worker) {
    (x.Parking? || x.Asleep?) && x.seen == c.gen
  }

  ghost predicate Tight(s: State) {
    Window(s.c) ==> s.c.njobs <= s.c.idx || Still(s)
  }

  /** while the new batch is no longer than the drained one, or every worker rests, nobody can win inside the window */
  lemma TightStep(s: State, t: State, l: nat, ids: seq<nat>)
    requires Inv(s) && Tight(s) && Of(s.c, l, ids) && !s.c.main.Idle? && Next(s, t)
    ensures Quiet(s, t) && Tight(t) && Of(t.c, l, ids)
  {
    hide MainOk;
    if MainStep(s, t) {
    } else {
      var w: nat :| WorkerStep(s, t, w);
      assert WorkerOk(s.c, s.pool[w]);
      if Still(s) { assert AtRest(s.c, s.pool[w]); }
    }
  }

  lemma {:induction false} ShorterIsSafe(s: State, t: State, l: nat, ids: seq<nat>, k: nat)
    requires Inv(s) && Into(s, t, l, ids, k) && (|ids| <= s.c.njobs || Still(s))
    ensures Inv(t) && Tight(t) && Of(t.c, l, ids)
    decreases k
  {
    hide Inv, Next, Tight, Quiet, Begin, Still;
    if k == 0 {
      BeginTight(s, t, l, ids);
    } else {
      var m :| Into(s, m, l, ids, k - 1) && !m.c.main.Idle? && Next(m, t);
      ShorterIsSafe(s, m, l, ids, k - 1);
      TightStep(m, t, l, ids);
      NextInv(m, t);
    }
  }

  lemma BeginTight(s: State, t: State, l: nat, ids: seq<nat>)
    requires Inv(s) && Begin(s, t, l, ids) && (|ids| <= s.c.njobs || Still(s))
    ensures Inv(t) && Tight(t) && Of(t.c, l, ids)
  {
    assert MainStep(s, t);
    MainInv(s, t);
  }

  /** worker w takes its next step */
  lemma ExtendWorker(s: State, m: State, l: nat, ids: seq<nat>, k: nat, w: nat, d: Core, y: Worker) returns (t: State)
    requires Into(s, m, l, ids, k) && !m.c.main.Idle? && Sized(m.c) && w < |m.pool| && Acts(m.c, m.pool[w], d, y)
    ensures Into(s, t, l, ids, k + 1) && t.c == d && |t.pool| == |m.pool| && t.pool[w] == y
  {
    hide Acts;
    t := State(d, m.pool[w := y]);
    assert WorkerStep(m, t, w);
    assert Next(m, t);
  }

  lemma ExtendMain(s: State, m: State, t: State, l: nat, ids: seq<nat>, k: nat)
    requires Into(s, m, l, ids, k) && !m.c.main.Idle? && Sized(m.c) && MainStep(m, t)
    ensures Into(s, t, l, ids, k + 1)
  {
    assert Next(m, t);
  }

  /** the main thread can finish its eids stores */
  lemma {:induction false} StoreEids(s: State, m: State, l: nat, ids: seq<nat>, k: nat, q: nat) returns (t: State,
                                     j: nat)
    requires Into(s, m, l, ids, k) && Sized(m.c) && |ids| <= SLOTS && q <= |ids| && m.c.main == SetEids(l, ids, q)
    ensures Into(s, t, l, ids, j) && Sized(t.c) && t.c.main == Clear(l, ids, 0) && t.pool == m.pool
    ensures t.c.gen == m.c.gen && t.c.njobs == m.c.njobs && t.c.layer == m.c.layer
    decreases |ids| - q
  {
    hide Into, Next;
    if q < |ids| {
      var m' := m.(c := m.c.(eids := m.c.eids[q := ids[q]], main := SetEids(l, ids, q + 1)));
      ExtendMain(s, m, m', l, ids, k);
      t, j := StoreEids(s, m', l, ids, k + 1, q + 1);
    } else {
      t, j := m.(c := m.c.(main := Clear(l, ids, 0))), k + 1;
      ExtendMain(s, m, t, l, ids, k);
    }
  }

  /** and its resets */
  lemma {:induction false} StoreClear(s: State, m: State, l: nat, ids: seq<nat>, k: nat, q: nat) returns (t: State,
                                      j: nat)
    requires Into(s, m, l, ids, k) && Sized(m.c) && |ids| <= SLOTS && q <= |ids| && m.c.main == Clear(l, ids, q)
    ensures Into(s, t, l, ids, j) && Sized(t.c) && t.c.main == Publish(l, ids) && t.pool == m.pool
    ensures t.c.gen == m.c.gen && t.c.njobs == m.c.njobs && t.c.layer == m.c.layer
    decreases |ids| - q
  {
    hide Into, Next;
    if q < |ids| {
      var m' := m.(c := m.c.(ready := m.c.ready[q := false], main := Clear(l, ids, q + 1)));
      ExtendMain(s, m, m', l, ids, k);
      t, j := StoreClear(s, m', l, ids, k + 1, q + 1);
    } else {
      t, j := m.(c := m.c.(main := Publish(l, ids))), k + 1;
      ExtendMain(s, m, t, l, ids, k);
    }
  }

  /** from its layer store the main thread can reach its waits; a worker that is not asleep stays where it is */
  lemma Dispatched(s: State, m: State, l: nat, ids: seq<nat>, k: nat, w: nat) returns (t: State, j: nat)
    requires Into(s, m, l, ids, k) && Sized(m.c) && |ids| <= SLOTS
    requires m.c.main == SetLayer(l, ids) && w < |m.pool| && !m.pool[w].Asleep?
    ensures Into(s, t, l, ids, j) && Sized(t.c) && t.c.main == Wait(l, ids, 0)
    ensures t.c.gen == m.c.gen + 1 && t.c.idx == 0 && t.c.njobs == m.c.njobs && t.c.layer == l
    ensures |t.pool| == |m.pool| && t.pool[w] == m.pool[w]
  {
    hide Into, Next;
    var m1 := m.(c := m.c.(layer := l, main := SetEids(l, ids, 0)));
    ExtendMain(s, m, m1, l, ids, k);
    var m2, k2 := StoreEids(s, m1, l, ids, k + 1, 0);
    var m3, k3 := StoreClear(s, m2, l, ids, k2, 0);
    var m4 := m3.(c := m3.c.(gen := m3.c.gen + 1, idx := 0, hist := seq(SLOTS, i => []), main := Wake(l, ids)));
    ExtendMain(s, m3, m4, l, ids, k3);
    t, j := State(m4.c.(main := Wait(l, ids, 0)), Broadcast(m4.pool)), k3 + 2;
    ExtendMain(s, m4, t, l, ids, k3 + 1);
  }

  lemma Started(s: State, l: nat, ids: seq<nat>) returns (t: State)
    requires s.c.main.Idle? && |ids| <= SLOTS
    ensures t == State(s.c.(njobs := |ids|, main := SetLayer(l, ids)), s.pool) && Into(s, t, l, ids, 0)
  {
    t := State(s.c.(njobs := |ids|, main := SetLayer(l, ids)), s.pool);
  }

  /** before the stores behind njobs, worker w is at the top of its loop, or holds the cursor at slot i checked */
  ghost predicate AtCursor(s: State, t: State, l: nat, ids: seq<nat>, w: nat, i: nat) {
    && Sized(t.c) && t.c.main == SetLayer(l, ids) && t.c.gen == s.c.gen && t.c.idx == i && t.c.njobs == |ids|
    && t.c.layer == s.c.layer && t.c.eids == s.c.eids
    && w < |t.pool| == |s.pool| && (t.pool[w].Top? || t.pool[w] == Checked(s.c.gen, i))
  }

  /** a worker not at rest can come there */
  lemma ToTop(s: State, l: nat, ids: seq<nat>, w: nat) returns (t: State, k: nat)
    requires Inv(s) && s.c.main.Idle? && w < |s.pool| && !AtRest(s.c, s.pool[w]) && s.c.njobs < |ids| <= SLOTS
    ensures Into(s, t, l, ids, k) && AtCursor(s, t, l, ids, w, s.c.njobs)
  {
    hide Into, Exclusive;
    assert WorkerOk(s.c, s.pool[w]);
    t := Started(s, l, ids);
    k := 0;
    var c := t.c;
    match s.pool[w]
    case Parking(seen) =>
      t := ExtendWorker(s, t, l, ids, 0, w, c, Top(seen));
      k := 1;
    case Top(_) =>
    case Have(g, i) =>
      if i >= c.njobs {
        t := ExtendWorker(s, t, l, ids, 0, w, c, Parking(g));
        t := ExtendWorker(s, t, l, ids, 1, w, c, Top(g));
        k := 2;
      } else {
        t := ExtendWorker(s, t, l, ids, 0, w, c, Checked(g, i));
        k := 1;
        if g != c.gen || i != c.idx {
          t := ExtendWorker(s, t, l, ids, 1, w, c, Top(g));
          k := 2;
        }
      }
    case Checked(g, _) =>
      t := ExtendWorker(s, t, l, ids, 0, w, c, Top(g));
      k := 1;
  }

  /** it grabs that slot and reads the old job */
  lemma Grabs(s: State, t: State, l: nat, ids: seq<nat>, w: nat, i: nat, k: nat) returns (u: State, j: nat)
    requires Into(s, t, l, ids, k) && AtCursor(s, t, l, ids, w, i) && i < |ids| <= SLOTS
    ensures Into(s, u, l, ids, j) && u.c == t.c.(idx := i + 1)
    ensures |u.pool| == |t.pool| && u.pool[w] == Loading(s.c.gen, i, Job(s.c.layer, s.c.eids[i]))
  {
    hide Into;
    var g, c := s.c.gen, t.c;
    u, j := t, k;
    if t.pool[w].Top? {
      u := ExtendWorker(s, u, l, ids, j, w, c, Have(g, i));
      u := ExtendWorker(s, u, l, ids, j + 1, w, c, Checked(g, i));
      j := j + 2;
    }
    u := ExtendWorker(s, u, l, ids, j, w, c.(idx := i + 1), Won(g, i));
    u := ExtendWorker(s, u, l, ids, j + 1, w, u.c, HasLayer(g, i, c.layer));
    u := ExtendWorker(s, u, l, ids, j + 2, w, u.c, Loading(g, i, Job(c.layer, c.eids[i])));
    j := j + 3;
  }

  /** the read and the ready store bring it back to the top */
  lemma Finishes(s: State, t: State, l: nat, ids: seq<nat>, w: nat, k: nat) returns (u: State)
    requires Into(s, t, l, ids, k) && !t.c.main.Idle? && Sized(t.c) && w < |t.pool|
    requires t.pool[w].Loading? && t.pool[w].i < SLOTS
    ensures Into(s, u, l, ids, k + 2) && |u.pool| == |t.pool| && u.pool[w] == Top(t.pool[w].gen)
    ensures var (c, x) := (t.c, t.pool[w]);
      u.c == c.(ws := c.ws[x.i := x.job], hist := c.hist[x.i := c.hist[x.i] + [x.job]], ready := c.ready[x.i := true])
  {
    hide Into;
    var c, g, i, job := t.c, t.pool[w].gen, t.pool[w].i, t.pool[w].job;
    u := ExtendWorker(s, t, l, ids, k, w, c.(ws := c.ws[i := job], hist := c.hist[i := c.hist[i] + [job]]), Done(g, i));
    u := ExtendWorker(s, u, l, ids, k + 1, w, u.c.(ready := u.c.ready[i := true]), Top(g));
  }

  /** slot by slot, it can come to any of the extra slots */
  lemma {:induction false} ComesTo(s: State, l: nat, ids: seq<nat>, w: nat, i: nat) returns (t: State, k: nat)
    requires Inv(s) && s.c.main.Idle? && w < |s.pool| && !AtRest(s.c, s.pool[w]) && s.c.njobs <= i < |ids| <= SLOTS
    ensures Into(s, t, l, ids, k) && AtCursor(s, t, l, ids, w, i)
    decreases i
  {
    hide Into, Inv, AtRest;
    if i == s.c.njobs {
      t, k := ToTop(s, l, ids, w);
    } else {
      t, k := ComesTo(s, l, ids, w, i - 1);
      t, k := Grabs(s, t, l, ids, w, i - 1, k);
      t := Finishes(s, t, l, ids, w, k);
      k := k + 2;
    }
  }

  /** a longer batch than the drained one lets such a worker mark any extra slot ready with the old job in it */
  lemma LongerCanRace(s: State, l: nat, ids: seq<nat>, w: nat, i: nat) returns (t: State, k: nat)
    requires Inv(s) && s.c.main.Idle? && w < |s.pool| && !AtRest(s.c, s.pool[w]) && s.c.njobs <= i < |ids| <= SLOTS
    requires Job(s.c.layer, s.c.eids[i]) != Job(l, ids[i])
    ensures Into(s, t, l, ids, k) && WrongReady(t, l, ids, i)
  {
    hide Into, Inv, AtRest;
    t, k := ComesTo(s, l, ids, w, i);
    t, k := Grabs(s, t, l, ids, w, i, k);
    t, k := Dispatched(s, t, l, ids, k, w);
    t := Finishes(s, t, l, ids, w, k);
    k := k + 2;
  }

  // ---------- and exactly when it does not ----------

  /** slot k carries its new job already */
  ghost predicate Carries(c: Core, l: nat, ids: seq<nat>, k: nat)
    requires Sized(c) && k < |ids| <= SLOTS
  {
    c.layer == l && c.eids[k] == ids[k]
  }

  /** every slot the new batch has beyond the drained one still carries the job it is to have */
  ghost predicate SameExtra(c: Core, l: nat, ids: seq<nat>)
    requires Sized(c) && |ids| <= SLOTS
  {
    forall k: nat :: c.njobs <= k < |ids| ==> Carries(c, l, ids, k)
  }

  /** a slot may read as ready with its own job in it only */
  ghost predicate RightSlot(c: Core, l: nat, ids: seq<nat>, k: nat)
    requires Sized(c) && k < |ids| <= SLOTS
  {
    c.ready[k] ==> c.ws[k] == Job(l, ids[k])
  }

  /** the variables of this dispatch, slots from n on carrying their jobs from the start */
  ghost predicate RightMain(c: Core, l: nat, ids: seq<nat>, n: nat)
    requires Sized(c) && |ids| <= SLOTS
  {
    && c.njobs == |ids| && Of(c, l, ids)
    && (Window(c) ==> n <= c.idx && forall k: nat :: n <= k < |ids| ==> Carries(c, l, ids, k))
    && match c.main
       case Idle => true
       case SetLayer(_, _) => true
       case SetEids(_, _, q) => c.layer == l && q <= |ids| && c.eids[..q] == ids[..q]
       case Clear(_, _, q) => Stored(c, l, ids) && q <= |ids| && forall k: nat :: k < q ==> RightSlot(c, l, ids, k)
       case _ => Stored(c, l, ids) && forall k: nat :: k < |ids| ==> RightSlot(c, l, ids, k)
  }

  /** whatever slot a worker holds, in or after the window, it holds with the right job */
  ghost predicate RightWorker(c: Core, x: Worker, l: nat, ids: seq<nat>, n: nat)
    requires Sized(c) && |ids| <= SLOTS
  {
    match x
    case Parking(_) => true
    case Asleep(_) => true
    case Top(_) => true
    case Have(g, i) => g <= c.gen && (g == c.gen ==> i <= c.idx)
    case Checked(g, i) => g <= c.gen && (g == c.gen ==> i < |ids| || i < c.idx)
    case Won(_, i) => RightHold(c, ids, n, i)
    case HasLayer(_, i, ly) => RightHold(c, ids, n, i) && ly == l
    case Loading(_, i, job) => RightHold(c, ids, n, i) && job == Job(l, ids[i])
    case Done(_, i) => RightHold(c, ids, n, i) && c.ws[i] == Job(l, ids[i])
  }

  ghost predicate RightHold(c: Core, ids: seq<nat>, n: nat, i: nat) {
    i < |ids| && (Window(c) ==> n <= i)
  }

  ghost predicate Right(s: State, l: nat, ids: seq<nat>, n: nat) {
    && Sized(s.c) && |ids| <= SLOTS && !s.c.main.Idle? && RightMain(s.c, l, ids, n)
    && forall w :: 0 <= w < |s.pool| ==> RightWorker(s.c, s.pool[w], l, ids, n)
  }

  lemma BeginRight(s: State, t: State, l: nat, ids: seq<nat>)
    requires Inv(s) && Begin(s, t, l, ids) && SameExtra(s.c, l, ids)
    ensures Right(t, l, ids, s.c.njobs)
  {
    forall w | 0 <= w < |t.pool| ensures RightWorker(t.c, t.pool[w], l, ids, s.c.njobs) {
      assert WorkerOk(s.c, s.pool[w]);
    }
    forall k: nat | s.c.njobs <= k < |ids| ensures Carries(t.c, l, ids, k) { assert Carries(s.c, l, ids, k); }
  }

  /** a store of the main thread keeps its variables right */
  lemma MainRight(s: State, t: State, l: nat, ids: seq<nat>, n: nat)
    requires Right(s, l, ids, n) && MainStep(s, t) && !t.c.main.Idle?
    ensures Sized(t.c) && RightMain(t.c, l, ids, n)
  {
    forall k: nat | k < |ids| && RightSlot(s.c, l, ids, k) ensures RightSlot(t.c, l, ids, k) {}
    forall k: nat | k < |ids| && Carries(s.c, l, ids, k) && Window(t.c) ensures Carries(t.c, l, ids, k) {}
    match s.c.main
    case SetEids(_, _, q) =>
      if q < |ids| {
        assert ids[..q + 1] == ids[..q] + [ids[q]];
        assert t.c.eids[..q + 1] == s.c.eids[..q] + [ids[q]];
      } else {
        assert ids[..q] == ids;
      }
    case Clear(_, _, q) => if q < |ids| { assert RightSlot(t.c, l, ids, q); }
    case _ =>
  }

  lemma MainRightWorker(s: State, t: State, l: nat, ids: seq<nat>, n: nat, w: nat)
    requires Right(s, l, ids, n) && MainStep(s, t) && !t.c.main.Idle? && w < |s.pool| == |t.pool|
    ensures Sized(t.c) && RightWorker(t.c, t.pool[w], l, ids, n)
  {
    hide RightMain;
    assert RightWorker(s.c, s.pool[w], l, ids, n);
  }

  lemma JobStored(c: Core, l: nat, ids: seq<nat>, n: nat, i: nat)
    requires Sized(c) && |ids| <= SLOTS && !c.main.Idle? && RightMain(c, l, ids, n) && RightHold(c, ids, n, i)
    ensures c.layer == l && c.eids[i] == ids[i]
  {
    if Window(c) { assert Carries(c, l, ids, i); } else { assert c.eids[..|ids|][i] == ids[i]; }
  }

  /** a worker's step, inside the window or not, reads and writes right jobs only */
  lemma ActsRight(c: Core, x: Worker, d: Core, y: Worker, l: nat, ids: seq<nat>, n: nat)
    requires Sized(c) && |ids| <= SLOTS && !c.main.Idle? && RightMain(c, l, ids, n)
    requires RightWorker(c, x, l, ids, n) && Acts(c, x, d, y)
    ensures Sized(d) && RightMain(d, l, ids, n) && RightWorker(d, y, l, ids, n)
  {
    forall k: nat | k < |ids| && RightSlot(c, l, ids, k) ensures RightSlot(d, l, ids, k) {}
    forall k: nat | k < |ids| && Carries(c, l, ids, k) ensures Carries(d, l, ids, k) {}
    if Holds(x) { JobStored(c, l, ids, n, x.i); }
  }

  lemma OtherRight(c: Core, x: Worker, d: Core, y: Worker, o: Worker, l: nat, ids: seq<nat>, n: nat)
    requires Sized(c) && |ids| <= SLOTS && RightWorker(c, x, l, ids, n)
    requires RightWorker(c, o, l, ids, n) && Acts(c, x, d, y)
    ensures Sized(d) && RightWorker(d, o, l, ids, n)
  {
  }

  lemma RightStep(s: State, t: State, l: nat, ids: seq<nat>, n: nat)
    requires Right(s, l, ids, n) && Next(s, t) && !t.c.main.Idle?
    ensures Right(t, l, ids, n)
  {
    hide RightMain, RightWorker, Acts, MainStep;
    if MainStep(s, t) {
      MainRight(s, t, l, ids, n);
      MainPool(s, t);
      forall w: nat | w < |t.pool|
        ensures RightWorker(t.c, t.pool[w], l, ids, n) { MainRightWorker(s, t, l, ids, n, w); }
    } else {
      var w: nat :| WorkerStep(s, t, w);
      ActsRight(s.c, s.pool[w], t.c, t.pool[w], l, ids, n);
      forall v | 0 <= v < |t.pool| ensures RightWorker(t.c, t.pool[v], l, ids, n) {
        if v != w { OtherRight(s.c, s.pool[w], t.c, t.pool[w], s.pool[v], l, ids, n); }
      }
    }
  }

  lemma MainPool(s: State, t: State)
    requires Sized(s.c) && MainStep(s, t)
    ensures |t.pool| == |s.pool|
  {
  }

  /** when the extra slots carry their jobs already, no interleaving of the dispatch, wins in the window included,
      makes a slot ready with a wrong one */
  lemma {:induction false} SameIsSafe(s: State, t: State, l: nat, ids: seq<nat>, k: nat)
    requires Inv(s) && |ids| <= SLOTS && SameExtra(s.c, l, ids) && Into(s, t, l, ids, k) && !t.c.main.Idle?
    ensures Right(t, l, ids, s.c.njobs)
    decreases k
  {
    hide Inv, Next, Right, Begin, SameExtra;
    if k == 0 {
      BeginRight(s, t, l, ids);
    } else {
      var m :| Into(s, m, l, ids, k - 1) && !m.c.main.Idle? && Next(m, t);
      SameIsSafe(s, m, l, ids, k - 1);
      RightStep(m, t, l, ids, s.c.njobs);
    }
  }

  /** A dispatch is safe in every interleaving if and only if every worker rests on the current generation, or every
      slot the batch has beyond the last one carries its new job already; a batch that is no longer has no such slot. */
  lemma SafeIff(s: State, l: nat, ids: seq<nat>)
    requires Inv(s) && s.c.main.Idle? && |ids| <= SLOTS
    ensures Still(s) || SameExtra(s.c, l, ids) <==> forall t, k: nat, j: nat :: Into(s, t, l, ids, k) ==>
        !WrongReady(t, l, ids, j)
  {
    hide MainOk, WorkerOk, Exclusive, AtRest, Into, WrongReady;
    if Still(s) {
      forall t, k: nat, j: nat | Into(s, t, l, ids, k) ensures !WrongReady(t, l, ids, j) {
        ShorterIsSafe(s, t, l, ids, k);
        NotWrong(t, l, ids, j);
      }
    } else if SameExtra(s.c, l, ids) {
      forall t, k: nat, j: nat | Into(s, t, l, ids, k) ensures !WrongReady(t, l, ids, j) {
        if WrongReady(t, l, ids, j) {
          WrongWaits(t, l, ids, j);
          SameIsSafe(s, t, l, ids, k);
          RightNotWrong(t, l, ids, s.c.njobs, j);
        }
      }
    } else {
      var w: nat :| w < |s.pool| && !AtRest(s.c, s.pool[w]);
      var i: nat :| s.c.njobs <= i < |ids| && !Carries(s.c, l, ids, i);
      var t, k := LongerCanRace(s, l, ids, w, i);
    }
  }

  lemma WrongWaits(t: State, l: nat, ids: seq<nat>, j: nat)
    requires WrongReady(t, l, ids, j)
    ensures !t.c.main.Idle?
  {
  }

  lemma RightNotWrong(t: State, l: nat, ids: seq<nat>, n: nat, j: nat)
    requires Right(t, l, ids, n)
    ensures !WrongReady(t, l, ids, j)
  {
    if t.c.main.Wait? && j < |ids| { assert RightSlot(t.c, l, ids, j); }
  }

  lemma NotWrong(t: State, l: nat, ids: seq<nat>, j: nat)
    requires Inv(t)
    ensures !WrongReady(t, l, ids, j)
  {
    if t.c.main.Wait? && j < |t.c.main.ids| { assert SlotOk(t.c, Job(t.c.main.l, t.c.main.ids[j]), j); }
  }

  /** the dispatch as the continuation of a run */
  lemma {:induction false} RunInto(tr: seq<State>, t: State, l: nat, ids: seq<nat>, k: nat) returns (tr': seq<State>)
    requires Run(tr) && Sized(tr[|tr| - 1].c) && Into(tr[|tr| - 1], t, l, ids, k)
    ensures Run(tr') && tr <= tr' && tr'[|tr'| - 1] == t
    decreases k
  {
    hide MainStep;
    var s := tr[|tr| - 1];
    if k == 0 {
      assert MainStep(s, t) by { BeginSteps(s, t, l, ids); }
      tr' := tr + [t];
    } else {
      var m :| Into(s, m, l, ids, k - 1) && !m.c.main.Idle? && Next(m, t);
      tr' := RunInto(tr, m, l, ids, k - 1);
      tr' := tr' + [t];
    }
  }

  lemma BeginSteps(s: State, t: State, l: nat, ids: seq<nat>)
    requires Sized(s.c) && Begin(s, t, l, ids)
    ensures MainStep(s, t)
  {
  }

  /** a first batch of one job: worker 0 wakes and reads it */
  lemma FirstLoad(s: State) returns (t: State, k: nat)
    requires Init(s) && s.pool != []
    ensures Into(s, t, 1, [5], k) && Sized(t.c) && t.c.main == Wait(1, [5], 0) && t.c.layer == 1
    ensures |t.pool| == |s.pool| && t.pool[0].Loading? && t.pool[0].i == 0 && t.c.idx == t.c.njobs == 1
  {
    hide Into;
    t := Started(s, 1, [5]);
    t, k := Dispatched(s, t, 1, [5], 0, 0);
    var g, c := t.c.gen, t.c;
    t := ExtendWorker(s, t, 1, [5], k, 0, c, Top(0));
    t := ExtendWorker(s, t, 1, [5], k + 1, 0, c, Have(g, 0));
    t := ExtendWorker(s, t, 1, [5], k + 2, 0, c, Checked(g, 0));
    t := ExtendWorker(s, t, 1, [5], k + 3, 0, c.(idx := 1), Won(g, 0));
    t := ExtendWorker(s, t, 1, [5], k + 4, 0, t.c, HasLayer(g, 0, c.layer));
    t := ExtendWorker(s, t, 1, [5], k + 5, 0, t.c, Loading(g, 0, Job(c.layer, c.eids[0])));
    k := k + 6;
  }

  /** the worker stores ready and is at the top of its loop, and the main thread is done with the batch */
  lemma FirstBatch(s: State) returns (t: State, k: nat)
    requires Init(s) && s.pool != []
    ensures Into(s, t, 1, [5], k) && t.c.main.Idle? && t.c.njobs == 1 && t.c.layer == 1
    ensures |t.pool| == |s.pool| && t.pool[0].Top?
  {
    hide Into, Init;
    t, k := FirstLoad(s);
    var c, g, job := t.c, t.pool[0].gen, t.pool[0].job;
    t := ExtendWorker(s, t, 1, [5], k, 0, c.(ws := c.ws[0 := job], hist := c.hist[0 := c.hist[0] + [job]]), Done(g, 0));
    t := ExtendWorker(s, t, 1, [5], k + 1, 0, t.c.(ready := t.c.ready[0 := true]), Top(g));
    var m := State(t.c.(main := Wait(1, [5], 1)), t.pool);
    ExtendMain(s, t, m, 1, [5], k + 2);
    t := State(m.c.(main := Idle), m.pool);
    ExtendMain(s, m, t, 1, [5], k + 3);
    k := k + 4;
  }

  /** The race is reachable: from every initial state with a worker, a batch of one job and then one of two reach a
      state where the second slot reads as ready with the wrong job in it. */
  lemma RaceReachable(s: State) returns (tr: seq<State>)
    requires Init(s) && s.pool != []
    ensures Run(tr) && tr[0] == s && WrongReady(tr[|tr| - 1], 2, [6, 7], 1)
  {
    hide Into, WrongReady, MainOk, WorkerOk;
    InitFits(s);
    var t, k := FirstBatch(s);
    ShorterIsSafe(s, t, 1, [5], k);
    tr := RunInto([s], t, 1, [5], k);
    var u, j := LongerCanRace(t, 2, [6, 7], 0, 1);
    tr := RunInto(tr, u, 2, [6, 7], j);
  }

  // ---------- which runs need no hypothesis ----------

  /** a dispatch is the first, or not longer than the last, or starts with every worker at rest */
  ghost predicate NotLonger(s: State, t: State) {
    s.c.main.Idle? && t.c.main.SetLayer? ==> s.c.gen == 0 || t.c.njobs <= s.c.njobs || Still(s)
  }

  /** before the first publication every worker is at rest */
  ghost predicate Fits(s: State) {
    Tight(s) && (s.c.gen == 0 ==> Still(s))
  }

  lemma FitsStep(s: State, t: State)
    requires Inv(s) && Fits(s) && Next(s, t) && NotLonger(s, t)
    ensures Quiet(s, t) && Fits(t)
  {
    hide MainOk;
    if MainStep(s, t) {
      MainFits(s, t);
    } else {
      var w: nat :| WorkerStep(s, t, w);
      assert WorkerOk(s.c, s.pool[w]);
      if Still(s) { assert AtRest(s.c, s.pool[w]); }
    }
  }

  lemma MainFits(s: State, t: State)
    requires Inv(s) && Fits(s) && MainStep(s, t) && NotLonger(s, t)
    ensures Quiet(s, t) && Fits(t)
  {
    hide WorkerOk;
  }

  /** a run whose batches, after the first, are not longer than the one before or start with every worker at rest is
      quiet throughout */
  lemma {:induction false} NeverLongerIsQuiet(tr: seq<State>, i: nat)
    requires Run(tr) && i < |tr| && forall k :: 0 < k <= i ==> NotLonger(tr[k - 1], tr[k])
    ensures Inv(tr[i]) && Fits(tr[i]) && forall k :: 0 < k <= i ==> Quiet(tr[k - 1], tr[k])
  {
    hide Inv, Next, Quiet, NotLonger, Fits;
    if i == 0 {
      InitFits(tr[0]);
    } else {
      NeverLongerIsQuiet(tr, i - 1);
      FitsStep(tr[i - 1], tr[i]);
      NextInv(tr[i - 1], tr[i]);
    }
  }

  lemma InitFits(s: State)
    requires Init(s)
    ensures Inv(s) && Fits(s)
  {
  }

  // ---------- every batch can be completed ----------

  /** no worker sleeps on the current generation, or is about to, while one of its jobs is ungrabbed */
  ghost predicate Awake(s: State) {
    InBatch(s.c) && s.c.idx < s.c.njobs ==> forall w :: 0 <= w < |s.pool| ==> !AtRest(s.c, s.pool[w])
  }

  ghost predicate HeldBy(pool: seq<Worker>, k: nat) {
    exists w :: 0 <= w < |pool| && Holds(pool[w]) && pool[w].i == k
  }

  /** a slot that has been grabbed is ready or some worker holds it */
  ghost predicate Staffed(s: State)
    requires Sized(s.c)
  {
    InBatch(s.c) ==> forall k: nat :: k < s.c.idx && k < SLOTS ==> s.c.ready[k] || HeldBy(s.pool, k)
  }

  ghost predicate Lively(s: State) {
    Inv(s) && Awake(s) && Staffed(s)
  }

  lemma InitLively(s: State)
    requires Init(s)
    ensures Lively(s)
  {
  }

  lemma MainLively(s: State, t: State)
    requires Lively(s) && MainStep(s, t)
    ensures Lively(t)
  {
    MainInv(s, t);
    MainAwake(s, t);
    MainStaffed(s, t);
  }

  lemma MainAwake(s: State, t: State)
    requires Inv(s) && Awake(s) && MainStep(s, t)
    ensures Awake(t)
  {
    hide MainOk;
    if s.c.main.Publish? {
      forall w | 0 <= w < |t.pool| ensures !AtRest(t.c, t.pool[w]) { assert WorkerOk(s.c, s.pool[w]); }
    }
    if s.c.main.Wake? && s.c.idx < s.c.njobs {
      forall w | 0 <= w < |t.pool| ensures !AtRest(t.c, t.pool[w]) { assert !AtRest(s.c, s.pool[w]); }
    }
  }

  lemma MainStaffed(s: State, t: State)
    requires Inv(s) && Staffed(s) && MainStep(s, t)
    ensures Sized(t.c) && Staffed(t)
  {
    hide MainOk, WorkerOk, Exclusive;
    if s.c.main.Wake? {
      forall k: nat | k < t.c.idx && k < SLOTS && HeldBy(s.pool, k) ensures HeldBy(t.pool, k) {
        var w :| 0 <= w < |s.pool| && Holds(s.pool[w]) && s.pool[w].i == k;
        assert t.pool[w] == s.pool[w];
      }
    }
  }

  lemma WorkerAwake(s: State, t: State, w: nat)
    requires Inv(s) && Awake(s) && WorkerStep(s, t, w)
    ensures Awake(t)
  {
    hide MainOk;
    assert WorkerOk(s.c, s.pool[w]);
    if InBatch(t.c) && t.c.idx < t.c.njobs {
      forall v | 0 <= v < |t.pool| ensures !AtRest(t.c, t.pool[v]) { assert !AtRest(s.c, s.pool[v]); }
    }
  }

  lemma WorkerStaffed(s: State, t: State, w: nat)
    requires Inv(s) && Staffed(s) && WorkerStep(s, t, w)
    ensures Sized(t.c) && Staffed(t)
  {
    hide MainOk, WorkerOk, Exclusive;
    if InBatch(t.c) {
      forall k: nat | k < t.c.idx && k < SLOTS ensures t.c.ready[k] || HeldBy(t.pool, k) {
        if k < s.c.idx && !s.c.ready[k] {
          var v :| 0 <= v < |s.pool| && Holds(s.pool[v]) && s.pool[v].i == k;
          if v != w { assert t.pool[v] == s.pool[v]; } else { StillHeld(s.c, s.pool[w], t.c, t.pool[w]); }
        } else if k >= s.c.idx {
          NewlyHeld(s.c, s.pool[w], t.c, t.pool[w]);
        } else {
          StaysReady(s.c, s.pool[w], t.c, t.pool[w], k);
        }
      }
    }
  }

  lemma StillHeld(c: Core, x: Worker, d: Core, y: Worker)
    requires Sized(c) && Acts(c, x, d, y) && Holds(x)
    ensures x.i < SLOTS && Sized(d) ==> d.ready[x.i] || (Holds(y) && y.i == x.i)
  {
  }

  lemma NewlyHeld(c: Core, x: Worker, d: Core, y: Worker)
    requires Sized(c) && Acts(c, x, d, y)
    ensures d.idx == c.idx || (d.idx == c.idx + 1 && Holds(y) && y.i == c.idx)
  {
  }

  lemma StaysReady(c: Core, x: Worker, d: Core, y: Worker, k: nat)
    requires Sized(c) && Acts(c, x, d, y) && k < SLOTS && c.ready[k]
    ensures Sized(d) && d.ready[k]
  {
  }

  lemma LivelyStep(s: State, t: State)
    requires Lively(s) && Next(s, t) && Quiet(s, t)
    ensures Lively(t)
  {
    hide Inv, Awake, Staffed, MainStep, WorkerStep, Quiet;
    NextInv(s, t);
    if MainStep(s, t) {
      MainLively(s, t);
    } else {
      var w: nat :| WorkerStep(s, t, w);
      WorkerAwake(s, t, w);
      WorkerStaffed(s, t, w);
    }
  }

  /** in every quiet run no worker sleeps beside a job, and no grabbed job is lost */
  lemma {:induction false} QuietLively(tr: seq<State>, i: nat)
    requires Run(tr) && i < |tr| && forall k :: 0 < k <= i ==> Quiet(tr[k - 1], tr[k])
    ensures Lively(tr[i])
  {
    hide Lively, Next, Quiet;
    if i == 0 {
      InitLively(tr[0]);
    } else {
      QuietLively(tr, i - 1);
      LivelyStep(tr[i - 1], tr[i]);
    }
  }

  /** a continuation of s to t */
  ghost predicate Leads(s: State, t: State, tr: seq<State>) {
    tr != [] && tr[0] == s && tr[|tr| - 1] == t && forall i :: 0 < i < |tr| ==> Next(tr[i - 1], tr[i])
  }

  lemma LeadsOn(s: State, t: State, tr: seq<State>, u: State) returns (tr': seq<State>)
    requires Leads(s, t, tr) && Next(t, u)
    ensures Leads(s, u, tr')
  {
    tr' := tr + [u];
  }

  lemma LeadsJoin(s: State, t: State, tr: seq<State>, u: State, more: seq<State>) returns (tr': seq<State>)
    requires Leads(s, t, tr) && Leads(t, u, more)
    ensures Leads(s, u, tr')
  {
    hide Next;
    tr' := tr + more[1..];
    forall i | 0 < i < |tr'| ensures Next(tr'[i - 1], tr'[i]) {
      if i >= |tr| { assert tr'[i] == more[i - |tr| + 1] && tr'[i - 1] == more[i - |tr|]; }
    }
  }

  /** worker w goes on, inside a batch */
  lemma Goes(s: State, t: State, tr: seq<State>, w: nat, d: Core, y: Worker) returns (u: State, tr': seq<State>)
    requires Leads(s, t, tr) && Lively(t) && InBatch(t.c) && w < |t.pool| && Sized(t.c) && Acts(t.c, t.pool[w], d, y)
    ensures u == State(d, t.pool[w := y]) && Leads(s, u, tr') && Lively(u)
  {
    hide Lively, Acts, Leads;
    u := State(d, t.pool[w := y]);
    assert WorkerStep(t, u, w);
    LivelyStep(t, u);
    tr' := LeadsOn(s, t, tr, u);
  }

  /** a worker between its winning exchange and its ready store gets there */
  lemma HolderEnds(s: State, w: nat) returns (t: State, tr: seq<State>)
    requires Lively(s) && InBatch(s.c) && w < |s.pool| && Holds(s.pool[w])
    ensures s.pool[w].i < s.c.njobs && s.pool[w].i < SLOTS && Sized(s.c) && !s.c.ready[s.pool[w].i]
    ensures Leads(s, t, tr) && Lively(t) && |t.pool| == |s.pool|
    ensures t.c == s.c.(ready := s.c.ready[s.pool[w].i := true], ws := t.c.ws, hist := t.c.hist)
  {
    hide Leads, Lively;
    Grabs1(s, w);
    t, tr := s, [s];
    StartsAt(s);
    if t.pool[w].Won? { t, tr := Goes(s, t, tr, w, t.c, HasLayer(t.pool[w].gen, t.pool[w].i, t.c.layer)); }
    if t.pool[w].HasLayer? {
      t, tr := Goes(s, t, tr, w, t.c, Loading(t.pool[w].gen, t.pool[w].i, Job(t.pool[w].layer, t.c.eids[t.pool[w].i])));
    }
    if t.pool[w].Loading? {
      var c, i, job := t.c, t.pool[w].i, t.pool[w].job;
      var d := c.(ws := c.ws[i := job], hist := c.hist[i := c.hist[i] + [job]]);
      t, tr := Goes(s, t, tr, w, d, Done(t.pool[w].gen, i));
    }
    var c, i := t.c, t.pool[w].i;
    t, tr := Goes(s, t, tr, w, c.(ready := c.ready[i := true]), Top(t.pool[w].gen));
  }

  lemma StartsAt(s: State)
    ensures Leads(s, s, [s])
  {
  }

  lemma Grabs1(s: State, w: nat)
    requires Lively(s) && w < |s.pool| && Holds(s.pool[w])
    ensures Sized(s.c) && s.pool[w].i < s.c.njobs && s.pool[w].i < SLOTS && !s.c.ready[s.pool[w].i]
  {
    assert WorkerOk(s.c, s.pool[w]);
  }

  /** a worker that holds nothing can come to the top of its loop while jobs are ungrabbed */
  lemma ComesTop(s: State, w: nat) returns (t: State, tr: seq<State>)
    requires Lively(s) && s.c.main.Wait? && s.c.idx < s.c.njobs && w < |s.pool| && !Holds(s.pool[w])
    ensures Leads(s, t, tr) && Lively(t) && |t.pool| == |s.pool| && t.c == s.c && t.pool[w].Top?
  {
    hide Leads, Lively;
    FreeWorker(s, w);
    t, tr := s, [s];
    StartsAt(s);
    match s.pool[w]
    case Top(_) =>
    case Have(g, i) =>
      if i >= s.c.njobs {
        t, tr := Goes(s, t, tr, w, t.c, Parking(g));
        t, tr := Goes(s, t, tr, w, t.c, Top(g));
      } else {
        t, tr := Goes(s, t, tr, w, t.c, Checked(g, i));
        t, tr := Goes(s, t, tr, w, t.c, Top(g));
      }
    case Checked(g, i) => t, tr := Goes(s, t, tr, w, t.c, Top(g));
    case Parking(seen) => t, tr := Goes(s, t, tr, w, t.c, Top(seen));
  }

  lemma FreeWorker(s: State, w: nat)
    requires Lively(s) && s.c.main.Wait? && s.c.idx < s.c.njobs && w < |s.pool| && !Holds(s.pool[w])
    ensures Sized(s.c) && !s.pool[w].Asleep?
    ensures s.pool[w].Parking? ==> s.pool[w].seen != s.c.gen
    ensures s.pool[w].Have? && s.pool[w].i >= s.c.njobs ==> s.pool[w].gen != s.c.gen
  {
    assert WorkerOk(s.c, s.pool[w]) && !AtRest(s.c, s.pool[w]);
  }

  /** and grab the next one */
  lemma Grabs2(s: State, w: nat) returns (t: State, tr: seq<State>)
    requires Lively(s) && s.c.main.Wait? && s.c.idx < s.c.njobs && w < |s.pool| && !Holds(s.pool[w])
    ensures Leads(s, t, tr) && Lively(t) && |t.pool| == |s.pool| && t.c == s.c.(idx := s.c.idx + 1)
  {
    hide Leads, Lively;
    FreeWorker(s, w);
    t, tr := ComesTop(s, w);
    var c := t.c;
    t, tr := Goes(s, t, tr, w, c, Have(c.gen, c.idx));
    t, tr := Goes(s, t, tr, w, c, Checked(c.gen, c.idx));
    t, tr := Goes(s, t, tr, w, c.(idx := c.idx + 1), Won(c.gen, c.idx));
  }

  /** slots of the batch not ready yet */
  ghost function Pending(ready: seq<bool>, n: nat): nat
    requires n <= |ready|
  {
    if n == 0 then 0 else Pending(ready, n - 1) + if ready[n - 1] then 0 else 1
  }

  lemma {:induction false} PendingLess(ready: seq<bool>, n: nat, i: nat)
    requires i < |ready| && n <= |ready| && !ready[i]
    ensures Pending(ready[i := true], n) == Pending(ready, n) - if i < n then 1 else 0
  {
    if n > 0 { PendingLess(ready, n - 1, i); }
  }

  ghost function Rank(s: State): nat
    requires Inv(s) && InBatch(s.c)
  {
    (if s.c.main.Wake? then |s.c.main.ids| + 2 else |s.c.main.ids| - s.c.main.q + 1)
    + Pending(s.c.ready, s.c.njobs) + (s.c.njobs - s.c.idx)
  }

  /** some worker or the main thread can bring the batch nearer its end */
  lemma Nearer(s: State) returns (t: State, tr: seq<State>)
    requires Lively(s) && InBatch(s.c) && s.pool != []
    ensures Leads(s, t, tr) && Lively(t) && |t.pool| == |s.pool|
    ensures t.c.main.Idle? || (InBatch(t.c) && Rank(t) < Rank(s))
  {
    hide Leads, MainOk, WorkerOk, Exclusive, Awake, Staffed;
    StartsAt(s);
    InBatchOk(s);
    var l, ids := s.c.main.l, s.c.main.ids;
    if s.c.main.Wake? || s.c.main.q == |ids| || s.c.ready[s.c.main.q] {
      var main := if s.c.main.Wake? then Wait(l, ids, 0)
                  else if s.c.main.q == |ids| then Idle
                  else Wait(l, ids, s.c.main.q + 1);
      t := State(s.c.(main := main), if s.c.main.Wake? then Broadcast(s.pool) else s.pool);
      assert MainStep(s, t);
      MainLively(s, t);
      tr := LeadsOn(s, s, [s], t);
    } else if s.c.main.q < s.c.idx || Holds(s.pool[0]) {
      var w := SomeHolder(s);
      t, tr := HolderEnds(s, w);
      PendingLess(s.c.ready, s.c.njobs, s.pool[w].i);
    } else {
      t, tr := Grabs2(s, 0);
    }
  }

  lemma InBatchOk(s: State)
    requires Lively(s) && InBatch(s.c)
    ensures Sized(s.c) && |s.c.main.ids| == s.c.njobs <= SLOTS && s.c.idx <= s.c.njobs
    ensures s.c.main.Wait? ==> s.c.main.q <= |s.c.main.ids|
  {
  }

  lemma SomeHolder(s: State) returns (w: nat)
    requires Lively(s) && s.c.main.Wait? && s.pool != [] && s.c.main.q < |s.c.main.ids| && s.c.main.q < SLOTS
    requires Sized(s.c) && !s.c.ready[s.c.main.q] && (s.c.main.q < s.c.idx || Holds(s.pool[0]))
    ensures w < |s.pool| && Holds(s.pool[w])
  {
    hide Inv, Awake;
    if Holds(s.pool[0]) { return 0; }
    assert HeldBy(s.pool, s.c.main.q);
    w :| 0 <= w < |s.pool| && Holds(s.pool[w]) && s.pool[w].i == s.c.main.q;
  }

  /** from every state a quiet run reaches inside a batch, the batch can be completed: the workers load what is left
      and the main thread's waits end */
  lemma {:induction false} BatchCompletes(s: State) returns (t: State, tr: seq<State>)
    requires Lively(s) && InBatch(s.c) && s.pool != []
    ensures Leads(s, t, tr) && Lively(t) && t.c.main.Idle?
    decreases Rank(s)
  {
    hide Leads, Lively, Rank;
    t, tr := Nearer(s);
    if !t.c.main.Idle? {
      var u, more := BatchCompletes(t);
      tr := LeadsJoin(s, t, tr, u, more);
      t := u;
    }
  }
}
