/** The prefetch ring: 4096 entries, one producer, one consumer, free-running 32-bit counters. */
module Ring {
  datatype Entry = Entry(l: int, e: int)

  const SIZE := 4096
  const WRAP := 0x1_0000_0000

  /** between loading both counters and storing its own */
  datatype Producer =
    | PIdle
    | PLoaded(entry: Entry, r: nat)
    | PWriteL(entry: Entry)
    | PWriteE(entry: Entry)
    | PStore(entry: Entry)
  datatype Consumer = CIdle | CLoadedR(r: nat) | CReadL(r: nat) | CReadE(r: nat, l: int) | CWork(r: nat, entry: Entry)

  /** counters and buffer; sent and got (not program state) list what was enqueued and what was consumed */
  datatype State = State(w: nat, r: nat, buf: seq<Entry>, p: Producer, c: Consumer, sent: seq<Entry>, got: seq<Entry>)

  /** a count kept in an unsigned 32-bit counter */
  function Low(n: nat): (c: nat)
    ensures c < WRAP
  {
    n % WRAP
  }

  /** the entry a counter points at: its low 12 bits */
  function At(n: nat): (k: nat)
    ensures k < SIZE
  {
    n % SIZE
  }

  /** unsigned 32-bit subtraction */
  function Sub(a: nat, b: nat): (d: nat)
    requires a < WRAP && b < WRAP
    ensures d < WRAP
  {
    (a - b) % WRAP
  }

  ghost predicate Sized(s: State) {
    |s.buf| == SIZE && s.w < WRAP && s.r < WRAP
  }

  /** one load or store of the producer; a full ring drops the entry */
  ghost predicate ProducerStep(s: State, t: State)
    requires Sized(s)
  {
    match s.p
    case PIdle => exists x: Entry :: t == s.(p := PLoaded(x, s.r))
    case PLoaded(x, r) => r < WRAP && t == s.(p := if Sub(s.w, r) < SIZE then PWriteL(x) else PIdle)
    case PWriteL(x) => t == s.(buf := s.buf[At(s.w) := s.buf[At(s.w)].(l := x.l)], p := PWriteE(x))
    case PWriteE(x) => t == s.(buf := s.buf[At(s.w) := s.buf[At(s.w)].(e := x.e)], p := PStore(x))
    case PStore(x) => t == s.(w := Low(s.w + 1), sent := s.sent + [x], p := PIdle)
  }

  /** one load or store of the consumer; it owns r, and frees the entry only after acting on it */
  ghost predicate ConsumerStep(s: State, t: State)
    requires Sized(s)
  {
    match s.c
    case CIdle => t == s.(c := CLoadedR(s.r))
    case CLoadedR(r) => t == s.(c := if r == s.w then CIdle else CReadL(r))
    case CReadL(r) => t == s.(c := CReadE(r, s.buf[At(r)].l))
    case CReadE(r, l) => t == s.(c := CWork(r, Entry(l, s.buf[At(r)].e)))
    case CWork(r, x) => t == s.(r := Low(r + 1), got := s.got + [x], c := CIdle)
  }

  ghost predicate Next(s: State, t: State) {
    Sized(s) && (ProducerStep(s, t) || ConsumerStep(s, t))
  }

  ghost predicate Init(s: State) {
    Sized(s) && s.w == 0 && s.r == 0 && s.p == PIdle && s.c == CIdle && s.sent == [] && s.got == []
  }

  // ---------- the invariant ----------

  /** what was consumed is a prefix of what was enqueued; the rest is in the buffer, no more than fits */
  ghost predicate Prefix(s: State)
    requires Sized(s)
  {
    && |s.got| <= |s.sent| <= |s.got| + SIZE && s.got == s.sent[..|s.got|]
    && s.w == Low(|s.sent|) && s.r == Low(|s.got|)
    && forall k: nat :: |s.got| <= k < |s.sent| ==> s.buf[At(k)] == s.sent[k]
  }

  ghost predicate ProducerOk(s: State)
    requires Sized(s)
  {
    match s.p
    case PIdle => true
    case PLoaded(x, r) => exists n: nat :: n <= |s.got| && |s.sent| <= n + SIZE && r == Low(n)
    case PWriteL(x) => |s.sent| < |s.got| + SIZE
    case PWriteE(x) => |s.sent| < |s.got| + SIZE && s.buf[At(s.w)].l == x.l
    case PStore(x) => |s.sent| < |s.got| + SIZE && s.buf[At(s.w)] == x
  }

  ghost predicate ConsumerOk(s: State) {
    match s.c
    case CIdle => true
    case CLoadedR(r) => r == s.r
    case CReadL(r) => r == s.r && |s.got| < |s.sent|
    case CReadE(r, l) => r == s.r && |s.got| < |s.sent| && l == s.sent[|s.got|].l
    case CWork(r, x) => r == s.r && |s.got| < |s.sent| && x == s.sent[|s.got|]
  }

  ghost predicate Inv(s: State) {
    Sized(s) && Prefix(s) && ProducerOk(s) && ConsumerOk(s)
  }

  lemma SubMod(a: nat, b: nat)
    requires b <= a < b + WRAP
    ensures Sub(Low(a), Low(b)) == a - b
  {
  }

  lemma SubSelf(a: nat)
    requires a < WRAP
    ensures Sub(a, a) == 0
  {
  }

  lemma SlotOf(n: nat)
    ensures At(Low(n)) == At(n) && Low(Low(n) + 1) == Low(n + 1)
  {
    var q, c := n / WRAP, n % WRAP;
    assert n == c + WRAP * q;
    Turns(c, q * (WRAP / SIZE));
    Wraps(c + 1, q);
  }

  /** whole turns of the ring, or of the counter, leave the remainder as it was */
  lemma Turns(a: nat, t: nat)
    ensures (a + SIZE * t) % SIZE == a % SIZE
  {
  }

  lemma Wraps(a: nat, t: nat)
    ensures (a + WRAP * t) % WRAP == a % WRAP
  {
  }

  lemma SlotsApart(k: nat, n: nat)
    requires k < n < k + SIZE
    ensures At(k) != At(n)
  {
  }

  lemma ProducerInv(s: State, t: State)
    requires Inv(s) && ProducerStep(s, t)
    ensures Inv(t)
  {
    hide Low, At, Sub;
    SlotOf(|s.sent|);
    match s.p
    case PIdle =>
    case PLoaded(x, r) =>
      var n: nat :| n <= |s.got| && |s.sent| <= n + SIZE && r == Low(n);
      SubMod(|s.sent|, n);
    case PStore(x) =>
      forall k: nat | |t.got| <= k < |t.sent| ensures t.buf[At(k)] == t.sent[k] {}
      assert t.got == t.sent[..|t.got|];
    case _ =>
      forall k: nat | |s.got| <= k < |s.sent| ensures t.buf[At(k)] == s.sent[k] { SlotsApart(k, |s.sent|); }
  }

  /** the producer loaded r when n entries had been consumed: it drops its entry exactly when 4096 were unread then */
  lemma DropsFull(s: State, t: State, n: nat)
    requires Inv(s) && ProducerStep(s, t) && s.p.PLoaded? && n <= |s.sent| <= n + SIZE && s.p.r == Low(n)
    ensures t.p == if |s.sent| - n == 4096 then PIdle else PWriteL(s.p.entry)
    ensures t.sent == s.sent
  {
    hide Low, Sub;
    SubMod(|s.sent|, n);
  }

  lemma {:induction false} Looking(tr: seq<State>, j: nat, i: nat, x: Entry)
    requires Run(tr) && j < i < |tr| && tr[j].p.PIdle? && forall k :: j < k <= i ==> tr[k].p == PLoaded(x, tr[j].r)
    ensures tr[i].sent == tr[j].sent
  {
    if j + 1 < i { Looking(tr, j, i - 1, x); }
    assert Next(tr[i - 1], tr[i]);
  }

  /** in every run an entry is dropped if and only if 4096 were unread when the producer looked */
  lemma DropsIffFull(tr: seq<State>, j: nat, i: nat, x: Entry)
    requires Run(tr) && j < i && i + 1 < |tr| && tr[j].p.PIdle?
    requires forall k :: j < k <= i ==> tr[k].p == PLoaded(x, tr[j].r)
    requires tr[i + 1].p != tr[i].p
    ensures tr[i + 1].p == if |tr[j].sent| - |tr[j].got| == 4096 then PIdle else PWriteL(x)
  {
    hide Low, Sub, At;
    Looking(tr, j, i, x);
    RingCorrect(tr, i);
    RingCorrect(tr, j);
    assert Next(tr[i], tr[i + 1]);
    DropsFull(tr[i], tr[i + 1], |tr[j].got|);
  }

  lemma ConsumerInv(s: State, t: State)
    requires Inv(s) && ConsumerStep(s, t)
    ensures Inv(t)
    ensures s.c.CLoadedR? ==> (t.c.CIdle? <==> |s.got| == |s.sent|)
  {
    hide Low, At, Sub;
    SlotOf(|s.got|);
    if s.c.CLoadedR? {
      SubMod(|s.sent|, |s.got|);
      SubSelf(s.w);
    }
    if s.c.CWork? { assert t.got == t.sent[..|t.got|]; }
  }

  ghost predicate Run(tr: seq<State>) {
    tr != [] && Init(tr[0]) && forall i :: 0 < i < |tr| ==> Next(tr[i - 1], tr[i])
  }

  /** in every run the consumed entries are a prefix of the enqueued ones, in order; every unread entry is still in its
      slot; and the 32-bit distance of the counters is the true one and at most the ring's size */
  lemma {:induction false} RingCorrect(tr: seq<State>, i: nat)
    requires Run(tr) && i < |tr|
    ensures Inv(tr[i]) && tr[i].got <= tr[i].sent
    ensures Sub(tr[i].w, tr[i].r) == |tr[i].sent| - |tr[i].got| <= SIZE
    ensures forall k: nat :: |tr[i].got| <= k < |tr[i].sent| ==> tr[i].buf[At(k)] == tr[i].sent[k]
  {
    if i > 0 {
      RingCorrect(tr, i - 1);
      if ProducerStep(tr[i - 1], tr[i]) { ProducerInv(tr[i - 1], tr[i]); } else { ConsumerInv(tr[i - 1], tr[i]); }
    }
    SubMod(|tr[i].sent|, |tr[i].got|);
  }
}
