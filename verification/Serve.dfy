/** The multiplexed server: slots that keep a history and its cache rows, prefix reuse, ragged decode rounds.

    A request is a prompt in a slot.  The ghost ledger gives each accepted request a ticket and records how it ended. */
module Serve {
  import opened SpecTree
  import opened Forward
  import opened SpecDecode

  /** a context and the request on it; disk is the history its file holds */
  datatype Slot = Slot(hist: seq<Token>, len: nat, disk: seq<Token>,
                       active: bool, id: nat, pending: Token, emitted: nat, maximum: nat, temp: real, topP: real)

  /** the accepted request a slot works on */
  datatype Job = Job(ticket: nat, prompt: seq<Token>, out: seq<Token>)

  /** whole: ended by DONE from the decoder, not by CANCEL or an interrupt */
  datatype Ended = Ended(job: Job, id: nat, maximum: nat, temp: real, topP: real, whole: bool)

  /** what an accepted request asked for: its maximum is the tokens asked for, or what the context has room for */
  datatype Submission = Submission(id: nat, prompt: seq<Token>, maximum: nat, temp: real, topP: real)

  /** temperature, nucleus, logits and the number of earlier draws determine the pick */
  type Picker = (real, real, seq<real>, nat) -> Token

  ghost predicate PickerOk(e: Engine, pick: Picker) {
    forall t: real, p: real, lo: seq<real>, k: nat :: |lo| == e.vocab ==>
      pick(t, p, lo, k) < e.vocab && (t <= 0.0 && e.vocab > 0 ==> pick(t, p, lo, k) == Argmax(lo, e.vocab))
  }

  // ---------- one slot ----------

  /** the cache rows of the slot are those of its history; the file holds a prefix of it */
  ghost predicate KvOk<Hid(!new), Row(!new)>(net: Net<Hid, Row>, kv: Store<Row>, maxctx: nat, i: nat, s: Slot) {
    && |s.hist| == maxctx && s.len <= maxctx && Holds(net, kv, i, s.hist[..s.len], s.len)
    && |s.disk| <= s.len && s.disk == s.hist[..|s.disk|]
  }

  /** t is what some draw picks from the logits after h */
  ghost predicate Picked1(e: Engine, pick: Picker, temp: real, topP: real, h: seq<Token>, t: Token) {
    exists k: nat :: t == pick(temp, topP, e.logits(h), k)
  }

  /** every token that is out was picked from the logits its own sequence determines, and is no stop token */
  ghost predicate Follows(e: Engine, pick: Picker, temp: real, topP: real, j: Job) {
    forall k :: 0 <= k < |j.out| ==> Picked1(e, pick, temp, topP, j.prompt + j.out[..k], j.out[k]) && !e.stop(j.out[k])
  }

  /** some draw picks a stop token next */
  ghost predicate StopNext(e: Engine, pick: Picker, temp: real, topP: real, j: Job) {
    exists t :: Picked1(e, pick, temp, topP, j.prompt + j.out, t) && e.stop(t)
  }

  lemma FollowsMore(e: Engine, pick: Picker, temp: real, topP: real, j: Job, t: Token)
    requires Follows(e, pick, temp, topP, j) && Picked1(e, pick, temp, topP, j.prompt + j.out, t) && !e.stop(t)
    ensures Follows(e, pick, temp, topP, j.(out := j.out + [t]))
  {
    hide Picked1;
    var o := j.out + [t];
    forall k | 0 <= k < |o| ensures Picked1(e, pick, temp, topP, j.prompt + o[..k], o[k]) && !e.stop(o[k]) {
      assert o[..k] == j.out[..k];
      if k == |j.out| { assert j.out[..k] == j.out; }
    }
  }

  /** n more tokens of the request fit, every token so far was picked from its own sequence's
      logits, and for a greedy one what is out so far is on the single-sequence path */
  ghost predicate OnPath(e: Engine, pick: Picker, maxctx: nat, s: Slot, j: Job, n: nat)
    requires e.Valid()
  {
    && s.active && j.prompt != [] && s.emitted == |j.out| && s.emitted + n == s.maximum && s.len + n < maxctx
    && Follows(e, pick, s.temp, s.topP, j)
    && (s.temp <= 0.0 ==> j.out + GreedyTokens(e, j.prompt + j.out, n) == GreedyTokens(e, j.prompt, s.maximum))
  }

  /** between rounds: an active slot's history ends in its pending token, which the cache does not hold yet */
  ghost predicate Pending(e: Engine, pick: Picker, maxctx: nat, s: Slot, j: Job)
    requires e.Valid()
  {
    && |s.hist| == maxctx && 1 <= s.emitted < s.maximum && s.len + 1 + (s.maximum - s.emitted) < maxctx
    && OnPath(e, pick, maxctx, s, j, s.maximum - s.emitted) && s.hist[..s.len + 1] == j.prompt + j.out
    && s.hist[s.len] == s.pending < e.vocab
  }

  ghost predicate SlotOk<Hid(!new), Row(!new)>(net: Net<Hid, Row>, kv: Store<Row>, e: Engine, pick: Picker, maxctx: nat,
                             i: nat, s: Slot, j: Job)
    requires e.Valid()
  {
    KvOk(net, kv, maxctx, i, s) && if s.active then Pending(e, pick, maxctx, s, j) else |s.disk| == s.len
  }

  /** right after a forward: the whole history is in the cache, and the next token is about to be picked */
  ghost predicate Mid<Hid(!new), Row(!new)>(net: Net<Hid, Row>, kv: Store<Row>, e: Engine, pick: Picker, maxctx: nat,
                          i: nat, s: Slot, j: Job)
    requires e.Valid()
  {
    && KvOk(net, kv, maxctx, i, s) && s.emitted < s.maximum && OnPath(e, pick, maxctx, s, j, s.maximum - s.emitted)
    && s.hist[..s.len] == j.prompt + j.out
  }

  // ---------- the ledger ----------

  ghost predicate EndedOk(e: Engine, pick: Picker, x: Ended)
    requires e.Valid()
  {
    && x.job.prompt != [] && |x.job.out| <= x.maximum && Follows(e, pick, x.temp, x.topP, x.job)
    && (x.whole ==> |x.job.out| == x.maximum || StopNext(e, pick, x.temp, x.topP, x.job))
    && (x.temp <= 0.0 ==> x.job.out <= GreedyTokens(e, x.job.prompt, x.maximum))
    && (x.temp <= 0.0 && x.whole ==> x.job.out == GreedyTokens(e, x.job.prompt, x.maximum))
  }

  ghost predicate Ended1(log: seq<Ended>, t: nat) {
    exists k :: 0 <= k < |log| && log[k].job.ticket == t
  }

  ghost predicate Live(slots: seq<Slot>, jobs: seq<Job>, t: nat)
    requires |slots| == |jobs|
  {
    exists i :: 0 <= i < |slots| && slots[i].active && jobs[i].ticket == t
  }

  /** every accepted request either is live in one slot or has ended once */
  ghost predicate Ledger(slots: seq<Slot>, jobs: seq<Job>, log: seq<Ended>, accepted: nat)
    requires |slots| == |jobs|
  {
    && (forall a, b :: 0 <= a < b < |log| ==> log[a].job.ticket != log[b].job.ticket)
    && (forall a, b :: 0 <= a < b < |slots| && slots[a].active && slots[b].active ==> jobs[a].ticket != jobs[b].ticket)
    && (forall i :: 0 <= i < |slots| && slots[i].active ==> jobs[i].ticket < accepted && !Ended1(log, jobs[i].ticket))
    && (forall t: nat :: t < accepted ==> Live(slots, jobs, t) || Ended1(log, t))
    && forall k :: 0 <= k < |log| ==> log[k].job.ticket < accepted
  }

  /** the live request of slot i ends */
  lemma LedgerEnd(slots: seq<Slot>, jobs: seq<Job>, log: seq<Ended>, accepted: nat, i: nat, s: Slot, x: Ended)
    requires |slots| == |jobs| && Ledger(slots, jobs, log, accepted)
    requires i < |slots| && slots[i].active && !s.active && x.job == jobs[i]
    ensures Ledger(slots[i := s], jobs, log + [x], accepted)
  {
    var slots', log' := slots[i := s], log + [x];
    forall t: nat | t < accepted ensures Live(slots', jobs, t) || Ended1(log', t) {
      if Live(slots, jobs, t) {
        var a :| 0 <= a < |slots| && slots[a].active && jobs[a].ticket == t;
        if a == i { assert log'[|log|].job.ticket == t; } else { assert slots'[a].active; }
      } else {
        var k :| 0 <= k < |log| && log[k].job.ticket == t;
        assert log'[k].job.ticket == t;
      }
    }
    forall a | 0 <= a < |slots'| && slots'[a].active ensures !Ended1(log', jobs[a].ticket) {
      assert slots[a].active;
    }
  }

  /** a request is accepted into an idle slot */
  lemma LedgerAccept(slots: seq<Slot>, jobs: seq<Job>, log: seq<Ended>, accepted: nat, i: nat, s: Slot, j: Job)
    requires |slots| == |jobs| && Ledger(slots, jobs, log, accepted) && i < |slots|
    requires !slots[i].active && s.active && j.ticket == accepted
    ensures Ledger(slots[i := s], jobs[i := j], log, accepted + 1)
  {
    var slots', jobs' := slots[i := s], jobs[i := j];
    forall t: nat | t < accepted + 1 ensures Live(slots', jobs', t) || Ended1(log, t) {
      if t == accepted {
        assert slots'[i].active && jobs'[i].ticket == t;
      } else if Live(slots, jobs, t) {
        var a :| 0 <= a < |slots| && slots[a].active && jobs[a].ticket == t;
        assert slots'[a].active && jobs'[a].ticket == t;
      }
    }
  }

  /** a live request goes on */
  lemma LedgerGoes(slots: seq<Slot>, jobs: seq<Job>, log: seq<Ended>, accepted: nat, i: nat, s: Slot, j: Job)
    requires |slots| == |jobs| && Ledger(slots, jobs, log, accepted) && i < |slots|
    requires slots[i].active == s.active && j.ticket == jobs[i].ticket
    ensures Ledger(slots[i := s], jobs[i := j], log, accepted)
  {
    var slots', jobs' := slots[i := s], jobs[i := j];
    forall t: nat | t < accepted ensures Live(slots', jobs', t) || Ended1(log, t) {
      if Live(slots, jobs, t) {
        var a :| 0 <= a < |slots| && slots[a].active && jobs[a].ticket == t;
        assert slots'[a].active && jobs'[a].ticket == t;
      }
    }
  }

  /** when no slot is active, every accepted request has ended exactly once, and every greedy one that was not cut short
      got exactly what single-sequence decoding emits */
  lemma EveryRequestEnds(e: Engine, pick: Picker, slots: seq<Slot>, jobs: seq<Job>, log: seq<Ended>, accepted: nat,
                         t: nat) returns (k: nat)
    requires e.Valid() && |slots| == |jobs| && Ledger(slots, jobs, log, accepted) && t < accepted
    requires forall i :: 0 <= i < |slots| ==> !slots[i].active
    requires forall k :: 0 <= k < |log| ==> EndedOk(e, pick, log[k])
    ensures k < |log| && log[k].job.ticket == t && EndedOk(e, pick, log[k])
    ensures forall a :: 0 <= a < |log| && log[a].job.ticket == t ==> a == k
  {
    assert Ended1(log, t);
    k :| 0 <= k < |log| && log[k].job.ticket == t;
  }

  // ---------- what was asked for ----------

  function EndOf(s: Slot, j: Job, whole: bool): Ended {
    Ended(j, s.id, s.maximum, s.temp, s.topP, whole)
  }

  /** the request is served, or was, with the id, prompt, maximum, temperature and nucleus it was submitted with */
  ghost predicate AsAsked(x: Ended, subs: seq<Submission>) {
    && x.job.ticket < |subs|
    && subs[x.job.ticket] == Submission(x.id, x.job.prompt, x.maximum, x.temp, x.topP)
  }

  ghost predicate Matches(slots: seq<Slot>, jobs: seq<Job>, log: seq<Ended>, subs: seq<Submission>)
    requires |slots| == |jobs|
  {
    && (forall i :: 0 <= i < |slots| && slots[i].active ==> AsAsked(EndOf(slots[i], jobs[i], true), subs))
    && forall k :: 0 <= k < |log| ==> AsAsked(log[k], subs)
  }

  lemma MatchEnd(slots: seq<Slot>, jobs: seq<Job>, log: seq<Ended>, subs: seq<Submission>, i: nat, s: Slot, whole: bool)
    requires |slots| == |jobs| && Matches(slots, jobs, log, subs) && i < |slots| && slots[i].active && !s.active
    ensures Matches(slots[i := s], jobs, log + [EndOf(slots[i], jobs[i], whole)], subs)
  {
    assert AsAsked(EndOf(slots[i], jobs[i], true), subs);
  }

  lemma MatchAccept(slots: seq<Slot>, jobs: seq<Job>, log: seq<Ended>, subs: seq<Submission>, i: nat, s: Slot, j: Job)
    requires |slots| == |jobs| && Matches(slots, jobs, log, subs) && i < |slots| && j.ticket == |subs|
    ensures Matches(slots[i := s], jobs[i := j], log, subs + [Submission(s.id, j.prompt, s.maximum, s.temp, s.topP)])
  {
    var subs' := subs + [Submission(s.id, j.prompt, s.maximum, s.temp, s.topP)];
    forall k | 0 <= k < |log| ensures AsAsked(log[k], subs') { assert AsAsked(log[k], subs); }
    forall k | 0 <= k < |slots| && k != i && slots[k].active ensures AsAsked(EndOf(slots[k], jobs[k], true), subs') {
      assert AsAsked(EndOf(slots[k], jobs[k], true), subs);
    }
  }

  lemma MatchGoes(slots: seq<Slot>, jobs: seq<Job>, log: seq<Ended>, subs: seq<Submission>, i: nat, s: Slot, j: Job)
    requires |slots| == |jobs| && Matches(slots, jobs, log, subs) && i < |slots|
    requires s.active ==> slots[i].active && SameAsk(slots[i], s)
    requires j.ticket == jobs[i].ticket && j.prompt == jobs[i].prompt
    ensures Matches(slots[i := s], jobs[i := j], log, subs)
  {
    hide AsAsked;
    if s.active { SameAsked(slots[i], jobs[i], s, j, subs); }
  }

  lemma SameAsked(s: Slot, j: Job, s': Slot, j': Job, subs: seq<Submission>)
    requires AsAsked(EndOf(s, j, true), subs) && SameAsk(s, s')
    requires j'.ticket == j.ticket && j'.prompt == j.prompt
    ensures AsAsked(EndOf(s', j', true), subs)
  {
  }

  ghost predicate SameAsk(s: Slot, t: Slot) {
    t.id == s.id && t.maximum == s.maximum && t.temp == s.temp && t.topP == s.topP
  }

  // ---------- what a pick does to a slot ----------

  /** the request ends: the file catches up with the history */
  function Finished(s: Slot): Slot {
    s.(active := false, disk := if s.len <= |s.hist| && |s.disk| < s.len then s.hist[..s.len] else s.disk)
  }

  /** the picked token goes out and into the history */
  function Emitted(s: Slot, t: Token): Slot
    requires s.len < |s.hist|
  {
    s.(hist := s.hist[s.len := t], pending := t, emitted := s.emitted + 1)
  }

  lemma EmitOk<Hid(!new), Row(!new)>(net: Net<Hid, Row>, kv: Store<Row>, e: Engine, pick: Picker, maxctx: nat, i: nat,
                   s: Slot, j: Job, t: Token)
    requires e.Valid() && Mid(net, kv, e, pick, maxctx, i, s, j) && t < e.vocab
    requires !e.stop(t) && Picked1(e, pick, s.temp, s.topP, j.prompt + j.out, t)
    requires s.temp <= 0.0 ==> t == Best(e, j.prompt + j.out)
    ensures s.len < |s.hist|
    ensures var (s', j') := (Emitted(s, t), j.(out := j.out + [t]));
      && KvOk(net, kv, maxctx, i, s') && OnPath(e, pick, maxctx, s', j', s'.maximum - s'.emitted)
      && s'.hist[..s.len + 1] == j'.prompt + j'.out && s'.hist[s.len] == t
      && s'.len + 1 + (s'.maximum - s'.emitted) < maxctx
  {
    hide Holds, Best, Engine.Valid, Follows, Picked1;
    FollowsMore(e, pick, s.temp, s.topP, j, t);
    var s', j' := Emitted(s, t), j.(out := j.out + [t]);
    assert s'.hist[..s.len] == s.hist[..s.len] && s'.hist[..|s.disk|] == s.hist[..|s.disk|];
    assert s'.hist[..s.len + 1] == s'.hist[..s.len] + [t];
    assert j.prompt + j'.out == (j.prompt + j.out) + [t];
    var n := s.maximum - s.emitted;
    if s.temp <= 0.0 {
      var h := j.prompt + j.out;
      assert GreedyTokens(e, h, n) == [t] + GreedyTokens(e, h + [t], n - 1);
      assert j'.out + GreedyTokens(e, h + [t], n - 1) == j.out + ([t] + GreedyTokens(e, h + [t], n - 1));
    }
  }

  /** the next pick of a greedy request is the best token after its history */
  lemma EndWhole(e: Engine, pick: Picker, maxctx: nat, s: Slot, j: Job, n: nat)
    requires e.Valid() && OnPath(e, pick, maxctx, s, j, n)
    requires n == 0 || (StopNext(e, pick, s.temp, s.topP, j) && (s.temp <= 0.0 ==> e.stop(Best(e, j.prompt + j.out))))
    ensures EndedOk(e, pick, Ended(j, s.id, s.maximum, s.temp, s.topP, true))
  {
    assert j.out + [] == j.out;
  }

  lemma EndCut(e: Engine, pick: Picker, maxctx: nat, s: Slot, j: Job, n: nat)
    requires e.Valid() && OnPath(e, pick, maxctx, s, j, n)
    ensures EndedOk(e, pick, Ended(j, s.id, s.maximum, s.temp, s.topP, false))
  {
  }

  lemma HoldsKept<Hid(!new), Row(!new)>(net: Net<Hid, Row>, was: Store<Row>, kv: Store<Row>, i: nat, h: seq<Token>,
                      n: nat)
    requires n <= |h| && Holds(net, was, i, h, n) && SlotKept(was, kv, i)
    ensures Holds(net, kv, i, h, n)
  {
    forall l: nat, p: nat | l < net.layers && p < n ensures RowOk(net, kv, i, h, p, l) {
      assert RowOk(net, was, i, h, p, l);
    }
  }

  lemma SlotStays<Hid(!new), Row(!new)>(net: Net<Hid, Row>, was: Store<Row>, kv: Store<Row>, e: Engine, pick: Picker,
                      maxctx: nat, i: nat, s: Slot, j: Job)
    requires e.Valid() && SlotOk(net, was, e, pick, maxctx, i, s, j) && SlotKept(was, kv, i)
    ensures SlotOk(net, kv, e, pick, maxctx, i, s, j)
  {
    hide Holds, SlotKept, Pending;
    HoldsKept(net, was, kv, i, s.hist[..s.len], s.len);
  }

  /** one turn of the loop: a soft stop may be pending, and one frame may be waiting */
  datatype Frame =
    | Nothing
    | Cancelled(id: nat)
    | Submitted(i: nat, id: nat, toks: seq<Token>, maxTokens: nat, temp: real, topP: real)
  {
    /** the tokeniser's limit and the parser's */
    predicate Fits(maxctx: nat)
      requires Submitted?
    {
      |toks| + 2 <= maxctx && maxTokens >= 1
    }
  }

  datatype Turn = Turn(intr: bool, frame: Frame)

  /** some of the first n frames asked for this */
  ghost predicate FromScript(script: seq<Turn>, n: nat, maxctx: nat, x: Submission) {
    exists k :: 0 <= k < n && k < |script| && Asks(script[k].frame, maxctx, x)
  }

  ghost predicate Asks(f: Frame, maxctx: nat, x: Submission) {
    && f.Submitted? && x.id == f.id && x.prompt == f.toks && x.temp == f.temp && x.topP == f.topP
    && x.maximum == if f.maxTokens > maxctx - |f.toks| - 1 then maxctx - |f.toks| - 1 else f.maxTokens
  }

  lemma FromLater(script: seq<Turn>, n: nat, m: nat, maxctx: nat, x: Submission)
    requires n <= m && FromScript(script, n, maxctx, x)
    ensures FromScript(script, m, maxctx, x)
  {
  }

  lemma FromFrame(script: seq<Turn>, n: nat, maxctx: nat, x: Submission)
    requires n < |script| && Asks(script[n].frame, maxctx, x)
    ensures FromScript(script, n + 1, maxctx, x)
  {
  }

  /** tokens the active requests may still emit */
  ghost function Work(slots: seq<Slot>): nat {
    if slots == [] then 0 else Work(slots[..|slots| - 1]) + Load(slots[|slots| - 1])
  }

  ghost function Load(s: Slot): nat {
    if s.active && s.emitted < s.maximum then s.maximum - s.emitted else if s.active then 1 else 0
  }

  lemma {:induction false} WorkLess(a: seq<Slot>, b: seq<Slot>)
    requires |a| == |b| && forall i :: 0 <= i < |a| ==> Went(a[i], b[i])
    ensures Work(b) <= Work(a) && ((exists i :: 0 <= i < |a| && a[i].active) ==> Work(b) < Work(a))
    decreases |a|
  {
    if a != [] {
      var n := |a| - 1;
      WorkLess(a[..n], b[..n]);
      assert Went(a[n], b[n]);
      if exists i :: 0 <= i < |a| && a[i].active {
        var i :| 0 <= i < |a| && a[i].active;
        if i < n { assert a[..n][i].active; }
      }
    }
  }

  /** every slot outside skip is good */
  ghost predicate SlotsOk<Hid(!new), Row(!new)>(net: Net<Hid, Row>, kv: Store<Row>, e: Engine, pick: Picker,
                              maxctx: nat, slots: seq<Slot>, jobs: seq<Job>, skip: set<nat>)
    requires e.Valid() && |slots| == |jobs|
  {
    forall k: nat :: k < |slots| && k !in skip ==> SlotOk(net, kv, e, pick, maxctx, k, slots[k], jobs[k])
  }

  lemma SlotsSet<Hid(!new), Row(!new)>(net: Net<Hid, Row>, kv: Store<Row>, e: Engine, pick: Picker, maxctx: nat,
                     slots: seq<Slot>, jobs: seq<Job>, skip: set<nat>, i: nat, s: Slot, j: Job)
    requires e.Valid() && |slots| == |jobs| && i < |slots|
    requires SlotsOk(net, kv, e, pick, maxctx, slots, jobs, skip) && SlotOk(net, kv, e, pick, maxctx, i, s, j)
    ensures SlotsOk(net, kv, e, pick, maxctx, slots[i := s], jobs[i := j], skip - {i})
  {
    hide SlotOk;
  }

  lemma SlotsSkip<Hid(!new), Row(!new)>(net: Net<Hid, Row>, kv: Store<Row>, e: Engine, pick: Picker, maxctx: nat,
                      slots: seq<Slot>, jobs: seq<Job>, skip: set<nat>, i: nat, s: Slot, j: Job)
    requires e.Valid() && |slots| == |jobs| && i < |slots| && SlotsOk(net, kv, e, pick, maxctx, slots, jobs, skip)
    ensures SlotsOk(net, kv, e, pick, maxctx, slots[i := s], jobs[i := j], skip + {i})
  {
    hide SlotOk;
  }

  lemma SlotsKept<Hid(!new), Row(!new)>(net: Net<Hid, Row>, was: Store<Row>, kv: Store<Row>, e: Engine, pick: Picker,
                      maxctx: nat, slots: seq<Slot>, jobs: seq<Job>, skip: set<nat>)
    requires e.Valid() && |slots| == |jobs| && SlotsOk(net, was, e, pick, maxctx, slots, jobs, {})
    requires forall k: nat :: k < |slots| && k !in skip ==> SlotKept(was, kv, k)
    ensures SlotsOk(net, kv, e, pick, maxctx, slots, jobs, skip)
  {
    hide SlotOk, SlotKept;
    forall k: nat | k < |slots| && k !in skip ensures SlotOk(net, kv, e, pick, maxctx, k, slots[k], jobs[k]) {
      SlotStays(net, was, kv, e, pick, maxctx, k, slots[k], jobs[k]);
    }
  }

  // ---------- the server ----------

  /** an idle context with the history its file gave */
  function Resumed(h: seq<Token>, maxctx: nat): Slot
    requires |h| <= maxctx
  {
    Slot(h + seq(maxctx - |h|, k => 0), |h|, h, false, 0, 0, 0, 0, 0.0, 0.0)
  }

  lemma ResumedOk<Hid(!new), Row(!new)>(net: Net<Hid, Row>, kv: Store<Row>, e: Engine, pick: Picker, maxctx: nat,
                      i: nat, h: seq<Token>, j: Job)
    requires e.Valid() && |h| <= maxctx && Holds(net, kv, i, h, |h|)
    ensures var s := Resumed(h, maxctx); s.hist[..s.len] == h && SlotOk(net, kv, e, pick, maxctx, i, s, j)
  {
    hide Holds;
    assert Resumed(h, maxctx).hist[..|h|] == h;
  }

  lemma StartLedger(slots: seq<Slot>, jobs: seq<Job>)
    requires |slots| == |jobs| && forall i :: 0 <= i < |slots| ==> !slots[i].active
    ensures Ledger(slots, jobs, [], 0)
  {
  }

  class Server<Hid(!new), Row(!new)> {
    const net: Net<Hid, Row>
    const e: Engine
    const pick: Picker
    const maxctx: nat
    const cache: Cache<Row>
    var slots: seq<Slot>
    var draws: nat
    ghost var jobs: seq<Job>
    ghost var log: seq<Ended>
    ghost var accepted: nat
    ghost var subs: seq<Submission>

    /** every context starts with the conversation its file gave, or empty: what is loaded is a history and its rows */
    constructor (net: Net<Hid, Row>, e: Engine, pick: Picker, maxctx: nat, kvLora: nat, loaded: seq<seq<Token>>,
                 rows: Store<Row>)
      requires Runs(e, net) && PickerOk(e, pick) && |loaded| <= 16
      requires forall i: nat :: i < |loaded| ==> |loaded[i]| <= maxctx && Holds(net, rows, i, loaded[i], |loaded[i]|)
      ensures Valid() && fresh(cache) && accepted == 0 && subs == [] && cache.kvLora == kvLora && |slots| == |loaded|
      ensures forall i :: 0 <= i < |slots| ==>
          slots[i].hist[..slots[i].len] == loaded[i] == slots[i].disk && !slots[i].active
    {
      this.net, this.e, this.pick, this.maxctx := net, e, pick, maxctx;
      var c := new Cache<Row>(|loaded|, maxctx, kvLora, net.layers, rows);
      cache := c;
      slots := seq(|loaded|, i requires 0 <= i < |loaded| && |loaded[i]| <= maxctx => Resumed(loaded[i], maxctx));
      jobs := seq(|loaded|, i => Job(0, [], []));
      draws, log, accepted, subs := 0, [], 0, [];
      new;
      hide Holds, Ledger, Matches;
      forall i: nat | i < |slots| ensures SlotOk(net, cache.rows, e, pick, maxctx, i, slots[i], jobs[i]) {
        ResumedOk(net, rows, e, pick, maxctx, i, loaded[i], jobs[i]);
      }
      StartLedger(slots, jobs);
    }

    /** all but the slots */
    ghost predicate Fixed()
      reads this
    {
      && e.Valid() && Runs(e, net) && PickerOk(e, pick)
      && |slots| == |jobs| == cache.slots <= 16 && cache.maxT == maxctx && cache.AllThere(net.layers)
      && (forall k :: 0 <= k < |log| ==> EndedOk(e, pick, log[k])) && Ledger(slots, jobs, log, accepted)
      && |subs| == accepted && Matches(slots, jobs, log, subs)
    }

    /** every slot outside skip is good */
    ghost predicate ValidBut(skip: set<nat>)
      reads this, cache
    {
      Fixed() && SlotsOk(net, cache.rows, e, pick, maxctx, slots, jobs, skip)
    }

    ghost predicate Valid()
      reads this, cache
    {
      ValidBut({})
    }

    /** mux_done, or the end of a cancelled or interrupted request */
    method End(i: nat, ghost whole: bool, ghost skip: set<nat>)
      requires ValidBut(skip) && i < |slots| && slots[i].active && KvOk(net, cache.rows, maxctx, i, slots[i])
      requires EndedOk(e, pick, EndOf(slots[i], jobs[i], whole))
      modifies `slots, `log
      ensures ValidBut(skip - {i}) && slots == old(slots)[i := Finished(old(slots)[i])]
      ensures log == old(log) + [EndOf(old(slots)[i], jobs[i], whole)]
    {
      hide Runs, PickerOk, Ledger, Matches, EndedOk, SlotOk, SlotsOk, KvOk;
      ghost var x := EndOf(slots[i], jobs[i], whole);
      LedgerEnd(slots, jobs, log, accepted, i, Finished(slots[i]), x);
      MatchEnd(slots, jobs, log, subs, i, Finished(slots[i]), whole);
      FinishedOk(net, cache.rows, e, pick, maxctx, i, slots[i], jobs[i]);
      SlotsSet(net, cache.rows, e, pick, maxctx, slots, jobs, skip, i, Finished(slots[i]), jobs[i]);
      assert jobs[i := jobs[i]] == jobs;
      slots := slots[i := Finished(slots[i])];
      log := log + [x];
    }

    /** pick the next token of slot i from the logits after its history, send it out, end the request if it is over */
    method Settle(i: nat, lo: seq<real>, ghost skip: set<nat>)
      requires ValidBut(skip) && i < |slots| && Mid(net, cache.rows, e, pick, maxctx, i, slots[i], jobs[i])
      requires lo == Logits(net, slots[i].hist[..slots[i].len])
      modifies `slots, `draws, `log, `jobs
      ensures ValidBut(skip - {i}) && |slots| == |old(slots)|
      ensures slots == old(slots)[i := slots[i]] && jobs == old(jobs)[i := jobs[i]]
      ensures jobs[i].prompt == old(jobs)[i].prompt
      ensures jobs[i].ticket == old(jobs)[i].ticket && Went(old(slots)[i], slots[i])
      ensures log == if slots[i].active then old(log) else old(log) + [EndOf(old(slots)[i], jobs[i], true)]
    {
      hide KvOk, Ledger, Matches, EndedOk, OnPath, Runs, PickerOk, GreedyTokens, SlotOk, SlotsOk, Picked1;
      var s := slots[i];
      ActiveMid(net, cache.rows, e, pick, maxctx, i, s, jobs[i]);
      var next := Pick(s.temp, s.topP, lo, jobs[i]);
      if e.stop(next) {
        assert StopNext(e, pick, s.temp, s.topP, jobs[i]);
        EndWhole(e, pick, maxctx, s, jobs[i], s.maximum - s.emitted);
        End(i, true, skip);
      } else {
        SendOut(i, next, skip);
      }
    }

    method SendOut(i: nat, next: Token, ghost skip: set<nat>)
      requires ValidBut(skip) && i < |slots|
      requires Mid(net, cache.rows, e, pick, maxctx, i, slots[i], jobs[i]) && next < e.vocab
      requires Picked1(e, pick, slots[i].temp, slots[i].topP, jobs[i].prompt + jobs[i].out, next) && !e.stop(next)
      requires slots[i].temp <= 0.0 ==> jobs[i].prompt != [] && next == Best(e, jobs[i].prompt + jobs[i].out)
      modifies `slots, `log, `jobs
      ensures ValidBut(skip - {i}) && |slots| == |old(slots)|
      ensures slots == old(slots)[i := slots[i]] && jobs == old(jobs)[i := jobs[i]]
      ensures jobs[i].prompt == old(jobs)[i].prompt
      ensures jobs[i].ticket == old(jobs)[i].ticket && Went(old(slots)[i], slots[i])
      ensures log == if slots[i].active then old(log) else old(log) + [EndOf(old(slots)[i], jobs[i], true)]
    {
      hide KvOk, Ledger, Matches, EndedOk, OnPath, Runs, PickerOk, GreedyTokens, Best, SlotOk, SlotsOk, Picked1;
      ActiveMid(net, cache.rows, e, pick, maxctx, i, slots[i], jobs[i]);
      EmitOk(net, cache.rows, e, pick, maxctx, i, slots[i], jobs[i], next);
      ghost var j := jobs[i].(out := jobs[i].out + [next]);
      var s := Emitted(slots[i], next);
      LedgerGoes(slots, jobs, log, accepted, i, s, j);
      MatchGoes(slots, jobs, log, subs, i, s, j);
      if s.emitted >= s.maximum {
        SlotsSkip(net, cache.rows, e, pick, maxctx, slots, jobs, skip, i, s, j);
        slots, jobs := slots[i := s], jobs[i := j];
        EndWhole(e, pick, maxctx, s, j, 0);
        End(i, true, skip + {i});
        assert (skip + {i}) - {i} == skip - {i};
      } else {
        PendingNow(net, cache.rows, e, pick, maxctx, i, s, j);
        SlotsSet(net, cache.rows, e, pick, maxctx, slots, jobs, skip, i, s, j);
        slots, jobs := slots[i := s], jobs[i := j];
      }
    }

    method Pick(temp: real, topP: real, lo: seq<real>, ghost j: Job) returns (t: Token)
      requires Runs(e, net) && PickerOk(e, pick) && j.prompt != [] && lo == Logits(net, j.prompt + j.out)
      modifies `draws
      ensures t < e.vocab && (temp <= 0.0 ==> t == Best(e, j.prompt + j.out))
      ensures Picked1(e, pick, temp, topP, j.prompt + j.out, t)
    {
      assert j.prompt + j.out != [] && lo == e.logits(j.prompt + j.out);
      t := pick(temp, topP, lo, draws);
      if temp > 0.0 { draws := draws + 1; }
    }

    /** a request is cut short where it stands */
    method Cut(i: nat)
      requires Valid() && i < |slots| && slots[i].active
      modifies `slots, `log
      ensures Valid() && slots == old(slots)[i := Finished(old(slots)[i])]
    {
      hide KvOk, Ledger, Matches, EndedOk, OnPath, Runs, PickerOk, SlotOk;
      ActiveOk(net, cache.rows, e, pick, maxctx, i, slots[i], jobs[i]);
      EndCut(e, pick, maxctx, slots[i], jobs[i], slots[i].maximum - slots[i].emitted);
      End(i, false, {});
      assert {} - {i} == {};
    }

    /** CANCEL: the active request with this id, if there is one */
    method Cancel(id: nat) returns (found: bool, ghost i: nat)
      requires Valid()
      modifies `slots, `log
      ensures Valid() && |slots| == |old(slots)|
      ensures found ==> i < |slots| && old(slots)[i].active && old(slots)[i].id == id
      ensures found ==> slots == old(slots)[i := Finished(old(slots)[i])]
      ensures found <==> exists i :: 0 <= i < |slots| && old(slots)[i].active && old(slots)[i].id == id
      ensures !found ==> slots == old(slots) && log == old(log)
    {
      hide Fixed, SlotsOk;
      var z: nat := 0;
      while z < |slots|
        invariant z <= |slots| && slots == old(slots) && log == old(log)
        invariant forall k :: 0 <= k < z ==> !(slots[k].active && slots[k].id == id)
      {
        if slots[z].active && slots[z].id == id {
          Cut(z);
          return true, z;
        }
        z := z + 1;
      }
      return false, 0;
    }

    /** a soft stop: every active request ends now */
    method Interrupt()
      requires Valid()
      modifies `slots, `log
      ensures Valid() && |slots| == |old(slots)| && forall i :: 0 <= i < |slots| ==> !slots[i].active
      ensures forall i :: 0 <= i < |slots| ==>
          slots[i] == if old(slots)[i].active then Finished(old(slots)[i]) else old(slots)[i]
    {
      hide Fixed, SlotsOk;
      var i: nat := 0;
      while i < |slots|
        invariant i <= |slots| == |old(slots)| && Valid()
        invariant forall k :: 0 <= k < i ==>
            slots[k] == if old(slots)[k].active then Finished(old(slots)[k]) else old(slots)[k]
        invariant forall k :: i <= k < |slots| ==> slots[k] == old(slots)[k]
      {
        if slots[i].active { Cut(i); }
        i := i + 1;
      }
    }

    /** bring the cache of an idle slot to exactly these tokens, reusing the longest common prefix */
    method Prefill(i: nat, toks: seq<Token>) returns (lo: seq<real>)
      requires Valid() && i < |slots| && !slots[i].active && toks != [] && |toks| < maxctx
      modifies `slots, cache
      ensures ValidBut({i}) && |slots| == |old(slots)| && !slots[i].active && slots == old(slots)[i := slots[i]]
      ensures KvOk(net, cache.rows, maxctx, i, slots[i]) && slots[i].len == |toks| && slots[i].hist[..|toks|] == toks
      ensures lo == Logits(net, toks) && LongestShared(slots[i].disk, old(slots)[i].disk, toks)
    {
      hide Ledger, Matches, EndedOk, Runs, PickerOk, SlotOk, Holds, Logits;
      var s := slots[i];
      IdleOk(net, cache.rows, e, pick, maxctx, i, s, jobs[i]);
      var prefix := 0;
      while prefix < s.len && prefix < |toks| && s.hist[prefix] == toks[prefix]
        invariant 0 <= prefix <= s.len && prefix <= |toks| && s.hist[..prefix] == toks[..prefix]
      {
        prefix := prefix + 1;
      }
      var s' := s.(hist := toks + s.hist[|toks|..], len := |toks|, disk := s.disk[..prefix]);
      Common(net, cache.rows, maxctx, i, s, toks, prefix);
      Shared(s, toks, prefix);
      lo := Reuse(i, toks, prefix);
      Reused(net, cache.rows, maxctx, i, s, s', toks, prefix);
      LedgerGoes(slots, jobs, log, accepted, i, s', jobs[i]);
      MatchGoes(slots, jobs, log, subs, i, s', jobs[i]);
      SlotsSkip(net, cache.rows, e, pick, maxctx, slots, jobs, {i}, i, s', jobs[i]);
      assert jobs[i := jobs[i]] == jobs && {i} + {i} == {i};
      slots := slots[i := s'];
    }

    /** one forward over what the cache lacks, or over the last token when it lacks nothing */
    method Reuse(i: nat, toks: seq<Token>, prefix: nat) returns (lo: seq<real>)
      requires Valid() && i < |slots| && prefix <= |toks| && toks != []
      requires |toks| < maxctx && Holds(net, cache.rows, i, toks, prefix)
      modifies cache
      ensures ValidBut({i}) && Holds(net, cache.rows, i, toks, |toks|) && lo == Logits(net, toks)
    {
      hide Ledger, Matches, EndedOk, Runs, PickerOk, Holds, Logits, SlotOk;
      ghost var was := cache.rows;
      var base := if prefix < |toks| then prefix else |toks| - 1;
      HoldsTake(net, was, i, toks, base, prefix);
      lo := cache.Step(net, i, toks[base..], base, toks[..base]);
      assert toks[..base] + toks[base..] == toks;
      OthersKept(was, cache.rows, i, |slots|);
      SlotsKept(net, was, cache.rows, e, pick, maxctx, slots, jobs, {i});
    }

    /** SUBMIT with the prompt already tokenised: refused, or prefilled and its first token picked */
    method Submit(i: nat, id: nat, toks: seq<Token>, maxTokens: nat, temp: real, topP: real) returns (ok: bool)
      requires Valid() && |toks| + 2 <= maxctx && maxTokens >= 1
      modifies this, cache
      ensures Valid() && |slots| == |old(slots)|
      ensures ok <==> i < |slots| && !old(slots)[i].active && toks != []
                      && forall k :: 0 <= k < |slots| && old(slots)[k].active ==> old(slots)[k].id != id
      ensures ok ==> accepted == old(accepted) + 1 && jobs[i].prompt == toks && jobs[i].ticket == old(accepted)
      ensures ok ==> var lim := if maxTokens > maxctx - |toks| - 1 then maxctx - |toks| - 1 else maxTokens;
        && subs == old(subs) + [Submission(id, toks, lim, temp, topP)]
        && (slots[i].active ==> slots[i].id == id && slots[i].maximum == lim && log == old(log))
        && (slots[i].active ==> slots[i].temp == temp && slots[i].topP == topP)
        && (!slots[i].active ==> log == old(log) + [Ended(jobs[i], id, lim, temp, topP, true)])
      ensures ok ==> slots == old(slots)[i := slots[i]] && jobs == old(jobs)[i := jobs[i]]
      ensures !ok ==> slots == old(slots) && jobs == old(jobs) && log == old(log)
      ensures !ok ==> accepted == old(accepted) && subs == old(subs)
    {
      hide Ledger, Matches, EndedOk, Runs, PickerOk, Logits, SlotOk, SlotsOk, Mid, KvOk;
      if i >= |slots| || slots[i].active { return false; }
      var k: nat := 0;
      while k < |slots|
        invariant k <= |slots| && forall m :: 0 <= m < k && slots[m].active ==> slots[m].id != id
      {
        if slots[k].active && slots[k].id == id { return false; }
        k := k + 1;
      }
      if toks == [] { return false; }
      var lo := Prefill(i, toks);
      Accept(i, id, toks, maxTokens, temp, topP);
      Settle(i, lo, {i});
      assert {i} - {i} == {};
      return true;
    }

    method Accept(i: nat, id: nat, toks: seq<Token>, maxTokens: nat, temp: real, topP: real)
      requires ValidBut({i}) && i < |slots| && !slots[i].active && toks != [] && |toks| + 2 <= maxctx && maxTokens >= 1
      requires KvOk(net, cache.rows, maxctx, i, slots[i]) && slots[i].len == |toks| && slots[i].hist[..|toks|] == toks
      modifies `slots, `jobs, `accepted, `subs
      ensures ValidBut({i}) && |slots| == |old(slots)| && Mid(net, cache.rows, e, pick, maxctx, i, slots[i], jobs[i])
      ensures slots[i].len == |toks| && slots[i].hist[..|toks|] == toks
      ensures jobs[i] == Job(old(accepted), toks, []) && accepted == old(accepted) + 1
      ensures slots == old(slots)[i := slots[i]] && jobs == old(jobs)[i := jobs[i]]
      ensures slots[i].active && slots[i].id == id && slots[i].temp == temp && slots[i].topP == topP
      ensures slots[i].maximum == (if maxTokens > maxctx - |toks| - 1 then maxctx - |toks| - 1 else maxTokens)
      ensures subs == old(subs) + [Submission(id, toks, slots[i].maximum, temp, topP)]
    {
      hide Ledger, Matches, EndedOk, Runs, PickerOk, SlotOk, SlotsOk, Holds, GreedyTokens;
      var room := maxctx - |toks| - 1;
      var s := slots[i].(active := true, id := id, pending := 0, emitted := 0,
                         maximum := if maxTokens > room then room else maxTokens,
                         temp := temp, topP := topP);
      ghost var j := Job(accepted, toks, []);
      assert toks + [] == toks;
      LedgerAccept(slots, jobs, log, accepted, i, s, j);
      MatchAccept(slots, jobs, log, subs, i, s, j);
      SlotsSkip(net, cache.rows, e, pick, maxctx, slots, jobs, {i}, i, s, j);
      assert {i} + {i} == {i};
      slots, jobs, accepted := slots[i := s], jobs[i := j], accepted + 1;
      subs := subs + [Submission(s.id, j.prompt, s.maximum, s.temp, s.topP)];
    }

    /** the batch rows of the active slots, in slot order */
    method Collect() returns (rs: seq<DecodeRow>, which: seq<nat>)
      ensures Batch(slots, rs, which)
    {
      rs, which := [], [];
      var i: nat := 0;
      while i < |slots|
        invariant i <= |slots| && |rs| == |which|
        invariant forall a, b :: 0 <= a < b < |which| ==> which[a] < which[b]
        invariant forall t :: 0 <= t < |which| ==>
            which[t] < i && slots[which[t]].active && rs[t] == RowOf(which[t], slots[which[t]])
        invariant forall k: nat :: k < i && slots[k].active ==> k in which
      {
        if slots[i].active { rs, which := rs + [RowOf(i, slots[i])], which + [i]; }
        i := i + 1;
      }
    }

    /** the forward of a round leaves every active slot about to pick from its own sequence's logits */
    method RunBatch(rs: seq<DecodeRow>, which: seq<nat>) returns (ok: bool, lo: seq<seq<real>>)
      requires Valid() && Batch(slots, rs, which) && 1 <= |which|
      modifies cache
      ensures ok <==> cache.kvLora <= 512
      ensures !ok ==> cache.rows == old(cache.rows)
      ensures ok ==> |lo| == |which| && ValidBut(Rest(which, 0))
      ensures ok ==> forall t :: 0 <= t < |which| ==>
        NextUp(net, cache.rows, e, pick, maxctx, which[t], slots[which[t]], jobs[which[t]], lo[t])
    {
      hide Ledger, Matches, EndedOk, Runs, PickerOk, Holds, Logits, SlotOk, NextUp, SlotKept;
      ghost var was := cache.rows;
      ghost var hists := Histories(slots, which);
      Distinct(slots, rs, which);
      BatchReady(net, was, e, pick, maxctx, slots, jobs, rs, which);
      ok, lo := cache.StepDecodeBatch(net, e.vocab, rs, hists);
      if !ok { return; }
      forall k: nat | k < |slots| && k !in Rest(which, 0)
        ensures SlotKept(was, cache.rows, k) { NotInRest(slots, rs, which, k); }
      SlotsKept(net, was, cache.rows, e, pick, maxctx, slots, jobs, Rest(which, 0));
      forall t | 0 <= t < |which|
        ensures NextUp(net, cache.rows, e, pick, maxctx, which[t], slots[which[t]], jobs[which[t]], lo[t])
      {
        Advanced(net, was, cache.rows, e, pick, maxctx, which[t], slots[which[t]], jobs[which[t]], lo[t]);
      }
    }

    /** a decode round: every active slot contributes its pending token and gets its next one */
    method DecodeRound() returns (failed: bool)
      requires Valid()
      modifies this, cache
      ensures Valid() && |slots| == |old(slots)| && accepted == old(accepted) && subs == old(subs)
      ensures failed <==> cache.kvLora > 512 && exists i :: 0 <= i < |slots| && old(slots)[i].active
      ensures failed ==> slots == old(slots)
      ensures !failed ==> forall i :: 0 <= i < |slots| ==> Went(old(slots)[i], slots[i])
    {
      hide Fixed, SlotsOk, Went, NextUp;
      var rs, which := Collect();
      if |which| == 0 {
        IdleWent(slots, rs, which);
        return false;
      }
      var ok, lo := RunBatch(rs, which);
      assert slots[which[0]].active;
      if !ok { return true; }
      PickAll(rs, which, lo);
      return false;
    }

    /** the picks of a round, in slot order */
    method PickAll(ghost rs: seq<DecodeRow>, which: seq<nat>, lo: seq<seq<real>>)
      requires Batch(slots, rs, which) && ValidBut(Rest(which, 0)) && |lo| == |which|
      requires forall t :: 0 <= t < |which| ==>
        NextUp(net, cache.rows, e, pick, maxctx, which[t], slots[which[t]], jobs[which[t]], lo[t])
      modifies `slots, `draws, `log, `jobs
      ensures Valid() && |slots| == |old(slots)| && forall i :: 0 <= i < |slots| ==> Went(old(slots)[i], slots[i])
    {
      hide Runs, PickerOk, Ledger, Matches, EndedOk, SlotsOk, Went, NextUp, Batch, UpNext, Moved;
      ghost var slots0 := slots;
      PickStart(net, cache.rows, e, pick, maxctx, slots, jobs, rs, which, lo);
      var s: nat := 0;
      while s < |which|
        invariant s <= |which| && ValidBut(Rest(which, s)) && Moved(slots0, slots, which, s)
        invariant UpNext(net, cache.rows, e, pick, maxctx, slots, jobs, which, lo, s)
      {
        RestStep(slots0, rs, which, s);
        UpNow(net, cache.rows, e, pick, maxctx, slots0, slots, jobs, rs, which, lo, s);
        ghost var slots1, jobs1 := slots, jobs;
        Round1(which[s], lo[s], Rest(which, s));
        PickStep(net, cache.rows, e, pick, maxctx, slots0, slots1, slots, jobs1, jobs, rs, which, lo, s);
        s := s + 1;
      }
      assert Rest(which, s) == {};
      PickEnd(slots0, slots, rs, which);
    }

    /** run_serve_mux: what comes in on each turn of the loop, then rounds until no request is active. It fails only
        on a model whose kv_lora exceeds 512 */
    method Serve(script: seq<Turn>) returns (failed: bool)
      requires Valid() && forall k :: 0 <= k < |script| && script[k].frame.Submitted? ==> script[k].frame.Fits(maxctx)
      modifies this, cache
      ensures Valid() && (failed ==> cache.kvLora > 512)
      ensures !failed ==> forall i :: 0 <= i < |slots| ==> !slots[i].active
      ensures |subs| == accepted && forall k :: 0 <= k < |log| ==> AsAsked(log[k], subs)
      ensures old(subs) <= subs
      ensures forall t :: |old(subs)| <= t < |subs| ==> FromScript(script, |script|, maxctx, subs[t])
    {
      hide ValidBut, Fixed, FromScript, AsAsked, Asks;
      var k: nat := 0;
      while k < |script|
        invariant k <= |script| && Valid() && old(subs) <= subs
        invariant forall t :: |old(subs)| <= t < |subs| ==> FromScript(script, k, maxctx, subs[t])
      {
        var t := script[k];
        ghost var was := subs;
        TakeIn(t);
        failed := DecodeRound();
        forall t | |old(subs)| <= t < |subs| ensures FromScript(script, k + 1, maxctx, subs[t]) {
          if t < |was| { FromLater(script, k, k + 1, maxctx, was[t]); } else { FromFrame(script, k, maxctx, subs[t]); }
        }
        k := k + 1;
        if failed {
          forall t | |old(subs)| <= t < |subs| ensures FromScript(script, |script|, maxctx, subs[t]) {
            FromLater(script, k, |script|, maxctx, subs[t]);
          }
          AllAsked();
          return;
        }
      }
      var active := AnyActive();
      while active
        invariant Valid() && (active <==> exists i :: 0 <= i < |slots| && slots[i].active)
        invariant old(subs) <= subs
        invariant forall t :: |old(subs)| <= t < |subs| ==> FromScript(script, |script|, maxctx, subs[t])
        decreases Work(slots), active
      {
        ghost var was := slots;
        failed := DecodeRound();
        if failed { AllAsked(); return; }
        WorkLess(was, slots);
        active := AnyActive();
      }
      AllAsked();
      failed := false;
    }

    /** what has come in since the last round */
    method TakeIn(t: Turn)
      requires Valid() && (t.frame.Submitted? ==> t.frame.Fits(maxctx))
      modifies this, cache
      ensures Valid() && old(subs) <= subs && forall n :: |old(subs)| <= n < |subs| ==> Asks(t.frame, maxctx, subs[n])
    {
      hide ValidBut, Fixed;
      if t.intr { Interrupt(); }
      match t.frame {
        case Nothing =>
        case Cancelled(id) => var _, _ := Cancel(id);
        case Submitted(i, id, toks, maxTokens, temp, topP) => var _ := Submit(i, id, toks, maxTokens, temp, topP);
      }
    }

    lemma AllAsked()
      requires Valid()
      ensures |subs| == accepted && forall k :: 0 <= k < |log| ==> AsAsked(log[k], subs)
    {
    }

    method AnyActive() returns (a: bool)
      ensures a <==> exists i :: 0 <= i < |slots| && slots[i].active
    {
      var i := 0;
      while i < |slots|
        invariant 0 <= i <= |slots| && forall k :: 0 <= k < i ==> !slots[k].active
      {
        if slots[i].active { return true; }
        i := i + 1;
      }
      return false;
    }

    /** the length grows by the token just cached, and the next one is picked */
    method Round1(i: nat, lo: seq<real>, ghost skip: set<nat>)
      requires ValidBut(skip) && i < |slots| == |jobs| && slots[i].active && i in skip
      requires NextUp(net, cache.rows, e, pick, maxctx, i, slots[i], jobs[i], lo)
      modifies `slots, `draws, `log, `jobs
      ensures ValidBut(skip - {i}) && |slots| == |old(slots)| == |jobs| && Went(old(slots)[i], slots[i])
      ensures slots == old(slots)[i := slots[i]] && jobs == old(jobs)[i := jobs[i]]
    {
      hide Ledger, Matches, EndedOk, Runs, PickerOk, Logits, SlotOk, SlotsOk, Mid;
      var s := slots[i].(len := slots[i].len + 1);
      LedgerGoes(slots, jobs, log, accepted, i, s, jobs[i]);
      MatchGoes(slots, jobs, log, subs, i, s, jobs[i]);
      SlotsSkip(net, cache.rows, e, pick, maxctx, slots, jobs, skip, i, s, jobs[i]);
      assert jobs[i := jobs[i]] == jobs && skip + {i} == skip;
      slots := slots[i := s];
      Settle(i, lo, skip);
    }
  }

  /** the slots of the batch from s on are about to pick */
  ghost predicate UpNext<Hid(!new), Row(!new)>(net: Net<Hid, Row>, kv: Store<Row>, e: Engine, pick: Picker, maxctx: nat,
                             slots: seq<Slot>, jobs: seq<Job>, which: seq<nat>, lo: seq<seq<real>>, s: nat) {
    && e.Valid() && |slots| == |jobs| && |lo| == |which|
    && forall t :: s <= t < |which| ==>
         which[t] < |slots| && NextUp(net, kv, e, pick, maxctx, which[t], slots[which[t]], jobs[which[t]], lo[t])
  }

  /** those before s have moved on, and no other slot has changed */
  ghost predicate Moved(slots0: seq<Slot>, slots: seq<Slot>, which: seq<nat>, s: nat) {
    && |slots| == |slots0|
    && (forall t :: 0 <= t < s && t < |which| ==> which[t] < |slots| && Went(slots0[which[t]], slots[which[t]]))
    && forall k: nat :: k < |slots| && k !in which[..Min(s, |which|)] ==> slots[k] == slots0[k]
  }

  lemma PickStart<Hid(!new), Row(!new)>(net: Net<Hid, Row>, kv: Store<Row>, e: Engine, pick: Picker, maxctx: nat,
                      slots: seq<Slot>, jobs: seq<Job>, rs: seq<DecodeRow>, which: seq<nat>, lo: seq<seq<real>>)
    requires e.Valid() && |slots| == |jobs| && |lo| == |which| && Batch(slots, rs, which)
    requires forall t :: 0 <= t < |which| ==>
        NextUp(net, kv, e, pick, maxctx, which[t], slots[which[t]], jobs[which[t]], lo[t])
    ensures Moved(slots, slots, which, 0) && UpNext(net, kv, e, pick, maxctx, slots, jobs, which, lo, 0)
  {
    hide NextUp, Went;
  }

  lemma UpNow<Hid(!new), Row(!new)>(net: Net<Hid, Row>, kv: Store<Row>, e: Engine, pick: Picker, maxctx: nat,
                  slots0: seq<Slot>, slots: seq<Slot>, jobs: seq<Job>, rs: seq<DecodeRow>, which: seq<nat>,
                  lo: seq<seq<real>>, s: nat)
    requires Batch(slots0, rs, which) && s < |which| && Moved(slots0, slots, which, s)
    requires UpNext(net, kv, e, pick, maxctx, slots, jobs, which, lo, s)
    ensures which[s] < |slots| == |jobs| && slots[which[s]].active && e.Valid() && |lo| == |which|
    ensures NextUp(net, kv, e, pick, maxctx, which[s], slots[which[s]], jobs[which[s]], lo[s])
  {
    hide NextUp, Went;
    assert which[s] !in which[..s];
  }

  lemma PickStep<Hid(!new), Row(!new)>(net: Net<Hid, Row>, kv: Store<Row>, e: Engine, pick: Picker, maxctx: nat,
                     slots0: seq<Slot>, slots1: seq<Slot>, slots: seq<Slot>,
                                       jobs1: seq<Job>, jobs: seq<Job>, rs: seq<DecodeRow>, which: seq<nat>,
                     lo: seq<seq<real>>, s: nat)
    requires Batch(slots0, rs, which) && s < |which| && Moved(slots0, slots1, which, s)
    requires UpNext(net, kv, e, pick, maxctx, slots1, jobs1, which, lo, s)
    requires which[s] < |slots| == |slots1| == |jobs| == |jobs1| && Went(slots1[which[s]], slots[which[s]])
    requires slots == slots1[which[s] := slots[which[s]]] && jobs == jobs1[which[s] := jobs[which[s]]]
    ensures Moved(slots0, slots, which, s + 1) && UpNext(net, kv, e, pick, maxctx, slots, jobs, which, lo, s + 1)
  {
    hide NextUp, Moved, Batch, Went;
    BatchApart(slots0, rs, which, s);
    MovedStep(slots0, slots1, slots, which, s);
  }

  /** the slot of one row is the slot of no other */
  lemma BatchApart(slots: seq<Slot>, rs: seq<DecodeRow>, which: seq<nat>, s: nat)
    requires Batch(slots, rs, which) && s < |which|
    ensures forall t :: 0 <= t < |which| && t != s ==> which[t] != which[s]
  {
  }

  lemma MovedStep(slots0: seq<Slot>, slots1: seq<Slot>, slots: seq<Slot>, which: seq<nat>, s: nat)
    requires s < |which| && Moved(slots0, slots1, which, s) && which[s] < |slots| == |slots1|
    requires forall t :: 0 <= t < |which| && t != s ==> which[t] != which[s]
    requires Went(slots1[which[s]], slots[which[s]]) && slots == slots1[which[s] := slots[which[s]]]
    ensures Moved(slots0, slots, which, s + 1)
  {
    hide Went;
    assert which[..s + 1] == which[..s] + [which[s]];
    assert which[s] !in which[..s];
  }

  lemma PickEnd(slots0: seq<Slot>, slots: seq<Slot>, rs: seq<DecodeRow>, which: seq<nat>)
    requires Batch(slots0, rs, which) && Moved(slots0, slots, which, |which|)
    ensures |slots| == |slots0| && forall i :: 0 <= i < |slots| ==> Went(slots0[i], slots[i])
  {
    assert which[..|which|] == which;
    forall i: nat | i < |slots| ensures Went(slots0[i], slots[i]) {
      if i !in which { StillWent(slots0[i]); }
    }
  }

  /** the slots of the batch not yet picked for */
  ghost function Rest(which: seq<nat>, s: nat): set<nat> {
    set t | s <= t < |which| :: which[t]
  }

  lemma RestStep(slots: seq<Slot>, rs: seq<DecodeRow>, which: seq<nat>, s: nat)
    requires Batch(slots, rs, which) && s < |which|
    ensures which[s] in Rest(which, s) && Rest(which, s) - {which[s]} == Rest(which, s + 1)
  {
  }

  lemma NotInRest(slots: seq<Slot>, rs: seq<DecodeRow>, which: seq<nat>, k: nat)
    requires Batch(slots, rs, which) && k !in Rest(which, 0)
    ensures forall s :: 0 <= s < |rs| ==> rs[s].slot != k
  {
    forall s | 0 <= s < |rs| ensures rs[s].slot != k { assert which[s] in Rest(which, 0); }
  }

  ghost function Histories(slots: seq<Slot>, which: seq<nat>): (h: seq<seq<Token>>)
    requires forall t :: 0 <= t < |which| ==> which[t] < |slots|
    ensures |h| == |which|
  {
    seq(|which|, t requires 0 <= t < |which| =>
      slots[which[t]].hist[..Min(slots[which[t]].len, |slots[which[t]].hist|)])
  }

  lemma BatchReady<Hid(!new), Row(!new)>(net: Net<Hid, Row>, kv: Store<Row>, e: Engine, pick: Picker, maxctx: nat,
                       slots: seq<Slot>, jobs: seq<Job>, rs: seq<DecodeRow>, which: seq<nat>)
    requires e.Valid() && |slots| == |jobs|
    requires SlotsOk(net, kv, e, pick, maxctx, slots, jobs, {}) && Batch(slots, rs, which)
    ensures forall t :: 0 <= t < |rs| ==>
        rs[t].pos < maxctx && rs[t].token < e.vocab && |Histories(slots, which)[t]| == rs[t].pos
    ensures forall t :: 0 <= t < |rs| ==> Holds(net, kv, rs[t].slot, Histories(slots, which)[t], rs[t].pos)
    ensures forall t :: 0 <= t < |rs| ==> rs[t].pos < |slots[which[t]].hist|
  {
    hide Holds, SlotOk;
    forall t | 0 <= t < |rs|
      ensures rs[t].pos < maxctx && rs[t].token < e.vocab && |Histories(slots, which)[t]| == rs[t].pos
        && Holds(net, kv, rs[t].slot, Histories(slots, which)[t], rs[t].pos) && rs[t].pos < |slots[which[t]].hist|
    {
      ActiveReady(net, kv, e, pick, maxctx, which[t], slots[which[t]], jobs[which[t]]);
    }
  }

  lemma OthersKept<Row(!new)>(was: Store<Row>, kv: Store<Row>, i: nat, n: nat)
    requires Untouched(was, kv, i)
    ensures forall k: nat :: k < n && k !in {i} ==> SlotKept(was, kv, k)
  {
  }

  lemma IdleOk<Hid(!new), Row(!new)>(net: Net<Hid, Row>, kv: Store<Row>, e: Engine, pick: Picker, maxctx: nat, i: nat,
                   s: Slot, j: Job)
    requires e.Valid() && SlotOk(net, kv, e, pick, maxctx, i, s, j) && !s.active
    ensures KvOk(net, kv, maxctx, i, s) && |s.disk| == s.len
  {
    hide KvOk;
  }

  /** rows of the common prefix serve the new prompt */
  lemma Common<Hid(!new), Row(!new)>(net: Net<Hid, Row>, kv: Store<Row>, maxctx: nat, i: nat, s: Slot, toks: seq<Token>,
                   prefix: nat)
    requires KvOk(net, kv, maxctx, i, s) && prefix <= s.len && prefix <= |toks| && s.hist[..prefix] == toks[..prefix]
    ensures Holds(net, kv, i, toks, prefix)
  {
    hide Holds;
    var h := s.hist[..s.len];
    assert h[..prefix] == s.hist[..prefix];
    HoldsTake(net, kv, i, h, prefix, s.len);
    assert h[..prefix][..prefix] == toks[..prefix];
    HoldsPrefix(net, kv, i, h[..prefix], toks, prefix);
  }

  /** what the file keeps: the longest common prefix of what it held and the prompt */
  ghost predicate LongestShared(kept: seq<Token>, held: seq<Token>, toks: seq<Token>) {
    kept <= held && kept <= toks && (|kept| < |held| && |kept| < |toks| ==> held[|kept|] != toks[|kept|])
  }

  lemma Shared(s: Slot, toks: seq<Token>, prefix: nat)
    requires |s.disk| == s.len <= |s.hist| && s.disk == s.hist[..s.len]
    requires prefix <= s.len && prefix <= |toks| && s.hist[..prefix] == toks[..prefix]
    requires prefix < s.len && prefix < |toks| ==> s.hist[prefix] != toks[prefix]
    ensures LongestShared(s.disk[..prefix], s.disk, toks)
  {
    assert s.disk[..prefix] == toks[..prefix];
  }

  lemma Reused<Hid(!new), Row(!new)>(net: Net<Hid, Row>, kv: Store<Row>, maxctx: nat, i: nat, s: Slot, s': Slot,
                   toks: seq<Token>, prefix: nat)
    requires |toks| < maxctx == |s.hist| && prefix <= |s.disk| <= s.len <= maxctx && s.disk == s.hist[..|s.disk|]
    requires prefix <= |toks| && s.hist[..prefix] == toks[..prefix] && Holds(net, kv, i, toks, |toks|)
    requires s' == s.(hist := toks + s.hist[|toks|..], len := |toks|, disk := s.disk[..prefix])
    ensures KvOk(net, kv, maxctx, i, s') && s'.hist[..|toks|] == toks
  {
    hide Holds;
    assert s'.hist[..|toks|] == toks;
    assert s'.disk == s.hist[..prefix];
    assert s'.hist[..prefix] == toks[..prefix];
  }

  function RowOf(i: nat, s: Slot): DecodeRow {
    DecodeRow(i, s.pending, s.len)
  }

  /** which lists the active slots in order, rs their rows */
  ghost predicate Batch(slots: seq<Slot>, rs: seq<DecodeRow>, which: seq<nat>) {
    && |rs| == |which| && (forall a, b :: 0 <= a < b < |which| ==> which[a] < which[b])
    && (forall t :: 0 <= t < |which| ==>
        which[t] < |slots| && slots[which[t]].active && rs[t] == RowOf(which[t], slots[which[t]]))
    && forall k: nat :: k < |slots| && slots[k].active ==> k in which
  }

  /** an active slot either ended or has one more token out */
  ghost predicate Went(s: Slot, t: Slot) {
    if s.active then t.active ==> t.emitted == s.emitted + 1 && t.emitted < t.maximum && SameAsk(s, t)
    else t == s
  }

  lemma StillWent(s: Slot)
    requires !s.active
    ensures Went(s, s)
  {
  }

  lemma IdleWent(slots: seq<Slot>, rs: seq<DecodeRow>, which: seq<nat>)
    requires Batch(slots, rs, which) && which == []
    ensures forall i :: 0 <= i < |slots| ==> !slots[i].active && Went(slots[i], slots[i])
  {
  }

  lemma Distinct(slots: seq<Slot>, rs: seq<DecodeRow>, which: seq<nat>)
    requires Batch(slots, rs, which)
    ensures |rs| <= |slots| && forall s, t :: 0 <= s < t < |rs| ==> rs[s].slot != rs[t].slot
  {
    var i := 0;
    while i < |which|
      invariant 0 <= i <= |which| && (i > 0 ==> which[i - 1] >= i - 1)
    {
      i := i + 1;
    }
  }

  /** the pending token and its position are cached: the slot is about to pick from lo */
  ghost predicate NextUp<Hid(!new), Row(!new)>(net: Net<Hid, Row>, kv: Store<Row>, e: Engine, pick: Picker, maxctx: nat,
                             i: nat, s: Slot, j: Job, lo: seq<real>)
    requires e.Valid()
  {
    var s' := s.(len := s.len + 1);
    Mid(net, kv, e, pick, maxctx, i, s', j) && s'.len > 0 && lo == Logits(net, s'.hist[..s'.len])
  }

  lemma ActiveReady<Hid(!new), Row(!new)>(net: Net<Hid, Row>, kv: Store<Row>, e: Engine, pick: Picker, maxctx: nat,
                        i: nat, s: Slot, j: Job)
    requires e.Valid() && SlotOk(net, kv, e, pick, maxctx, i, s, j) && s.active
    ensures s.len < maxctx == |s.hist| && s.pending < e.vocab && Holds(net, kv, i, s.hist[..s.len], s.len)
  {
    hide Holds, OnPath;
  }

  lemma ActiveOk<Hid(!new), Row(!new)>(net: Net<Hid, Row>, kv: Store<Row>, e: Engine, pick: Picker, maxctx: nat, i: nat,
                     s: Slot, j: Job)
    requires e.Valid() && SlotOk(net, kv, e, pick, maxctx, i, s, j) && s.active
    ensures KvOk(net, kv, maxctx, i, s) && s.emitted < s.maximum && OnPath(e, pick, maxctx, s, j, s.maximum - s.emitted)
  {
    hide KvOk, OnPath;
  }

  lemma Advanced<Hid(!new), Row(!new)>(net: Net<Hid, Row>, was: Store<Row>, kv: Store<Row>, e: Engine, pick: Picker,
                     maxctx: nat, i: nat, s: Slot, j: Job, lo: seq<real>)
    requires e.Valid() && SlotOk(net, was, e, pick, maxctx, i, s, j) && s.active && s.len < |s.hist|
    requires Holds(net, kv, i, s.hist[..s.len] + [s.pending], s.len + 1)
    requires lo == Logits(net, s.hist[..s.len] + [s.pending])
    ensures NextUp(net, kv, e, pick, maxctx, i, s, j, lo)
  {
    hide Holds, Logits, GreedyTokens, Engine.Valid;
    var s' := s.(len := s.len + 1);
    assert s'.hist[..s'.len] == s.hist[..s.len] + [s.pending];
    assert OnPath(e, pick, maxctx, s', j, s'.maximum - s'.emitted);
  }

  lemma HoldsTake<Hid(!new), Row(!new)>(net: Net<Hid, Row>, kv: Store<Row>, i: nat, h: seq<Token>, m: nat, n: nat)
    requires m <= n <= |h| && Holds(net, kv, i, h, n)
    ensures Holds(net, kv, i, h[..m], m)
  {
    forall l: nat, p: nat | l < net.layers && p < m ensures RowOk(net, kv, i, h[..m], p, l) {
      assert RowOk(net, kv, i, h, p, l);
      assert h[..m][..p + 1] == h[..p + 1];
      Causal(net, h, h[..m], p, l);
    }
  }

  lemma ActiveMid<Hid(!new), Row(!new)>(net: Net<Hid, Row>, kv: Store<Row>, e: Engine, pick: Picker, maxctx: nat,
                      i: nat, s: Slot, j: Job)
    requires e.Valid() && Mid(net, kv, e, pick, maxctx, i, s, j)
    ensures s.active && s.emitted < s.maximum && j.prompt != []
    ensures s.len < maxctx == |s.hist| && s.hist[..s.len] == j.prompt + j.out
  {
  }

  lemma FinishedOk<Hid(!new), Row(!new)>(net: Net<Hid, Row>, kv: Store<Row>, e: Engine, pick: Picker, maxctx: nat,
                       i: nat, s: Slot, j: Job)
    requires e.Valid() && KvOk(net, kv, maxctx, i, s)
    ensures SlotOk(net, kv, e, pick, maxctx, i, Finished(s), j)
  {
    hide Holds;
    if |s.disk| == s.len { assert s.disk == s.hist[..s.len]; }
  }

  lemma PendingNow<Hid(!new), Row(!new)>(net: Net<Hid, Row>, kv: Store<Row>, e: Engine, pick: Picker, maxctx: nat,
                       i: nat, s: Slot, j: Job)
    requires e.Valid() && KvOk(net, kv, maxctx, i, s) && 1 <= s.emitted < s.maximum
    requires OnPath(e, pick, maxctx, s, j, s.maximum - s.emitted)
    requires s.len + 1 + (s.maximum - s.emitted) < maxctx
    requires s.hist[..s.len + 1] == j.prompt + j.out && s.hist[s.len] == s.pending < e.vocab
    ensures SlotOk(net, kv, e, pick, maxctx, i, s, j)
  {
    hide Holds, GreedyTokens;
  }
}
