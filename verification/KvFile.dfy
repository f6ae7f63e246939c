/** The conversation file: a header with a record count, then one fixed-size record a position.

    An append writes records after the count's worth and rewrites the count last; a truncate only rewrites the count.
    A crash may fall between any two bytes of the record stream, or between the stream and the count (four bytes,
    taken as one write). */
module KvFile {
  newtype Byte = x: int | 0 <= x < 256

  /** one position: token, then a row per cached tensor */
  type Position = seq<seq<Byte>>

  // ---------- records ----------

  function Total(widths: seq<nat>): nat {
    if widths == [] then 0 else widths[0] + Total(widths[1..])
  }

  predicate Shaped(widths: seq<nat>, x: Position) {
    |x| == |widths| && forall j :: 0 <= j < |x| ==> |x[j]| == widths[j]
  }

  function Pack(x: Position): seq<Byte> {
    if x == [] then [] else x[0] + Pack(x[1..])
  }

  /** the fields in the order they are read back */
  function Unpack(widths: seq<nat>, b: seq<Byte>): (x: Position)
    requires |b| >= Total(widths)
    ensures Shaped(widths, x)
  {
    if widths == [] then [] else [b[..widths[0]]] + Unpack(widths[1..], b[widths[0]..])
  }

  lemma {:induction false} PackSize(widths: seq<nat>, x: Position)
    requires Shaped(widths, x)
    ensures |Pack(x)| == Total(widths)
  {
    if x != [] { PackSize(widths[1..], x[1..]); }
  }

  lemma {:induction false} PackRoundTrip(widths: seq<nat>, x: Position, rest: seq<Byte>)
    requires Shaped(widths, x)
    ensures |Pack(x)| == Total(widths) && Unpack(widths, Pack(x) + rest) == x
  {
    PackSize(widths, x);
    if x != [] {
      PackRoundTrip(widths[1..], x[1..], rest);
      assert (Pack(x) + rest)[..widths[0]] == x[0];
      assert (Pack(x) + rest)[widths[0]..] == Pack(x[1..]) + rest;
    }
  }

  // ---------- the record region ----------

  /** offset of record p */
  function Off(p: nat, size: nat): nat {
    if p == 0 then 0 else Off(p - 1, size) + size
  }

  lemma {:induction false} OffMono(p: nat, q: nat, size: nat)
    requires p < q
    ensures Off(p, size) + size <= Off(q, size)
  {
    if p + 1 < q { OffMono(p, q - 1, size); }
  }

  lemma {:induction false} OffAdd(p: nat, q: nat, size: nat)
    ensures Off(p + q, size) == Off(p, size) + Off(q, size)
  {
    if q > 0 { OffAdd(p, q - 1, size); }
  }

  /** how many whole records of the first n the region holds */
  function Complete(data: seq<Byte>, size: nat, n: nat): (m: nat)
    ensures m <= n && Off(m, size) <= |data| && (m < n ==> |data| < Off(m + 1, size))
  {
    if n == 0 then 0
    else if Off(n, size) <= |data| then n else Complete(data, size, n - 1)
  }

  lemma {:induction false} CompleteIs(data: seq<Byte>, size: nat, n: nat, m: nat)
    requires m <= n && Off(m, size) <= |data| && (m < n ==> |data| < Off(m + 1, size))
    ensures Complete(data, size, n) == m
  {
    var c := Complete(data, size, n);
    if c < m { if c + 1 < m { OffMono(c + 1, m, size); } }
    if m < c { if m + 1 < c { OffMono(m + 1, c, size); } }
  }

  function Record(widths: seq<nat>, data: seq<Byte>, p: nat): (x: Position)
    requires Off(p, Total(widths)) + Total(widths) <= |data|
    ensures Shaped(widths, x)
  {
    Unpack(widths, data[Off(p, Total(widths))..])
  }

  ghost predicate Holds(widths: seq<nat>, data: seq<Byte>, m: nat, hist: seq<Position>)
  {
    && m <= |hist|
    && forall p: nat :: p < m ==> Off(p, Total(widths)) + Total(widths) <= |data| && Record(widths, data, p) == hist[p]
  }

  lemma Room(data: seq<Byte>, size: nat, m: nat, p: nat)
    requires Off(m, size) <= |data| && p < m
    ensures Off(p, size) + size <= |data|
  {
    OffMono(p, m, size);
  }

  /** what kv_disk_load reads of a file with this count */
  ghost function Stored(widths: seq<nat>, count: nat, data: seq<Byte>): (h: seq<Position>)
    ensures |h| == Complete(data, Total(widths), count)
  {
    var m := Complete(data, Total(widths), count);
    seq(m, p requires 0 <= p < m => Room(data, Total(widths), m, p); Record(widths, data, p))
  }

  // ---------- the ordered writes of an append ----------

  function Padded(data: seq<Byte>, off: nat): (r: seq<Byte>)
    ensures |r| >= off && data <= r && |r| == if off > |data| then off else |data|
  {
    if off > |data| then data + seq(off - |data|, i => 0 as Byte) else data
  }

  /** fwrite at an offset: overwrites, extends, and fills a gap with zeros */
  function Overwrite(data: seq<Byte>, off: nat, b: seq<Byte>): (r: seq<Byte>)
    ensures b == [] ==> r == data
  {
    if b == [] then data
    else
      var d := Padded(data, off);
      d[..off] + b + if off + |b| < |d| then d[off + |b|..] else []
  }

  /** the bytes an append streams out */
  function Stream(hist: seq<Position>, n: nat): seq<Byte>
    requires n <= |hist|
    decreases |hist| - n
  {
    if n == |hist| then [] else Pack(hist[n]) + Stream(hist, n + 1)
  }

  ghost predicate AllShaped(widths: seq<nat>, hist: seq<Position>) {
    forall p :: 0 <= p < |hist| ==> Shaped(widths, hist[p])
  }

  lemma {:induction false} StreamSize(widths: seq<nat>, hist: seq<Position>, n: nat)
    requires n <= |hist| && AllShaped(widths, hist)
    ensures |Stream(hist, n)| == Off(|hist| - n, Total(widths))
    decreases |hist| - n
  {
    if n < |hist| {
      PackSize(widths, hist[n]);
      StreamSize(widths, hist, n + 1);
      OffAdd(|hist| - n - 1, 1, Total(widths));
    }
  }

  /** record n + j of the stream */
  lemma {:induction false} StreamRecord(widths: seq<nat>, hist: seq<Position>, n: nat, j: nat)
    requires n + j < |hist| && AllShaped(widths, hist)
    ensures Off(j, Total(widths)) + Total(widths) <= |Stream(hist, n)|
    ensures Stream(hist, n)[Off(j, Total(widths))..] == Stream(hist, n + j)
    decreases j
  {
    hide Off, Pack, Shaped, Total, Stream;
    var size, s := Total(widths), Stream(hist, n);
    OffBase(size);
    PackSize(widths, hist[n]);
    StreamSize(widths, hist, n);
    OffMono(j, |hist| - n, size);
    if j > 0 {
      var t := Stream(hist, n + 1);
      StreamRecord(widths, hist, n + 1, j - 1);
      OffAdd(j - 1, 1, size);
      StreamStep(hist, n);
      DropMore(Pack(hist[n]), t, Off(j - 1, size));
    }
  }

  lemma StreamStep(hist: seq<Position>, n: nat)
    requires n < |hist|
    ensures Stream(hist, n) == Pack(hist[n]) + Stream(hist, n + 1)
  {
  }

  lemma OffBase(size: nat)
    ensures Off(0, size) == 0 && Off(1, size) == size
  {
  }

  lemma DropMore(a: seq<Byte>, b: seq<Byte>, o: nat)
    requires o <= |b|
    ensures (a + b)[|a| + o..] == b[o..]
  {
  }

  // ---------- what survives a partial write ----------

  lemma {:induction false} UnpackPrefix(widths: seq<nat>, b: seq<Byte>, c: seq<Byte>)
    requires |b| >= Total(widths) && |c| >= Total(widths) && b[..Total(widths)] == c[..Total(widths)]
    ensures Unpack(widths, b) == Unpack(widths, c)
  {
    if widths != [] {
      var w := widths[0];
      assert b[..w] == b[..Total(widths)][..w] && c[..w] == c[..Total(widths)][..w];
      assert b[w..][..Total(widths[1..])] == b[..Total(widths)][w..];
      assert c[w..][..Total(widths[1..])] == c[..Total(widths)][w..];
      UnpackPrefix(widths[1..], b[w..], c[w..]);
    }
  }

  lemma OverwriteAt(data: seq<Byte>, off: nat, b: seq<Byte>)
    requires off <= |data|
    ensures var d := Overwrite(data, off, b);
      && |d| == (if off + |b| > |data| then off + |b| else |data|)
      && (forall i :: 0 <= i < off ==> d[i] == data[i])
      && (forall i :: off <= i < off + |b| ==> d[i] == b[i - off])
      && forall i :: off + |b| <= i < |d| ==> d[i] == data[i]
  {
  }

  /** records before the written part are untouched */
  lemma Survives(widths: seq<nat>, data: seq<Byte>, n: nat, b: seq<Byte>, p: nat)
    requires Off(n, Total(widths)) <= |data| && p < n
    ensures var (d, o) := (Overwrite(data, Off(n, Total(widths)), b), Off(p, Total(widths)));
      o + Total(widths) <= |data| && o + Total(widths) <= |d| && Record(widths, d, p) == Record(widths, data, p)
  {
    hide Overwrite;
    var size := Total(widths);
    var d := Overwrite(data, Off(n, size), b);
    OffMono(p, n, size);
    OverwriteAt(data, Off(n, size), b);
    assert d[Off(p, size)..][..size] == data[Off(p, size)..][..size];
    UnpackPrefix(widths, d[Off(p, size)..], data[Off(p, size)..]);
  }

  /** records wholly inside the written part are the new ones */
  lemma Written(widths: seq<nat>, data: seq<Byte>, hist: seq<Position>, n: nat, k: nat, p: nat)
    requires AllShaped(widths, hist) && n <= p < |hist| && Off(n, Total(widths)) <= |data| && k <= |Stream(hist, n)|
    requires Off(p, Total(widths)) + Total(widths) <= Off(n, Total(widths)) + k
    ensures var d := Overwrite(data, Off(n, Total(widths)), Stream(hist, n)[..k]);
      Off(p, Total(widths)) + Total(widths) <= |d| && Record(widths, d, p) == hist[p]
  {
    hide Overwrite, Stream, Unpack, Pack, Off, AllShaped, Shaped, Total;
    var size, s, off := Total(widths), Stream(hist, n), Off(n, Total(widths));
    var j := Off(p - n, size);
    OffAdd(n, p - n, size);
    StreamRecord(widths, hist, n, p - n);
    SliceWritten(data, off, s, k, j, size);
    StreamHead(widths, hist, p);
    var d, o := Overwrite(data, off, s[..k]), off + j;
    assert o == Off(p, size) && s[j..] == Stream(hist, p);
    UnpackPrefix(widths, d[o..], s[j..]);
  }

  lemma SliceWritten(data: seq<Byte>, off: nat, s: seq<Byte>, k: nat, j: nat, size: nat)
    requires off <= |data| && k <= |s| && j + size <= k
    ensures var d := Overwrite(data, off, s[..k]); off + j + size <= |d| && d[off + j..][..size] == s[j..][..size]
  {
    hide Overwrite;
    var d := Overwrite(data, off, s[..k]);
    OverwriteAt(data, off, s[..k]);
    forall i | 0 <= i < size ensures d[off + j..][..size][i] == s[j..][..size][i] {
      assert d[off + j + i] == s[..k][j + i];
    }
  }

  lemma StreamHead(widths: seq<nat>, hist: seq<Position>, p: nat)
    requires AllShaped(widths, hist) && p < |hist|
    ensures Total(widths) <= |Stream(hist, p)| && Unpack(widths, Stream(hist, p)) == hist[p]
  {
    PackRoundTrip(widths, hist[p], Stream(hist, p + 1));
  }

  /** the record region after k bytes of the append's stream */
  ghost function Torn(widths: seq<nat>, data: seq<Byte>, hist: seq<Position>, n: nat, k: nat): seq<Byte>
    requires n <= |hist| && k <= |Stream(hist, n)|
  {
    Overwrite(data, Off(n, Total(widths)), Stream(hist, n)[..k])
  }

  /** if no complete record beyond n was counted, the records counted after a crash are kept or newly written ones */
  lemma TornCount(widths: seq<nat>, count: nat, data: seq<Byte>, hist: seq<Position>, n: nat, k: nat)
    requires AllShaped(widths, hist) && n <= |hist| && k <= |Stream(hist, n)| && Off(n, Total(widths)) <= |data|
    requires Total(widths) > 0 && Complete(data, Total(widths), count) <= n
    ensures var m := Complete(Torn(widths, data, hist, n, k), Total(widths), count);
      m <= |hist| && (m > n ==> Off(m, Total(widths)) <= Off(n, Total(widths)) + k)
  {
    hide Overwrite, Stream, Complete, Off, AllShaped, Total;
    var size := Total(widths);
    var off := Off(n, size);
    var m := Complete(Torn(widths, data, hist, n, k), size, count);
    OverwriteAt(data, off, Stream(hist, n)[..k]);
    StreamSize(widths, hist, n);
    OffAdd(n, |hist| - n, size);
    if m > n {
      BeyondIncomplete(data, size, count, n);
      if m > n + 1 { OffMono(n + 1, m, size); }
      if m > |hist| { OffMono(|hist|, m, size); }
    }
  }

  /** if no complete record beyond n was counted, every crash leaves a prefix of the new history */
  lemma TornPrefix(widths: seq<nat>, count: nat, data: seq<Byte>, hist: seq<Position>, n: nat, k: nat)
    requires AllShaped(widths, hist) && n <= |hist| && k <= |Stream(hist, n)| && Off(n, Total(widths)) <= |data|
    requires Total(widths) > 0 && Holds(widths, data, n, hist) && Complete(data, Total(widths), count) <= n
    ensures Stored(widths, count, Torn(widths, data, hist, n, k)) <= hist
  {
    hide Overwrite, Record, Stream, Complete;
    var size := Total(widths);
    var torn := Torn(widths, data, hist, n, k);
    var got, m := Stored(widths, count, torn), Complete(torn, size, count);
    TornCount(widths, count, data, hist, n, k);
    forall p | 0 <= p < m ensures got[p] == hist[p] {
      if p < n {
        Survives(widths, data, n, Stream(hist, n)[..k], p);
      } else {
        OffMono(p, m, size);
        Written(widths, data, hist, n, k, p);
      }
    }
  }

  lemma BeyondIncomplete(data: seq<Byte>, size: nat, count: nat, n: nat)
    requires Complete(data, size, count) <= n < count
    ensures |data| < Off(n + 1, size)
  {
    var c := Complete(data, size, count);
    if c < n { OffMono(c + 1, n + 1, size); }
  }

  // ---------- exactly when an append is crash-safe ----------

  /** an append from n of this history, cut after k bytes of its records */
  ghost predicate Extends(widths: seq<nat>, data: seq<Byte>, n: nat, hist: seq<Position>, k: nat) {
    AllShaped(widths, hist) && n < |hist| && Holds(widths, data, n, hist) && k <= |Stream(hist, n)|
  }

  /** every crash of every append from n leaves a prefix of the new history or of the one the file held */
  ghost predicate CrashSafe(widths: seq<nat>, count: nat, data: seq<Byte>, n: nat) {
    forall hist: seq<Position>, k: nat :: Extends(widths, data, n, hist, k) ==>
      var got := Stored(widths, count, Torn(widths, data, hist, n, k));
      got <= hist || got <= Stored(widths, count, data)
  }

  function Other(b: Byte): (o: Byte)
    ensures o != b
  {
    if b == 0 then 1 else 0
  }

  /** a counted record beyond n: one byte of a new record over it makes a record nobody wrote */
  lemma TornMixes(widths: seq<nat>, count: nat, data: seq<Byte>, n: nat) returns (hist: seq<Position>, k: nat)
    requires widths != [] && widths[0] >= 2 && Complete(data, Total(widths), count) > n
    ensures Extends(widths, data, n, hist, k) && |hist| == n + 1
    ensures var got := Stored(widths, count, Torn(widths, data, hist, n, k));
      !(got <= hist) && !(got <= Stored(widths, count, data))
  {
    hide Overwrite, Holds, Unpack, Pack, Stream, Off, Complete;
    var size, c := Total(widths), Complete(data, Total(widths), count);
    var was := Stored(widths, count, data);
    Room(data, size, c, n);
    var off, o := Off(n, size), was[n];
    var x := o[0 := [Other(o[0][0]), Other(o[0][1])] + o[0][2..]];
    hist, k := was[..n] + [x], 1;
    HoldsOwn(widths, count, data, n, hist);
    FirstByte(widths, hist, n);
    var d := Torn(widths, data, hist, n, 1);
    OverwriteByte(data, off, Stream(hist, n)[..1]);
    CompleteIs(d, size, count, c);
    var got := Stored(widths, count, d);
    Heads(widths, data, n);
    Heads(widths, d, n);
    assert got[n][0][0] == x[0][0] && got[n][0][1] == o[0][1];
    assert hist[n] == x;
  }

  /** a record starts with its first field */
  lemma Heads(widths: seq<nat>, data: seq<Byte>, n: nat)
    requires widths != [] && widths[0] >= 2 && Off(n, Total(widths)) + Total(widths) <= |data|
    ensures widths[0] <= Total(widths)
    ensures var (r, o) := (Record(widths, data, n), Off(n, Total(widths))); r[0][0] == data[o] && r[0][1] == data[o + 1]
  {
    hide Off;
  }

  lemma FirstByte(widths: seq<nat>, hist: seq<Position>, n: nat)
    requires n < |hist| && Shaped(widths, hist[n]) && widths != [] && widths[0] >= 2
    ensures |Stream(hist, n)| >= 1 && Stream(hist, n)[..1] == [hist[n][0][0]]
  {
    PackSize(widths, hist[n]);
  }

  lemma OverwriteByte(data: seq<Byte>, off: nat, b: seq<Byte>)
    requires off < |data| && |b| == 1
    ensures Overwrite(data, off, b) == data[off := b[0]]
  {
  }

  lemma HoldsOwn(widths: seq<nat>, count: nat, data: seq<Byte>, n: nat, hist: seq<Position>)
    requires n < Complete(data, Total(widths), count) && n < |hist| && hist[..n] == Stored(widths, count, data)[..n]
    ensures Holds(widths, data, n, hist)
  {
    var c := Complete(data, Total(widths), count);
    forall p: nat | p < n
      ensures Off(p, Total(widths)) + Total(widths) <= |data| && Record(widths, data, p) == hist[p]
    {
      Room(data, Total(widths), c, p);
      assert hist[p] == hist[..n][p];
    }
  }

  /** an append from disk_nrec is crash-safe if and only if the file holds no complete counted record beyond it */
  lemma CrashSafeIff(widths: seq<nat>, count: nat, data: seq<Byte>, n: nat)
    requires widths != [] && widths[0] >= 2 && Off(n, Total(widths)) <= |data|
    ensures CrashSafe(widths, count, data, n) <==> Complete(data, Total(widths), count) <= n
  {
    hide Holds, Stream, Stored, Torn, Off;
    if Complete(data, Total(widths), count) <= n {
      forall hist: seq<Position>, k: nat | Extends(widths, data, n, hist, k)
        ensures Stored(widths, count, Torn(widths, data, hist, n, k)) <= hist
      {
        TornPrefix(widths, count, data, hist, n, k);
      }
    } else {
      var hist, k := TornMixes(widths, count, data, n);
    }
  }

  // ---------- the same through the guard of the load ----------

  /** what a start with this context length reads: nothing of an empty or too long file */
  ghost function Loaded(widths: seq<nat>, maxctx: nat, draft: nat, count: nat, data: seq<Byte>): seq<Position> {
    if 1 <= count && count + 8 + draft < maxctx then Stored(widths, count, data) else []
  }

  /** every crash of every append from n loads a prefix of the new or the stored history at this context length */
  ghost predicate CrashSafeAt(widths: seq<nat>, maxctx: nat, draft: nat, count: nat, data: seq<Byte>, n: nat) {
    forall hist: seq<Position>, k: nat :: Extends(widths, data, n, hist, k) ==>
      var got := Loaded(widths, maxctx, draft, count, Torn(widths, data, hist, n, k));
      got <= hist || got <= Stored(widths, count, data)
  }

  /** a stale count too long for the context hides what the torn append left */
  lemma CrashSafeAtIff(widths: seq<nat>, maxctx: nat, draft: nat, count: nat, data: seq<Byte>, n: nat)
    requires widths != [] && widths[0] >= 2 && Off(n, Total(widths)) <= |data|
    ensures CrashSafeAt(widths, maxctx, draft, count, data, n)
            <==> Complete(data, Total(widths), count) <= n || count + 8 + draft >= maxctx
  {
    hide Holds, Stream, Stored, Torn, Off;
    if Complete(data, Total(widths), count) <= n {
      CrashSafeIff(widths, count, data, n);
    } else if count + 8 + draft < maxctx {
      var hist, k := TornMixes(widths, count, data, n);
    }
  }

  /** A saved conversation is refused for its length, so disk_nrec stays 0; a crash in the next append is invisible at
      that context, and at every longer one that admits the count it loads a history nobody had. */
  lemma RefusedThenLonger(widths: seq<nat>, maxctx: nat, longer: nat, draft: nat, f: File) returns (hist: seq<Position>,
                          k: nat)
    requires widths != [] && widths[0] >= 2 && f.nrec == 0 && Complete(f.data, Total(widths), f.count) > 0
    requires maxctx <= f.count + 8 + draft < longer
    ensures AllShaped(widths, hist) && |hist| == 1 && k <= |Stream(hist, f.nrec)|
    ensures Loaded(widths, maxctx, draft, f.count, f.data) == []
    ensures var torn := Torn(widths, f.data, hist, f.nrec, k);
      && Loaded(widths, maxctx, draft, f.count, torn) == []
      && var got := Loaded(widths, longer, draft, f.count, torn);
         !(got <= hist) && !(got <= Loaded(widths, longer, draft, f.count, f.data))
  {
    hide Holds, Stream, Stored, Torn, Off;
    hist, k := TornMixes(widths, f.count, f.data, 0);
  }

  // ---------- the file over a whole run ----------

  /** header count, record region, and the writer's idea of the count */
  datatype File = File(count: nat, data: seq<Byte>, nrec: nat)

  /** `Unopened` and `Skipped` are a truncate and an append that find no file to open; `Restart` is an append cut
      after k bytes of its records, none for a clean stop, and the next start with its context length */
  datatype Op =
    | Truncate(n: nat)
    | Unopened(n: nat)
    | Append(hist: seq<Position>)
    | Skipped(hist: seq<Position>)
    | Restart(hist: seq<Position>, k: nat, maxctx: nat, draft: nat)

  /** a start that reads this count at this context length reads the records */
  predicate Admitted(count: nat, maxctx: nat, draft: nat) {
    1 <= count && count + 8 + draft < maxctx
  }

  /** the record region a restart finds */
  ghost function Left(widths: seq<nat>, f: File, hist: seq<Position>, k: nat): seq<Byte> {
    if f.nrec <= |hist| && k <= |Stream(hist, f.nrec)| then Torn(widths, f.data, hist, f.nrec, k) else f.data
  }

  ghost function Do(widths: seq<nat>, f: File, op: Op): File {
    match op
    case Truncate(n) => f.(count := n, nrec := n)
    case Unopened(n) => f.(nrec := 0)
    case Append(hist) =>
      if |hist| <= f.nrec then f
      else File(|hist|, Overwrite(f.data, Off(f.nrec, Total(widths)), Stream(hist, f.nrec)), |hist|)
    case Skipped(hist) => f
    case Restart(hist, k, maxctx, draft) =>
      var d := Left(widths, f, hist, k);
      File(f.count, d, if Admitted(f.count, maxctx, draft) then Complete(d, Total(widths), f.count) else 0)
  }

  /** the history in memory: what a start has loaded, cut by truncates and extended by appends */
  ghost function HistoryAfter(widths: seq<nat>, f: File, hist: seq<Position>, op: Op): seq<Position> {
    match op
    case Truncate(n) => if n <= |hist| then hist[..n] else hist
    case Unopened(n) => if n <= |hist| then hist[..n] else hist
    case Append(h) => h
    case Skipped(h) => h
    case Restart(h, k, maxctx, draft) => Loaded(widths, maxctx, draft, f.count, Left(widths, f, h, k))
  }

  /** the writer's records are the first ones of this history, and no complete counted record follows them unless
      disk_nrec was reset to 0 */
  ghost predicate Coherent(widths: seq<nat>, f: File, hist: seq<Position>) {
    && f.nrec <= |hist| && AllShaped(widths, hist)
    && Off(f.nrec, Total(widths)) <= |f.data| && Holds(widths, f.data, f.nrec, hist)
    && (f.nrec == 0 || Complete(f.data, Total(widths), f.count) == f.nrec)
  }

  /** the file loads exactly this history */
  ghost predicate Good(widths: seq<nat>, f: File, hist: seq<Position>) {
    Coherent(widths, f, hist) && Complete(f.data, Total(widths), f.count) == f.nrec == |hist|
  }

  /** truncates to at most the records written, appends that extend the history */
  ghost predicate Fair(widths: seq<nat>, f: File, hist: seq<Position>, op: Op) {
    match op
    case Truncate(n) => n <= f.nrec
    case Unopened(n) => n <= |hist|
    case Append(h) => hist <= h && AllShaped(widths, h)
    case Skipped(h) => hist <= h && AllShaped(widths, h)
    case Restart(h, k, _, _) => hist <= h && AllShaped(widths, h) && f.nrec <= |h| && k <= |Stream(h, f.nrec)|
  }

  lemma GoodLoads(widths: seq<nat>, f: File, hist: seq<Position>)
    requires Good(widths, f, hist)
    ensures Stored(widths, f.count, f.data) == hist
  {
    hide Record;
  }

  /** what is stored is a history of whole positions, and the region holds it */
  lemma StoredHolds(widths: seq<nat>, count: nat, data: seq<Byte>)
    ensures var h := Stored(widths, count, data); AllShaped(widths, h) && Holds(widths, data, |h|, h)
  {
    hide Record, Off, Complete;
    var h := Stored(widths, count, data);
    forall p: nat | p < |h| ensures Off(p, Total(widths)) + Total(widths) <= |data| && Record(widths, data, p) == h[p] {
      Room(data, Total(widths), |h|, p);
    }
  }

  lemma DoCoherent(widths: seq<nat>, f: File, hist: seq<Position>, op: Op)
    requires Coherent(widths, f, hist) && Fair(widths, f, hist, op)
    ensures Coherent(widths, Do(widths, f, op), HistoryAfter(widths, f, hist, op))
  {
    hide Record, Overwrite, Stream, Off, Shaped, Complete, Torn, Stored, Left;
    match op
    case Truncate(n) => CutGood(widths, f, hist, n);
    case Unopened(n) => OffBase(Total(widths));
    case Append(h) => if |h| > f.nrec { AppendGood(widths, f, hist, h); }
    case Skipped(h) =>
    case Restart(h, k, maxctx, draft) =>
      StoredHolds(widths, f.count, Left(widths, f, h, k));
      OffBase(Total(widths));
  }

  lemma CutGood(widths: seq<nat>, f: File, hist: seq<Position>, n: nat)
    requires Coherent(widths, f, hist) && n <= f.nrec
    ensures Good(widths, Do(widths, f, Truncate(n)), hist[..n])
  {
    hide Record, Off, Shaped, Complete;
    if n < f.nrec { OffMono(n, f.nrec, Total(widths)); }
    CompleteIs(f.data, Total(widths), n, n);
  }

  lemma AppendGood(widths: seq<nat>, f: File, hist: seq<Position>, h: seq<Position>)
    requires Coherent(widths, f, hist) && hist <= h && AllShaped(widths, h) && |h| > f.nrec
    ensures Good(widths, Do(widths, f, Op.Append(h)), h)
  {
    hide Record, Overwrite, Stream, Off, Shaped, Complete;
    var size, n, k := Total(widths), f.nrec, |Stream(h, f.nrec)|;
    var d := Overwrite(f.data, Off(n, size), Stream(h, n));
    StreamSize(widths, h, n);
    OffAdd(n, |h| - n, size);
    assert Stream(h, n)[..k] == Stream(h, n);
    OverwriteAt(f.data, Off(n, size), Stream(h, n));
    forall p: nat | p < |h| ensures Off(p, size) + size <= |d| && Record(widths, d, p) == h[p] {
      OffMono(p, |h|, size);
      if p < n {
        Survives(widths, f.data, n, Stream(h, n), p);
        assert h[p] == hist[p];
      } else {
        Written(widths, f.data, h, n, k, p);
      }
    }
    CompleteIs(d, size, |h|, |h|);
  }

  ghost function DoAll(widths: seq<nat>, f: File, ops: seq<Op>): File {
    if ops == [] then f else Do(widths, DoAll(widths, f, ops[..|ops| - 1]), ops[|ops| - 1])
  }

  ghost function HistoryAfterAll(widths: seq<nat>, f: File, hist: seq<Position>, ops: seq<Op>): seq<Position> {
    if ops == [] then hist
    else
      var init := ops[..|ops| - 1];
      HistoryAfter(widths, DoAll(widths, f, init), HistoryAfterAll(widths, f, hist, init), ops[|ops| - 1])
  }

  ghost predicate AllFair(widths: seq<nat>, f: File, hist: seq<Position>, ops: seq<Op>) {
    ops == [] ||
    var init := ops[..|ops| - 1];
    && AllFair(widths, f, hist, init)
    && Fair(widths, DoAll(widths, f, init), HistoryAfterAll(widths, f, hist, init), ops[|ops| - 1])
  }

  /** The file has caught up: no truncate or append has failed, and no start has refused it for its length, since the
      beginning or since a truncate, a non-empty append or an admitted start. */
  ghost predicate Reached(widths: seq<nat>, f: File, ops: seq<Op>) {
    ops == [] ||
    match ops[|ops| - 1]
    case Truncate(_) => true
    case Unopened(_) => false
    case Append(h) => h != [] || Reached(widths, f, ops[..|ops| - 1])
    case Skipped(_) => false
    case Restart(_, _, maxctx, draft) =>
      var count := DoAll(widths, f, ops[..|ops| - 1]).count;
      count == 0 || Admitted(count, maxctx, draft)
  }

  /** Over any number of sessions, each ended by a crash at any byte or a clean stop, the writer knows which records
      are its own; once the file has caught up it loads exactly the history in memory, and the next append is
      crash-safe. */
  lemma {:induction false} LoadsLastHistory(widths: seq<nat>, f: File, hist: seq<Position>, ops: seq<Op>)
    requires Good(widths, f, hist) && AllFair(widths, f, hist, ops) && widths != [] && widths[0] >= 2
    ensures var (g, h) := (DoAll(widths, f, ops), HistoryAfterAll(widths, f, hist, ops));
      && Coherent(widths, g, h)
      && (Reached(widths, f, ops) ==>
           Good(widths, g, h) && Stored(widths, g.count, g.data) == h && CrashSafe(widths, g.count, g.data, g.nrec))
    decreases |ops|
  {
    hide Coherent, Stored, CrashSafe, Do, HistoryAfter, Fair;
    var g, h := DoAll(widths, f, ops), HistoryAfterAll(widths, f, hist, ops);
    if ops != [] {
      var init, op := ops[..|ops| - 1], ops[|ops| - 1];
      LoadsLastHistory(widths, f, hist, init);
      DoCoherent(widths, DoAll(widths, f, init), HistoryAfterAll(widths, f, hist, init), op);
      if Reached(widths, f, ops) {
        DoReached(widths, DoAll(widths, f, init), HistoryAfterAll(widths, f, hist, init), op);
      }
    }
    if Reached(widths, f, ops) {
      GoodLoads(widths, g, h);
      GoodSafe(widths, g, h);
    }
  }

  lemma DoReached(widths: seq<nat>, f: File, hist: seq<Position>, op: Op)
    requires Coherent(widths, f, hist) && Fair(widths, f, hist, op) && !op.Unopened? && !op.Skipped?
    requires op.Append? && op.hist == [] ==> Good(widths, f, hist)
    requires op.Restart? ==> f.count == 0 || Admitted(f.count, op.maxctx, op.draft)
    ensures Good(widths, Do(widths, f, op), HistoryAfter(widths, f, hist, op))
  {
    hide Record, Overwrite, Stream, Off, Shaped, Holds, Left, Complete;
    DoCoherent(widths, f, hist, op);
    match op
    case Truncate(n) => CutGood(widths, f, hist, n);
    case Append(h) => if |h| > f.nrec { AppendGood(widths, f, hist, h); }
    case Restart(_, _, _, _) =>
  }

  // ---------- what a crash can lose, and what it can invent ----------

  /** the records the writer knows survive the crash */
  lemma LeftKeeps(widths: seq<nat>, f: File, hist: seq<Position>, h: seq<Position>, k: nat)
    requires Good(widths, f, hist) && hist <= h && AllShaped(widths, h) && k <= |Stream(h, f.nrec)| && Total(widths) > 0
    ensures hist <= Stored(widths, f.count, Left(widths, f, h, k)) <= h
  {
    hide Record, Overwrite, Stream, Off, Shaped, Complete;
    var n, size := f.nrec, Total(widths);
    assert Holds(widths, f.data, n, h);
    TornPrefix(widths, f.count, f.data, h, n, k);
    OverwriteAt(f.data, Off(n, size), Stream(h, n)[..k]);
    AtLeastComplete(Left(widths, f, h, k), size, f.count, n);
  }

  lemma AtLeastComplete(data: seq<Byte>, size: nat, count: nat, n: nat)
    requires n <= count && Off(n, size) <= |data|
    ensures Complete(data, size, count) >= n
  {
    hide Off, Complete;
    var c := Complete(data, size, count);
    if c + 1 < n { OffMono(c + 1, n, size); }
  }

  /** A crash anywhere in any session loses nothing saved and invents nothing: what the next start loads extends the
      history the file held and is a prefix of the one that was being written. */
  lemma CrashLosesNothing(widths: seq<nat>, f: File, hist: seq<Position>, ops: seq<Op>, i: nat)
    requires Good(widths, f, hist) && AllFair(widths, f, hist, ops) && widths != [] && widths[0] >= 2
    requires i < |ops| && ops[i].Restart? && Reached(widths, f, ops[..i]) && Reached(widths, f, ops[..i + 1])
    ensures HistoryAfterAll(widths, f, hist, ops[..i]) <= HistoryAfterAll(widths, f, hist, ops[..i + 1]) <= ops[i].hist
  {
    hide Good, Left, Stored;
    var a, b := ops[..i], ops[..i + 1];
    assert b[..|b| - 1] == a && b[i] == ops[i];
    FairPrefix(widths, f, hist, ops, i);
    FairPrefix(widths, f, hist, ops, i + 1);
    LoadsLastHistory(widths, f, hist, a);
    var g, h, op := DoAll(widths, f, a), HistoryAfterAll(widths, f, hist, a), ops[i];
    LeftKeeps(widths, g, h, op.hist, op.k);
    if g.count == 0 { NoCount(widths, g, h); }
  }

  lemma NoCount(widths: seq<nat>, f: File, hist: seq<Position>)
    requires Good(widths, f, hist) && f.count == 0
    ensures hist == []
  {
  }

  lemma {:induction false} FairPrefix(widths: seq<nat>, f: File, hist: seq<Position>, ops: seq<Op>, i: nat)
    requires AllFair(widths, f, hist, ops) && i <= |ops|
    ensures AllFair(widths, f, hist, ops[..i])
    decreases |ops|
  {
    if i == |ops| {
      assert ops[..i] == ops;
    } else {
      FairPrefix(widths, f, hist, ops[..|ops| - 1], i);
      assert ops[..|ops| - 1][..i] == ops[..i];
    }
  }

  /** a prefix of a history the sessions began with or were given */
  ghost predicate Given(hist: seq<Position>, ops: seq<Op>, h: seq<Position>) {
    || h <= hist
    || exists j :: 0 <= j < |ops| && !ops[j].Truncate? && !ops[j].Unopened? && h <= ops[j].hist
  }

  lemma GivenMore(hist: seq<Position>, ops: seq<Op>, h: seq<Position>, p: seq<Position>)
    requires ops != [] && Given(hist, ops[..|ops| - 1], h) && p <= h
    ensures Given(hist, ops, p)
  {
    var init := ops[..|ops| - 1];
    if !(h <= hist) {
      var j :| 0 <= j < |init| && !init[j].Truncate? && !init[j].Unopened? && h <= init[j].hist;
      assert ops[j] == init[j];
    }
  }

  /** every crash falls where no complete counted record lies beyond disk_nrec */
  ghost predicate AllSafe(widths: seq<nat>, f: File, ops: seq<Op>) {
    forall i :: 0 <= i < |ops| && ops[i].Restart? && ops[i].k > 0 ==> NoneBeyond(widths, DoAll(widths, f, ops[..i]))
  }

  ghost predicate NoneBeyond(widths: seq<nat>, f: File) {
    Complete(f.data, Total(widths), f.count) <= f.nrec
  }

  /** Failed opens, refused starts and crashes in any order: as long as no crash falls where a complete counted record
      lies beyond disk_nrec, no session ever loads anything but a prefix of a history it was given. */
  lemma {:induction false} NothingInvented(widths: seq<nat>, f: File, hist: seq<Position>, ops: seq<Op>)
    requires Good(widths, f, hist) && AllFair(widths, f, hist, ops) && AllSafe(widths, f, ops)
    requires widths != [] && widths[0] >= 2
    ensures Given(hist, ops, HistoryAfterAll(widths, f, hist, ops))
    ensures var g := DoAll(widths, f, ops); Given(hist, ops, Stored(widths, g.count, g.data))
    decreases |ops|
  {
    hide Good, Coherent, Stored, Do, HistoryAfter, Fair, Given, NoneBeyond;
    if ops == [] {
      GoodLoads(widths, f, hist);
      GivenOwn(hist);
    } else {
      var init, op := ops[..|ops| - 1], ops[|ops| - 1];
      assert AllSafe(widths, f, init) by {
        forall i | 0 <= i < |init| && init[i].Restart? && init[i].k > 0
          ensures NoneBeyond(widths, DoAll(widths, f, init[..i]))
        {
          assert init[..i] == ops[..i] && init[i] == ops[i];
        }
      }
      NothingInvented(widths, f, hist, init);
      LoadsLastHistory(widths, f, hist, init);
      var g, h := DoAll(widths, f, init), HistoryAfterAll(widths, f, hist, init);
      var kept, held := From(widths, g, h, op);
      GivenStep(hist, ops, if kept then h else Stored(widths, g.count, g.data), HistoryAfter(widths, g, h, op));
      var g' := Do(widths, g, op);
      GivenStep(hist, ops, if held then h else Stored(widths, g.count, g.data), Stored(widths, g'.count, g'.data));
    }
  }

  lemma GivenOwn(hist: seq<Position>)
    ensures Given(hist, [], hist)
  {
  }

  lemma GivenStep(hist: seq<Position>, ops: seq<Op>, h: seq<Position>, p: seq<Position>)
    requires ops != [] && Given(hist, ops[..|ops| - 1], h)
    requires p <= h || (var op := ops[|ops| - 1]; !op.Truncate? && !op.Unopened? && p <= op.hist)
    ensures Given(hist, ops, p)
  {
    if p <= h { GivenMore(hist, ops, h, p); }
  }

  /** one operation: the history and the stored one come from the old history, the old stored one or the operation's
      own */
  lemma From(widths: seq<nat>, f: File, hist: seq<Position>, op: Op) returns (kept: bool, held: bool)
    requires Coherent(widths, f, hist) && Fair(widths, f, hist, op) && Total(widths) > 0
    requires op.Restart? && op.k > 0 ==> NoneBeyond(widths, f)
    ensures var (p, h) := (HistoryAfter(widths, f, hist, op), if kept then hist else Stored(widths, f.count, f.data));
      p <= h || (!op.Truncate? && !op.Unopened? && p <= op.hist)
    ensures var (g, h) := (Do(widths, f, op), if held then hist else Stored(widths, f.count, f.data));
      var p := Stored(widths, g.count, g.data);
      p <= h || (!op.Truncate? && !op.Unopened? && p <= op.hist)
  {
    hide Record, Overwrite, Stream, Off, Shaped, Complete, Torn, Stored, Holds;
    kept, held := !op.Restart?, op.Truncate?;
    match op
    case Truncate(n) =>
      CutGood(widths, f, hist, n);
      GoodLoads(widths, Do(widths, f, op), hist[..n]);
    case Unopened(n) =>
    case Append(h) =>
      if |h| > f.nrec {
        AppendGood(widths, f, hist, h);
        GoodLoads(widths, Do(widths, f, op), h);
      }
    case Skipped(h) =>
    case Restart(h, k, maxctx, draft) =>
      if k == 0 {
        TornStart(widths, f.data, h, f.nrec);
      } else {
        HoldsMore(widths, f.data, f.nrec, hist, h);
        TornPrefix(widths, f.count, f.data, h, f.nrec, k);
      }
  }

  lemma HoldsMore(widths: seq<nat>, data: seq<Byte>, n: nat, hist: seq<Position>, h: seq<Position>)
    requires Holds(widths, data, n, hist) && hist <= h
    ensures Holds(widths, data, n, h)
  {
    hide Record, Off;
  }

  lemma GoodSafe(widths: seq<nat>, f: File, hist: seq<Position>)
    requires Good(widths, f, hist) && widths != [] && widths[0] >= 2
    ensures CrashSafe(widths, f.count, f.data, f.nrec)
  {
    hide CrashSafe;
    CrashSafeIff(widths, f.count, f.data, f.nrec);
  }

  /** the count is raised by a truncate above it: the load is the history exactly when no stale record follows it */
  lemma TruncateAbove(widths: seq<nat>, f: File, hist: seq<Position>, n: nat)
    requires Good(widths, f, hist) && |hist| < n
    ensures var g := Do(widths, f, Truncate(n));
      Stored(widths, g.count, g.data) == hist <==> Complete(f.data, Total(widths), n) == |hist|
  {
    hide Record;
  }

  // ---------- the writer and the reader ----------

  lemma OverwriteMore(data: seq<Byte>, off: nat, a: seq<Byte>, b: seq<Byte>)
    ensures Overwrite(Overwrite(data, off, a), off + |a|, b) == Overwrite(data, off, a + b)
  {
    if a == [] {
      assert a + b == b;
    } else if b == [] {
      assert a + b == a;
    } else {
      var l, r := Overwrite(Overwrite(data, off, a), off + |a|, b), Overwrite(data, off, a + b);
      assert |l| == |r|;
      assert forall i :: 0 <= i < |l| ==> l[i] == r[i];
    }
  }

  /** the file after each record of an append */
  ghost predicate AllTorn(widths: seq<nat>, f: File, hist: seq<Position>, between: seq<File>)
    requires f.nrec <= |hist|
  {
    forall i: nat :: i < |between| ==> TornAt(widths, f, hist, i + 1, between[i])
  }

  ghost predicate TornAt(widths: seq<nat>, f: File, hist: seq<Position>, records: nat, g: File)
    requires f.nrec <= |hist|
  {
    var k := Off(records, Total(widths));
    k <= |Stream(hist, f.nrec)| && g == f.(data := Torn(widths, f.data, hist, f.nrec, k))
  }

  class Disk {
    const widths: seq<nat>
    var sameModel: bool
    var count: nat
    var data: seq<Byte>
    var nrec: nat

    /** a file just created, or found and not yet loaded */
    constructor (fields: seq<nat>, matches: bool, records: nat, region: seq<Byte>)
      ensures widths == fields && sameModel == matches && Now() == File(records, region, 0)
    {
      widths, sameModel, count, data, nrec := fields, matches, records, region, 0;
    }

    ghost function Now(): File
      reads this
    {
      File(count, data, nrec)
    }

    /** only the counter is rewritten: the records stay where they are */
    method Truncate(n: nat, opens: bool)
      modifies `count, `nrec
      ensures Now() == Do(widths, old(Now()), if opens then Op.Truncate(n) else Unopened(n))
    {
      if !opens { nrec := 0; return; }
      nrec := n;
      count := n;
    }

    /** Records first, counter last.  `between` lists the file after every record written: torn states of the append. */
    method Append(hist: seq<Position>, opens: bool) returns (ghost between: seq<File>)
      requires AllShaped(widths, hist)
      modifies `count, `data, `nrec
      ensures Now() == Do(widths, old(Now()), if opens then Op.Append(hist) else Skipped(hist))
      ensures |hist| <= old(nrec) || !opens ==> between == []
      ensures |hist| > old(nrec) && opens ==>
          |between| == |hist| - old(nrec) && AllTorn(widths, old(Now()), hist, between)
    {
      hide Overwrite, Stream, Pack, Off, AllShaped, Total, Torn;
      between := [];
      if |hist| <= nrec || !opens { return; }
      var size := Total(widths);
      var p, pos := nrec, Off(nrec, size);
      TornStart(widths, data, hist, nrec);
      while p < |hist|
        invariant nrec == old(nrec) && count == old(count) && nrec <= p <= |hist| && pos == Off(p, size)
        invariant Off(p - nrec, size) <= |Stream(hist, nrec)| && |between| == p - nrec
        invariant data == Torn(widths, old(data), hist, nrec, Off(p - nrec, size))
        invariant AllTorn(widths, old(Now()), hist, between)
      {
        var record := Pack(hist[p]);
        WriteRecord(widths, old(data), hist, nrec, p);
        data := Overwrite(data, pos, record);
        OffAdd(p, 1, size);
        OffBase(size);
        pos := pos + size;
        p := p + 1;
        assert TornAt(widths, old(Now()), hist, p - nrec, Now());
        between := between + [Now()];
      }
      TornEnd(widths, old(data), hist, nrec);
      count := |hist|;
      nrec := |hist|;
    }

    /** reads record by record to the first short one; a foreign, empty or too long file loads nothing */
    method Load(maxctx: nat, draft: nat) returns (hist: seq<Position>)
      modifies `nrec
      ensures hist == if sameModel then Loaded(widths, maxctx, draft, count, data) else []
      ensures nrec == if sameModel && 1 <= count && count + 8 + draft < maxctx then |hist| else old(nrec)
    {
      hide Off, Total, Unpack, Shaped, Complete;
      hist := [];
      if !sameModel || count < 1 || count + 8 + draft >= maxctx { return; }
      var size, pos := Total(widths), 0;
      OffBase(size);
      while |hist| < count && pos + size <= |data|
        invariant |hist| <= count && pos == Off(|hist|, size) <= |data|
        invariant forall p: nat :: p < |hist| ==> Off(p, size) + size <= |data| && hist[p] == Record(widths, data, p)
      {
        OffAdd(|hist|, 1, size);
        hist := hist + [Unpack(widths, data[pos..])];
        pos := pos + size;
      }
      OffAdd(|hist|, 1, size);
      CompleteIs(data, size, count, |hist|);
      assert hist == Stored(widths, count, data);
      nrec := |hist|;
    }
  }

  /** a start on the file an earlier session left */
  method Start(widths: seq<nat>, matches: bool, count: nat, data: seq<Byte>, maxctx: nat, draft: nat)
    returns (d: Disk, hist: seq<Position>)
    ensures fresh(d) && hist == if matches then Loaded(widths, maxctx, draft, count, data) else []
    ensures d.Now().count == count && d.Now().data == data
    ensures d.Now().nrec ==
            if matches && Admitted(count, maxctx, draft) then Complete(data, Total(widths), count) else 0
  {
    d := new Disk(widths, matches, count, data);
    hist := d.Load(maxctx, draft);
  }

  lemma TornStart(widths: seq<nat>, data: seq<Byte>, hist: seq<Position>, n: nat)
    requires n <= |hist|
    ensures Off(0, Total(widths)) == 0 && Torn(widths, data, hist, n, 0) == data
  {
  }

  lemma TornEnd(widths: seq<nat>, data: seq<Byte>, hist: seq<Position>, n: nat)
    requires AllShaped(widths, hist) && n <= |hist|
    ensures |Stream(hist, n)| == Off(|hist| - n, Total(widths))
    ensures Torn(widths, data, hist, n, |Stream(hist, n)|) == Overwrite(data, Off(n, Total(widths)), Stream(hist, n))
  {
    hide Overwrite, Stream, Off;
    StreamSize(widths, hist, n);
    assert Stream(hist, n)[..|Stream(hist, n)|] == Stream(hist, n);
  }

  lemma WriteRecord(widths: seq<nat>, data: seq<Byte>, hist: seq<Position>, n: nat, p: nat)
    requires AllShaped(widths, hist) && n <= p < |hist| && Off(p - n, Total(widths)) <= |Stream(hist, n)|
    ensures Off(p + 1 - n, Total(widths)) <= |Stream(hist, n)|
    ensures Overwrite(Torn(widths, data, hist, n, Off(p - n, Total(widths))), Off(p, Total(widths)), Pack(hist[p]))
      == Torn(widths, data, hist, n, Off(p + 1 - n, Total(widths)))
  {
    hide Overwrite, Stream, Pack, Off, AllShaped, Total;
    var size, s := Total(widths), Stream(hist, n);
    var j := Off(p - n, size);
    StreamRecord(widths, hist, n, p - n);
    StreamStep(hist, p);
    OneShaped(widths, hist, p);
    PackSize(widths, hist[p]);
    OffAdd(n, p - n, size);
    OffAdd(p - n, 1, size);
    OffBase(size);
    assert s[..j + size] == s[..j] + s[j..][..size];
    OverwriteMore(data, Off(n, size), s[..j], Pack(hist[p]));
  }

  lemma OneShaped(widths: seq<nat>, hist: seq<Position>, p: nat)
    requires AllShaped(widths, hist) && p < |hist|
    ensures Shaped(widths, hist[p])
  {
  }
}
