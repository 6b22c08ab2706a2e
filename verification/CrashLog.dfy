/** Disk blocks, the on-disk redo log of kernel/log.c, and what a crash leaves behind.

    A disk maps block numbers to blocks, a block is a sequence of unsigned words, and one
    `bwrite` replaces one block atomically.  The log area is a header block at `start`
    (word 0 is n, words 1..n are home block numbers) followed by `cap` data blocks. */
module CrashLog {

  type Block = seq<nat>
  type Disk = map<nat, Block>
  datatype Write = Write(blockno: nat, data: Block)

  /** start = log.start, cap = LOGBLOCKS, words = BSIZE / sizeof(int). */
  datatype Layout = Layout(start: nat, cap: nat, words: nat) {
    predicate InLog(b: nat) { start <= b <= start + cap }

    /** The block of log slot i. */
    function Slot(i: nat): nat { start + 1 + i }

    /** The check of initlog(): struct logheader is smaller than a block. */
    predicate Valid() { cap + 1 < words }
  }

  ghost predicate ValidDisk(l: Layout, d: Disk)
  {
    && l.Valid()
    && (forall b :: b in d ==> |d[b]| == l.words)
    && (forall b :: l.start <= b <= l.start + l.cap ==> b in d)
  }

  ghost predicate Distinct<T>(s: seq<T>)
  {
    forall i, j :: 0 <= i < j < |s| ==> s[i] != s[j]
  }

  /** A block list that may be logged: it fits, has no duplicates, and names home blocks only. */
  ghost predicate GoodList(l: Layout, d: Disk, lh: seq<nat>)
  {
    && |lh| <= l.cap
    && Distinct(lh)
    && (forall i :: 0 <= i < |lh| ==> lh[i] in d && !l.InLog(lh[i]))
  }

  // ---------------------------------------------------------------- the header block

  /** write_head(): n, then the block numbers, over whatever the block held before. */
  function PutHead(blk: Block, lh: seq<nat>): (r: Block)
    requires |lh| < |blk|
    ensures |r| == |blk|
  {
    [|lh|] + lh + blk[1 + |lh|..]
  }

  /** read_head(): the first n block numbers. */
  function GetHead(blk: Block): (lh: seq<nat>)
    requires |blk| > 0 && blk[0] < |blk|
  {
    blk[1..1 + blk[0]]
  }

  lemma HeadRoundTrip(blk: Block, lh: seq<nat>)
    requires |lh| < |blk|
    ensures PutHead(blk, lh)[0] == |lh|
    ensures GetHead(PutHead(blk, lh)) == lh
  {
    assert PutHead(blk, lh)[1..1 + |lh|] == lh;
  }

  ghost predicate GoodLog(l: Layout, d: Disk)
  {
    && ValidDisk(l, d)
    && d[l.start][0] < l.words
    && GoodList(l, d, GetHead(d[l.start]))
  }

  function LogOf(l: Layout, d: Disk): seq<nat>
    requires GoodLog(l, d)
  {
    GetHead(d[l.start])
  }

  // ---------------------------------------------------------------- sequences of block writes

  function Apply(d: Disk, ws: seq<Write>): (r: Disk)
  {
    if ws == [] then d
    else Apply(d, ws[..|ws| - 1])[ws[|ws| - 1].blockno := ws[|ws| - 1].data]
  }

  lemma {:induction false} ApplyAppend(d: Disk, a: seq<Write>, b: seq<Write>)
    ensures Apply(d, a + b) == Apply(Apply(d, a), b)
  {
    if b == [] {
      assert a + b == a;
    } else {
      ApplyAppend(d, a, b[..|b| - 1]);
      assert (a + b)[..|a + b| - 1] == a + b[..|b| - 1];
    }
  }

  lemma ApplySnoc(d: Disk, ws: seq<Write>, w: Write)
    ensures Apply(d, ws + [w]) == Apply(d, ws)[w.blockno := w.data]
  {
    assert (ws + [w])[..|ws|] == ws;
  }

  lemma ApplyNext(d: Disk, ws: seq<Write>, k: nat)
    requires k < |ws|
    ensures Apply(d, ws[..k + 1]) == Apply(d, ws[..k])[ws[k].blockno := ws[k].data]
  {
    assert ws[..k + 1][..k] == ws[..k];
  }

  lemma {:induction false} ApplyKeys(d: Disk, ws: seq<Write>)
    requires forall i :: 0 <= i < |ws| ==> ws[i].blockno in d
    ensures Apply(d, ws).Keys == d.Keys
  {
    if ws != [] {
      ApplyKeys(d, ws[..|ws| - 1]);
    }
  }

  /** A block no write names keeps its contents. */
  lemma {:induction false} ApplyUntouched(d: Disk, ws: seq<Write>, b: nat)
    requires forall i :: 0 <= i < |ws| ==> ws[i].blockno != b
    ensures b in Apply(d, ws) <==> b in d
    ensures b in d ==> Apply(d, ws)[b] == d[b]
  {
    if ws != [] {
      ApplyUntouched(d, ws[..|ws| - 1], b);
    }
  }

  /** A block holds the data of the last write that names it. */
  lemma {:induction false} ApplyLast(d: Disk, ws: seq<Write>, i: nat)
    requires i < |ws|
    requires forall j :: i < j < |ws| ==> ws[j].blockno != ws[i].blockno
    ensures ws[i].blockno in Apply(d, ws)
    ensures Apply(d, ws)[ws[i].blockno] == ws[i].data
  {
    if i < |ws| - 1 {
      ApplyLast(d, ws[..|ws| - 1], i);
    }
  }

  // ---------------------------------------------------------------- what recovery would produce

  /** The home blocks that a finished recovery from disk `d` leaves: logged blocks take their
      logged contents, every other home block keeps its own. */
  ghost function Recovered(l: Layout, d: Disk): (r: Disk)
    requires GoodLog(l, d)
  {
    map b | b in d && !l.InLog(b) ::
      if b in LogOf(l, d) then
        (var i :| 0 <= i < |LogOf(l, d)| && LogOf(l, d)[i] == b; d[l.Slot(i)])
      else d[b]
  }

  ghost function Home(l: Layout, d: Disk): (r: Disk)
  {
    map b | b in d && !l.InLog(b) :: d[b]
  }

  /** The contents the committing transaction means: `cache` for the logged blocks. */
  ghost function Overlay(l: Layout, d: Disk, lh: seq<nat>, cache: map<nat, Block>): (r: Disk)
    requires forall i :: 0 <= i < |lh| ==> lh[i] in cache
  {
    map b | b in d && !l.InLog(b) :: if b in lh then cache[b] else d[b]
  }

  lemma RecoveredAt(l: Layout, d: Disk, i: nat)
    requires GoodLog(l, d) && i < |LogOf(l, d)|
    ensures LogOf(l, d)[i] in Recovered(l, d)
    ensures Recovered(l, d)[LogOf(l, d)[i]] == d[l.Slot(i)]
  {
  }

  lemma RecoveredEmpty(l: Layout, d: Disk)
    requires GoodLog(l, d) && LogOf(l, d) == []
    ensures Recovered(l, d) == Home(l, d)
  {
  }

  // ---------------------------------------------------------------- commit()

  ghost predicate Cached(l: Layout, lh: seq<nat>, cache: map<nat, Block>)
  {
    forall i :: 0 <= i < |lh| ==> lh[i] in cache && |cache[lh[i]]| == l.words
  }

  /** write_log(): block i of the transaction goes to log slot i. */
  function LogWrites(l: Layout, lh: seq<nat>, cache: map<nat, Block>): (ws: seq<Write>)
    requires forall i :: 0 <= i < |lh| ==> lh[i] in cache
    ensures |ws| == |lh|
    ensures forall i :: 0 <= i < |lh| ==> ws[i] == Write(l.Slot(i), cache[lh[i]])
  {
    seq(|lh|, i requires 0 <= i < |lh| => Write(l.Slot(i), cache[lh[i]]))
  }

  /** install_trans(): log slot i goes to its home block. */
  function InstallWrites(l: Layout, lh: seq<nat>, slots: map<nat, Block>): (ws: seq<Write>)
    requires forall i :: 0 <= i < |lh| ==> l.Slot(i) in slots
    ensures |ws| == |lh|
    ensures forall i :: 0 <= i < |lh| ==> ws[i] == Write(lh[i], slots[l.Slot(i)])
  {
    seq(|lh|, i requires 0 <= i < |lh| => Write(lh[i], slots[l.Slot(i)]))
  }

  /** The slots as they are on disk once write_log() is done. */
  function LoggedDisk(l: Layout, d: Disk, lh: seq<nat>, cache: map<nat, Block>): (r: Disk)
    requires forall i :: 0 <= i < |lh| ==> lh[i] in cache
  {
    Apply(d, LogWrites(l, lh, cache))
  }

  lemma LoggedSlot(l: Layout, d: Disk, lh: seq<nat>, cache: map<nat, Block>, i: nat)
    requires forall i :: 0 <= i < |lh| ==> lh[i] in cache
    requires i < |lh|
    ensures l.Slot(i) in LoggedDisk(l, d, lh, cache)
    ensures LoggedDisk(l, d, lh, cache)[l.Slot(i)] == cache[lh[i]]
  {
    ApplyLast(d, LogWrites(l, lh, cache), i);
  }

  lemma LoggedSlots(l: Layout, d: Disk, lh: seq<nat>, cache: map<nat, Block>)
    requires forall i :: 0 <= i < |lh| ==> lh[i] in cache
    ensures forall i :: 0 <= i < |lh| ==> l.Slot(i) in LoggedDisk(l, d, lh, cache)
  {
    forall i | 0 <= i < |lh|
      ensures l.Slot(i) in LoggedDisk(l, d, lh, cache)
    {
      LoggedSlot(l, d, lh, cache, i);
    }
  }

  /** Every block write of commit(), in order: write_log, write_head, install_trans, and
      write_head again with n = 0. */
  function CommitWrites(l: Layout, d: Disk, lh: seq<nat>, cache: map<nat, Block>): (ws: seq<Write>)
    requires ValidDisk(l, d) && |lh| <= l.cap
    requires forall i :: 0 <= i < |lh| ==> lh[i] in cache
  {
    LoggedSlots(l, d, lh, cache);
    LogWrites(l, lh, cache)
    + [Write(l.start, PutHead(d[l.start], lh))]
    + InstallWrites(l, lh, LoggedDisk(l, d, lh, cache))
    + [Write(l.start, PutHead(PutHead(d[l.start], lh), []))]
  }

  /** The write list of a commit, entry by entry. */
  ghost predicate CommitShape(l: Layout, d: Disk, lh: seq<nat>, cache: map<nat, Block>, ws: seq<Write>)
    requires ValidDisk(l, d) && |lh| <= l.cap && Cached(l, lh, cache)
  {
    var n := |lh|;
    && |ws| == 2 * n + 2
    && (forall i :: 0 <= i < n ==> ws[i] == Write(l.Slot(i), cache[lh[i]]))
    && ws[n] == Write(l.start, PutHead(d[l.start], lh))
    && (forall j :: n < j <= 2 * n ==> ws[j] == Write(lh[j - n - 1], cache[lh[j - n - 1]]))
    && ws[2 * n + 1] == Write(l.start, PutHead(PutHead(d[l.start], lh), []))
  }

  lemma CommitWritesShape(l: Layout, d: Disk, lh: seq<nat>, cache: map<nat, Block>)
    requires ValidDisk(l, d) && |lh| <= l.cap && Cached(l, lh, cache)
    ensures CommitShape(l, d, lh, cache, CommitWrites(l, d, lh, cache))
  {
    var n := |lh|;
    LoggedSlots(l, d, lh, cache);
    var ws := CommitWrites(l, d, lh, cache);
    forall j | n < j <= 2 * n
      ensures ws[j] == Write(lh[j - n - 1], cache[lh[j - n - 1]])
    {
      LoggedSlot(l, d, lh, cache, j - n - 1);
    }
  }

  // The disk after k block writes of a commit, one kind of block at a time.

  lemma PrefixKeys(l: Layout, d: Disk, lh: seq<nat>, cache: map<nat, Block>, ws: seq<Write>, k: nat)
    requires ValidDisk(l, d) && GoodList(l, d, lh) && Cached(l, lh, cache)
    requires CommitShape(l, d, lh, cache, ws) && k <= |ws|
    ensures Apply(d, ws[..k]).Keys == d.Keys
  {
    ApplyKeys(d, ws[..k]);
  }

  lemma {:induction false} PrefixWidth(l: Layout, d: Disk, lh: seq<nat>, cache: map<nat, Block>, ws: seq<Write>,
    k: nat, b: nat)
    requires ValidDisk(l, d) && GoodList(l, d, lh) && Cached(l, lh, cache)
    requires CommitShape(l, d, lh, cache, ws) && k <= |ws|
    requires b in Apply(d, ws[..k])
    ensures |Apply(d, ws[..k])[b]| == l.words
  {
    if k > 0 {
      assert ws[..k][..k - 1] == ws[..k - 1];
      assert |ws[k - 1].data| == l.words;
      if b != ws[k - 1].blockno {
        PrefixWidth(l, d, lh, cache, ws, k - 1, b);
      }
    }
  }

  lemma PrefixOther(l: Layout, d: Disk, lh: seq<nat>, cache: map<nat, Block>, ws: seq<Write>, k: nat, b: nat)
    requires ValidDisk(l, d) && GoodList(l, d, lh) && Cached(l, lh, cache)
    requires CommitShape(l, d, lh, cache, ws) && k <= |ws|
    requires b in d && !l.InLog(b) && b !in lh
    ensures b in Apply(d, ws[..k]) && Apply(d, ws[..k])[b] == d[b]
  {
    ApplyUntouched(d, ws[..k], b);
  }

  lemma PrefixSlot(l: Layout, d: Disk, lh: seq<nat>, cache: map<nat, Block>, ws: seq<Write>, k: nat, i: nat)
    requires ValidDisk(l, d) && GoodList(l, d, lh) && Cached(l, lh, cache)
    requires CommitShape(l, d, lh, cache, ws) && k <= |ws|
    requires i < |lh| && i < k
    ensures l.Slot(i) in Apply(d, ws[..k]) && Apply(d, ws[..k])[l.Slot(i)] == cache[lh[i]]
  {
    ApplyLast(d, ws[..k], i);
  }

  lemma PrefixHome(l: Layout, d: Disk, lh: seq<nat>, cache: map<nat, Block>, ws: seq<Write>, k: nat, i: nat)
    requires ValidDisk(l, d) && GoodList(l, d, lh) && Cached(l, lh, cache)
    requires CommitShape(l, d, lh, cache, ws) && k <= |ws|
    requires i < |lh|
    ensures lh[i] in Apply(d, ws[..k])
    ensures Apply(d, ws[..k])[lh[i]] == if |lh| + 1 + i < k then cache[lh[i]] else d[lh[i]]
  {
    var n := |lh|;
    var ps := ws[..k];
    if n + 1 + i < k {
      assert ps[n + 1 + i] == Write(lh[i], cache[lh[i]]);
      ApplyLast(d, ps, n + 1 + i);
    } else {
      ApplyUntouched(d, ps, lh[i]);
    }
  }

  lemma PrefixHead(l: Layout, d: Disk, lh: seq<nat>, cache: map<nat, Block>, ws: seq<Write>, k: nat)
    requires ValidDisk(l, d) && GoodList(l, d, lh) && Cached(l, lh, cache)
    requires CommitShape(l, d, lh, cache, ws) && k <= |ws|
    ensures l.start in Apply(d, ws[..k])
    ensures Apply(d, ws[..k])[l.start] ==
            if k <= |lh| then d[l.start]
            else if k <= 2 * |lh| + 1 then PutHead(d[l.start], lh)
            else PutHead(PutHead(d[l.start], lh), [])
  {
    var n := |lh|;
    var ps := ws[..k];
    if k <= n {
      ApplyUntouched(d, ps, l.start);
    } else if k <= 2 * n + 1 {
      ApplyLast(d, ps, n);
    } else {
      ApplyLast(d, ps, 2 * n + 1);
    }
  }

  lemma PrefixLog(l: Layout, d: Disk, lh: seq<nat>, cache: map<nat, Block>, ws: seq<Write>, k: nat)
    requires GoodLog(l, d) && LogOf(l, d) == []
    requires GoodList(l, d, lh) && Cached(l, lh, cache)
    requires CommitShape(l, d, lh, cache, ws) && k <= |ws|
    ensures GoodLog(l, Apply(d, ws[..k]))
    ensures LogOf(l, Apply(d, ws[..k])) == if |lh| < k <= 2 * |lh| + 1 then lh else []
  {
    var e := Apply(d, ws[..k]);
    PrefixKeys(l, d, lh, cache, ws, k);
    PrefixHead(l, d, lh, cache, ws, k);
    forall b | b in e
      ensures |e[b]| == l.words
    {
      PrefixWidth(l, d, lh, cache, ws, k, b);
    }
    HeadRoundTrip(d[l.start], lh);
    HeadRoundTrip(PutHead(d[l.start], lh), []);
  }

  /** What one home block recovers to after k of a commit's block writes. */
  lemma PrefixRecovers(l: Layout, d: Disk, lh: seq<nat>, cache: map<nat, Block>, ws: seq<Write>, k: nat, b: nat)
    requires GoodLog(l, d) && LogOf(l, d) == []
    requires GoodList(l, d, lh) && Cached(l, lh, cache)
    requires CommitShape(l, d, lh, cache, ws) && k <= |ws|
    requires b in d && !l.InLog(b)
    requires GoodLog(l, Apply(d, ws[..k]))
    ensures var r := Recovered(l, Apply(d, ws[..k]));
      b in r && r[b] == if k > |lh| && b in lh then cache[b] else d[b]
  {
    var e := Apply(d, ws[..k]);
    PrefixKeys(l, d, lh, cache, ws, k);
    PrefixLog(l, d, lh, cache, ws, k);
    if b !in lh {
      PrefixOther(l, d, lh, cache, ws, k, b);
    } else {
      var i :| 0 <= i < |lh| && lh[i] == b;
      PrefixHome(l, d, lh, cache, ws, k, i);
      if |lh| < k <= 2 * |lh| + 1 {
        PrefixSlot(l, d, lh, cache, ws, k, i);
        RecoveredAt(l, e, i);
      }
    }
  }

  lemma PrefixIsAtomic(l: Layout, d: Disk, lh: seq<nat>, cache: map<nat, Block>, ws: seq<Write>, k: nat)
    requires GoodLog(l, d) && LogOf(l, d) == []
    requires GoodList(l, d, lh) && Cached(l, lh, cache)
    requires CommitShape(l, d, lh, cache, ws) && k <= |ws|
    requires GoodLog(l, Apply(d, ws[..k]))
    ensures Recovered(l, Apply(d, ws[..k])) == if k <= |lh| then Home(l, d) else Overlay(l, d, lh, cache)
  {
    hide CommitShape, Apply;
    PrefixKeys(l, d, lh, cache, ws, k);
    forall b | b in d && !l.InLog(b)
      ensures b in Recovered(l, Apply(d, ws[..k]))
      ensures Recovered(l, Apply(d, ws[..k]))[b] == (if k <= |lh| then Home(l, d) else Overlay(l, d, lh, cache))[b]
    {
      PrefixRecovers(l, d, lh, cache, ws, k, b);
    }
  }

  /** Crash atomicity of commit(): starting from an empty on-disk log, a crash after any number k
      of commit's block writes recovers to exactly the old home blocks while the header write has
      not happened, and to exactly the new ones from then on. */
  lemma CommitIsAtomic(l: Layout, d: Disk, lh: seq<nat>, cache: map<nat, Block>, k: nat)
    requires GoodLog(l, d) && LogOf(l, d) == []
    requires GoodList(l, d, lh) && Cached(l, lh, cache)
    requires k <= 2 * |lh| + 2
    ensures |CommitWrites(l, d, lh, cache)| == 2 * |lh| + 2
    ensures var e := Apply(d, CommitWrites(l, d, lh, cache)[..k]);
      && GoodLog(l, e) && e.Keys == d.Keys
      && Recovered(l, e) == (if k <= |lh| then Home(l, d) else Overlay(l, d, lh, cache))
      && (k == 2 * |lh| + 2 ==> LogOf(l, e) == [] && Home(l, e) == Overlay(l, d, lh, cache))
  {
    CommitWritesShape(l, d, lh, cache);
    var ws := CommitWrites(l, d, lh, cache);
    PrefixKeys(l, d, lh, cache, ws, k);
    PrefixLog(l, d, lh, cache, ws, k);
    PrefixIsAtomic(l, d, lh, cache, ws, k);
    if k == 2 * |lh| + 2 {
      RecoveredEmpty(l, Apply(d, ws[..k]));
    }
  }

  // ---------------------------------------------------------------- recover_from_log()

  /** Every block write of recover_from_log(): replay the log, then clear the header. */
  function RecoveryWrites(l: Layout, d: Disk): (ws: seq<Write>)
    requires GoodLog(l, d)
    ensures |ws| == |LogOf(l, d)| + 1
  {
    InstallWrites(l, LogOf(l, d), d) + [Write(l.start, PutHead(d[l.start], []))]
  }

  /** The write list of a recovery, entry by entry. */
  ghost predicate RecoveryShape(l: Layout, d: Disk, ws: seq<Write>)
    requires GoodLog(l, d)
  {
    var lh := LogOf(l, d);
    && |ws| == |lh| + 1
    && (forall i :: 0 <= i < |lh| ==> l.Slot(i) in d && ws[i] == Write(lh[i], d[l.Slot(i)]))
    && ws[|lh|] == Write(l.start, PutHead(d[l.start], []))
  }

  lemma RecoveryOther(l: Layout, d: Disk, ws: seq<Write>, k: nat, b: nat)
    requires GoodLog(l, d) && RecoveryShape(l, d, ws) && k <= |ws|
    requires b in d && b != l.start && b !in LogOf(l, d)
    ensures b in Apply(d, ws[..k]) && Apply(d, ws[..k])[b] == d[b]
  {
    ApplyUntouched(d, ws[..k], b);
  }

  lemma RecoveryHead(l: Layout, d: Disk, ws: seq<Write>, k: nat)
    requires GoodLog(l, d) && RecoveryShape(l, d, ws) && k <= |ws|
    ensures Apply(d, ws[..k]).Keys == d.Keys
    ensures Apply(d, ws[..k])[l.start] == if k <= |LogOf(l, d)| then d[l.start] else PutHead(d[l.start], [])
  {
    ApplyKeys(d, ws[..k]);
    if k <= |LogOf(l, d)| {
      ApplyUntouched(d, ws[..k], l.start);
    } else {
      ApplyLast(d, ws[..k], |LogOf(l, d)|);
    }
  }

  lemma RecoveryHome(l: Layout, d: Disk, ws: seq<Write>, k: nat, i: nat)
    requires GoodLog(l, d) && RecoveryShape(l, d, ws) && k <= |ws| && i < |LogOf(l, d)|
    ensures var e := Apply(d, ws[..k]);
      var b := LogOf(l, d)[i];
      b in e && l.Slot(i) in d && e[b] == if i < k then d[l.Slot(i)] else d[b]
  {
    if i < k {
      ApplyLast(d, ws[..k], i);
    } else {
      ApplyUntouched(d, ws[..k], LogOf(l, d)[i]);
    }
  }

  lemma RecoveryLog(l: Layout, d: Disk, ws: seq<Write>, k: nat)
    requires GoodLog(l, d) && RecoveryShape(l, d, ws) && k <= |ws|
    ensures GoodLog(l, Apply(d, ws[..k]))
    ensures LogOf(l, Apply(d, ws[..k])) == if k <= |LogOf(l, d)| then LogOf(l, d) else []
  {
    var lh := LogOf(l, d);
    var e := Apply(d, ws[..k]);
    RecoveryHead(l, d, ws, k);
    forall b | b in e
      ensures |e[b]| == l.words
    {
      if b in lh {
        var i :| 0 <= i < |lh| && lh[i] == b;
        RecoveryHome(l, d, ws, k, i);
      } else if b != l.start {
        RecoveryOther(l, d, ws, k, b);
      }
    }
    HeadRoundTrip(d[l.start], []);
  }

  lemma RecoveryRecovers(l: Layout, d: Disk, ws: seq<Write>, k: nat, b: nat)
    requires GoodLog(l, d) && RecoveryShape(l, d, ws) && k <= |ws|
    requires b in d && !l.InLog(b)
    requires GoodLog(l, Apply(d, ws[..k]))
    ensures var r := Recovered(l, Apply(d, ws[..k]));
      b in r && r[b] == Recovered(l, d)[b]
  {
    var lh := LogOf(l, d);
    var e := Apply(d, ws[..k]);
    RecoveryHead(l, d, ws, k);
    RecoveryLog(l, d, ws, k);
    if b in lh {
      var i :| 0 <= i < |lh| && lh[i] == b;
      RecoveryHome(l, d, ws, k, i);
      RecoveredAt(l, d, i);
      if k <= |lh| {
        RecoveredAt(l, e, i);
        assert l.InLog(l.Slot(i));
        RecoveryOther(l, d, ws, k, l.Slot(i));
      }
    } else {
      RecoveryOther(l, d, ws, k, b);
    }
  }

  /** Idempotence of recovery: a crash after any number of its block writes leaves a disk that
      still recovers to the same home blocks; a finished recovery has them in place and an
      empty log. */
  lemma RecoveryIsIdempotent(l: Layout, d: Disk, k: nat)
    requires GoodLog(l, d)
    requires k <= |LogOf(l, d)| + 1
    ensures var e := Apply(d, RecoveryWrites(l, d)[..k]);
      && GoodLog(l, e) && e.Keys == d.Keys
      && Recovered(l, e) == Recovered(l, d)
      && (k == |LogOf(l, d)| + 1 ==> LogOf(l, e) == [] && Home(l, e) == Recovered(l, d))
  {
    var ws := RecoveryWrites(l, d);
    var e := Apply(d, ws[..k]);
    RecoveryHead(l, d, ws, k);
    RecoveryLog(l, d, ws, k);
    forall b | b in d && !l.InLog(b)
      ensures b in Recovered(l, e) && Recovered(l, e)[b] == Recovered(l, d)[b]
    {
      RecoveryRecovers(l, d, ws, k, b);
    }
    assert Recovered(l, e).Keys == Recovered(l, d).Keys;
    if k == |LogOf(l, d)| + 1 {
      RecoveredEmpty(l, e);
    }
  }

  /** Disks reached by a boot loop: each attempt at recovery gets some number of its writes done
      and then crashes. */
  ghost function AfterCrashes(l: Layout, d: Disk, done: seq<nat>): (e: Disk)
    requires GoodLog(l, d)
    decreases |done|
  {
    if done == [] then d
    else
      var k := if done[0] <= |LogOf(l, d)| then done[0] else |LogOf(l, d)| + 1;
      RecoveryIsIdempotent(l, d, k);
      AfterCrashes(l, Apply(d, RecoveryWrites(l, d)[..k]), done[1..])
  }

  /** Crash atomicity end to end: crash anywhere in commit(), crash any number of times during
      recovery, then let one recovery finish.  The home blocks are all old or all new, and which
      one depends only on whether the header write had happened. */
  lemma CrashAtomicity(l: Layout, d: Disk, lh: seq<nat>, cache: map<nat, Block>, k: nat, done: seq<nat>)
    requires GoodLog(l, d) && LogOf(l, d) == []
    requires GoodList(l, d, lh) && Cached(l, lh, cache)
    requires k <= 2 * |lh| + 2
    ensures GoodLog(l, Apply(d, CommitWrites(l, d, lh, cache)[..k]))
    ensures var e := AfterCrashes(l, Apply(d, CommitWrites(l, d, lh, cache)[..k]), done);
      && GoodLog(l, e)
      && var final := Apply(e, RecoveryWrites(l, e));
         && GoodLog(l, final) && LogOf(l, final) == []
         && Home(l, final) == if k <= |lh| then Home(l, d) else Overlay(l, d, lh, cache)
  {
    CommitIsAtomic(l, d, lh, cache, k);
    var c := Apply(d, CommitWrites(l, d, lh, cache)[..k]);
    CrashesPreserve(l, c, done);
    var e := AfterCrashes(l, c, done);
    RecoveryIsIdempotent(l, e, |LogOf(l, e)| + 1);
    assert RecoveryWrites(l, e)[..|LogOf(l, e)| + 1] == RecoveryWrites(l, e);
  }

  lemma {:induction false} CrashesPreserve(l: Layout, d: Disk, done: seq<nat>)
    requires GoodLog(l, d)
    ensures GoodLog(l, AfterCrashes(l, d, done))
    ensures Recovered(l, AfterCrashes(l, d, done)) == Recovered(l, d)
    decreases |done|
  {
    if done != [] {
      var k := if done[0] <= |LogOf(l, d)| then done[0] else |LogOf(l, d)| + 1;
      RecoveryIsIdempotent(l, d, k);
      CrashesPreserve(l, Apply(d, RecoveryWrites(l, d)[..k]), done[1..]);
    }
  }
}
