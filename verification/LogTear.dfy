/**
 What becomes of an overflowing header when the cache has a buffer to spare and
 the log is short: write_log runs past the end of the log and overwrites a home
 block of which nothing has been committed. A crash then leaves contents that no
 sequence of whole system calls describes.
 */
module LogTear {
  import opened Basics
  import opened BlockLog
  import opened LogSystem
  import opened LogInvariant
  import opened LogSafety
  import opened LogTheorems
  import opened LogFull
  import opened LogJam

  /** In some run what recovery yields is not what the committed log_write calls describe. */
  ghost predicate CanTear(c: Config, h: Habit) {
    exists s :: ReachableBy(c, h, s) && Torn(c, s)
  }

  ghost predicate Torn(c: Config, s: State) {
    DiskOk(c.l, s.disk) && s.durable <= |s.hist|
    && !SameHome(c.l, Recovered(c.l, s.disk), Store(c.base, s.hist[..s.durable]))
  }

  // The overflow

  /** Both calls have appended their blocks and released their buffers. */
  lemma {:induction false} OverflowDone(c: Config, h: Habit, s0: State, s: State, homes: seq<int>, k: nat, d: Block)
    returns (s': State)
    requires TwoReady(c, h, s0, s, homes, k, d, d) && Homes(c, homes) && Plain(h) && k + 1 == Capacity(c.l)
    requires h == Sparing ==> |s0.thr[1].mine| < MAXOPBLOCKS && |s0.thr[2].mine| < MAXOPBLOCKS
    ensures Busy(c, h, s', homes, k + 2) && s'.bufs[k + 1].data == d
  {
    hide ReachableBy, Pristine, Buffers, Resting, Busy, TwoReady, Absorb, Room;
    var s1 := BothAppend(c, h, s0, s, homes, k, d, d);
    ReachableMore(c, h, s1, LogWrite(2, k + 1));
    var s2 := Next(c, s1, LogWrite(2, k + 1));
    OverflowParts(c, h, s0, s, homes, k, d, s1, s2);
    var s3 := Drop(c, h, s2, 1, k);
    s' := Drop(c, h, s3, 2, k + 1);
    OverflowBusy(c, h, s0, s, homes, k, d, s1, s2, s3, s');
  }

  /** The two threads may release their buffers. */
  lemma {:induction false} OverflowParts(c: Config, h: Habit, s0: State, s: State, homes: seq<int>, k: nat, d: Block,
                                         s1: State, s2: State)
    requires TwoReady(c, h, s0, s, homes, k, d, d) && Homes(c, homes) && Appended(s, s1, k)
    requires k + 1 < |s1.bufs| && |s1.thr| == 3 && s1.thr[2].op.Some? && s2 == Logged(s1, 2, k + 1)
    ensures Shaped(c, s2) && Ready(s2, 1) && Holds(s2, 1, k) && s2.bufs[k].refcnt == 1 && !s2.bufs[k].changed
    ensures Ready(s2, 2) && Holds(s2, 2, k + 1) && s2.bufs[k + 1].refcnt == 1 && !s2.bufs[k + 1].changed
  {
    hide ReachableBy, Pristine, Buffers, Absorb;
  }

  lemma {:induction false} OverflowBusy(c: Config, h: Habit, s0: State, s: State, homes: seq<int>, k: nat, d: Block,
                                        s1: State, s2: State, s3: State, s': State)
    requires TwoReady(c, h, s0, s, homes, k, d, d) && Homes(c, homes) && Appended(s, s1, k)
    requires k + 1 < |s1.bufs| && |s1.thr| == 3 && s1.thr[2].op.Some? && s2 == Logged(s1, 2, k + 1)
    requires k + 1 < |s2.bufs| && |s2.thr| == 3
    requires Changed(s2, s3, 1, k, s2.bufs[k].(refcnt := 0, holder := None), s2.thr[1].refs - {k})
    requires Changed(s3, s', 2, k + 1, s3.bufs[k + 1].(refcnt := 0, holder := None), s3.thr[2].refs - {k + 1})
    requires ReachableBy(c, h, s')
    ensures Busy(c, h, s', homes, k + 2) && s'.bufs[k + 1].data == d
  {
    hide ReachableBy, Pristine, Buffers, Resting, Pinned, Unused;
    OverflowLogged(c, h, s0, s, homes, k, d, s1, s2);
    var b1 := Buf(ROOTDEV, homes[k], true, true, 0, None, d, false);
    var b2 := Buf(ROOTDEV, homes[k + 1], true, true, 0, None, d, false);
    assert s'.bufs == s0.bufs[k := b1][k + 1 := b2];
    PinnedIs(b1, homes[k]);
    PinnedIs(b2, homes[k + 1]);
    OverflowBufs(c, s0.bufs, homes, k, b1, b2);
    var thr1 := s0.thr[1 := Thread(s0.thr[1].op, s0.thr[1].mine + {homes[k]}, None, map[])];
    RestingNext(s0.thr, homes, k, 1);
    RestingNext(thr1, homes, k + 1, 2);
    assert map[k := Holding] - {k} == map[] && map[k + 1 := Holding] - {k + 1} == map[];
    assert s'.thr == thr1[2 := Thread(s0.thr[2].op, s0.thr[2].mine + {homes[k + 1]}, None, map[])];
    SamePristine(c, s0, s');
  }

  /** The state before the buffers are released. */
  lemma {:induction false} OverflowLogged(c: Config, h: Habit, s0: State, s: State, homes: seq<int>, k: nat, d: Block,
                                          s1: State, s2: State)
    requires TwoReady(c, h, s0, s, homes, k, d, d) && Homes(c, homes) && Appended(s, s1, k)
    requires k + 1 < |s1.bufs| && |s1.thr| == 3 && s1.thr[2].op.Some? && s2 == Logged(s1, 2, k + 1)
    ensures |s0.thr| == 3 && s2.lh == homes[..k + 2] && s2.disk == s0.disk && s2.durable == s0.durable
    ensures s2.phase == Quiet && !s2.boot && !s2.committing && s2.outstanding == 3
    ensures s2.bufs == s0.bufs[k := Buf(ROOTDEV, homes[k], true, true, 1, Some(1), d, false)]
                       [k + 1 := Buf(ROOTDEV, homes[k + 1], true, true, 1, Some(2), d, false)]
    ensures s2.thr == s0.thr[1 := Thread(s0.thr[1].op, s0.thr[1].mine + {homes[k]}, None, map[k := Holding])]
                      [2 := Thread(s0.thr[2].op, s0.thr[2].mine + {homes[k + 1]}, None, map[k + 1 := Holding])]
  {
    hide ReachableBy, Pristine, Buffers, Resting, BufShape;
    RestingRefs(s0.thr, s0.lh, 0);
    NotYet(c, homes, k, k);
    NotYet(c, homes, k, k + 1);
    assert homes[k + 1] != homes[k];
    assert homes[..k + 2] == homes[..k] + [homes[k]] + [homes[k + 1]];
  }

  lemma {:induction false} OverflowBufs(c: Config, bufs: seq<Buf>, homes: seq<int>, k: nat, b1: Buf, b2: Buf)
    requires Buffers(c, bufs, homes, k) && k + 1 < |homes| && k + 1 < |bufs|
    requires Pinned(b1, homes[k]) && Pinned(b2, homes[k + 1])
    ensures Buffers(c, bufs[k := b1][k + 1 := b2], homes, k + 2)
  {
    hide Pinned, Unused;
    BuffersNext(c, bufs, homes, k, b1);
    BuffersNext(c, bufs[k := b1], homes, k + 1, b2);
  }

  // The commit

  /** write_log has copied `tail` blocks; the last logged block holds `d`. */
  ghost predicate Copying(c: Config, h: Habit, s: State, homes: seq<int>, tail: nat, d: Block) {
    && ReachableBy(c, h, s) && Shaped(c, s) && Pristine(c, s)
    && s.phase == CopyLog(tail) && s.worker == 2 && s.lh == homes && tail < |homes| == c.l.size < |s.bufs|
    && |s.thr| == 3 && (forall t :: 0 <= t < 3 ==> s.thr[t].passed == None && s.thr[t].refs == map[])
    && CopyBufs(c, s.bufs, homes, tail) && s.bufs[|homes| - 1].data == d
  }

  /** The logged blocks are pinned; what else is in the cache are log blocks that have been copied. */
  ghost predicate CopyBufs(c: Config, bufs: seq<Buf>, homes: seq<int>, tail: nat) {
    && |homes| <= |bufs|
    && (forall j :: 0 <= j < |homes| ==> Pinned(bufs[j], homes[j]))
    && (forall i :: |homes| <= i < |bufs| ==>
        Unused(bufs[i]) && (bufs[i].dev == ROOTDEV ==> c.l.start <= bufs[i].bno <= c.l.start + tail))
  }

  /** end_op of all three calls starts the commit. */
  lemma {:induction false} ThreeEnds(c: Config, h: Habit, s: State, homes: seq<int>, d: Block) returns (s': State)
    requires Busy(c, h, s, homes, |homes|) && Plain(h) && |homes| == c.l.size >= 1 && c.l.size < c.nbuf
    requires |s.bufs| == c.nbuf && s.bufs[|homes| - 1].data == d
    ensures Copying(c, h, s', homes, 0, d)
  {
    hide ReachableBy, Pristine;
    assert homes[..|homes|] == homes;
    NoneChanged(c, s.bufs, homes);
    var s1 := TwoEnds(c, h, s);
    ReachableMore(c, h, s1, EndOp(2));
    s' := Next(c, s1, EndOp(2));
    assert Pristine(c, s') by { SamePristine(c, s, s'); }
  }

  lemma {:induction false} TwoEnds(c: Config, h: Habit, s: State) returns (s': State)
    requires ReachableBy(c, h, s) && Shaped(c, s) && Plain(h) && |s.thr| == 3 && s.outstanding == 3 && !s.committing
    requires forall t :: 0 <= t < 3 ==> s.thr[t].op.Some? && s.thr[t].passed == None
    requires forall i :: 0 <= i < |s.bufs| ==> !s.bufs[i].changed
    ensures ReachableBy(c, h, s') && Shaped(c, s')
    ensures s' == s.(outstanding := 1, thr := s.thr[0 := s.thr[0].(op := None, mine := {})]
                                              [1 := s.thr[1].(op := None, mine := {})])
  {
    hide ReachableBy;
    ReachableMore(c, h, s, EndOp(0));
    var s1 := Next(c, s, EndOp(0));
    ReachableMore(c, h, s1, EndOp(1));
    s' := Next(c, s1, EndOp(1));
  }

  lemma {:induction false} NoneChanged(c: Config, bufs: seq<Buf>, homes: seq<int>)
    requires Buffers(c, bufs, homes, |homes|)
    ensures forall i :: 0 <= i < |bufs| ==> !bufs[i].changed
  {
  }

  lemma SamePristine(c: Config, s: State, s': State)
    requires Pristine(c, s) && s'.disk == s.disk && s'.durable == s.durable
    ensures Pristine(c, s')
  {
  }

  lemma {:induction false} LogBlockNotCached(c: Config, h: Habit, s: State, homes: seq<int>, tail: nat, d: Block)
    requires Copying(c, h, s, homes, tail, d) && Homes(c, homes) && c.l.start + c.l.size !in homes
    ensures !Cached(s, c.l.start + 1 + tail)
  {
    hide ReachableBy, Pristine;
    var b := c.l.start + 1 + tail;
    forall i | 0 <= i < |s.bufs| ensures !(s.bufs[i].dev == ROOTDEV && s.bufs[i].bno == b) {
      if i < |homes| {
        assert Pinned(s.bufs[i], homes[i]) && c.l.Home(homes[i]) && homes[i] in homes;
      }
    }
  }

  /** The worker reads in the log block and takes the home block. */
  lemma {:induction false} CopyReady(c: Config, h: Habit, s: State, homes: seq<int>, tail: nat, d: Block)
    returns (s': State)
    requires Copying(c, h, s, homes, tail, d) && Homes(c, homes) && Plain(h)
    requires c.l.start + c.l.size < c.l.blocks && c.l.start + c.l.size !in homes
    ensures ReachableBy(c, h, s') && Shaped(c, s')
    ensures Loaded(s, s', |homes|, tail, c.l.start + 1 + tail)
  {
    hide ReachableBy, Pristine;
    LogBlockNotCached(c, h, s, homes, tail, d);
    var s1 := Fetch(c, h, s, 2, |homes|, c.l.start + 1 + tail);
    assert Pinned(s.bufs[tail], homes[tail]);
    s' := Take(c, h, s1, 2, tail);
    assert s'.thr[2].refs == map[|homes| := Holding, tail := Holding];
  }

  /** Buffer `n` holds log block `b` and buffer `j` its home block, both locked by thread 2. */
  ghost predicate Loaded(s: State, s': State, n: nat, j: nat, b: int) {
    && j < n < |s.bufs| && |s.thr| == 3 && 0 <= b < |s.disk|
    && s' == s.(bufs := s.bufs[n := Buf(ROOTDEV, b, true, false, 1, Some(2), s.disk[b], false)]
                        [j := s.bufs[j].(refcnt := 1, holder := Some(2))],
                thr := s.thr[2 := s.thr[2].(refs := map[n := Holding, j := Holding])])
  }

  /** One block of write_log. */
  lemma {:induction false} CopyOne(c: Config, h: Habit, s: State, homes: seq<int>, tail: nat, d: Block, s1: State)
    returns (s': State)
    requires Copying(c, h, s, homes, tail, d) && Plain(h) && Loaded(s, s1, |homes|, tail, c.l.start + 1 + tail)
    requires ReachableBy(c, h, s1) && Shaped(c, s1)
    ensures ReachableBy(c, h, s') && Shaped(c, s')
    ensures s' == Bwrite(s1, |homes|, s.bufs[tail].data, CopyLog(tail + 1))
  {
    hide ReachableBy, Pristine;
    assert Pinned(s.bufs[tail], homes[tail]);
    var x := CopyBlock(|homes|, tail);
    ReachableMore(c, h, s1, x);
    s' := Next(c, s1, x);
  }

  /** While the block is one of the log's, nothing is lost, and write_log goes on. */
  lemma {:induction false} CopyNext(c: Config, h: Habit, s: State, homes: seq<int>, tail: nat, d: Block)
    returns (s': State)
    requires Copying(c, h, s, homes, tail, d) && Homes(c, homes) && Plain(h) && tail + 1 < |homes|
    requires c.l.start + c.l.size < c.l.blocks && c.l.start + c.l.size !in homes
    ensures Copying(c, h, s', homes, tail + 1, d)
  {
    hide ReachableBy, Pristine, Copying, Loaded, Bwrite, Shaped, CopyBufs;
    var s1 := CopyReady(c, h, s, homes, tail, d);
    LoadedParts(c, s, s1, |homes|, tail, c.l.start + 1 + tail);
    var s2 := CopyOne(c, h, s, homes, tail, d, s1);
    CopyHeld(c, h, s, homes, tail, d, s1, s2);
    var s3 := Drop(c, h, s2, 2, |homes|);
    CopyHeld2(c, s2, s3, |homes|, tail);
    s' := Drop(c, h, s3, 2, tail);
    CopyAfter(c, h, s, homes, tail, d, s1, s2, s3, s');
  }

  lemma LoadedParts(c: Config, s: State, s1: State, n: nat, j: nat, b: int)
    requires Loaded(s, s1, n, j, b)
    ensures n < |s1.bufs| && 0 <= s1.bufs[n].bno < |s1.disk|
  {
  }

  lemma {:induction false} CopyHeld(c: Config, h: Habit, s: State, homes: seq<int>, tail: nat, d: Block, s1: State,
                                    s2: State)
    requires Copying(c, h, s, homes, tail, d) && Loaded(s, s1, |homes|, tail, c.l.start + 1 + tail)
    requires |homes| < |s1.bufs| && 0 <= s1.bufs[|homes|].bno < |s1.disk|
    requires s2 == Bwrite(s1, |homes|, s.bufs[tail].data, CopyLog(tail + 1))
    ensures |s2.thr| == 3 && Ready(s2, 2) && Holds(s2, 2, |homes|) && s2.bufs[|homes|].refcnt == 1
    ensures !s2.bufs[|homes|].changed
    ensures Holds(s2, 2, tail) && s2.bufs[tail].refcnt == 1 && !s2.bufs[tail].changed && tail < |homes|
  {
    hide ReachableBy, Pristine;
    assert Pinned(s.bufs[tail], homes[tail]);
  }

  lemma {:induction false} CopyHeld2(c: Config, s2: State, s3: State, n: nat, j: nat)
    requires Shaped(c, s2) && Ready(s2, 2) && Holds(s2, 2, n) && Holds(s2, 2, j) && j != n
    requires s2.bufs[j].refcnt == 1 && !s2.bufs[j].changed
    requires Changed(s2, s3, 2, n, s2.bufs[n].(refcnt := 0, holder := None), s2.thr[2].refs - {n})
    ensures Shaped(c, s3) && Ready(s3, 2) && Holds(s3, 2, j) && s3.bufs[j].refcnt == 1 && !s3.bufs[j].changed
  {
  }

  lemma {:induction false} CopyAfter(c: Config, h: Habit, s: State, homes: seq<int>, tail: nat, d: Block,
                                     s1: State, s2: State, s3: State, s': State)
    requires Copying(c, h, s, homes, tail, d) && Homes(c, homes) && tail + 1 < |homes|
    requires Loaded(s, s1, |homes|, tail, c.l.start + 1 + tail)
    requires |homes| < |s1.bufs| && 0 <= s1.bufs[|homes|].bno < |s1.disk|
    requires s2 == Bwrite(s1, |homes|, s.bufs[tail].data, CopyLog(tail + 1)) && |s2.thr| == 3
    requires |homes| < |s2.bufs|
    requires Changed(s2, s3, 2, |homes|, s2.bufs[|homes|].(refcnt := 0, holder := None), s2.thr[2].refs - {|homes|})
    requires tail < |s3.bufs| && |s3.thr| == 3
    requires Changed(s3, s', 2, tail, s3.bufs[tail].(refcnt := 0, holder := None), s3.thr[2].refs - {tail})
    requires ReachableBy(c, h, s')
    ensures Copying(c, h, s', homes, tail + 1, d)
  {
    hide ReachableBy, Header;
    var n, b := |homes|, c.l.start + 1 + tail;
    assert Pinned(s.bufs[tail], homes[tail]);
    assert s'.thr == s.thr[2 := s.thr[2].(refs := map[])] by {
      assert map[n := Holding, tail := Holding] - {n} - {tail} == map[];
    }
    assert s'.bufs == s.bufs[n := Buf(ROOTDEV, b, true, false, 0, None, s.bufs[tail].data, false)];
    StillUncommitted(c, s.disk, c.base, b, s.bufs[tail].data);
  }

  lemma {:induction false} CopyUntil(c: Config, h: Habit, s: State, homes: seq<int>, tail: nat, d: Block)
    returns (s': State)
    requires Copying(c, h, s, homes, tail, d) && Homes(c, homes) && Plain(h)
    requires c.l.start + c.l.size < c.l.blocks && c.l.start + c.l.size !in homes
    ensures Copying(c, h, s', homes, |homes| - 1, d)
    decreases |homes| - tail
  {
    hide ReachableBy, Pristine;
    if tail == |homes| - 1 {
      s' := s;
    } else {
      var s1 := CopyNext(c, h, s, homes, tail, d);
      s' := CopyUntil(c, h, s1, homes, tail + 1, d);
    }
  }

  /** The last block goes behind the log, over a block that has not been committed. */
  lemma {:induction false} LastTears(c: Config, h: Habit, s: State, homes: seq<int>, d: Block)
    requires homes != [] && Copying(c, h, s, homes, |homes| - 1, d) && Homes(c, homes) && Plain(h)
    requires c.l.start + c.l.size < c.l.blocks && c.l.start + c.l.size !in homes && d != c.base[c.l.start + c.l.size]
    ensures CanTear(c, h)
  {
    hide ReachableBy, Recovered;
    var tail := |homes| - 1;
    var s1 := CopyReady(c, h, s, homes, tail, d);
    var s2 := CopyOne(c, h, s, homes, tail, d, s1);
    var b := c.l.start + c.l.size;
    TornBlock(c, s, s2.disk, b, d);
    assert s2.hist[..s2.durable] == [];
    assert Torn(c, s2);
  }

  lemma {:induction false} TornBlock(c: Config, s: State, disk: Disk, b: int, d: Block)
    requires Pristine(c, s) && c.l.Home(b) && disk == s.disk[b := d] && d != c.base[b]
    ensures DiskOk(c.l, disk) && !SameHome(c.l, Recovered(c.l, disk), c.base)
  {
    var r := Recovered(c.l, disk);
    assert Header(disk[c.l.start]) == [];
    assert r[b] == d;
  }

  /** In a log shorter than the cache, some run of calls that stop at their reservation is torn by a crash. */
  lemma {:induction false} TearReachable(c: Config, homes: seq<int>, d: Block)
    requires c.l.Valid() && |c.base| == c.l.blocks && 2 <= c.l.size <= LOGSIZE && c.l.size < c.nbuf
    requires Homes(c, homes) && |homes| == c.l.size && c.l.start + c.l.size < c.l.blocks
    requires c.l.start + c.l.size !in homes && d != c.base[c.l.start + c.l.size]
    ensures CanTear(c, Sparing)
  {
    hide ReachableBy, Busy, TwoReady, CanTear, Copying, Share;
    var h, k := Sparing, c.l.size - 2;
    var s0 := BusyStart(c, h, homes);
    var s1 := BusyUntil(c, h, s0, homes, 0, k);
    SpareBoth(s1.thr, k);
    BusySize(c, h, s1, homes, k);
    var s2 := TwoPrepare(c, h, s1, homes, k, d, d);
    var s3 := OverflowDone(c, h, s1, s2, homes, k, d);
    BusySize(c, h, s3, homes, k + 2);
    var s4 := ThreeEnds(c, h, s3, homes, d);
    var s5 := CopyUntil(c, h, s4, homes, 0, d);
    LastTears(c, h, s5, homes, d);
  }

  lemma SpareBoth(thr: seq<Thread>, k: nat)
    requires Shares(Sparing, thr, k) && k <= 28
    ensures |thr| == 3 && |thr[1].mine| < MAXOPBLOCKS && |thr[2].mine| < MAXOPBLOCKS
  {
  }

  lemma BusySize(c: Config, h: Habit, s: State, homes: seq<int>, k: nat)
    requires Busy(c, h, s, homes, k)
    ensures |s.bufs| == c.nbuf
  {
  }

  /**
   Exactly when crashes are always harmless, for a log of at most LOGSIZE blocks
   with a block behind it and a cache of at most LOGSIZE buffers: when the cache
   has no more buffers than the log has blocks. It makes no difference whether
   calls stop at their reservation or not.
   */
  lemma {:induction false} ExactlyAtomic(c: Config, homes: seq<int>)
    requires c.l.Valid() && |c.base| == c.l.blocks && 2 <= c.l.size && c.nbuf <= LOGSIZE
    requires Homes(c, homes) && |homes| == c.l.size && c.l.start + c.l.size < c.l.blocks
    requires c.l.start + c.l.size !in homes
    ensures !CanTear(c, Any) <==> c.nbuf <= c.l.size
    ensures !CanTear(c, Sparing) <==> c.nbuf <= c.l.size
  {
    hide ReachableBy, Torn;
    if c.nbuf <= c.l.size {
      forall s, h | Plain(h) && ReachableBy(c, h, s) ensures !Torn(c, s) {
        PlainIsAny(c, h, s);
        NeverTorn(c, s);
      }
    } else {
      var b := c.base[c.l.start + c.l.size];
      var d: Block := b[0 := b[0] + 1];
      assert d[0] != b[0];
      TearReachable(c, homes, d);
      var s :| ReachableBy(c, Sparing, s) && Torn(c, s);
      PlainIsAny(c, Sparing, s);
    }
  }

  lemma {:induction false} NeverTorn(c: Config, s: State)
    requires ReachableBy(c, Any, s) && Tight(c)
    ensures !Torn(c, s)
  {
    hide ReachableBy, Recovered;
    AlwaysAtomic(c, s);
  }

  lemma {:induction false} PlainIsAny(c: Config, h: Habit, s: State)
    requires ReachableBy(c, h, s)
    ensures ReachableBy(c, Any, s)
  {
    hide Reaches;
    var s0, xs :| Init(c, s0) && Reaches(c, h, s0, xs, s);
    ReachesAny(c, h, s0, xs, s);
  }

  lemma {:induction false} ReachesAny(c: Config, h: Habit, s: State, xs: seq<Step>, s': State)
    requires Reaches(c, h, s, xs, s')
    ensures Reaches(c, Any, s, xs, s')
    decreases |xs|
  {
    hide Next, May, Panics;
    if xs != [] {
      ReachesAny(c, h, Next(c, s, xs[0]), xs[1..], s');
    }
  }
}
