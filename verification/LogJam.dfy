/**
 Crash safety of every run whatever, on a cache of no more buffers than the log
 has blocks and the header entries (the NBUF = LOGSIZE buffers of param.h over
 the log of LOGSIZE blocks that mkfs makes are an example). When calls that pass
 log_write's test together append one block too many, every buffer is pinned by
 a logged block: commit finds no buffer to read a log block into, and nothing
 reaches the disk any more.
 */
module LogJam {
  import opened Basics
  import opened Counting
  import opened BlockLog
  import opened LogSystem
  import opened LogInvariant
  import opened LogSafety
  import opened LogTheorems
  import opened LogSpace
  import opened Sums

  /** The size of the cache for which an overflowing header is harmless. */
  predicate Tight(c: Config) { c.nbuf <= LOGSIZE && c.nbuf <= c.l.size && 2 <= c.l.size }

  /** Every buffer holds a logged block, and nothing has been committed since. */
  ghost predicate Jam(c: Config, s: State) {
    && c.l.size >= 2 && s.worker < |s.thr| && s.bufs != [] && s.lh != [] && Distinct(s.lh)
    && PhaseOk(s.phase, s.boot, s.committing, s.outstanding, s.lh) && (s.phase == Quiet || s.phase == CopyLog(0))
    && DiskShape(c, s.disk) && s.durable <= |s.hist| && Uncommitted(c, s.disk, Store(c.base, s.hist[..s.durable]))
    && BufInv(c, s.bufs, s.thr, s.disk, Store(c.base, s.hist), s.lh, false) && !s.boot
    && CallInv(c, s.thr, s.outstanding, s.lh, s.hist, s.durable, s.nextOp)
    && AllDirty(s.bufs)
  }

  predicate AllDirty(bufs: seq<Buf>) { forall i :: 0 <= i < |bufs| ==> bufs[i].dirty }

  /** As many logged blocks as buffers pin every buffer. */
  lemma {:induction false} AllPinned(bufs: seq<Buf>, lh: seq<int>)
    requires |lh| == |bufs| && Distinct(lh) && forall b :: b in lh ==> exists j :: Pins(bufs, j, b)
    ensures AllDirty(bufs)
  {
    var at := PinsOf(bufs, lh, |lh|);
    assert Distinct(at) by {
      forall j, k | 0 <= j < k < |at| ensures at[j] != at[k] {
        assert bufs[at[j]].bno == lh[j];
      }
    }
    CardElems(at);
    CardRange(0, |bufs|);
    var rest := Range(0, |bufs|) - Elems(at);
    assert Elems(at) + rest == Range(0, |bufs|);
    assert rest == {};
    forall i: nat | i < |bufs| ensures bufs[i].dirty {
      assert i in Elems(at);
    }
  }

  /** The append that finds no room pins the last buffer. */
  lemma {:induction false} OverflowJams(c: Config, s: State, x: Step)
    requires CanLog(s, x)
    requires Inv(c, s) && May(c, s, x) && !Room(c, s, x) && Tight(c) && |s.bufs| == c.nbuf
    ensures Jam(c, Logged(s, x.t, x.i))
  {
    hide BufInv, CallInv, DiskCur, Store, Absorb, Distinct;
    InCall(c, s, x.t);
    StepLogWriteBufs(c, s, x);
    StepLogWriteCalls(c, s, x);
    var s' := Logged(s, x.t, x.i);
    JamRest(c, s, x);
    PinnedAll(c, s'.bufs, s'.thr, s'.disk, Store(c.base, s'.hist), s'.lh);
  }

  lemma {:induction false} PinnedAll(c: Config, bufs: seq<Buf>, thr: seq<Thread>, disk: Disk, cur: Disk, lh: seq<int>)
    requires |disk| == |cur| == c.l.blocks && BufInv(c, bufs, thr, disk, cur, lh, false)
    requires Distinct(lh) && |lh| == |bufs|
    ensures AllDirty(bufs)
  {
    hide CacheOk, CountOk, OwnOk, ChangedOk, ContentOk, Distinct, Pins;
    AllPinned(bufs, lh);
  }

  lemma {:induction false} JamRest(c: Config, s: State, x: Step)
    requires CanLog(s, x)
    requires Inv(c, s) && May(c, s, x) && !Room(c, s, x) && Tight(c) && |s.bufs| == c.nbuf && s.phase == Quiet
    requires !s.boot
    ensures var s' := Logged(s, x.t, x.i);
            && Distinct(s'.lh) && |s'.lh| == |s'.bufs| && s'.bufs != []
            && Uncommitted(c, s'.disk, Store(c.base, s'.hist[..s'.durable]))
  {
    hide CallInv, DiskCur, Store, CacheOk, CountOk, OwnOk, ChangedOk, ContentOk, Distinct, Pins, Absorb;
    var s' := Logged(s, x.t, x.i);
    assert s'.hist[..s'.durable] == s.hist[..s.durable];
    LoggedFit(s.bufs, s.lh, x.i);
    AbsorbNew(s.lh, s.bufs[x.i].bno);
  }

  lemma AbsorbNew(lh: seq<int>, b: int)
    requires b !in lh
    ensures |Absorb(lh, b)| == |lh| + 1
  {
  }

  // What can still happen

  lemma {:induction false} JamTouch(c: Config, s: State, x: Step)
    requires Jam(c, s) && OnBuffer(x) && May(c, s, x)
    ensures Jam(c, Touch(s, x.i, NewBuf(c, s, x), x.t, NewRefs(c, s, x)))
  {
    hide NewBuf, NewRefs, BufInv, CallInv, Store, Distinct;
    var cur := Store(c.base, s.hist);
    assert 0 <= s.bufs[x.i].bno < |s.disk| by { JamShaped(c, s); }
    assert CacheInv(c, s, cur, s.lh);
    StepFits(c, s, cur, s.lh, x);
    TouchBufs(c, s.bufs, s.thr, s.disk, cur, s.lh, false, x.i, NewBuf(c, s, x), x.t, NewRefs(c, s, x));
    RefsFrame(c, s.thr, s.outstanding, s.lh, s.hist, s.durable, s.nextOp, x.t, NewRefs(c, s, x));
  }

  lemma {:induction false} JamShaped(c: Config, s: State)
    requires Jam(c, s)
    ensures c.l.Valid() && |s.disk| == c.l.blocks && BufShape(c, s.bufs)
    ensures forall i :: 0 <= i < |s.bufs| ==> c.l.Home(s.bufs[i].bno) && s.bufs[i].bno in s.lh
  {
  }

  lemma {:induction false} JamBegin(c: Config, s: State, x: Step)
    requires Jam(c, s) && x.BeginOp? && May(c, s, x)
    ensures Jam(c, Began(s, x.t))
  {
    hide BufInv, CallInv, Store, Distinct;
    OpFrame(c, s.bufs, s.thr, s.disk, Store(c.base, s.hist), s.lh, false, x.t,
            s.thr[x.t].(op := Some(s.nextOp), mine := {}));
    BeginCalls(c, s.thr, s.outstanding, s.lh, s.hist, s.durable, s.nextOp, x.t);
  }

  lemma {:induction false} JamTest(c: Config, s: State, x: Step)
    requires Jam(c, s) && x.LogTest? && May(c, s, x)
    ensures Jam(c, Passed(s, x.t, x.i))
  {
    hide BufInv, CallInv, Store, Distinct;
    OpFrame(c, s.bufs, s.thr, s.disk, Store(c.base, s.hist), s.lh, false, x.t, s.thr[x.t].(passed := Some(x.i)));
    TestCalls(c, s.thr, s.outstanding, s.lh, s.hist, s.durable, s.nextOp, x.t, x.i);
  }

  /** Whatever is logged now is absorbed. */
  lemma {:induction false} JamLog(c: Config, s: State, x: Step)
    requires CanLog(s, x)
    requires Jam(c, s) && x.LogWrite? && May(c, s, x)
    ensures Jam(c, Logged(s, x.t, x.i))
  {
    hide BufInv, CallInv, Store, Distinct;
    JamShaped(c, s);
    var s', e := Logged(s, x.t, x.i), Event(s.thr[x.t].op.value, s.bufs[x.i].bno, s.bufs[x.i].data);
    LogWriteBufs(c, s.bufs, s.thr, s.disk, Store(c.base, s.hist), s.lh, x.t, x.i);
    StoreAppend(c.base, s.hist, e);
    OpFrame(c, s'.bufs, s.thr, s.disk, Store(c.base, s'.hist), s'.lh, false, x.t, s'.thr[x.t]);
    LogWriteCalls(c, s.thr, s.outstanding, s.lh, s.hist, s.durable, s.nextOp, x.t, e);
    assert s'.hist[..s.durable] == s.hist[..s.durable];
  }

  lemma {:induction false} JamEnd(c: Config, s: State, x: Step)
    requires Jam(c, s) && x.EndOp? && May(c, s, x) && !Panics(c, s, x)
    ensures Jam(c, Ended(s, x.t))
  {
    hide BufInv, Store, Distinct, HistOk;
    assert Light(s);
    CallAlone(s, x.t);
    OpFrame(c, s.bufs, s.thr, s.disk, Store(c.base, s.hist), s.lh, false, x.t, s.thr[x.t].(op := None, mine := {}));
    EndCalls(c, s.thr, s.outstanding, s.lh, s.hist, s.durable, s.nextOp, x.t);
  }

  /** No log block is in the cache, and none can be brought in: commit does not move. */
  lemma {:induction false} JamStays(c: Config, s: State, x: Step)
    requires Jam(c, s) && May(c, s, x) && !Panics(c, s, x)
    ensures OnBuffer(x) || x.BeginOp? || x.LogTest? || x.LogWrite? || x.EndOp? || x.Crash?
  {
    hide BufInv, CallInv, Store, Distinct, Uncommitted;
    JamShaped(c, s);
  }

  lemma {:induction false} JamRecovers(c: Config, s: State)
    requires Jam(c, s)
    ensures s.durable <= |s.hist| && Recovers(c.l, s.disk, Store(c.base, s.hist[..s.durable]))
  {
    hide BufInv, CallInv, Store, Distinct, Recovers, Header;
    EmptyRecovers(c.l, s.disk, Store(c.base, s.hist[..s.durable]));
  }

  lemma {:induction false} JamCrash(c: Config, s: State, x: Step)
    requires Jam(c, s) && x.Crash? && May(c, s, x)
    ensures Inv(c, PowerOn(s.disk, |s.bufs|, |s.thr|, s.nextOp, s.hist[..s.durable]))
  {
    hide BufInv, Store, Distinct, Recovers, Header, Inv, PowerOn;
    JamRecovers(c, s);
    PowerOnInv(c, s.disk, |s.bufs|, |s.thr|, s.nextOp, s.hist[..s.durable]);
  }

  // Every run

  /** The log works, or it is jammed. */
  ghost predicate Whole(c: Config, s: State) {
    |s.bufs| == c.nbuf && (Inv(c, s) || Jam(c, s))
  }

  lemma {:induction false} StepJam(c: Config, s: State, x: Step)
    requires Jam(c, s) && c.l.Valid() && |s.disk| == c.l.blocks && BufShape(c, s.bufs)
    requires May(c, s, x) && !Panics(c, s, x)
    ensures var s' := Next(c, s, x); Inv(c, s') || Jam(c, s')
  {
    hide Jam, Inv, Touch, NewBuf, NewRefs, Began, Passed, Logged, Ended, PowerOn;
    JamStays(c, s, x);
    if OnBuffer(x) {
      JamTouch(c, s, x);
    } else if x.BeginOp? {
      JamBegin(c, s, x);
    } else if x.LogTest? {
      JamTest(c, s, x);
    } else if x.LogWrite? {
      JamLog(c, s, x);
    } else if x.EndOp? {
      JamEnd(c, s, x);
    } else {
      JamRecovers(c, s);
      JamCrash(c, s, x);
    }
  }

  lemma {:induction false} StepWhole(c: Config, s: State, x: Step)
    requires Whole(c, s) && c.l.Valid() && |s.disk| == c.l.blocks && BufShape(c, s.bufs)
    requires May(c, s, x) && !Panics(c, s, x) && Tight(c)
    ensures Whole(c, Next(c, s, x))
  {
    hide Jam, Inv, Next, Logged, Room;
    StepBuffers(c, s, x);
    if Jam(c, s) {
      StepJam(c, s, x);
    } else if Room(c, s, x) {
      StepInv(c, s, x);
    } else {
      OverflowStep(c, s, x);
    }
  }

  lemma {:induction false} OverflowStep(c: Config, s: State, x: Step)
    requires Inv(c, s) && c.l.Valid() && |s.disk| == c.l.blocks && BufShape(c, s.bufs)
    requires May(c, s, x) && !Panics(c, s, x) && !Room(c, s, x) && Tight(c) && |s.bufs| == c.nbuf
    ensures Jam(c, Next(c, s, x))
  {
    hide Jam, Inv, Logged;
    OverflowJams(c, s, x);
  }

  lemma {:induction false} RunWhole(c: Config, s: State, xs: seq<Step>, s': State)
    requires Whole(c, s) && Reaches(c, Any, s, xs, s') && Tight(c)
    ensures Whole(c, s')
    decreases |xs|
  {
    hide Whole, Next, May, Panics;
    if xs != [] {
      StepWhole(c, s, xs[0]);
      RunWhole(c, Next(c, s, xs[0]), xs[1..], s');
    }
  }

  lemma {:induction false} AllWhole(c: Config, s: State)
    requires ReachableBy(c, Any, s) && Tight(c)
    ensures Whole(c, s)
  {
    hide Reaches, Inv, Jam, Light, SpaceOk;
    var s0, xs :| Init(c, s0) && Reaches(c, Any, s0, xs, s);
    InitLight(c, s0);
    InitInv(c, s0);
    RunWhole(c, s0, xs, s);
  }

  /**
   Crash atomicity of every run whatever: what recovery yields is exactly what
   the committed log_write calls describe, and no system call is split.
   */
  lemma {:induction false} AlwaysAtomic(c: Config, s: State)
    requires ReachableBy(c, Any, s) && Tight(c)
    ensures s.durable <= |s.hist| && DiskOk(c.l, s.disk)
    ensures SameHome(c.l, Recovered(c.l, s.disk), Store(c.base, s.hist[..s.durable]))
    ensures forall i, j :: 0 <= i < s.durable <= j < |s.hist| ==> s.hist[i].op != s.hist[j].op
  {
    hide ReachableBy, Recovered, BufInv, DurOk, DiskCur, Store;
    AllWhole(c, s);
    if Jam(c, s) {
      JamRecovers(c, s);
    } else {
      DurableOnDisk(c, s);
    }
    RecoveredRecovers(c.l, s.disk, Store(c.base, s.hist[..s.durable]));
    forall i, j | 0 <= i < s.durable <= j < |s.hist| ensures s.hist[i].op != s.hist[j].op {
      assert NoneBy(s.hist[j].op, s.hist, s.durable);
    }
  }

  lemma {:induction false} WholeDurable(c: Config, s: State, x: Step)
    requires Whole(c, s) && c.l.Valid() && |s.disk| == c.l.blocks && BufShape(c, s.bufs)
    requires May(c, s, x) && !Panics(c, s, x)
    ensures s.durable <= |s.hist|
    ensures var s' := Next(c, s, x); s'.durable <= |s'.hist| && Durable(s) <= Durable(s')
  {
    hide BufInv, CallInv, DurOk, DiskCur, PutHeader, Header, NewBuf, NewRefs, Distinct, Uncommitted;
  }

  /** Durability of every run whatever: what is committed stays committed. */
  lemma {:induction false} AlwaysDurable(c: Config, s: State, xs: seq<Step>, s': State)
    requires Whole(c, s) && Tight(c) && Reaches(c, Any, s, xs, s')
    ensures s.durable <= |s.hist| && s'.durable <= |s'.hist| && Durable(s) <= Durable(s')
    decreases |xs|
  {
    hide Next, May, Panics, Inv, Jam;
    if xs != [] {
      WholeDurable(c, s, xs[0]);
      StepWhole(c, s, xs[0]);
      AlwaysDurable(c, Next(c, s, xs[0]), xs[1..], s');
    } else {
      WholeCount(c, s);
    }
  }

  lemma WholeCount(c: Config, s: State)
    requires Whole(c, s)
    ensures s.durable <= |s.hist|
  {
  }

  /** The last end_op of every run whatever commits, unless the log is jammed, and then the commit is still going on. */
  lemma {:induction false} AlwaysEnded(c: Config, s: State)
    requires ReachableBy(c, Any, s) && Tight(c) && !s.boot && s.phase == Quiet && Still(s)
    ensures s.lh == [] && s.durable == |s.hist|
  {
    hide BufInv, DiskCur, HistOk, ReachableBy, Distinct;
    AllWhole(c, s);
    StillCount(s.thr);
  }

  /** Reads of every run whatever: a locked buffer its holder has not modified holds the newest logged contents. */
  lemma {:induction false} AlwaysNewest(c: Config, s: State, t: nat, i: nat)
    requires ReachableBy(c, Any, s) && Tight(c) && !s.boot
    requires Holds(s, t, i) && s.bufs[i].valid && !s.bufs[i].changed && c.l.Home(s.bufs[i].bno)
    ensures s.bufs[i].bno < |c.base| && s.bufs[i].data == Cur(c, s)[s.bufs[i].bno]
  {
    hide ReachableBy, CallInv, DurOk, Store;
    AllWhole(c, s);
    HeldRoot(s, t, i);
    if !Jam(c, s) && s.bufs[i].bno in Pending(c, s.disk, s.lh, s.phase) {
      var j :| Pins(s.bufs, j, s.bufs[i].bno);
      assert s.bufs[j].dev == ROOTDEV;
      assert i == j;
    }
  }

  /** Write-ahead and pinning in every run whatever. */
  lemma {:induction false} AlwaysAhead(c: Config, s: State)
    requires ReachableBy(c, Any, s) && Tight(c) && (s.phase == Quiet || s.phase.CopyLog?)
    ensures s.durable <= |s.hist| && SameHome(c.l, s.disk, Store(c.base, Durable(s)))
    ensures forall b :: b in s.lh <==> exists i :: Pins(s.bufs, i, b)
    ensures forall i, j, b :: Pins(s.bufs, i, b) && Pins(s.bufs, j, b) ==> i == j
  {
    hide ReachableBy, CallInv, CountOk, OwnOk, ChangedOk, ContentOk, Store;
    AllWhole(c, s);
  }

  /** The cache in every run whatever: one buffer for a block, counted users, one holder of a lock. */
  lemma {:induction false} AlwaysSound(c: Config, s: State)
    requires ReachableBy(c, Any, s) && Tight(c)
    ensures CacheOk(s.bufs)
    ensures forall i :: 0 <= i < |s.bufs| ==> s.bufs[i].refcnt == Sum(s.thr, RefBit(i))
    ensures forall t, u, i: nat :: InSection(s, t, i) && InSection(s, u, i) ==> t == u
  {
    hide ReachableBy, CallInv, ChangedOk, PinOk, ContentOk, DurOk, DiskCur, Store;
    AllWhole(c, s);
  }

  /** The log of mkfs under the cache of param.h. */
  lemma MkfsTight(base: Disk)
    ensures Tight(Config(Layout(2, LOGSIZE, 1000), base, NBUF))
  {
  }
}
