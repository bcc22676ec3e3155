/**
 The invariant of `LogSystem`: how the buffer cache, the in-memory log header,
 the disk and the system calls in progress fit together at every moment, and
 its preservation by the operations of bio.c.
 */
module LogInvariant {
  import opened Basics
  import opened BlockLog
  import opened LogSystem
  import opened Sums

  function RefBit(i: nat): Thread -> nat { (x: Thread) => if i in x.refs then 1 else 0 }

  function OpBit(): Thread -> nat { (x: Thread) => if x.op.Some? then 1 else 0 }

  /** The contents after all log_write calls, and after those of committed transactions. */
  ghost function Cur(c: Config, s: State): Disk { Store(c.base, s.hist) }

  ghost function Committed(c: Config, s: State): Disk
    requires s.durable <= |s.hist|
  {
    Store(c.base, s.hist[..s.durable])
  }

  ghost predicate DiskShape(c: Config, disk: Disk) {
    c.l.Valid() && |disk| == |c.base| == c.l.blocks && HeaderOk(disk[c.l.start])
  }

  ghost predicate BufShape(c: Config, bufs: seq<Buf>) {
    forall i :: 0 <= i < |bufs| ==> 0 <= bufs[i].bno < c.l.blocks
  }

  /** Home blocks whose newest contents are not on their home location yet. */
  ghost function Pending(c: Config, disk: Disk, lh: seq<int>, phase: Phase): seq<int>
    requires DiskShape(c, disk)
  {
    match phase
    case Quiet => lh
    case CopyLog(_) => lh
    case Install(k) => if k <= |lh| then lh[k..] else []
    case Finish => []
    case ReadHead => Header(disk[c.l.start])
  }

  /** At most one buffer per block. */
  ghost predicate CacheOk(bufs: seq<Buf>) {
    forall i, j :: (0 <= i < |bufs| && 0 <= j < |bufs| && bufs[i].dev == bufs[j].dev == ROOTDEV
                    && bufs[i].bno == bufs[j].bno)
                   ==> i == j
  }

  /** The reference count is the number of users. */
  ghost predicate CountOk(bufs: seq<Buf>, thr: seq<Thread>) {
    forall i :: 0 <= i < |bufs| ==> bufs[i].refcnt == Sum(thr, RefBit(i))
  }

  /** The holder of a buffer's sleep lock is one of its users, and the only one in the critical section. */
  ghost predicate OwnOk(bufs: seq<Buf>, thr: seq<Thread>) {
    && (forall i :: 0 <= i < |bufs| && bufs[i].holder.Some? ==>
          && bufs[i].holder.value < |thr| && i in thr[bufs[i].holder.value].refs
          && thr[bufs[i].holder.value].refs[i] == Holding)
    && (forall t, i: nat {:trigger i in thr[t].refs} :: 0 <= t < |thr| && i in thr[t].refs ==>
          && i < |bufs| && bufs[i].dev == ROOTDEV
          && (thr[t].refs[i] == Holding ==> bufs[i].holder == Some(t)))
  }

  ghost predicate ChangedOk(c: Config, bufs: seq<Buf>, thr: seq<Thread>) {
    forall i :: 0 <= i < |bufs| && bufs[i].changed ==>
      && bufs[i].holder.Some? && bufs[i].holder.value < |thr| && thr[bufs[i].holder.value].op.Some?
      && bufs[i].valid && bufs[i].dev == ROOTDEV && c.l.Home(bufs[i].bno)
  }

  predicate Pins(bufs: seq<Buf>, i: int, b: int) {
    0 <= i < |bufs| && bufs[i].dirty && bufs[i].bno == b
  }

  /** The dirty buffers are exactly the pending blocks. */
  ghost predicate PinOk(c: Config, bufs: seq<Buf>, pend: seq<int>, boot: bool) {
    && (forall i :: 0 <= i < |bufs| && bufs[i].dirty ==>
          && !boot && bufs[i].valid && bufs[i].dev == ROOTDEV
          && c.l.Home(bufs[i].bno) && bufs[i].bno in pend)
    && (!boot ==> forall b :: b in pend ==> exists i :: Pins(bufs, i, b))
  }

  ghost predicate ContentOk(bufs: seq<Buf>, disk: Disk, cur: Disk)
    requires |disk| == |cur| && forall i :: 0 <= i < |bufs| ==> 0 <= bufs[i].bno < |disk|
  {
    forall i :: 0 <= i < |bufs| && bufs[i].dev == ROOTDEV && bufs[i].valid && !bufs[i].changed ==>
      bufs[i].data == if bufs[i].dirty then cur[bufs[i].bno] else disk[bufs[i].bno]
  }

  ghost predicate DiskCur(c: Config, disk: Disk, cur: Disk, pend: seq<int>)
    requires |disk| == |cur| == c.l.blocks
  {
    forall b :: c.l.Home(b) && b !in pend ==> disk[b] == cur[b]
  }

  ghost predicate PhaseOk(phase: Phase, boot: bool, committing: bool, outstanding: int, lh: seq<int>) {
    && (boot ==> (phase == ReadHead || phase.Install?) && !committing)
    && (!boot ==> phase != ReadHead && (committing <==> phase != Quiet))
    && (phase != Quiet ==> outstanding == 0)
    && (phase == ReadHead || phase == Finish ==> lh == [])
    && (phase == Quiet && outstanding == 0 ==> lh == [])
    && (phase.CopyLog? || phase.Install? ==> phase.tail <= |lh|)
  }

  /** The first `k` log blocks hold the newest contents of the first `k` logged home blocks. */
  ghost predicate LogCopied(c: Config, disk: Disk, lh: seq<int>, cur: Disk, k: nat)
    requires DiskShape(c, disk) && LhOk(c.l, lh) && |cur| == c.l.blocks
  {
    forall i :: 0 <= i < k && i < |lh| ==> disk[c.l.start + 1 + i] == cur[lh[i]]
  }

  /** Before the commit point the home blocks are the committed contents. */
  ghost predicate Uncommitted(c: Config, disk: Disk, com: Disk)
    requires DiskShape(c, disk)
  {
    Header(disk[c.l.start]) == [] && SameHome(c.l, disk, com)
  }

  /** Where the commit point stands in each phase. */
  ghost predicate DurOk(c: Config, disk: Disk, lh: seq<int>, phase: Phase, hist: seq<Event>, durable: nat)
    requires DiskShape(c, disk) && LhOk(c.l, lh) && durable <= |hist|
  {
    match phase
    case Quiet =>
      && Uncommitted(c, disk, Store(c.base, hist[..durable]))
      && (forall j :: durable <= j < |hist| ==> hist[j].bno in lh)
    case CopyLog(k) =>
      && Uncommitted(c, disk, Store(c.base, hist[..durable]))
      && LogCopied(c, disk, lh, Store(c.base, hist), k)
    case Install(_) =>
      && Header(disk[c.l.start]) == lh && LogCopied(c, disk, lh, Store(c.base, hist), |lh|)
      && durable == |hist|
    case Finish =>
      Header(disk[c.l.start]) == [] && durable == |hist|
    case ReadHead =>
      Recovers(c.l, disk, Store(c.base, hist)) && durable == |hist|
  }

  /** `outstanding` counts the system calls in progress, and the blocks each of them has logged are in the header. */
  ghost predicate OpsOk(thr: seq<Thread>, outstanding: int, lh: seq<int>) {
    && outstanding == Sum(thr, OpBit())
    && (forall t :: 0 <= t < |thr| && thr[t].op.Some? ==> forall b :: b in thr[t].mine ==> b in lh)
  }

  /** No system call has log_write calls on both sides of the commit point. */
  ghost predicate HistOk(c: Config, hist: seq<Event>, durable: nat, thr: seq<Thread>, nextOp: nat)
    requires durable <= |hist|
  {
    && (forall j :: 0 <= j < |hist| ==> hist[j].op < nextOp && c.l.Home(hist[j].bno))
    && (forall t :: 0 <= t < |thr| && thr[t].op.Some? ==> thr[t].op.value < nextOp)
    && (forall t :: 0 <= t < |thr| && thr[t].op.Some? ==> NoneBy(thr[t].op.value, hist, durable))
    && (forall j :: durable <= j < |hist| ==> NoneBy(hist[j].op, hist, durable))
  }

  /** None of the first `k` log_write calls is by system call `op`. */
  ghost predicate NoneBy(op: nat, hist: seq<Event>, k: nat)
    requires k <= |hist|
  {
    forall j :: 0 <= j < k ==> hist[j].op != op
  }

  /** What holds of the buffer cache, given the blocks `pend` pinned in it and the newest contents `cur`. */
  ghost predicate BufInv(c: Config, bufs: seq<Buf>, thr: seq<Thread>, disk: Disk, cur: Disk, pend: seq<int>, boot: bool)
    requires |disk| == |cur| == c.l.blocks
  {
    && BufShape(c, bufs) && CacheOk(bufs) && CountOk(bufs, thr) && OwnOk(bufs, thr) && ChangedOk(c, bufs, thr)
    && PinOk(c, bufs, pend, boot) && ContentOk(bufs, disk, cur)
  }

  /** What holds of the disk, the in-memory header and the progress of commit or recovery. */
  ghost predicate LogInv(c: Config, disk: Disk, lh: seq<int>, phase: Phase, hist: seq<Event>, durable: nat) {
    && DiskShape(c, disk) && LhOk(c.l, lh) && durable <= |hist|
    && DiskCur(c, disk, Store(c.base, hist), Pending(c, disk, lh, phase))
    && DurOk(c, disk, lh, phase, hist, durable)
  }

  /** What holds of the system calls in progress. */
  ghost predicate CallInv(c: Config, thr: seq<Thread>, outstanding: int, lh: seq<int>,
                          hist: seq<Event>, durable: nat, nextOp: nat)
    requires durable <= |hist|
  {
    OpsOk(thr, outstanding, lh) && HistOk(c, hist, durable, thr, nextOp)
  }

  ghost predicate Inv(c: Config, s: State) {
    && s.worker < |s.thr|
    && PhaseOk(s.phase, s.boot, s.committing, s.outstanding, s.lh)
    && LogInv(c, s.disk, s.lh, s.phase, s.hist, s.durable)
    && BufInv(c, s.bufs, s.thr, s.disk, Store(c.base, s.hist), Pending(c, s.disk, s.lh, s.phase), s.boot)
    && CallInv(c, s.thr, s.outstanding, s.lh, s.hist, s.durable, s.nextOp)
  }

  // Runs

  ghost predicate Init(c: Config, s: State) {
    exists disk, nthr: nat :: InitFrom(c, s, disk, nthr)
  }

  /** Power-on with any disk whose log replays to `base`. */
  ghost predicate InitFrom(c: Config, s: State, disk: Disk, nthr: nat) {
    Recovers(c.l, disk, c.base) && nthr > 0 && s == PowerOn(disk, c.nbuf, nthr, 0, [])
  }

  lemma {:induction false} SumIdle(n: nat, f: Thread -> nat)
    requires f(IDLE) == 0
    ensures Sum(seq(n, _ => IDLE), f) == 0
  {
    SumZero(seq(n, _ => IDLE), f);
  }

  lemma {:induction false} PowerOnBufs(c: Config, nbuf: nat, nthr: nat, disk: Disk, cur: Disk, pend: seq<int>)
    requires c.l.Valid() && |disk| == |cur| == c.l.blocks
    ensures BufInv(c, seq(nbuf, _ => FREE_BUF), seq(nthr, _ => IDLE), disk, cur, pend, true)
  {
    forall i: nat | i < nbuf ensures Sum(seq(nthr, _ => IDLE), RefBit(i)) == 0 {
      SumIdle(nthr, RefBit(i));
    }
  }

  lemma {:induction false} PowerOnCalls(c: Config, nthr: nat, nextOp: nat, hist: seq<Event>)
    requires forall j :: 0 <= j < |hist| ==> hist[j].op < nextOp && c.l.Home(hist[j].bno)
    ensures CallInv(c, seq(nthr, _ => IDLE), 0, [], hist, |hist|, nextOp)
  {
    SumIdle(nthr, OpBit());
  }

  /** Power-on establishes the invariant whenever the disk replays to the history's contents. */
  lemma {:induction false} PowerOnInv(c: Config, disk: Disk, nbuf: nat, nthr: nat, nextOp: nat, hist: seq<Event>)
    requires Recovers(c.l, disk, Store(c.base, hist)) && nthr > 0
    requires forall j :: 0 <= j < |hist| ==> hist[j].op < nextOp && c.l.Home(hist[j].bno)
    ensures Inv(c, PowerOn(disk, nbuf, nthr, nextOp, hist))
  {
    PowerOnBufs(c, nbuf, nthr, disk, Store(c.base, hist), Header(disk[c.l.start]));
    PowerOnCalls(c, nthr, nextOp, hist);
  }

  // Steps that touch one buffer and the references of one thread

  lemma CacheUpdate(bufs: seq<Buf>, i: nat, nb: Buf)
    requires CacheOk(bufs) && i < |bufs|
    requires (nb.dev == bufs[i].dev && nb.bno == bufs[i].bno) ||
             forall j :: 0 <= j < |bufs| && bufs[j].dev == ROOTDEV ==> bufs[j].bno != nb.bno
    ensures CacheOk(bufs[i := nb])
  {
  }

  /** `nb` has the reference count and the holder that the new references of `t` call for. */
  ghost predicate RefFits(was: Buf, nb: Buf, had: map<nat, Use>, refs: map<nat, Use>, t: nat, i: nat) {
    && (forall j: nat :: j != i ==> (j in refs <==> j in had) && (j in refs ==> refs[j] == had[j]))
    && nb.refcnt == was.refcnt + (if i in refs then 1 else 0) - (if i in had then 1 else 0)
    && (nb.holder == Some(t) <==> i in refs && refs[i] == Holding)
    && (nb.holder == was.holder || (was.holder == None && nb.holder == Some(t))
        || (was.holder == Some(t) && nb.holder == None))
    && nb.dev == ROOTDEV
  }

  lemma {:induction false} CountUpdate(bufs: seq<Buf>, thr: seq<Thread>, i: nat, nb: Buf, t: nat, refs: map<nat, Use>)
    requires CountOk(bufs, thr) && i < |bufs| && t < |thr|
    requires RefFits(bufs[i], nb, thr[t].refs, refs, t, i)
    ensures CountOk(bufs[i := nb], thr[t := thr[t].(refs := refs)])
  {
    var x := thr[t].(refs := refs);
    forall j | 0 <= j < |bufs| ensures bufs[i := nb][j].refcnt == Sum(thr[t := x], RefBit(j)) {
      SumUpdate(thr, t, x, RefBit(j));
    }
  }

  lemma {:induction false} OwnUpdate(bufs: seq<Buf>, thr: seq<Thread>, i: nat, nb: Buf, t: nat, refs: map<nat, Use>)
    requires OwnOk(bufs, thr) && i < |bufs| && t < |thr|
    requires RefFits(bufs[i], nb, thr[t].refs, refs, t, i)
    ensures OwnOk(bufs[i := nb], thr[t := thr[t].(refs := refs)])
  {
  }

  /** A buffer nobody references is nobody's. */
  lemma {:induction false} FreeBuffer(bufs: seq<Buf>, thr: seq<Thread>, i: nat, t: nat)
    requires CountOk(bufs, thr) && OwnOk(bufs, thr) && i < |bufs| && bufs[i].refcnt == 0 && t < |thr|
    ensures bufs[i].holder == None && i !in thr[t].refs
  {
    SumZero(thr, RefBit(i));
    assert RefBit(i)(thr[t]) == 0;
  }

  lemma PinUpdate(c: Config, bufs: seq<Buf>, pend: seq<int>, boot: bool, i: nat, nb: Buf)
    requires PinOk(c, bufs, pend, boot) && i < |bufs| && nb.dirty == bufs[i].dirty
    requires nb.dirty ==> nb.bno == bufs[i].bno && nb.dev == bufs[i].dev && nb.valid
    ensures PinOk(c, bufs[i := nb], pend, boot)
  {
    assert forall b, j :: Pins(bufs, j, b) ==> Pins(bufs[i := nb], j, b);
  }

  /** Taking or dropping references leaves calls in progress and their budgets alone. */
  lemma {:induction false} RefsFrame(c: Config, thr: seq<Thread>, outstanding: int, lh: seq<int>,
                                     hist: seq<Event>, durable: nat, nextOp: nat, t: nat, refs: map<nat, Use>)
    requires durable <= |hist| && t < |thr| && CallInv(c, thr, outstanding, lh, hist, durable, nextOp)
    ensures CallInv(c, thr[t := thr[t].(refs := refs)], outstanding, lh, hist, durable, nextOp)
  {
    var x := thr[t].(refs := refs);
    SumUpdate(thr, t, x, OpBit());
  }

  /** Replacing buffer `i` by `nb` is harmless to the cache. */
  ghost predicate Fits(c: Config, bufs: seq<Buf>, thr: seq<Thread>, disk: Disk, cur: Disk, i: nat, nb: Buf, t: nat,
                       refs: map<nat, Use>)
    requires |disk| == |cur| == c.l.blocks && i < |bufs| && t < |thr|
  {
    var b := bufs[i];
    && 0 <= nb.bno < c.l.blocks
    && ((nb.dev == b.dev && nb.bno == b.bno)
        || forall j :: 0 <= j < |bufs| && bufs[j].dev == ROOTDEV ==> bufs[j].bno != nb.bno)
    && RefFits(b, nb, thr[t].refs, refs, t, i)
    && nb.dirty == b.dirty && (nb.dirty ==> nb.bno == b.bno && nb.dev == b.dev && nb.valid)
    && (nb.valid && !nb.changed ==> nb.data == if nb.dirty then cur[nb.bno] else disk[nb.bno])
    && (nb.changed ==> nb.holder.Some? && nb.holder.value < |thr| && thr[nb.holder.value].op.Some?
                       && nb.valid && c.l.Home(nb.bno))
  }

  lemma {:induction false} TouchBufs(c: Config, bufs: seq<Buf>, thr: seq<Thread>, disk: Disk, cur: Disk,
                                     pend: seq<int>, boot: bool, i: nat, nb: Buf, t: nat, refs: map<nat, Use>)
    requires |disk| == |cur| == c.l.blocks && i < |bufs| && t < |thr|
    requires BufInv(c, bufs, thr, disk, cur, pend, boot) && Fits(c, bufs, thr, disk, cur, i, nb, t, refs)
    ensures BufInv(c, bufs[i := nb], thr[t := thr[t].(refs := refs)], disk, cur, pend, boot)
  {
    hide CacheOk, CountOk, OwnOk, PinOk;
    CacheUpdate(bufs, i, nb);
    CountUpdate(bufs, thr, i, nb, t, refs);
    OwnUpdate(bufs, thr, i, nb, t, refs);
    PinUpdate(c, bufs, pend, boot, i, nb);
  }

  lemma {:induction false} TouchInv(c: Config, s: State, i: nat, nb: Buf, t: nat, refs: map<nat, Use>)
    requires Inv(c, s) && Slot(s, i) && Tid(s, t)
    requires Fits(c, s.bufs, s.thr, s.disk, Store(c.base, s.hist), i, nb, t, refs)
    ensures Inv(c, Touch(s, i, nb, t, refs))
  {
    TouchBufs(c, s.bufs, s.thr, s.disk, Store(c.base, s.hist), Pending(c, s.disk, s.lh, s.phase), s.boot, i, nb, t,
              refs);
    RefsFrame(c, s.thr, s.outstanding, s.lh, s.hist, s.durable, s.nextOp, t, refs);
  }

  // Each operation of bio.c fits

  ghost predicate CacheInv(c: Config, s: State, cur: Disk, pend: seq<int>) {
    |s.disk| == |cur| == c.l.blocks && BufInv(c, s.bufs, s.thr, s.disk, cur, pend, s.boot)
  }

  lemma {:induction false} FitsBgetHit(c: Config, s: State, cur: Disk, pend: seq<int>, x: Step)
    requires CacheInv(c, s, cur, pend) && x.BgetHit? && May(c, s, x)
    ensures Fits(c, s.bufs, s.thr, s.disk, cur, x.i, NewBuf(c, s, x), x.t, NewRefs(c, s, x))
  {
  }

  lemma {:induction false} FitsBgetRecycle(c: Config, s: State, cur: Disk, pend: seq<int>, x: Step)
    requires CacheInv(c, s, cur, pend) && x.BgetRecycle? && May(c, s, x)
    ensures Fits(c, s.bufs, s.thr, s.disk, cur, x.i, NewBuf(c, s, x), x.t, NewRefs(c, s, x))
  {
    FreeBuffer(s.bufs, s.thr, x.i, x.t);
  }

  lemma {:induction false} FitsLock(c: Config, s: State, cur: Disk, pend: seq<int>, x: Step)
    requires CacheInv(c, s, cur, pend) && x.Lock? && May(c, s, x)
    ensures Fits(c, s.bufs, s.thr, s.disk, cur, x.i, NewBuf(c, s, x), x.t, NewRefs(c, s, x))
  {
  }

  lemma {:induction false} FitsFill(c: Config, s: State, cur: Disk, pend: seq<int>, x: Step)
    requires CacheInv(c, s, cur, pend) && x.Fill? && May(c, s, x)
    ensures Fits(c, s.bufs, s.thr, s.disk, cur, x.i, NewBuf(c, s, x), x.t, NewRefs(c, s, x))
  {
  }

  lemma {:induction false} FitsModify(c: Config, s: State, cur: Disk, pend: seq<int>, x: Step)
    requires CacheInv(c, s, cur, pend) && x.Modify? && May(c, s, x)
    ensures Fits(c, s.bufs, s.thr, s.disk, cur, x.i, NewBuf(c, s, x), x.t, NewRefs(c, s, x))
  {
  }

  lemma {:induction false} FitsUnlock(c: Config, s: State, cur: Disk, pend: seq<int>, x: Step)
    requires CacheInv(c, s, cur, pend) && x.Unlock? && May(c, s, x)
    ensures Fits(c, s.bufs, s.thr, s.disk, cur, x.i, NewBuf(c, s, x), x.t, NewRefs(c, s, x))
  {
  }

  lemma {:induction false} FitsUnref(c: Config, s: State, cur: Disk, pend: seq<int>, x: Step)
    requires CacheInv(c, s, cur, pend) && x.Unref? && May(c, s, x)
    ensures Fits(c, s.bufs, s.thr, s.disk, cur, x.i, NewBuf(c, s, x), x.t, NewRefs(c, s, x))
  {
  }

  lemma {:induction false} StepFits(c: Config, s: State, cur: Disk, pend: seq<int>, x: Step)
    requires CacheInv(c, s, cur, pend) && OnBuffer(x) && May(c, s, x)
    ensures 0 <= s.bufs[x.i].bno < |s.disk|
    ensures Fits(c, s.bufs, s.thr, s.disk, cur, x.i, NewBuf(c, s, x), x.t, NewRefs(c, s, x))
  {
    hide Fits, NewBuf, NewRefs, CacheOk, CountOk, OwnOk, ChangedOk, PinOk, ContentOk;
    match x
    case BgetHit(_, _) => FitsBgetHit(c, s, cur, pend, x);
    case BgetRecycle(_, _, _) => FitsBgetRecycle(c, s, cur, pend, x);
    case Lock(_, _) => FitsLock(c, s, cur, pend, x);
    case Fill(_, _) => FitsFill(c, s, cur, pend, x);
    case Modify(_, _, _) => FitsModify(c, s, cur, pend, x);
    case Unlock(_, _) => FitsUnlock(c, s, cur, pend, x);
    case Unref(_, _) => FitsUnref(c, s, cur, pend, x);
  }
}
