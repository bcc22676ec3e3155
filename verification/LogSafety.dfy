/**
 Safety of the log and the buffer cache over every run of `LogSystem`:
 crash atomicity of whole system calls, agreement of the cache with the newest
 logged contents, pinning of uncommitted data, and freedom from log panics.
 */
module LogSafety {
  import opened Basics
  import opened BlockLog
  import opened LogSystem
  import opened LogInvariant
  import opened Sums

  // System calls

  /** With nothing outstanding, no thread is inside a system call. */
  lemma {:induction false} NoCalls(thr: seq<Thread>, t: nat)
    requires Sum(thr, OpBit()) == 0 && t < |thr|
    ensures thr[t].op == None
  {
    SumZero(thr, OpBit());
    assert OpBit()(thr[t]) == 0;
  }

  /** While a system call is in progress there is neither commit nor recovery. */
  lemma {:induction false} InCall(c: Config, s: State, t: nat)
    requires Inv(c, s) && t < |s.thr| && s.thr[t].op.Some?
    ensures s.phase == Quiet && !s.boot && !s.committing && s.outstanding >= 1
  {
    SumUpdate(s.thr, t, s.thr[t], OpBit());
  }

  /** Entering or leaving a system call is no business of the cache's. */
  lemma {:induction false} OpFrame(c: Config, bufs: seq<Buf>, thr: seq<Thread>, disk: Disk, cur: Disk,
                                   pend: seq<int>, boot: bool, t: nat, x: Thread)
    requires |disk| == |cur| == c.l.blocks && t < |thr| && x.refs == thr[t].refs
    requires BufInv(c, bufs, thr, disk, cur, pend, boot)
    requires x.op == None ==> forall i :: 0 <= i < |bufs| && bufs[i].holder == Some(t) ==> !bufs[i].changed
    ensures BufInv(c, bufs, thr[t := x], disk, cur, pend, boot)
  {
    forall i | 0 <= i < |bufs| ensures bufs[i].refcnt == Sum(thr[t := x], RefBit(i)) {
      SumUpdate(thr, t, x, RefBit(i));
    }
  }

  lemma {:induction false} BeginCalls(c: Config, thr: seq<Thread>, outstanding: int, lh: seq<int>,
                                      hist: seq<Event>, durable: nat, nextOp: nat, t: nat)
    requires durable <= |hist| && t < |thr| && thr[t].op == None
    requires CallInv(c, thr, outstanding, lh, hist, durable, nextOp)
    ensures CallInv(c, thr[t := thr[t].(op := Some(nextOp), mine := {})], outstanding + 1, lh, hist, durable,
                    nextOp + 1)
    ensures outstanding >= 0
  {
    var y := thr[t].(op := Some(nextOp), mine := {});
    SumUpdate(thr, t, y, OpBit());
  }

  lemma {:induction false} StepBeginOp(c: Config, s: State, x: Step)
    requires Inv(c, s) && x.BeginOp? && May(c, s, x)
    ensures Inv(c, Began(s, x.t))
  {
    hide BufInv, CallInv, DurOk, DiskCur, Store;
    OpFrame(c, s.bufs, s.thr, s.disk, Store(c.base, s.hist), Pending(c, s.disk, s.lh, s.phase), s.boot, x.t,
            s.thr[x.t].(op := Some(s.nextOp), mine := {}));
    BeginCalls(c, s.thr, s.outstanding, s.lh, s.hist, s.durable, s.nextOp, x.t);
  }

  lemma {:induction false} LogWriteCalls(c: Config, thr: seq<Thread>, outstanding: int, lh: seq<int>,
                                         hist: seq<Event>, durable: nat, nextOp: nat, t: nat, e: Event)
    requires durable <= |hist| && t < |thr| && thr[t].op == Some(e.op) && c.l.Home(e.bno)
    requires CallInv(c, thr, outstanding, lh, hist, durable, nextOp)
    ensures CallInv(c, thr[t := thr[t].(mine := thr[t].mine + {e.bno}, passed := None)], outstanding,
                    Absorb(lh, e.bno), hist + [e], durable, nextOp)
  {
    var y := thr[t].(mine := thr[t].mine + {e.bno}, passed := None);
    SumUpdate(thr, t, y, OpBit());
  }

  lemma {:induction false} LogWriteLog(c: Config, disk: Disk, lh: seq<int>, hist: seq<Event>, durable: nat, e: Event)
    requires LogInv(c, disk, lh, Quiet, hist, durable) && c.l.Home(e.bno)
    requires |Absorb(lh, e.bno)| <= LOGSIZE && |Absorb(lh, e.bno)| <= c.l.size - 1
    ensures LogInv(c, disk, Absorb(lh, e.bno), Quiet, hist + [e], durable)
  {
    hide Store, Header, Absorb, Distinct;
    StoreAppend(c.base, hist, e);
    assert (hist + [e])[..durable] == hist[..durable];
    AbsorbOk(c.l, lh, e.bno);
    var lh' := Absorb(lh, e.bno);
    forall j | durable <= j < |hist + [e]| ensures (hist + [e])[j].bno in lh' {
    }
  }

  lemma {:induction false} AbsorbOk(l: Layout, lh: seq<int>, b: int)
    requires LhOk(l, lh) && l.Home(b) && |Absorb(lh, b)| <= LOGSIZE && |Absorb(lh, b)| <= l.size - 1
    ensures LhOk(l, Absorb(lh, b))
  {
    hide Absorb;
    var lh' := Absorb(lh, b);
    forall k | 0 <= k < |lh'| ensures l.Home(lh'[k]) {
      assert lh'[k] in lh';
    }
  }

  lemma {:induction false} LogWriteBufs(c: Config, bufs: seq<Buf>, thr: seq<Thread>, disk: Disk, cur: Disk,
                                        lh: seq<int>, t: nat, i: nat)
    requires |disk| == |cur| == c.l.blocks && i < |bufs| && t < |thr|
    requires BufInv(c, bufs, thr, disk, cur, lh, false)
    requires bufs[i].dev == ROOTDEV && bufs[i].valid && c.l.Home(bufs[i].bno)
    ensures var nb := bufs[i].(dirty := true, changed := false);
            BufInv(c, bufs[i := nb], thr, disk, cur[bufs[i].bno := bufs[i].data], Absorb(lh, bufs[i].bno), false)
  {
    hide PinOk, Absorb, ContentOk;
    LogWritePins(c, bufs, lh, i);
    LogWriteContent(bufs, disk, cur, i);
  }

  /** The buffer is pinned now, and so are those that were. */
  lemma {:induction false} LogWritePins(c: Config, bufs: seq<Buf>, lh: seq<int>, i: nat)
    requires i < |bufs| && PinOk(c, bufs, lh, false) && bufs[i].dev == ROOTDEV && bufs[i].valid && c.l.Home(bufs[i].bno)
    ensures PinOk(c, bufs[i := bufs[i].(dirty := true, changed := false)], Absorb(lh, bufs[i].bno), false)
  {
    var nb := bufs[i].(dirty := true, changed := false);
    var bufs' := bufs[i := nb];
    assert Pins(bufs', i, nb.bno);
    assert forall b, j :: Pins(bufs, j, b) ==> Pins(bufs', j, b);
  }

  /** The newest contents of the block are those of its one buffer. */
  lemma {:induction false} LogWriteContent(bufs: seq<Buf>, disk: Disk, cur: Disk, i: nat)
    requires i < |bufs| && |disk| == |cur| && (forall j :: 0 <= j < |bufs| ==> 0 <= bufs[j].bno < |disk|)
    requires CacheOk(bufs) && ContentOk(bufs, disk, cur) && bufs[i].dev == ROOTDEV
    ensures ContentOk(bufs[i := bufs[i].(dirty := true, changed := false)], disk, cur[bufs[i].bno := bufs[i].data])
  {
  }

  /** The step is the append of some call in progress. */
  predicate CanLog(s: State, x: Step) {
    x.LogWrite? && Tid(s, x.t) && Slot(s, x.i) && s.thr[x.t].op.Some?
  }

  lemma {:induction false} StepLogWriteBufs(c: Config, s: State, x: Step)
    requires CanLog(s, x)
    requires Inv(c, s) && x.LogWrite? && May(c, s, x) && s.phase == Quiet && !s.boot
    ensures var s' := Logged(s, x.t, x.i);
            BufInv(c, s'.bufs, s'.thr, s.disk, Store(c.base, s'.hist), s'.lh, false)
  {
    hide CallInv, DurOk, DiskCur, Store, Absorb, BufInv;
    var s' := Logged(s, x.t, x.i);
    LogWriteBufs(c, s.bufs, s.thr, s.disk, Store(c.base, s.hist), s.lh, x.t, x.i);
    StoreAppend(c.base, s.hist, Event(s.thr[x.t].op.value, s.bufs[x.i].bno, s.bufs[x.i].data));
    OpFrame(c, s'.bufs, s.thr, s.disk, Store(c.base, s'.hist), s'.lh, false, x.t, s'.thr[x.t]);
  }

  lemma {:induction false} StepLogWriteCalls(c: Config, s: State, x: Step)
    requires CanLog(s, x)
    requires Inv(c, s) && x.LogWrite? && May(c, s, x) && s.phase == Quiet
    ensures var s' := Logged(s, x.t, x.i); CallInv(c, s'.thr, s'.outstanding, s'.lh, s'.hist, s'.durable, s'.nextOp)
  {
    hide BufInv, CallInv, DurOk, DiskCur, Absorb;
    var e := Event(s.thr[x.t].op.value, s.bufs[x.i].bno, s.bufs[x.i].data);
    LogWriteCalls(c, s.thr, s.outstanding, s.lh, s.hist, s.durable, s.nextOp, x.t, e);
  }

  lemma {:induction false} StepLogWriteLog(c: Config, s: State, x: Step)
    requires CanLog(s, x)
    requires Inv(c, s) && x.LogWrite? && May(c, s, x) && Room(c, s, x) && s.phase == Quiet
    ensures var s' := Logged(s, x.t, x.i); LogInv(c, s'.disk, s'.lh, Quiet, s'.hist, s'.durable)
  {
    hide BufInv, CallInv, DurOk, DiskCur, Store;
    var e := Event(s.thr[x.t].op.value, s.bufs[x.i].bno, s.bufs[x.i].data);
    LogWriteLog(c, s.disk, s.lh, s.hist, s.durable, e);
  }

  lemma {:induction false} StepLogWrite(c: Config, s: State, x: Step)
    requires CanLog(s, x)
    requires Inv(c, s) && x.LogWrite? && May(c, s, x) && Room(c, s, x)
    ensures Inv(c, Logged(s, x.t, x.i))
  {
    hide BufInv, CallInv, DurOk, DiskCur, Store, Absorb;
    InCall(c, s, x.t);
    StepLogWriteBufs(c, s, x);
    StepLogWriteCalls(c, s, x);
    StepLogWriteLog(c, s, x);
  }

  /** The test of log_write changes nothing that anyone else sees. */
  lemma {:induction false} StepLogTest(c: Config, s: State, x: Step)
    requires Inv(c, s) && x.LogTest? && May(c, s, x)
    ensures Inv(c, Passed(s, x.t, x.i))
  {
    hide BufInv, CallInv, DurOk, DiskCur, Store;
    var y := s.thr[x.t].(passed := Some(x.i));
    OpFrame(c, s.bufs, s.thr, s.disk, Store(c.base, s.hist), Pending(c, s.disk, s.lh, s.phase), s.boot, x.t, y);
    TestCalls(c, s.thr, s.outstanding, s.lh, s.hist, s.durable, s.nextOp, x.t, x.i);
  }

  lemma {:induction false} TestCalls(c: Config, thr: seq<Thread>, outstanding: int, lh: seq<int>,
                                     hist: seq<Event>, durable: nat, nextOp: nat, t: nat, i: nat)
    requires durable <= |hist| && t < |thr| && CallInv(c, thr, outstanding, lh, hist, durable, nextOp)
    ensures CallInv(c, thr[t := thr[t].(passed := Some(i))], outstanding, lh, hist, durable, nextOp)
  {
    SumUpdate(thr, t, thr[t].(passed := Some(i)), OpBit());
  }

  lemma {:induction false} EndCalls(c: Config, thr: seq<Thread>, outstanding: int, lh: seq<int>,
                                    hist: seq<Event>, durable: nat, nextOp: nat, t: nat)
    requires durable <= |hist| && t < |thr| && thr[t].op.Some?
    requires CallInv(c, thr, outstanding, lh, hist, durable, nextOp)
    ensures CallInv(c, thr[t := thr[t].(op := None, mine := {})], outstanding - 1, lh, hist, durable, nextOp)
  {
    var y := thr[t].(op := None, mine := {});
    SumUpdate(thr, t, y, OpBit());
  }

  lemma StartCommit(c: Config, disk: Disk, lh: seq<int>, hist: seq<Event>, durable: nat)
    requires LogInv(c, disk, lh, Quiet, hist, durable)
    ensures LogInv(c, disk, lh, CopyLog(0), hist, durable)
    ensures lh == [] ==> LogInv(c, disk, lh, Finish, hist, durable)
  {
    assert lh == [] ==> durable == |hist|;
  }

  lemma {:induction false} StepEndOp(c: Config, s: State, x: Step)
    requires Inv(c, s) && x.EndOp? && May(c, s, x) && !Panics(c, s, x)
    ensures Inv(c, Ended(s, x.t))
  {
    hide BufInv, CallInv, DurOk, DiskCur, Store;
    InCall(c, s, x.t);
    OpFrame(c, s.bufs, s.thr, s.disk, Store(c.base, s.hist), s.lh, s.boot, x.t,
            s.thr[x.t].(op := None, mine := {}));
    EndCalls(c, s.thr, s.outstanding, s.lh, s.hist, s.durable, s.nextOp, x.t);
    StartCommit(c, s.disk, s.lh, s.hist, s.durable);
  }

  // Commit and recovery

  /** Outside system calls a buffer somebody holds is not being modified. */
  lemma {:induction false} Unchanged(c: Config, s: State, i: nat)
    requires Inv(c, s) && Slot(s, i) && s.phase != Quiet
    ensures !s.bufs[i].changed
  {
    if s.bufs[i].changed {
      NoCalls(s.thr, s.bufs[i].holder.value);
      assert false;
    }
  }

  /** A clean buffer of the log area holds what is on disk. */
  lemma {:induction false} LogBuffer(c: Config, s: State, i: nat, b: int)
    requires Inv(c, s) && Has(s, i, b) && c.l.InLog(b) && s.phase != Quiet
    ensures s.bufs[i].data == s.disk[b] && !s.bufs[i].dirty && !s.bufs[i].changed
  {
    Unchanged(c, s, i);
  }

  /** The buffer of a pending block holds its newest contents. */
  lemma {:induction false} PinnedBuffer(c: Config, s: State, i: nat, b: int)
    requires Inv(c, s) && Has(s, i, b) && s.phase.CopyLog? && b in s.lh
    ensures s.bufs[i].data == Store(c.base, s.hist)[b]
  {
    Unchanged(c, s, i);
    var j :| Pins(s.bufs, j, b);
    assert s.bufs[j].dev == ROOTDEV;
    assert i == j;
  }

  lemma {:induction false} StepLoadHead(c: Config, s: State, x: Step)
    requires Inv(c, s) && x.LoadHead? && May(c, s, x)
    ensures Inv(c, Next(c, s, x))
  {
    hide BufInv, CallInv, DurOk, DiskCur;
    LogBuffer(c, s, x.i, c.l.start);
    LoadPoint(c, s.disk, s.hist, s.durable);
    CommitCalls(c, s.thr, s.outstanding, s.lh, Header(s.disk[c.l.start]), s.hist, s.durable, s.nextOp);
    assert Header(s.disk[c.l.start])[0..] == Header(s.disk[c.l.start]);
  }

  /** Reading the header at boot: what recovery has to install is what the disk says. */
  lemma {:induction false} LoadPoint(c: Config, disk: Disk, hist: seq<Event>, durable: nat)
    requires LogInv(c, disk, [], ReadHead, hist, durable)
    ensures LogInv(c, disk, Header(disk[c.l.start]), Install(0), hist, durable)
  {
    var lh := Header(disk[c.l.start]);
    assert lh[0..] == lh;
  }

  /** A write into the log area leaves the cache consistent. */
  lemma {:induction false} LogAreaWrite(c: Config, bufs: seq<Buf>, thr: seq<Thread>, disk: Disk, cur: Disk,
                                        pend: seq<int>, boot: bool, i: nat, data: Block)
    requires |disk| == |cur| == c.l.blocks && i < |bufs|
    requires BufInv(c, bufs, thr, disk, cur, pend, boot)
    requires bufs[i].dev == ROOTDEV && c.l.InLog(bufs[i].bno)
    ensures BufInv(c, bufs[i := bufs[i].(data := data, valid := true, dirty := false)], thr,
                   disk[bufs[i].bno := data], cur, pend, boot)
  {
    var bufs' := bufs[i := bufs[i].(data := data, valid := true, dirty := false)];
    assert !bufs[i].dirty;
    assert forall b, j :: Pins(bufs, j, b) ==> Pins(bufs', j, b);
  }

  lemma {:induction false} CopyLogStep(c: Config, disk: Disk, lh: seq<int>, k: nat, hist: seq<Event>, durable: nat)
    requires LogInv(c, disk, lh, CopyLog(k), hist, durable) && k < |lh|
    ensures LogInv(c, disk[c.l.start + 1 + k := Store(c.base, hist)[lh[k]]], lh, CopyLog(k + 1), hist, durable)
  {
    hide Store, Header, LogCopied, Uncommitted, Distinct;
    var cur := Store(c.base, hist);
    assert |lh| <= c.l.size - 1;
    CopiedNext(c, disk, lh, cur, k);
    StillUncommitted(c, disk, Store(c.base, hist[..durable]), c.l.start + 1 + k, cur[lh[k]]);
    StillCurrent(c, disk, cur, lh, c.l.start + 1 + k, cur[lh[k]]);
  }

  lemma {:induction false} CopiedNext(c: Config, disk: Disk, lh: seq<int>, cur: Disk, k: nat)
    requires DiskShape(c, disk) && LhOk(c.l, lh) && |cur| == c.l.blocks && LogCopied(c, disk, lh, cur, k) && k < |lh|
    ensures DiskShape(c, disk[c.l.start + 1 + k := cur[lh[k]]])
    ensures LogCopied(c, disk[c.l.start + 1 + k := cur[lh[k]]], lh, cur, k + 1)
  {
    hide Header, Distinct;
  }

  /** A write to a log block other than the header is no change of a home block. */
  lemma {:induction false} StillUncommitted(c: Config, disk: Disk, com: Disk, b: int, data: Block)
    requires DiskShape(c, disk) && Uncommitted(c, disk, com) && c.l.InLog(b) && b != c.l.start
    ensures Uncommitted(c, disk[b := data], com)
  {
    hide Header;
  }

  lemma {:induction false} StillCurrent(c: Config, disk: Disk, cur: Disk, pend: seq<int>, b: int, data: Block)
    requires |disk| == |cur| == c.l.blocks && c.l.Valid() && DiskCur(c, disk, cur, pend) && c.l.InLog(b)
    ensures DiskCur(c, disk[b := data], cur, pend)
  {
  }

  lemma {:induction false} StepCopyBlock(c: Config, s: State, x: Step)
    requires c.l.Valid() && |s.disk| == c.l.blocks && BufShape(c, s.bufs) && Inv(c, s) && x.CopyBlock? && May(c, s, x)
    ensures Inv(c, Bwrite(s, x.to, s.bufs[x.from].data, CopyLog(s.phase.tail + 1)))
  {
    hide BufInv, CallInv, DurOk, DiskCur, Store;
    PinnedBuffer(c, s, x.from, s.lh[s.phase.tail]);
    CopyInv(c, s, x.to, s.phase.tail);
  }

  lemma {:induction false} CopyInv(c: Config, s: State, to: nat, k: nat)
    requires Inv(c, s) && s.phase == CopyLog(k) && k < |s.lh| && Has(s, to, c.l.start + 1 + k)
    ensures Inv(c, Bwrite(s, to, Store(c.base, s.hist)[s.lh[k]], CopyLog(k + 1)))
  {
    hide BufInv, CallInv, DurOk, DiskCur, Store;
    CopyLogStep(c, s.disk, s.lh, k, s.hist, s.durable);
    LogAreaWrite(c, s.bufs, s.thr, s.disk, Store(c.base, s.hist), s.lh, s.boot, to, Store(c.base, s.hist)[s.lh[k]]);
  }

  /** Writing the header is the commit point: the whole history becomes durable in one disk write. */
  lemma {:induction false} CommitPoint(c: Config, disk: Disk, lh: seq<int>, hist: seq<Event>, durable: nat, h: Block)
    requires LogInv(c, disk, lh, CopyLog(|lh|), hist, durable) && HeaderOk(h) && Header(h) == lh
    ensures LogInv(c, disk[c.l.start := h], lh, Install(0), hist, |hist|)
  {
    assert lh[0..] == lh;
  }

  lemma {:induction false} StepCommitHead(c: Config, s: State, x: Step)
    requires c.l.Valid() && |s.disk| == c.l.blocks && BufShape(c, s.bufs) && Inv(c, s) && x.CommitHead? && May(c, s, x)
    ensures Inv(c, Bwrite(s, x.i, PutHeader(s.bufs[x.i].data, s.lh), Install(0)).(durable := |s.hist|))
  {
    hide BufInv, CallInv, DurOk, DiskCur, PutHeader, Store;
    var h := PutHeader(s.bufs[x.i].data, s.lh);
    CommitPoint(c, s.disk, s.lh, s.hist, s.durable, h);
    assert s.lh[0..] == s.lh;
    LogAreaWrite(c, s.bufs, s.thr, s.disk, Store(c.base, s.hist), s.lh, s.boot, x.i, h);
    CommitCalls(c, s.thr, s.outstanding, s.lh, s.lh, s.hist, s.durable, s.nextOp);
  }

  /** No system call is in progress during commit and recovery, so none is split by the commit point. */
  lemma {:induction false} CommitCalls(c: Config, thr: seq<Thread>, outstanding: int, lh: seq<int>, lh': seq<int>,
                                       hist: seq<Event>, durable: nat, nextOp: nat)
    requires durable <= |hist| && outstanding == 0 && CallInv(c, thr, outstanding, lh, hist, durable, nextOp)
    ensures CallInv(c, thr, outstanding, lh', hist, durable, nextOp)
    ensures CallInv(c, thr, outstanding, lh', hist, |hist|, nextOp)
  {
    forall t | 0 <= t < |thr| ensures thr[t].op == None {
      NoCalls(thr, t);
    }
  }

  lemma {:induction false} InstallStep(c: Config, disk: Disk, lh: seq<int>, k: nat, hist: seq<Event>, durable: nat)
    requires LogInv(c, disk, lh, Install(k), hist, durable) && k < |lh|
    ensures LogInv(c, disk[lh[k] := Store(c.base, hist)[lh[k]]], lh, Install(k + 1), hist, durable)
  {
    hide Store, Header, LogCopied, DiskCur;
    InstallKeeps(c, disk, lh, k, Store(c.base, hist));
  }

  /** Installing a home block leaves the log area alone and makes that block current. */
  lemma {:induction false} InstallKeeps(c: Config, disk: Disk, lh: seq<int>, k: nat, cur: Disk)
    requires DiskShape(c, disk) && LhOk(c.l, lh) && k < |lh| && |cur| == c.l.blocks
    requires DiskCur(c, disk, cur, lh[k..]) && LogCopied(c, disk, lh, cur, |lh|)
    ensures DiskShape(c, disk[lh[k] := cur[lh[k]]])
    ensures DiskCur(c, disk[lh[k] := cur[lh[k]]], cur, lh[k + 1..])
    ensures LogCopied(c, disk[lh[k] := cur[lh[k]]], lh, cur, |lh|)
  {
    hide Header, Distinct;
    assert lh[k..] == [lh[k]] + lh[k + 1..];
  }

  /** After its installation a block is no longer pinned, the later ones still are. */
  lemma {:induction false} InstallPins(c: Config, bufs: seq<Buf>, lh: seq<int>, k: nat, boot: bool, i: nat, nb: Buf)
    requires k < |lh| && CacheOk(bufs) && PinOk(c, bufs, lh[k..], boot) && Distinct(lh) && i < |bufs|
    requires bufs[i].dev == ROOTDEV && bufs[i].bno == nb.bno == lh[k] && !nb.dirty
    ensures PinOk(c, bufs[i := nb], lh[k + 1..], boot)
  {
    var bufs' := bufs[i := nb];
    var rest := lh[k + 1..];
    assert lh[k..] == [lh[k]] + rest;
    if !boot {
      forall b | b in rest ensures exists j :: Pins(bufs', j, b) {
        assert b in lh[k..] && b != lh[k];
        var j :| Pins(bufs, j, b);
        assert Pins(bufs', j, b);
      }
    }
  }

  lemma {:induction false} InstallWrite(c: Config, bufs: seq<Buf>, thr: seq<Thread>, disk: Disk, cur: Disk,
                                        lh: seq<int>, k: nat, boot: bool, i: nat)
    requires |disk| == |cur| == c.l.blocks && i < |bufs| && LhOk(c.l, lh) && k < |lh|
    requires BufInv(c, bufs, thr, disk, cur, lh[k..], boot)
    requires bufs[i].dev == ROOTDEV && bufs[i].bno == lh[k]
    ensures BufInv(c, bufs[i := bufs[i].(data := cur[lh[k]], valid := true, dirty := false)], thr,
                   disk[lh[k] := cur[lh[k]]], cur, lh[k + 1..], boot)
  {
    var bufs' := bufs[i := bufs[i].(data := cur[lh[k]], valid := true, dirty := false)];
    assert lh[k..] == [lh[k]] + lh[k + 1..];
    InstallPins(c, bufs, lh, k, boot, i, bufs'[i]);
  }

  lemma {:induction false} StepInstallBlock(c: Config, s: State, x: Step)
    requires c.l.Valid() && |s.disk| == c.l.blocks && BufShape(c, s.bufs) && Inv(c, s) && x.InstallBlock?
    requires May(c, s, x)
    ensures Inv(c, Bwrite(s, x.to, s.bufs[x.from].data, Install(s.phase.tail + 1)))
  {
    hide BufInv, CallInv, DurOk, DiskCur, Store;
    var b := c.l.start + 1 + s.phase.tail;
    CopiedAt(c, s.disk, s.lh, s.phase.tail, s.hist, s.durable, b);
    LogBuffer(c, s, x.from, b);
    InstallInv(c, s, x.to, s.phase.tail);
  }

  lemma {:induction false} CopiedAt(c: Config, disk: Disk, lh: seq<int>, k: nat, hist: seq<Event>, durable: nat, b: int)
    requires LogInv(c, disk, lh, Install(k), hist, durable) && k < |lh| && b == c.l.start + 1 + k
    ensures c.l.InLog(b) && disk[b] == Store(c.base, hist)[lh[k]]
  {
  }

  lemma {:induction false} InstallInv(c: Config, s: State, to: nat, k: nat)
    requires Inv(c, s) && s.phase == Install(k) && k < |s.lh| && Has(s, to, s.lh[k])
    ensures Inv(c, Bwrite(s, to, Store(c.base, s.hist)[s.lh[k]], Install(k + 1)))
  {
    hide BufInv, CallInv, DurOk, DiskCur, Store;
    InstallStep(c, s.disk, s.lh, k, s.hist, s.durable);
    InstallWrite(c, s.bufs, s.thr, s.disk, Store(c.base, s.hist), s.lh, k, s.boot, to);
  }

  /** Once everything is installed the log can be emptied. */
  lemma {:induction false} ClearPoint(c: Config, disk: Disk, lh: seq<int>, hist: seq<Event>, durable: nat, h: Block)
    requires LogInv(c, disk, lh, Install(|lh|), hist, durable) && HeaderOk(h) && Header(h) == []
    ensures LogInv(c, disk[c.l.start := h], [], Finish, hist, durable)
    ensures LogInv(c, disk[c.l.start := h], [], Quiet, hist, durable)
  {
    assert hist[..durable] == hist;
  }

  lemma {:induction false} StepClearHead(c: Config, s: State, x: Step)
    requires Inv(c, s) && x.ClearHead? && May(c, s, x)
    ensures Inv(c, Next(c, s, x))
  {
    var h := PutHeader(s.bufs[x.i].data, []);
    ClearPoint(c, s.disk, s.lh, s.hist, s.durable, h);
    LogAreaWrite(c, s.bufs, s.thr, s.disk, Store(c.base, s.hist), [], s.boot, x.i, h);
    CommitCalls(c, s.thr, s.outstanding, s.lh, [], s.hist, s.durable, s.nextOp);
  }

  lemma {:induction false} StepCommitDone(c: Config, s: State, x: Step)
    requires Inv(c, s) && x.CommitDone? && May(c, s, x)
    ensures Inv(c, Next(c, s, x))
  {
    assert s.hist[..s.durable] == s.hist;
  }

  // Crashes

  lemma {:induction false} DurableLog(c: Config, disk: Disk, lh: seq<int>, phase: Phase, hist: seq<Event>, durable: nat)
    requires LogInv(c, disk, lh, phase, hist, durable)
    requires phase.Install? ==> phase.tail <= |lh|
    ensures Recovers(c.l, disk, Store(c.base, hist[..durable]))
  {
    hide Store, Header;
    if phase == Finish || phase == ReadHead {
      assert hist[..durable] == hist;
    } else if phase.Install? {
      DurableInstall(c, disk, lh, phase.tail, hist, durable);
    }
  }

  /** While blocks are being installed, the log still holds all of them. */
  lemma {:induction false} DurableInstall(c: Config, disk: Disk, lh: seq<int>, k: nat, hist: seq<Event>, durable: nat)
    requires LogInv(c, disk, lh, Install(k), hist, durable) && k <= |lh|
    ensures Recovers(c.l, disk, Store(c.base, hist[..durable]))
  {
    hide Store, Header;
    assert hist[..durable] == hist;
    InstallRecovers(c, disk, lh, k, Store(c.base, hist));
  }

  lemma {:induction false} InstallRecovers(c: Config, disk: Disk, lh: seq<int>, k: nat, cur: Disk)
    requires DiskShape(c, disk) && LhOk(c.l, lh) && k <= |lh| && |cur| == c.l.blocks && Header(disk[c.l.start]) == lh
    requires DiskCur(c, disk, cur, lh[k..]) && LogCopied(c, disk, lh, cur, |lh|)
    ensures Recovers(c.l, disk, cur)
  {
    hide Header, Distinct;
    forall b | c.l.Home(b) && b !in lh ensures disk[b] == cur[b] {
      assert b !in lh[k..];
    }
  }

  /**
   Crash atomicity: at every moment, replaying the log found on disk yields
   exactly the contents described by the committed log_write calls.
   */
  lemma {:induction false} DurableOnDisk(c: Config, s: State)
    requires Inv(c, s)
    ensures Recovers(c.l, s.disk, Committed(c, s))
  {
    DurableLog(c, s.disk, s.lh, s.phase, s.hist, s.durable);
  }

  lemma {:induction false} StepCrash(c: Config, s: State, x: Step)
    requires Inv(c, s) && x.Crash? && May(c, s, x)
    ensures Inv(c, Next(c, s, x))
  {
    DurableOnDisk(c, s);
    PowerOnInv(c, s.disk, |s.bufs|, |s.thr|, s.nextOp, s.hist[..s.durable]);
  }

  lemma {:induction false} StepOnBuffer(c: Config, s: State, x: Step)
    requires Inv(c, s) && OnBuffer(x) && May(c, s, x)
    ensures Inv(c, Touch(s, x.i, NewBuf(c, s, x), x.t, NewRefs(c, s, x)))
  {
    hide Touch, NewBuf, NewRefs, Fits, BufInv, CallInv, DurOk, DiskCur;
    StepFits(c, s, Store(c.base, s.hist), Pending(c, s.disk, s.lh, s.phase), x);
    TouchInv(c, s, x.i, NewBuf(c, s, x), x.t, NewRefs(c, s, x));
  }

  lemma {:induction false} ShapeOf(c: Config, s: State)
    requires Inv(c, s)
    ensures c.l.Valid() && |s.disk| == c.l.blocks && BufShape(c, s.bufs)
  {
  }

  lemma {:induction false} StepCommit(c: Config, s: State, x: Step)
    requires Inv(c, s) && May(c, s, x)
    requires x.LoadHead? || x.CopyBlock? || x.CommitHead? || x.InstallBlock? || x.ClearHead? || x.CommitDone?
    ensures Inv(c, Next(c, s, x))
  {
    hide Inv, Bwrite, PutHeader, Header;
    ShapeOf(c, s);
    match x
    case LoadHead(_) => StepLoadHead(c, s, x);
    case CopyBlock(_, _) => StepCopyBlock(c, s, x);
    case CommitHead(_) => StepCommitHead(c, s, x);
    case InstallBlock(_, _) => StepInstallBlock(c, s, x);
    case ClearHead(_) => StepClearHead(c, s, x);
    case CommitDone => StepCommitDone(c, s, x);
  }

  /** Every step that finds room for what it logs, and a crash at any moment, keeps the invariant. */
  lemma {:induction false} StepInv(c: Config, s: State, x: Step)
    requires Inv(c, s) && May(c, s, x) && !Panics(c, s, x) && Room(c, s, x)
    ensures Inv(c, Next(c, s, x))
  {
    hide Inv, Began, Passed, Logged, Ended, Touch, NewBuf, NewRefs;
    if OnBuffer(x) {
      StepOnBuffer(c, s, x);
    } else if x.BeginOp? {
      StepBeginOp(c, s, x);
    } else if x.LogTest? {
      StepLogTest(c, s, x);
    } else if x.LogWrite? {
      StepLogWrite(c, s, x);
    } else if x.EndOp? {
      StepEndOp(c, s, x);
    } else if x.Crash? {
      StepCrash(c, s, x);
    } else {
      StepCommit(c, s, x);
    }
  }
}
