/**
 Every interleaving of file system calls over the buffer cache and the log
 (Assignment1/bio.c, Assignment1/log.c), with a crash possible at any moment,
 as a state machine. One step is one critical section, one buffer operation by
 the holder of that buffer, the test that log_write makes before it takes the
 lock, or one disk write of commit or recovery.

 `hist` and `durable` are the specification: the log_write calls so far, and
 how many of them belong to committed transactions.
 */
module LogSystem {
  import opened Basics
  import opened BlockLog

  const ROOTDEV: nat := 1

  /** What a thread is doing with a buffer it holds a reference to. */
  datatype Use = Waiting | Holding | Leaving

  /**
   `op` is the identity of the system call in progress between begin_op and
   end_op, `mine` the blocks it has logged. `passed` is the buffer for which it
   is in log_write, past the test for room and before the lock.
   */
  datatype Thread = Thread(op: Option<nat>, mine: set<int>, passed: Option<nat>, refs: map<nat, Use>)

  /** `changed`: the holder modified the data and has not called log_write yet. */
  datatype Buf = Buf(dev: nat, bno: int, valid: bool, dirty: bool, refcnt: nat,
                     holder: Option<nat>, data: Block, changed: bool)

  datatype Phase = Quiet | ReadHead | CopyLog(tail: nat) | Install(tail: nat) | Finish

  datatype Event = Event(op: nat, bno: int, data: Block)

  datatype State = State(disk: Disk, bufs: seq<Buf>, thr: seq<Thread>,
                         outstanding: int, committing: bool, lh: seq<int>,
                         phase: Phase, boot: bool, worker: nat,
                         nextOp: nat, hist: seq<Event>, durable: nat)

  /**
   The device layout, the contents of the home blocks when the machine was first
   switched on, and the size of the cache.
   */
  datatype Config = Config(l: Layout, base: Disk, nbuf: nat)

  const FREE_BUF := Buf(0, 0, false, false, 0, None, ZERO_BLOCK, false)
  const IDLE := Thread(None, {}, None, map[])

  // Steps

  datatype Step =
    | BgetHit(t: nat, i: nat)
    | BgetRecycle(t: nat, i: nat, b: int)
    | Lock(t: nat, i: nat)
    | Fill(t: nat, i: nat)
    | Modify(t: nat, i: nat, data: Block)
    | Unlock(t: nat, i: nat)
    | Unref(t: nat, i: nat)
    | BeginOp(t: nat)
    | LogTest(t: nat, i: nat)
    | LogWrite(t: nat, i: nat)
    | EndOp(t: nat)
    | LoadHead(i: nat)
    | CopyBlock(to: nat, from: nat)
    | CommitHead(i: nat)
    | InstallBlock(from: nat, to: nat)
    | ClearHead(i: nat)
    | CommitDone
    | Crash

  predicate Tid(s: State, t: nat) { t < |s.thr| }

  predicate Slot(s: State, i: nat) { i < |s.bufs| }

  predicate Cached(s: State, b: int) {
    exists i :: 0 <= i < |s.bufs| && s.bufs[i].dev == ROOTDEV && s.bufs[i].bno == b
  }

  /** Thread `t` holds the sleep lock of buffer `i`. */
  predicate Holds(s: State, t: nat, i: nat) {
    Tid(s, t) && Slot(s, i) && s.bufs[i].holder == Some(t)
  }

  /** The worker has buffer `i` locked and it holds block `b`. */
  predicate Has(s: State, i: nat, b: int) {
    && Holds(s, s.worker, i)
    && s.bufs[i].dev == ROOTDEV && s.bufs[i].bno == b && s.bufs[i].valid
  }

  /** Thread `t` is not in the middle of log_write. */
  predicate Ready(s: State, t: nat) {
    Tid(s, t) && s.thr[t].passed == None
  }

  /** Thread `t` may log buffer `i`. */
  predicate Loggable(c: Config, s: State, t: nat, i: nat) {
    && Holds(s, t, i) && s.bufs[i].valid && s.thr[t].op.Some?
    && s.bufs[i].dev == ROOTDEV && c.l.Home(s.bufs[i].bno)
  }

  /** What the source and its callers' discipline allow in state `s`. */
  predicate May(c: Config, s: State, x: Step) {
    match x
    case BgetHit(t, i) =>
      Ready(s, t) && Slot(s, i) && s.bufs[i].dev == ROOTDEV && i !in s.thr[t].refs
    case BgetRecycle(t, i, b) =>
      && Ready(s, t) && Slot(s, i) && 0 <= b < c.l.blocks && !Cached(s, b)
      && s.bufs[i].refcnt == 0 && !s.bufs[i].dirty
    case Lock(t, i) =>
      && Ready(s, t) && Slot(s, i) && i in s.thr[t].refs && s.thr[t].refs[i] == Waiting
      && s.bufs[i].holder == None
    case Fill(t, i) =>
      Ready(s, t) && Holds(s, t, i) && !s.bufs[i].valid
    case Modify(t, i, data) =>
      Ready(s, t) && Loggable(c, s, t, i)
    case Unlock(t, i) =>
      Ready(s, t) && Holds(s, t, i) && !s.bufs[i].changed
    case Unref(t, i) =>
      && Ready(s, t) && Slot(s, i) && i in s.thr[t].refs && s.thr[t].refs[i] == Leaving
      && s.bufs[i].refcnt > 0
    case BeginOp(t) =>
      && Ready(s, t) && s.thr[t].op == None && !s.boot && !s.committing
      && |s.lh| + (s.outstanding + 1) * MAXOPBLOCKS <= LOGSIZE
    case LogTest(t, i) =>
      Ready(s, t) && Loggable(c, s, t, i)
    case LogWrite(t, i) =>
      Loggable(c, s, t, i) && s.thr[t].passed == Some(i)
    case EndOp(t) =>
      && Ready(s, t) && s.thr[t].op.Some?
      && forall i :: 0 <= i < |s.bufs| && s.bufs[i].holder == Some(t) ==> !s.bufs[i].changed
    case LoadHead(i) =>
      s.phase == ReadHead && Has(s, i, c.l.start) && HeaderOk(s.bufs[i].data)
    case CopyBlock(to, from) =>
      && s.phase.CopyLog? && s.phase.tail < |s.lh|
      && Has(s, to, c.l.start + 1 + s.phase.tail) && Has(s, from, s.lh[s.phase.tail])
    case CommitHead(i) =>
      s.phase.CopyLog? && s.phase.tail == |s.lh| && |s.lh| <= LOGSIZE && Has(s, i, c.l.start)
    case InstallBlock(from, to) =>
      && s.phase.Install? && s.phase.tail < |s.lh|
      && Has(s, from, c.l.start + 1 + s.phase.tail) && Has(s, to, s.lh[s.phase.tail])
    case ClearHead(i) =>
      s.phase.Install? && s.phase.tail == |s.lh| && Has(s, i, c.l.start)
    case CommitDone =>
      s.phase == Finish
    case Crash => |s.thr| > 0
  }

  /** The panics of log_write and end_op. */
  predicate Panics(c: Config, s: State, x: Step) {
    match x
    case LogTest(_, _) => |s.lh| >= LOGSIZE || |s.lh| >= c.l.size - 1 || s.outstanding < 1
    case EndOp(_) => s.committing
    case _ => false
  }

  /** Entries the in-memory header and the log area both have room for. */
  function Capacity(l: Layout): int { if LOGSIZE <= l.size - 1 then LOGSIZE else l.size - 1 }

  /** A block that log_write appends to the header finds room there; nothing in the source checks it at that point. */
  predicate Room(c: Config, s: State, x: Step) {
    x.LogWrite? && Slot(s, x.i) && s.bufs[x.i].bno !in s.lh ==> |s.lh| < Capacity(c.l)
  }

  /** log_write's search with absorption: the header gains `b` unless it is already there. */
  function Absorb(lh: seq<int>, b: int): (r: seq<int>)
    ensures lh <= r && b in r && (Distinct(lh) ==> Distinct(r))
    ensures forall x :: x in r <==> x in lh || x == b
    ensures |r| <= |lh| + 1
  {
    if b in lh then lh else lh + [b]
  }

  /** Steps of bget, bread, the buffer's sleep lock and brelse: one buffer and one thread's references change. */
  predicate OnBuffer(x: Step) {
    x.BgetHit? || x.BgetRecycle? || x.Lock? || x.Fill? || x.Modify? || x.Unlock? || x.Unref?
  }

  function NewBuf(c: Config, s: State, x: Step): Buf
    requires OnBuffer(x) && May(c, s, x) && (0 <= s.bufs[x.i].bno < |s.disk|)
  {
    var b := s.bufs[x.i];
    match x
    case BgetHit(t, i) => b.(refcnt := b.refcnt + 1)
    case BgetRecycle(t, i, bno) => b.(dev := ROOTDEV, bno := bno, valid := false, dirty := false, refcnt := 1)
    case Lock(t, i) => b.(holder := Some(t))
    case Fill(t, i) => b.(data := s.disk[b.bno], valid := true)
    case Modify(t, i, data) => b.(data := data, changed := true)
    case Unlock(t, i) => b.(holder := None)
    case Unref(t, i) => b.(refcnt := b.refcnt - 1)
  }

  function NewRefs(c: Config, s: State, x: Step): map<nat, Use>
    requires OnBuffer(x) && May(c, s, x)
  {
    var refs := s.thr[x.t].refs;
    match x
    case BgetHit(t, i) => refs[i := Waiting]
    case BgetRecycle(t, i, bno) => refs[i := Waiting]
    case Lock(t, i) => refs[i := Holding]
    case Fill(t, i) => refs
    case Modify(t, i, data) => refs
    case Unlock(t, i) => refs[i := Leaving]
    case Unref(t, i) => refs - {i}
  }

  function Touch(s: State, i: nat, nb: Buf, t: nat, refs: map<nat, Use>): State
    requires Slot(s, i) && Tid(s, t)
  {
    s.(bufs := s.bufs[i := nb], thr := s.thr[t := s.thr[t].(refs := refs)])
  }

  /** bwrite of buffer `i`, now holding `data`: one atomic disk write that leaves the buffer clean. */
  function Bwrite(s: State, i: nat, data: Block, phase: Phase): State
    requires Slot(s, i) && 0 <= s.bufs[i].bno < |s.disk|
  {
    s.(disk := s.disk[s.bufs[i].bno := data],
       bufs := s.bufs[i := s.bufs[i].(data := data, valid := true, dirty := false)],
       phase := phase)
  }

  function Began(s: State, t: nat): State
    requires Tid(s, t)
  {
    s.(outstanding := s.outstanding + 1, nextOp := s.nextOp + 1,
       thr := s.thr[t := s.thr[t].(op := Some(s.nextOp), mine := {})])
  }

  /** log_write has seen room in the header, without the lock. */
  function Passed(s: State, t: nat, i: nat): State
    requires Tid(s, t)
  {
    s.(thr := s.thr[t := s.thr[t].(passed := Some(i))])
  }

  /** The part of log_write that holds the lock. */
  function Logged(s: State, t: nat, i: nat): State
    requires Tid(s, t) && Slot(s, i) && s.thr[t].op.Some?
  {
    var b := s.bufs[i];
    s.(lh := Absorb(s.lh, b.bno),
       bufs := s.bufs[i := b.(dirty := true, changed := false)],
       thr := s.thr[t := s.thr[t].(mine := s.thr[t].mine + {b.bno}, passed := None)],
       hist := s.hist + [Event(s.thr[t].op.value, b.bno, b.data)])
  }

  function Ended(s: State, t: nat): State
    requires Tid(s, t)
  {
    var s' := s.(outstanding := s.outstanding - 1, thr := s.thr[t := s.thr[t].(op := None, mine := {})]);
    if s'.outstanding == 0 then
      s'.(committing := true, worker := t, phase := if |s.lh| > 0 then CopyLog(0) else Finish)
    else s'
  }

  function Next(c: Config, s: State, x: Step): State
    requires May(c, s, x) && !Panics(c, s, x)
    requires c.l.Valid() && |s.disk| == c.l.blocks
    requires (forall i :: 0 <= i < |s.bufs| ==> 0 <= s.bufs[i].bno < c.l.blocks)
  {
    if OnBuffer(x) then Touch(s, x.i, NewBuf(c, s, x), x.t, NewRefs(c, s, x))
    else
    match x
    case BeginOp(t) => Began(s, t)
    case LogTest(t, i) => Passed(s, t, i)
    case LogWrite(t, i) => Logged(s, t, i)
    case EndOp(t) => Ended(s, t)
    case LoadHead(i) => s.(lh := Header(s.bufs[i].data), phase := Install(0))
    case CopyBlock(to, from) => Bwrite(s, to, s.bufs[from].data, CopyLog(s.phase.tail + 1))
    case CommitHead(i) => Bwrite(s, i, PutHeader(s.bufs[i].data, s.lh), Install(0)).(durable := |s.hist|)
    case InstallBlock(from, to) => Bwrite(s, to, s.bufs[from].data, Install(s.phase.tail + 1))
    case ClearHead(i) =>
      Bwrite(s, i, PutHeader(s.bufs[i].data, []), if s.boot then Quiet else Finish).(lh := [], boot := false)
    case CommitDone => s.(committing := false, phase := Quiet)
    case Crash =>
      PowerOn(s.disk, |s.bufs|, |s.thr|, s.nextOp, s.hist[..if s.durable <= |s.hist| then s.durable else 0])
  }

  /** Volatile state is lost; what survives is the disk. */
  function PowerOn(disk: Disk, nbuf: nat, nthr: nat, nextOp: nat, hist: seq<Event>): State {
    State(disk, seq(nbuf, _ => FREE_BUF), seq(nthr, _ => IDLE), 0, false, [], ReadHead, true, 0, nextOp, hist, |hist|)
  }

  // Specification: the contents a sequence of log_write calls describes

  function Store(base: Disk, hist: seq<Event>): (r: Disk)
    ensures |r| == |base|
  {
    if hist == [] then base
    else
      var e := hist[|hist| - 1];
      var r := Store(base, hist[..|hist| - 1]);
      if 0 <= e.bno < |r| then r[e.bno := e.data] else r
  }

  lemma StoreAppend(base: Disk, hist: seq<Event>, e: Event)
    requires 0 <= e.bno < |base|
    ensures Store(base, hist + [e]) == Store(base, hist)[e.bno := e.data]
  {
    assert (hist + [e])[..|hist|] == hist;
  }

  /** Only blocks named by the dropped events can differ. */
  lemma {:induction false} StorePrefix(base: Disk, hist: seq<Event>, k: nat, b: int)
    requires k <= |hist| && 0 <= b < |base|
    requires forall j :: k <= j < |hist| ==> hist[j].bno != b
    ensures Store(base, hist)[b] == Store(base, hist[..k])[b]
  {
    if k < |hist| {
      var h := hist[..|hist| - 1];
      assert h[..k] == hist[..k];
      StorePrefix(base, h, k, b);
    } else {
      assert hist[..k] == hist;
    }
  }
}
