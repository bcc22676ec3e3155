/** What the log and the buffer cache guarantee about every run, crashes included. */
module LogTheorems {
  import opened Basics
  import opened BlockLog
  import opened LogSystem
  import opened LogInvariant
  import opened LogSafety
  import opened Sums

  /**
   What is asked of the steps of a run, besides being possible. In a `Roomy` run
   every block appended to the header finds room there. The others are about how
   system calls use what begin_op reserves for each of them, MAXOPBLOCKS blocks:
   a `Frugal` call logs no more distinct blocks than that, and a `Sparing` one
   makes no log_write call at all once it has logged that many.
   */
  datatype Habit = Any | Roomy | Frugal | Sparing

  predicate Within(c: Config, h: Habit, s: State, x: Step) {
    match h
    case Any => true
    case Roomy => Room(c, s, x)
    case Frugal => InLogWrite(s, x) ==> |s.thr[x.t].mine + {s.bufs[x.i].bno}| <= MAXOPBLOCKS
    case Sparing => InLogWrite(s, x) ==> |s.thr[x.t].mine| < MAXOPBLOCKS
  }

  predicate InLogWrite(s: State, x: Step) {
    (x.LogTest? || x.LogWrite?) && Tid(s, x.t) && Slot(s, x.i)
  }

  ghost predicate CanStep(c: Config, h: Habit, s: State, x: Step) {
    && c.l.Valid() && |s.disk| == c.l.blocks && BufShape(c, s.bufs)
    && May(c, s, x) && Within(c, h, s, x) && !Panics(c, s, x)
  }

  /** The steps `xs` lead from `s` to `s'`. */
  ghost predicate Reaches(c: Config, h: Habit, s: State, xs: seq<Step>, s': State)
    decreases |xs|
  {
    if xs == [] then s == s'
    else CanStep(c, h, s, xs[0]) && Reaches(c, h, Next(c, s, xs[0]), xs[1..], s')
  }

  ghost predicate ReachableBy(c: Config, h: Habit, s: State) {
    exists s0, xs :: Init(c, s0) && Reaches(c, h, s0, xs, s)
  }

  /** Reachable by a run in which no block was appended to a full header. */
  ghost predicate Reachable(c: Config, s: State) {
    ReachableBy(c, Roomy, s)
  }

  lemma {:induction false} RunInv(c: Config, s: State, xs: seq<Step>, s': State)
    requires Inv(c, s) && Reaches(c, Roomy, s, xs, s')
    ensures Inv(c, s')
    decreases |xs|
  {
    hide Inv, Next, May, Panics, Room;
    if xs != [] {
      StepInv(c, s, xs[0]);
      RunInv(c, Next(c, s, xs[0]), xs[1..], s');
    }
  }

  lemma {:induction false} ReachableInv(c: Config, s: State)
    requires Reachable(c, s)
    ensures Inv(c, s)
  {
    hide Inv, Reaches;
    var s0, xs :| Init(c, s0) && Reaches(c, Roomy, s0, xs, s);
    InitInv(c, s0);
    RunInv(c, s0, xs, s);
  }

  lemma {:induction false} InitInv(c: Config, s: State)
    requires Init(c, s)
    ensures Inv(c, s)
  {
    hide Inv;
    var disk, nthr: nat :| InitFrom(c, s, disk, nthr);
    PowerOnInv(c, disk, c.nbuf, nthr, 0, []);
  }

  /**
   Crash atomicity. Whenever the power fails, running recovery on the disk it
   leaves gives exactly the contents after the committed log_write calls, and a
   system call has either all of its log_write calls among those or none.
   */
  lemma {:induction false} CrashAtomicity(c: Config, s: State)
    requires Reachable(c, s)
    ensures s.durable <= |s.hist| && DiskOk(c.l, s.disk)
    ensures SameHome(c.l, Recovered(c.l, s.disk), Store(c.base, s.hist[..s.durable]))
    ensures forall i, j :: 0 <= i < s.durable <= j < |s.hist| ==> s.hist[i].op != s.hist[j].op
  {
    ReachableInv(c, s);
    DurableOnDisk(c, s);
    RecoveredRecovers(c.l, s.disk, Committed(c, s));
    forall i, j | 0 <= i < s.durable <= j < |s.hist| ensures s.hist[i].op != s.hist[j].op {
      assert NoneBy(s.hist[j].op, s.hist, s.durable);
    }
  }

  /** The log_write calls whose effect survives a crash now. */
  ghost function Durable(s: State): seq<Event>
    requires s.durable <= |s.hist|
  {
    s.hist[..s.durable]
  }

  lemma {:induction false} StepDurable(c: Config, s: State, x: Step)
    requires Inv(c, s) && May(c, s, x) && !Panics(c, s, x)
    ensures var s' := Next(c, s, x); s'.durable <= |s'.hist| && Durable(s) <= Durable(s')
    ensures !x.CommitHead? ==> Durable(Next(c, s, x)) == Durable(s)
  {
    hide BufInv, CallInv, DurOk, DiskCur, PutHeader, Header, NewBuf, NewRefs;
  }

  /** Durability: what is committed stays committed, through any further steps and crashes. */
  lemma {:induction false} CommittedForever(c: Config, s: State, xs: seq<Step>, s': State)
    requires Inv(c, s) && Reaches(c, Roomy, s, xs, s')
    ensures s'.durable <= |s'.hist| && Durable(s) <= Durable(s')
    decreases |xs|
  {
    if xs != [] {
      StepInv(c, s, xs[0]);
      StepDurable(c, s, xs[0]);
      CommittedForever(c, Next(c, s, xs[0]), xs[1..], s');
    }
  }

  /** From the commit point on, every log_write call so far is durable. */
  lemma {:induction false} CommitIsDurable(c: Config, s: State)
    requires Reachable(c, s) && (s.phase == Finish || s.phase.Install?)
    ensures s.durable == |s.hist|
  {
    ReachableInv(c, s);
  }

  /** No system call is in progress. */
  predicate Still(s: State) { forall t :: 0 <= t < |s.thr| ==> s.thr[t].op == None }

  lemma {:induction false} StillCount(thr: seq<Thread>)
    requires forall t :: 0 <= t < |thr| ==> thr[t].op == None
    ensures Sum(thr, OpBit()) == 0
  {
    if thr != [] {
      assert forall t :: 0 <= t < |thr| ==> OpBit()(thr[t]) == 0;
      SumZero(thr, OpBit());
    }
  }

  /**
   The last end_op commits: with no system call in progress and no commit going
   on, everything ever logged is durable.
   */
  lemma {:induction false} EndedIsDurable(c: Config, s: State)
    requires Reachable(c, s) && !s.boot && s.phase == Quiet && Still(s)
    ensures s.lh == [] && s.durable == |s.hist|
  {
    hide BufInv, DiskCur, HistOk, Reachable;
    ReachableInv(c, s);
    StillCount(s.thr);
  }

  /** bread returns the newest logged contents: a locked buffer its holder has not modified agrees with the history. */
  lemma {:induction false} ReadsNewest(c: Config, s: State, t: nat, i: nat)
    requires Reachable(c, s) && !s.boot
    requires Holds(s, t, i) && s.bufs[i].valid && !s.bufs[i].changed && c.l.Home(s.bufs[i].bno)
    ensures s.bufs[i].bno < |c.base| && s.bufs[i].data == Cur(c, s)[s.bufs[i].bno]
  {
    ReachableInv(c, s);
    HeldRoot(s, t, i);
    if s.bufs[i].bno in Pending(c, s.disk, s.lh, s.phase) {
      var j :| Pins(s.bufs, j, s.bufs[i].bno);
      assert s.bufs[j].dev == ROOTDEV;
      assert i == j;
    }
  }

  lemma HeldRoot(s: State, t: nat, i: nat)
    requires OwnOk(s.bufs, s.thr) && Holds(s, t, i)
    ensures s.bufs[i].dev == ROOTDEV
  {
    assert i in s.thr[t].refs;
  }

  /**
   Write-ahead: until the commit point no home block on disk differs from the
   committed contents, while every logged block is pinned in exactly one buffer
   that bget cannot recycle.
   */
  lemma {:induction false} WriteAhead(c: Config, s: State)
    requires Reachable(c, s) && (s.phase == Quiet || s.phase.CopyLog?)
    ensures s.durable <= |s.hist| && SameHome(c.l, s.disk, Store(c.base, Durable(s)))
    ensures forall b :: b in s.lh <==> exists i :: Pins(s.bufs, i, b)
    ensures forall i, j, b :: Pins(s.bufs, i, b) && Pins(s.bufs, j, b) ==> i == j
  {
    ReachableInv(c, s);
  }

  /**
   Group commit: a commit never overlaps a system call, and what a call in
   progress has logged is in the header once.
   */
  lemma {:induction false} GroupCommit(c: Config, s: State)
    requires Reachable(c, s)
    ensures s.committing ==> s.outstanding == 0 && forall t :: 0 <= t < |s.thr| ==> s.thr[t].op == None
    ensures Distinct(s.lh) && |s.lh| <= LOGSIZE && |s.lh| <= c.l.size - 1
    ensures forall t, b :: 0 <= t < |s.thr| && s.thr[t].op.Some? && b in s.thr[t].mine ==> b in s.lh
  {
    ReachableInv(c, s);
    if s.committing {
      forall t | 0 <= t < |s.thr| ensures s.thr[t].op == None {
        NoCalls(s.thr, t);
      }
    }
  }

  /** The cache never holds two copies of a block, and a buffer's lock has one holder among its counted users. */
  lemma {:induction false} CacheSound(c: Config, s: State)
    requires Reachable(c, s)
    ensures CacheOk(s.bufs)
    ensures forall i :: 0 <= i < |s.bufs| ==> s.bufs[i].refcnt == Sum(s.thr, RefBit(i))
    ensures forall t, u, i: nat :: InSection(s, t, i) && InSection(s, u, i) ==> t == u
  {
    ReachableInv(c, s);
  }

  /** A valid buffer whose contents nobody is changing and nobody has logged is what the disk holds. */
  lemma {:induction false} CacheMatchesDisk(c: Config, s: State, i: nat)
    requires Reachable(c, s) && Slot(s, i) && s.bufs[i].dev == ROOTDEV && s.bufs[i].valid && !s.bufs[i].changed
    requires !s.bufs[i].dirty
    ensures 0 <= s.bufs[i].bno < |s.disk| && s.bufs[i].data == s.disk[s.bufs[i].bno]
  {
    hide Reachable, CallInv, DurOk, DiskCur, PinOk, OwnOk, CountOk, CacheOk, ChangedOk;
    ReachableInv(c, s);
  }

  /** Thread `t` is between acquiring and releasing the sleep lock of buffer `i`. */
  predicate InSection(s: State, t: nat, i: nat) {
    Tid(s, t) && i in s.thr[t].refs && s.thr[t].refs[i] == Holding
  }
}
