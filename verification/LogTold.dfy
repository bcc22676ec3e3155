/**
 What a run writes, told from its steps alone: which log_write call, of which
 system call, put which data on which block, and how many of them a header on
 the disk has committed. The history of the state machine is this record.
 */
module LogTold {
  import opened Basics
  import opened BlockLog
  import opened LogSystem
  import opened LogInvariant
  import opened LogTheorems

  /**
   The block that each buffer was last recycled for; the data last put into a
   buffer by a system call and not replaced since; the number of the system call
   each thread is in, out of those begun so far; the writes; and how many of
   them the last header covers.
   */
  datatype Ledger = Ledger(block: map<nat, int>, put: map<nat, Block>, calls: map<nat, nat>, begun: nat,
                           writes: seq<Event>, kept: nat)

  const BLANK := Ledger(map[], map[], map[], 0, [], 0)

  predicate Sane(g: Ledger) { g.kept <= |g.writes| }

  /** The ledger after one more step. Data that no call has put there is read from the buffer. */
  ghost function Entered(g: Ledger, s: State, x: Step): Ledger
    requires Sane(g)
  {
    match x
    case BgetRecycle(t, i, b) => g.(block := g.block[i := b], put := g.put - {i})
    case Fill(t, i) => g.(put := g.put - {i})
    case Modify(t, i, data) => g.(put := g.put[i := data])
    case BeginOp(t) => g.(calls := g.calls[t := g.begun], begun := g.begun + 1)
    case EndOp(t) => g.(calls := g.calls - {t})
    case LogWrite(t, i) =>
      if t in g.calls && i in g.block && (i in g.put || i < |s.bufs|) then
        g.(writes := g.writes + [Event(g.calls[t], g.block[i], if i in g.put then g.put[i] else s.bufs[i].data)])
      else g
    case CopyBlock(to, from) => g.(put := g.put - {to})
    case InstallBlock(from, to) => g.(put := g.put - {to})
    case CommitHead(i) => g.(put := g.put - {i}, kept := |g.writes|)
    case ClearHead(i) => g.(put := g.put - {i})
    case Crash => BLANK.(begun := g.begun, writes := g.writes[..g.kept], kept := g.kept)
    case _ => g
  }

  /** The buffers and the calls are where the ledger says. */
  ghost predicate BufTold(s: State, g: Ledger, i: nat) {
    && (i in g.block <==> i < |s.bufs| && s.bufs[i].dev == ROOTDEV)
    && (i in g.block ==> g.block[i] == s.bufs[i].bno)
    && (i in g.put ==> i < |s.bufs| && g.put[i] == s.bufs[i].data)
  }

  ghost predicate CallTold(s: State, g: Ledger, t: nat) {
    && (t in g.calls <==> t < |s.thr| && s.thr[t].op.Some?)
    && (t in g.calls ==> s.thr[t].op == Some(g.calls[t]))
  }

  ghost predicate Told(s: State, g: Ledger) {
    && (forall i: nat :: BufTold(s, g, i))
    && (forall t: nat :: CallTold(s, g, t))
    && g.begun == s.nextOp && g.writes == s.hist && g.kept == s.durable && Sane(g)
  }

  lemma {:induction false} StepBufs(c: Config, h: Habit, s: State, g: Ledger, x: Step, i: nat)
    requires CanStep(c, h, s, x) && Told(s, g)
    ensures BufTold(Next(c, s, x), Entered(g, s, x), i)
  {
    hide CallTold, BufShape, Within, Room, Cached;
    assert BufTold(s, g, i);
  }

  lemma {:induction false} StepCalls(c: Config, h: Habit, s: State, g: Ledger, x: Step, t: nat)
    requires CanStep(c, h, s, x) && Told(s, g)
    ensures CallTold(Next(c, s, x), Entered(g, s, x), t)
  {
    hide BufTold, BufShape, Within, Room, Cached, NewBuf;
    assert CallTold(s, g, t);
  }

  lemma {:induction false} StepWrites(c: Config, h: Habit, s: State, g: Ledger, x: Step)
    requires CanStep(c, h, s, x) && Told(s, g)
    ensures var s', g' := Next(c, s, x), Entered(g, s, x);
            g'.begun == s'.nextOp && g'.writes == s'.hist && g'.kept == s'.durable && Sane(g')
  {
    hide BufShape, Within, Room, Cached, NewBuf, NewRefs, Absorb;
    if x.LogWrite? {
      assert BufTold(s, g, x.i) && CallTold(s, g, x.t);
    }
  }

  lemma {:induction false} StepTold(c: Config, h: Habit, s: State, g: Ledger, x: Step)
    requires CanStep(c, h, s, x) && Told(s, g)
    ensures Told(Next(c, s, x), Entered(g, s, x))
  {
    hide Next, Entered, May, Panics, Within, BufTold, CallTold;
    forall i: nat ensures BufTold(Next(c, s, x), Entered(g, s, x), i) {
      StepBufs(c, h, s, g, x, i);
    }
    forall t: nat ensures CallTold(Next(c, s, x), Entered(g, s, x), t) {
      StepCalls(c, h, s, g, x, t);
    }
    StepWrites(c, h, s, g, x);
  }

  /** The ledger of a run. */
  ghost function LedgerOf(c: Config, h: Habit, g: Ledger, s: State, xs: seq<Step>, s': State): Ledger
    requires Reaches(c, h, s, xs, s') && Sane(g)
    decreases |xs|
  {
    if xs == [] then g else LedgerOf(c, h, Entered(g, s, xs[0]), Next(c, s, xs[0]), xs[1..], s')
  }

  lemma {:induction false} RunTold(c: Config, h: Habit, g: Ledger, s: State, xs: seq<Step>, s': State)
    requires Reaches(c, h, s, xs, s') && Told(s, g)
    ensures Told(s', LedgerOf(c, h, g, s, xs, s'))
    decreases |xs|
  {
    hide Next, Entered, May, Panics, Within, BufTold, CallTold;
    if xs != [] {
      StepTold(c, h, s, g, xs[0]);
      RunTold(c, h, Entered(g, s, xs[0]), Next(c, s, xs[0]), xs[1..], s');
    }
  }

  lemma {:induction false} BootTold(c: Config, s: State)
    requires Init(c, s)
    ensures Told(s, BLANK)
  {
    var disk, nthr: nat :| InitFrom(c, s, disk, nthr);
    forall i: nat ensures BufTold(s, BLANK, i) {
    }
  }

  /**
   In every run, whatever its habits, the history is what the system calls have
   written since the machine was first switched on and no crash has lost, and
   what a crash keeps is what the last header covered.
   */
  lemma {:induction false} HistoryIsTold(c: Config, h: Habit, s0: State, xs: seq<Step>, s: State)
    requires Init(c, s0) && Reaches(c, h, s0, xs, s)
    ensures var g := LedgerOf(c, h, BLANK, s0, xs, s); s.hist == g.writes && s.durable == g.kept
  {
    hide Init, Reaches, LedgerOf;
    BootTold(c, s0);
    RunTold(c, h, BLANK, s0, xs, s);
  }
}
