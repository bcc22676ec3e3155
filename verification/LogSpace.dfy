/**
 When there is room in the header for what log_write appends. The test for it is
 made without the lock, so it does not help: what does is begin_op's reservation
 of MAXOPBLOCKS blocks for each system call in progress, as long as calls log no
 more distinct blocks than that, or a cache that cannot hold more logged blocks
 than the header.
 */
module LogSpace {
  import opened Basics
  import opened Counting
  import opened BlockLog
  import opened LogSystem
  import opened LogInvariant
  import opened LogSafety
  import opened LogTheorems
  import opened Sums

  /** Blocks of its reservation the thread's system call has not used. */
  function Unspent(): Thread -> nat {
    (x: Thread) => if x.op.Some? && |x.mine| <= MAXOPBLOCKS then MAXOPBLOCKS - |x.mine| else 0
  }

  function Budget(): Thread -> nat { (x: Thread) => if x.op.Some? then MAXOPBLOCKS else 0 }

  /** Every reservation still fits behind what is in the header. */
  ghost predicate SpaceOk(thr: seq<Thread>, lh: seq<int>) {
    && |lh| + Sum(thr, Unspent()) <= LOGSIZE
    && (forall t :: 0 <= t < |thr| && thr[t].op.Some? ==> |thr[t].mine| <= MAXOPBLOCKS)
  }

  lemma {:induction false} UnspentBound(thr: seq<Thread>)
    ensures Sum(thr, Unspent()) <= MAXOPBLOCKS * Sum(thr, OpBit())
  {
    SumAtMost(thr, Unspent(), Budget());
    SumScale(thr, Budget(), OpBit(), MAXOPBLOCKS);
  }

  /** Outside system calls any header that fits the log leaves room. */
  lemma {:induction false} IdleSpace(thr: seq<Thread>, lh: seq<int>)
    requires Sum(thr, OpBit()) == 0 && |lh| <= LOGSIZE
    ensures SpaceOk(thr, lh)
  {
    UnspentBound(thr);
    forall t | 0 <= t < |thr| ensures thr[t].op == None {
      NoCalls(thr, t);
    }
  }

  /** begin_op's test covers the whole reservation of the new call. */
  lemma {:induction false} BeginSpace(thr: seq<Thread>, outstanding: int, lh: seq<int>, t: nat, op: nat)
    requires outstanding == Sum(thr, OpBit()) && t < |thr| && thr[t].op == None && SpaceOk(thr, lh)
    requires |lh| + (outstanding + 1) * MAXOPBLOCKS <= LOGSIZE
    ensures SpaceOk(thr[t := thr[t].(op := Some(op), mine := {})], lh)
  {
    UnspentBound(thr);
    SumUpdate(thr, t, thr[t].(op := Some(op), mine := {}), Unspent());
  }

  /** A log_write uses up as much of its call's reservation as it adds to the header, or less. */
  lemma {:induction false} LogWriteSpace(thr: seq<Thread>, lh: seq<int>, t: nat, b: int)
    requires t < |thr| && thr[t].op.Some? && SpaceOk(thr, lh) && |thr[t].mine + {b}| <= MAXOPBLOCKS
    requires b in thr[t].mine ==> b in lh
    ensures SpaceOk(thr[t := thr[t].(mine := thr[t].mine + {b}, passed := None)], Absorb(lh, b))
  {
    if b in thr[t].mine {
      assert thr[t].mine + {b} == thr[t].mine;
    }
    SumUpdate(thr, t, thr[t].(mine := thr[t].mine + {b}, passed := None), Unspent());
  }

  lemma {:induction false} EndSpace(thr: seq<Thread>, lh: seq<int>, t: nat)
    requires t < |thr| && SpaceOk(thr, lh)
    ensures SpaceOk(thr[t := thr[t].(op := None, mine := {})], lh)
  {
    SumUpdate(thr, t, thr[t].(op := None, mine := {}), Unspent());
  }

  lemma {:induction false} TestSpace(thr: seq<Thread>, lh: seq<int>, t: nat, i: nat)
    requires t < |thr| && SpaceOk(thr, lh)
    ensures SpaceOk(thr[t := thr[t].(passed := Some(i))], lh)
  {
    SumUpdate(thr, t, thr[t].(passed := Some(i)), Unspent());
  }

  lemma {:induction false} RefsSpace(thr: seq<Thread>, lh: seq<int>, t: nat, refs: map<nat, Use>)
    requires t < |thr| && SpaceOk(thr, lh)
    ensures SpaceOk(thr[t := thr[t].(refs := refs)], lh)
  {
    SumUpdate(thr, t, thr[t].(refs := refs), Unspent());
  }

  // What holds of every run, with room or without

  /** How commit and recovery exclude system calls, and what the header holds of them. */
  ghost predicate Light(s: State) {
    PhaseOk(s.phase, s.boot, s.committing, s.outstanding, s.lh) && OpsOk(s.thr, s.outstanding, s.lh)
  }

  /** A system call in progress excludes commit and recovery. */
  lemma {:induction false} CallAlone(s: State, t: nat)
    requires Light(s) && Tid(s, t) && s.thr[t].op.Some?
    ensures s.phase == Quiet && !s.boot && !s.committing && s.outstanding >= 1
  {
    SumUpdate(s.thr, t, s.thr[t], OpBit());
  }

  lemma {:induction false} ThreadOps(thr: seq<Thread>, outstanding: int, lh: seq<int>, t: nat, x: Thread, lh': seq<int>)
    requires OpsOk(thr, outstanding, lh) && t < |thr| && forall b :: b in lh ==> b in lh'
    requires x.op.Some? ==> forall b :: b in x.mine ==> b in lh'
    ensures OpsOk(thr[t := x], outstanding + (if x.op.Some? then 1 else 0) - (if thr[t].op.Some? then 1 else 0), lh')
  {
    SumUpdate(thr, t, x, OpBit());
  }

  lemma {:induction false} IdleOps(thr: seq<Thread>, outstanding: int, lh: seq<int>, lh': seq<int>)
    requires OpsOk(thr, outstanding, lh) && outstanding == 0
    ensures OpsOk(thr, outstanding, lh')
  {
    forall t | 0 <= t < |thr| ensures thr[t].op == None {
      NoCalls(thr, t);
    }
  }

  lemma {:induction false} StepLight(c: Config, s: State, x: Step)
    requires Light(s) && c.l.Valid() && |s.disk| == c.l.blocks && BufShape(c, s.bufs)
    requires May(c, s, x) && !Panics(c, s, x)
    ensures Light(Next(c, s, x))
  {
    hide OpsOk, NewBuf, NewRefs, Absorb, Header, PutHeader;
    var s' := Next(c, s, x);
    if OnBuffer(x) {
      RefsLight(s, x.t, NewRefs(c, s, x));
    } else if x.BeginOp? || x.LogTest? || x.LogWrite? || x.EndOp? {
      CallLight(c, s, x);
    } else if x.Crash? {
      BootOps(|s.thr|);
    } else {
      IdleOps(s.thr, s.outstanding, s.lh, s'.lh);
    }
  }

  lemma {:induction false} RefsLight(s: State, t: nat, refs: map<nat, Use>)
    requires Light(s) && Tid(s, t)
    ensures OpsOk(s.thr[t := s.thr[t].(refs := refs)], s.outstanding, s.lh)
  {
    ThreadOps(s.thr, s.outstanding, s.lh, t, s.thr[t].(refs := refs), s.lh);
  }

  lemma {:induction false} CallLight(c: Config, s: State, x: Step)
    requires Light(s) && c.l.Valid() && |s.disk| == c.l.blocks && BufShape(c, s.bufs)
    requires May(c, s, x) && !Panics(c, s, x) && (x.BeginOp? || x.LogTest? || x.LogWrite? || x.EndOp?)
    ensures Light(Next(c, s, x))
  {
    hide Absorb;
    var s' := Next(c, s, x);
    if !x.BeginOp? {
      CallAlone(s, x.t);
    }
    ThreadOps(s.thr, s.outstanding, s.lh, x.t, s'.thr[x.t], s'.lh);
  }

  lemma {:induction false} BootOps(n: nat)
    ensures OpsOk(seq(n, _ => IDLE), 0, [])
  {
    SumIdle(n, OpBit());
  }

  lemma {:induction false} RunLight(c: Config, h: Habit, s: State, xs: seq<Step>, s': State)
    requires Light(s) && Reaches(c, h, s, xs, s')
    ensures Light(s')
    decreases |xs|
  {
    hide Light, Next, May, Panics, Within;
    if xs != [] {
      StepLight(c, s, xs[0]);
      RunLight(c, h, Next(c, s, xs[0]), xs[1..], s');
    }
  }

  lemma {:induction false} InitLight(c: Config, s: State)
    requires Init(c, s)
    ensures Light(s) && SpaceOk(s.thr, s.lh) && |s.bufs| == c.nbuf
    ensures forall t :: 0 <= t < |s.thr| ==> s.thr[t].passed == None
  {
    hide OpsOk, SpaceOk;
    BootOps(|s.thr|);
    assert s.lh == [] && s.thr == seq(|s.thr|, _ => IDLE);
    SumIdle(|s.thr|, OpBit());
    IdleSpace(s.thr, s.lh);
  }

  /**
   In every run whatever, a commit never overlaps a system call, and what calls
   in progress have logged is in the header.
   */
  lemma {:induction false} NoOverlap(c: Config, s: State)
    requires ReachableBy(c, Any, s)
    ensures s.committing ==> s.outstanding == 0 && forall t :: 0 <= t < |s.thr| ==> s.thr[t].op == None
    ensures forall t, b :: 0 <= t < |s.thr| && s.thr[t].op.Some? && b in s.thr[t].mine ==> b in s.lh
  {
    hide Reaches;
    var s0, xs :| Init(c, s0) && Reaches(c, Any, s0, xs, s);
    InitLight(c, s0);
    RunLight(c, Any, s0, xs, s);
    if s.committing {
      forall t | 0 <= t < |s.thr| ensures s.thr[t].op == None {
        NoCalls(s.thr, t);
      }
    }
  }

  // Calls within their reservations

  lemma {:induction false} StepSpace(c: Config, s: State, x: Step)
    requires Light(s) && c.l.Valid() && |s.disk| == c.l.blocks && BufShape(c, s.bufs) && SpaceOk(s.thr, s.lh)
    requires May(c, s, x) && Within(c, Frugal, s, x) && !Panics(c, s, x)
    ensures var s' := Next(c, s, x); SpaceOk(s'.thr, s'.lh)
  {
    hide SpaceOk, NewBuf, NewRefs, Absorb, PutHeader;
    if OnBuffer(x) {
      RefsSpace(s.thr, s.lh, x.t, NewRefs(c, s, x));
    } else if x.BeginOp? {
      BeginSpace(s.thr, s.outstanding, s.lh, x.t, s.nextOp);
    } else if x.LogTest? {
      TestSpace(s.thr, s.lh, x.t, x.i);
    } else if x.LogWrite? {
      LogWriteSpace(s.thr, s.lh, x.t, s.bufs[x.i].bno);
    } else if x.EndOp? {
      EndSpace(s.thr, s.lh, x.t);
    } else if x.Crash? {
      SumIdle(|s.thr|, OpBit());
      IdleSpace(Next(c, s, x).thr, []);
    } else if x.LoadHead? {
      IdleSpace(s.thr, Header(s.bufs[x.i].data));
    } else if x.ClearHead? {
      IdleSpace(s.thr, []);
    }
  }

  lemma {:induction false} RunSpace(c: Config, s: State, xs: seq<Step>, s': State)
    requires Light(s) && SpaceOk(s.thr, s.lh) && Reaches(c, Frugal, s, xs, s')
    ensures Light(s') && SpaceOk(s'.thr, s'.lh)
    decreases |xs|
  {
    hide Light, Next, May, Panics, Within, SpaceOk;
    if xs != [] {
      StepLight(c, s, xs[0]);
      StepSpace(c, s, xs[0]);
      RunSpace(c, Next(c, s, xs[0]), xs[1..], s');
    }
  }

  /** In every frugal run the blocks in the header and all unused reservations fit in LOGSIZE. */
  lemma {:induction false} Reserved(c: Config, s: State)
    requires ReachableBy(c, Frugal, s)
    ensures Light(s) && |s.lh| + Sum(s.thr, Unspent()) <= LOGSIZE
    ensures forall t :: 0 <= t < |s.thr| && s.thr[t].op.Some? ==> |s.thr[t].mine| <= MAXOPBLOCKS
  {
    hide Light, Reaches;
    var s0, xs :| Init(c, s0) && Reaches(c, Frugal, s0, xs, s);
    InitLight(c, s0);
    RunSpace(c, s0, xs, s);
  }

  /** A sparing run is a frugal one. */
  lemma {:induction false} SparingIsFrugal(c: Config, s: State, xs: seq<Step>, s': State)
    requires Reaches(c, Sparing, s, xs, s')
    ensures Reaches(c, Frugal, s, xs, s')
    decreases |xs|
  {
    hide Next, May, Panics, Within;
    if xs != [] {
      SparingStep(c, s, xs[0]);
      SparingIsFrugal(c, Next(c, s, xs[0]), xs[1..], s');
    }
  }

  lemma SparingStep(c: Config, s: State, x: Step)
    requires Within(c, Sparing, s, x)
    ensures Within(c, Frugal, s, x)
  {
    if InLogWrite(s, x) {
      var mine, b := s.thr[x.t].mine, s.bufs[x.i].bno;
      assert |mine + {b}| <= |mine| + 1;
    }
  }

  /** A frugal call finds room for a new block, whenever it passed the test, in a log of more than LOGSIZE blocks. */
  lemma {:induction false} FrugalRoom(c: Config, s: State, x: Step)
    requires Light(s) && SpaceOk(s.thr, s.lh) && May(c, s, x) && Within(c, Frugal, s, x) && c.l.size > LOGSIZE
    ensures Room(c, s, x)
  {
    if x.LogWrite? && s.bufs[x.i].bno !in s.lh {
      var mine, b := s.thr[x.t].mine, s.bufs[x.i].bno;
      assert b !in mine;
      assert |mine + {b}| == |mine| + 1;
      SumUpdate(s.thr, x.t, s.thr[x.t], Unspent());
    }
  }

  /** So a frugal run over a log of more than LOGSIZE blocks is one of those that crash safety is proved for. */
  lemma {:induction false} FrugalIsRoomy(c: Config, s: State, xs: seq<Step>, s': State)
    requires Light(s) && SpaceOk(s.thr, s.lh) && Reaches(c, Frugal, s, xs, s') && c.l.size > LOGSIZE
    ensures Reaches(c, Roomy, s, xs, s')
    decreases |xs|
  {
    hide Light, Next, May, Panics, SpaceOk, Room;
    if xs != [] {
      StepLight(c, s, xs[0]);
      StepSpace(c, s, xs[0]);
      FrugalRoom(c, s, xs[0]);
      FrugalIsRoomy(c, Next(c, s, xs[0]), xs[1..], s');
    }
  }

  lemma {:induction false} FrugalReachable(c: Config, s: State)
    requires ReachableBy(c, Frugal, s) && c.l.size > LOGSIZE
    ensures Reachable(c, s)
  {
    hide Reaches, Light, SpaceOk;
    var s0, xs :| Init(c, s0) && Reaches(c, Frugal, s0, xs, s);
    InitLight(c, s0);
    FrugalIsRoomy(c, s0, xs, s);
  }

  /**
   In a frugal run over a log of more than LOGSIZE blocks, log_write panics
   exactly when the header is full, and then every call in progress has used up
   its reservation and the block is already in the log.
   */
  lemma {:induction false} FrugalPanics(c: Config, s: State, x: Step)
    requires ReachableBy(c, Frugal, s) && May(c, s, x) && Within(c, Frugal, s, x) && c.l.size > LOGSIZE
    ensures Panics(c, s, x) <==> x.LogTest? && |s.lh| == LOGSIZE
    ensures Panics(c, s, x) ==>
              && s.bufs[x.i].bno in s.thr[x.t].mine
              && (forall t :: 0 <= t < |s.thr| && s.thr[t].op.Some? ==> |s.thr[t].mine| == MAXOPBLOCKS)
  {
    hide ReachableBy, PhaseOk;
    Reserved(c, s);
    if x.LogTest? || x.EndOp? {
      CallAlone(s, x.t);
    }
    if x.LogTest? && |s.lh| == LOGSIZE {
      forall t | 0 <= t < |s.thr| && s.thr[t].op.Some? ensures |s.thr[t].mine| == MAXOPBLOCKS {
        SumUpdate(s.thr, t, s.thr[t], Unspent());
      }
      var mine, b := s.thr[x.t].mine, s.bufs[x.i].bno;
      assert b !in mine ==> |mine + {b}| == |mine| + 1;
    }
  }

  /** Calls that stop at their reservation never panic, in a log of more than LOGSIZE blocks. */
  lemma {:induction false} NoPanic(c: Config, s: State, x: Step)
    requires ReachableBy(c, Frugal, s) && May(c, s, x) && Within(c, Sparing, s, x) && c.l.size > LOGSIZE
    ensures !Panics(c, s, x)
  {
    hide ReachableBy, Panics;
    SparingStep(c, s, x);
    FrugalPanics(c, s, x);
  }

  // A cache that cannot hold more logged blocks than the header

  /** Every logged block has a buffer of its own, and a block to be logged anew has another one. */
  lemma {:induction false} LoggedFit(bufs: seq<Buf>, lh: seq<int>, i: nat)
    requires i < |bufs| && bufs[i].bno !in lh && Distinct(lh) && forall b :: b in lh ==> exists j :: Pins(bufs, j, b)
    ensures |lh| + 1 <= |bufs|
  {
    var at := PinsOf(bufs, lh, |lh|);
    var all := at + [i];
    assert Distinct(all) by {
      forall j, k | 0 <= j < k < |all| ensures all[j] != all[k] {
        assert bufs[all[j]].bno == lh[j];
      }
    }
    CardElems(all);
    CardRange(0, |bufs|);
    CardSubset(Elems(all), Range(0, |bufs|));
  }

  /** The buffers of the first `n` logged blocks. */
  lemma {:induction false} PinsOf(bufs: seq<Buf>, lh: seq<int>, n: nat) returns (at: seq<nat>)
    requires n <= |lh| && forall b :: b in lh ==> exists j :: Pins(bufs, j, b)
    ensures |at| == n && forall k :: 0 <= k < n ==> at[k] < |bufs| && bufs[at[k]].bno == lh[k] && bufs[at[k]].dirty
  {
    if n == 0 {
      at := [];
    } else {
      at := PinsOf(bufs, lh, n - 1);
      var b := lh[n - 1];
      assert b in lh;
      var j: int :| Pins(bufs, j, b);
      at := at + [j];
    }
  }

  lemma {:induction false} CacheRoom(c: Config, s: State, x: Step)
    requires Inv(c, s) && May(c, s, x) && |s.bufs| <= Capacity(c.l)
    ensures Room(c, s, x)
  {
    hide Distinct, Pins;
    if x.LogWrite? && s.bufs[x.i].bno !in s.lh {
      InCall(c, s, x.t);
      LoggedFit(s.bufs, s.lh, x.i);
    }
  }

  lemma StepBuffers(c: Config, s: State, x: Step)
    requires c.l.Valid() && |s.disk| == c.l.blocks && BufShape(c, s.bufs) && May(c, s, x) && !Panics(c, s, x)
    ensures |Next(c, s, x).bufs| == |s.bufs|
  {
    hide NewBuf, NewRefs, Absorb, Header, PutHeader;
  }

  lemma {:induction false} CacheIsRoomy(c: Config, s: State, xs: seq<Step>, s': State)
    requires Inv(c, s) && |s.bufs| <= Capacity(c.l) && Reaches(c, Any, s, xs, s')
    ensures Reaches(c, Roomy, s, xs, s')
    decreases |xs|
  {
    hide Inv, Next, May, Panics, Room;
    if xs != [] {
      CacheRoom(c, s, xs[0]);
      StepInv(c, s, xs[0]);
      StepBuffers(c, s, xs[0]);
      CacheIsRoomy(c, Next(c, s, xs[0]), xs[1..], s');
    }
  }

  /**
   With no more buffers than header entries, and log blocks for them, every run
   whatever is one that crash safety is proved for.
   */
  lemma {:induction false} CacheReachable(c: Config, s: State)
    requires ReachableBy(c, Any, s) && c.nbuf <= Capacity(c.l)
    ensures Reachable(c, s)
  {
    hide Reaches, Light, SpaceOk, Inv;
    var s0, xs :| Init(c, s0) && Reaches(c, Any, s0, xs, s);
    InitLight(c, s0);
    InitInv(c, s0);
    CacheIsRoomy(c, s0, xs, s);
  }

  // From the test of log_write to its append

  ghost predicate PassedOk(c: Config, s: State) {
    forall t :: 0 <= t < |s.thr| && s.thr[t].passed.Some? ==> Loggable(c, s, t, s.thr[t].passed.value)
  }

  /** No operation of bio.c by one thread takes away the buffer another has locked. */
  lemma {:induction false} BufferPassed(c: Config, s: State, x: Step)
    requires Inv(c, s) && PassedOk(c, s) && OnBuffer(x) && May(c, s, x)
    ensures PassedOk(c, Touch(s, x.i, NewBuf(c, s, x), x.t, NewRefs(c, s, x)))
  {
    hide CacheOk, ChangedOk, PinOk, ContentOk, CallInv, DurOk, DiskCur, PhaseOk, NewRefs;
    if x.BgetRecycle? {
      FreeBuffer(s.bufs, s.thr, x.i, x.t);
    }
    var s' := Touch(s, x.i, NewBuf(c, s, x), x.t, NewRefs(c, s, x));
    forall t | 0 <= t < |s'.thr| && s'.thr[t].passed.Some? ensures Loggable(c, s', t, s'.thr[t].passed.value) {
      assert t != x.t && Loggable(c, s, t, s.thr[t].passed.value);
    }
  }

  lemma {:induction false} StepPassed(c: Config, s: State, x: Step)
    requires Inv(c, s) && PassedOk(c, s) && May(c, s, x) && !Panics(c, s, x)
    ensures PassedOk(c, Next(c, s, x))
  {
    hide CacheOk, CountOk, OwnOk, ChangedOk, PinOk, ContentOk, CallInv, DurOk, DiskCur, NewBuf, NewRefs, Absorb,
        PutHeader, Header;
    if OnBuffer(x) {
      BufferPassed(c, s, x);
    } else if !x.Crash? {
      var s' := Next(c, s, x);
      forall t | 0 <= t < |s'.thr| && s'.thr[t].passed.Some? ensures Loggable(c, s', t, s'.thr[t].passed.value) {
        if s.thr[t].passed.Some? {
          InCall(c, s, t);
        }
      }
    }
  }

  lemma {:induction false} RunPassed(c: Config, s: State, xs: seq<Step>, s': State)
    requires Inv(c, s) && PassedOk(c, s) && Reaches(c, Roomy, s, xs, s')
    ensures PassedOk(c, s')
    decreases |xs|
  {
    hide Inv, PassedOk, Next, May, Panics, Room;
    if xs != [] {
      StepInv(c, s, xs[0]);
      StepPassed(c, s, xs[0]);
      RunPassed(c, Next(c, s, xs[0]), xs[1..], s');
    }
  }

  /** A call that has passed the test still has its buffer locked, so it can append. */
  lemma {:induction false} AppendFollows(c: Config, s: State, t: nat, i: nat)
    requires Reachable(c, s) && Tid(s, t) && s.thr[t].passed == Some(i)
    ensures May(c, s, LogWrite(t, i))
  {
    hide Reaches, Inv, Light, SpaceOk;
    var s0, xs :| Init(c, s0) && Reaches(c, Roomy, s0, xs, s);
    InitLight(c, s0);
    InitInv(c, s0);
    RunPassed(c, s0, xs, s);
  }
}
