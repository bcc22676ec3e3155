/** Every step of the life cycle keeps the invariant. */
module LifeSafety {
  import opened Basics
  import opened Processes
  import opened LifeCycle
  import opened LifeInvariant

  /** Putting the pieces together after a scheduling decision. */
  lemma {:induction false} Rescheduling(s: Sys, init: nat, procs: seq<Proc>, lock: Option<nat>)
    requires Inv(s, init) && Rescheduled(s.procs, procs)
    requires lock.Some? ==> lock.value < |procs| && procs[lock.value].state.RUNNING?
    requires forall i :: 0 <= i < |procs| && s.pcs[i].Forking? ==> !procs[i].state.SLEEPING?
    requires forall i :: 0 <= i < |procs| && s.pcs[i].Waiting? ==>
               procs[i].state.RUNNABLE? || (procs[i].state.RUNNING? && lock == Some(i))
               || (procs[i].state.SLEEPING? && s.procs[i].state.SLEEPING? && procs[i].chan == s.procs[i].chan)
    ensures Inv(s.(procs := procs, lock := lock), init)
  {
    hide Parents, Pids, Times, Forks, Waits, SameLife;
    RescheduledKeeps(s.procs, procs, init, s.nextpid, s.exits, s.reports, s.etime, s.ticks);
    RescheduledForks(s.procs, procs, s.pcs, s.etime, s.ticks);
    RescheduledWaits(s.procs, procs, s.pcs, s.lock, lock);
  }

  lemma {:induction false} SchedulingInv(s: Sys, init: nat, step: Step)
    requires Inv(s, init) && May(s, init, step)
    requires step.Yield? || step.Sleep? || step.Wakeup? || step.Kill? || step.Dispatch? || step.Resume?
    ensures Inv(Next(s, init, step), init)
  {
    hide Parents, Pids, Times;
    var s' := Next(s, init, step);
    forall i | 0 <= i < |s.procs|
      ensures SameLife(s.procs[i], s'.procs[i])
      ensures s.pcs[i].Forking? ==> !s'.procs[i].state.SLEEPING?
      ensures s.pcs[i].Waiting? ==>
                s'.procs[i].state.RUNNABLE? || (s'.procs[i].state.RUNNING? && s'.lock == Some(i))
                || (s'.procs[i].state.SLEEPING? && s.procs[i].state.SLEEPING? && s'.procs[i].chan == s.procs[i].chan)
    {
      assert ForkOk(s.procs, s.pcs, s.etime, s.ticks, i) && WaitOk(s.procs, s.pcs, s.lock, i);
    }
    Rescheduling(s, init, s'.procs, s'.lock);
  }

  /** wait goes to sleep, or returns without a child. */
  lemma {:induction false} WaitInv(s: Sys, init: nat, p: nat, r: Scan)
    requires Inv(s, init) && May(s, init, WaitStep(p, r)) && !r.Reap?
    ensures Inv(Waited(s, p, r), init)
  {
    hide Parents, Pids, Times, HasZombie, HasChild;
    var s' := Waited(s, p, r);
    assert WaitOk(s.procs, s.pcs, s.lock, p) && ForkOk(s.procs, s.pcs, s.etime, s.ticks, p);
    RescheduledKeeps(s.procs, s'.procs, init, s.nextpid, s.exits, s.reports, s.etime, s.ticks);
    forall i | 0 <= i < |s.procs| ensures ForkOk(s'.procs, s'.pcs, s.etime, s.ticks, i) {
      assert ForkOk(s.procs, s.pcs, s.etime, s.ticks, i);
    }
    forall i | 0 <= i < |s.procs| ensures WaitOk(s'.procs, s'.pcs, s'.lock, i) {
      assert WaitOk(s.procs, s.pcs, s.lock, i);
      RescheduledFamily(s.procs, s'.procs, i);
    }
  }

  // Fork

  /** Slot `c` changes in a way that no waiting process can see. */
  lemma {:induction false} WaitsSame(procs: seq<Proc>, pcs: seq<Pc>, lock: Option<nat>, procs': seq<Proc>,
                                     pcs': seq<Pc>, c: nat)
    requires |procs| == |pcs| == |procs'| == |pcs'| && c < |procs| && Waits(procs, pcs, lock)
    requires forall i :: 0 <= i < |procs| && i != c ==> procs'[i] == procs[i]
    requires !Alive(procs[c]) && !procs[c].state.ZOMBIE? && !procs'[c].state.ZOMBIE?
    requires (procs[c].parent == None || procs'[c].parent == procs[c].parent)
    requires forall i :: 0 <= i < |pcs| && pcs'[i].Waiting? ==> pcs[i].Waiting?
    ensures Waits(procs', pcs', lock)
  {
    forall i | 0 <= i < |procs| ensures WaitOk(procs', pcs', lock, i) {
      assert WaitOk(procs, pcs, lock, i);
      if HasZombie(procs', i) {
        var k :| 0 <= k < |procs'| && IsChild(procs'[k], i) && procs'[k].state.ZOMBIE?;
        assert IsChild(procs[k], i) && procs[k].state.ZOMBIE?;
      }
      if HasChild(procs, i) {
        var k :| 0 <= k < |procs| && IsChild(procs[k], i);
        assert IsChild(procs'[k], i);
      }
    }
  }

  /** Only slot `c`, which has not started, and the place of process `p`, which forks it, differ. */
  ghost predicate ForkStep(s: Sys, s': Sys, p: nat, c: nat) {
    && |s.procs| == |s.pcs| == |s.etime| == |s'.procs| == |s'.pcs| == |s'.etime| && p < |s.procs| && c < |s.procs|
    && p != c
    && (forall i :: 0 <= i < |s.procs| && i != c ==> s'.procs[i] == s.procs[i] && s'.etime[i] == s.etime[i])
    && (forall i :: 0 <= i < |s.pcs| && i != p && i != c ==> s'.pcs[i] == s.pcs[i])
    && !Alive(s.procs[c]) && !s.procs[c].state.ZOMBIE? && !s'.procs[c].state.ZOMBIE? && Alive(s.procs[p])
    && !s'.pcs[p].Waiting? && s'.pcs[c].Waiting? == s.pcs[c].Waiting?
    && s'.ticks == s.ticks && s'.lock == s.lock && s'.exits == s.exits && s'.reports == s.reports
  }

  lemma {:induction false} ForkParents(s: Sys, s': Sys, init: nat, p: nat, c: nat)
    requires ForkStep(s, s', p, c) && Parents(s.procs, init) && ParentOk(s'.procs, init, c)
    ensures Parents(s'.procs, init)
  {
    forall i | 0 <= i < |s.procs| ensures ParentOk(s'.procs, init, i) {
      assert ParentOk(s.procs, init, i);
    }
  }

  lemma {:induction false} ForkForks(s: Sys, s': Sys, p: nat, c: nat)
    requires ForkStep(s, s', p, c) && Forks(s.procs, s.pcs, s.etime, s.ticks)
    requires ForkOk(s'.procs, s'.pcs, s'.etime, s'.ticks, p)
    requires !s'.pcs[c].Forking? && (s'.pcs[p].Forking? ==> s'.pcs[p].child == c)
    requires forall j :: 0 <= j < |s.pcs| && j != p && s.pcs[j].Forking? ==> s.pcs[j].child != c
    ensures Forks(s'.procs, s'.pcs, s'.etime, s'.ticks)
  {
    forall i | 0 <= i < |s.procs| ensures ForkOk(s'.procs, s'.pcs, s'.etime, s'.ticks, i) {
      assert ForkOk(s.procs, s.pcs, s.etime, s.ticks, i);
    }
  }

  lemma {:induction false} ForkTimesKept(s: Sys, s': Sys, p: nat, c: nat)
    requires ForkStep(s, s', p, c) && Times(s.procs, s.etime, s.ticks) && TimeOk(s'.procs[c], s'.etime[c], s'.ticks)
    ensures Times(s'.procs, s'.etime, s'.ticks)
  {
    forall i | 0 <= i < |s.procs| ensures TimeOk(s'.procs[i], s'.etime[i], s'.ticks) {
      assert TimeOk(s.procs[i], s.etime[i], s.ticks);
    }
  }

  lemma {:induction false} ForkPids(s: Sys, s': Sys, p: nat, c: nat)
    requires ForkStep(s, s', p, c) && Pids(s.procs, s.nextpid, s.exits, s.reports) && s.nextpid <= s'.nextpid
    requires PidOk(s'.procs[c], s'.nextpid, s'.exits) && Unreported(s'.procs[c], s'.reports)
    requires !s'.procs[c].state.UNUSED? ==>
              forall i :: 0 <= i < |s.procs| && i != c && !s.procs[i].state.UNUSED? ==>
                  s.procs[i].pid != s'.procs[c].pid
    ensures Pids(s'.procs, s'.nextpid, s'.exits, s'.reports)
  {
    forall i | 0 <= i < |s.procs|
      ensures PidOk(s'.procs[i], s'.nextpid, s'.exits) && Unreported(s'.procs[i], s'.reports)
    {
      assert PidOk(s.procs[i], s.nextpid, s.exits) && Unreported(s.procs[i], s.reports);
    }
  }

  /** A fork step from the invariant, in terms of slots `p` and `c` alone. */
  lemma {:induction false} ForkStepInv(s: Sys, s': Sys, init: nat, p: nat, c: nat)
    requires Inv(s, init) && ForkStep(s, s', p, c) && init < |s'.procs| && s.nextpid <= s'.nextpid
    requires s.procs[c].parent == None || s'.procs[c].parent == s.procs[c].parent
    requires ParentOk(s'.procs, init, c) && ForkOk(s'.procs, s'.pcs, s'.etime, s'.ticks, p)
    requires TimeOk(s'.procs[c], s'.etime[c], s'.ticks)
    requires !s'.pcs[c].Forking? && (s'.pcs[p].Forking? ==> s'.pcs[p].child == c)
    requires forall j :: 0 <= j < |s.pcs| && j != p && s.pcs[j].Forking? ==> s.pcs[j].child != c
    requires PidOk(s'.procs[c], s'.nextpid, s'.exits) && Unreported(s'.procs[c], s'.reports)
    requires !s'.procs[c].state.UNUSED? ==>
              forall i :: 0 <= i < |s.procs| && i != c && !s.procs[i].state.UNUSED? ==>
                  s.procs[i].pid != s'.procs[c].pid
    ensures Inv(s', init)
  {
    hide Parents, Forks, Times, Pids, Waits, ParentOk, ForkOk, TimeOk, PidOk, Unreported;
    ForkParents(s, s', init, p, c);
    ForkForks(s, s', p, c);
    ForkTimesKept(s, s', p, c);
    ForkPids(s, s', p, c);
    WaitsSame(s.procs, s.pcs, s.lock, s'.procs, s'.pcs, c);
  }

  /** What the invariant says about a slot that has not started. */
  lemma {:induction false} NotStarted(s: Sys, init: nat, c: nat)
    requires Inv(s, init) && c < |s.procs| && !Alive(s.procs[c])
    ensures c != init && !s.pcs[c].Waiting? && !s.pcs[c].Forking?
    ensures s.procs[c].state.UNUSED? ==>
              && s.procs[c].parent == None && forall j :: 0 <= j < |s.pcs| && s.pcs[j].Forking? ==> s.pcs[j].child != c
  {
    hide Pids, Times;
    assert ParentOk(s.procs, init, c) && WaitOk(s.procs, s.pcs, s.lock, c)
           && ForkOk(s.procs, s.pcs, s.etime, s.ticks, c);
    forall j | 0 <= j < |s.pcs| && s.pcs[j].Forking?
      ensures s.pcs[j].child < |s.procs| && s.procs[s.pcs[j].child].state.EMBRYO?
    {
      assert ForkOk(s.procs, s.pcs, s.etime, s.ticks, j);
    }
  }

  lemma {:induction false} ForkAllocInv(s: Sys, init: nat, p: nat, c: nat)
    requires Inv(s, init) && May(s, init, ForkAlloc(p, c))
    ensures Inv(Next(s, init, ForkAlloc(p, c)), init)
  {
    hide Parents, Forks, Times, Waits;
    var s' := Next(s, init, ForkAlloc(p, c));
    NotStarted(s, init, c);
    forall i | 0 <= i < |s.procs| && !s.procs[i].state.UNUSED? ensures s.procs[i].pid != s.nextpid {
      assert PidOk(s.procs[i], s.nextpid, s.exits);
    }
    forall k | 0 <= k < |s.reports| ensures s.reports[k].pid != s.nextpid {
      assert ReportOk(s.reports[k], s.exits);
    }
    ForkStepInv(s, s', init, p, c);
  }

  /** What the invariant says about the slot being forked. */
  lemma {:induction false} BeingForked(s: Sys, init: nat, p: nat)
    requires Inv(s, init) && p < |s.procs| && s.pcs[p].Forking?
    ensures var c := s.pcs[p].child;
            && c < |s.procs| && c != p && c != init && s.procs[c].state.EMBRYO? && !s.pcs[c].Waiting?
            && !s.pcs[c].Forking?
            && ForkOk(s.procs, s.pcs, s.etime, s.ticks, p) && PidOk(s.procs[c], s.nextpid, s.exits)
            && Unreported(s.procs[c], s.reports)
            && (forall j :: 0 <= j < |s.pcs| && j != p && s.pcs[j].Forking? ==> s.pcs[j].child != c)
            && (forall i :: 0 <= i < |s.procs| && i != c && !s.procs[i].state.UNUSED? ==>
                s.procs[i].pid != s.procs[c].pid)
  {
    hide Times, Parents, Waits;
    assert ForkOk(s.procs, s.pcs, s.etime, s.ticks, p);
    NotStarted(s, init, s.pcs[p].child);
    assert PidOk(s.procs[s.pcs[p].child], s.nextpid, s.exits);
  }

  lemma {:induction false} ForkingInv(s: Sys, init: nat, step: Step)
    requires Inv(s, init) && May(s, init, step)
    requires (step.ForkFail? || step.ForkTimes? || step.ForkParent? || step.ForkDone?)
    ensures Inv(Next(s, init, step), init)
  {
    hide Inv;
    BeingForked(s, init, step.p);
    var s', c := Next(s, init, step), s.pcs[step.p].child;
    ForkStepInv(s, s', init, step.p, c);
  }

  // Exit

  /** What exit of `p` does to another process: it may be woken, and its parent may become init. */
  predicate AfterExit(a: Proc, b: Proc, p: nat, init: nat, woken: bool) {
    && SameLife(a.(parent := b.parent), b) && b.chan == a.chan
    && b.parent == (if IsChild(a, p) then Some(init) else a.parent)
    && (woken ==> !b.state.SLEEPING?) && (b.state == a.state || (a.state.SLEEPING? && b.state.RUNNABLE?))
  }

  /** exit, slot by slot. */
  ghost predicate ExitEffect(procs: seq<Proc>, procs': seq<Proc>, p: nat, init: nat, status: int, now: nat) {
    && |procs'| == |procs| && p < |procs| && procs[p].parent.Some?
    && procs'[p] == procs[p].(state := ZOMBIE, status := status, ttime := now)
    && forall i :: 0 <= i < |procs| && i != p ==>
         AfterExit(procs[i], procs'[i], p, init,
                   procs[i].chan == OnProc(procs[p].parent.value)
                       || (procs[i].chan == OnProc(init) && HasZombie(procs, p)))
  }

  lemma {:induction false} ExitedEffect(procs: seq<Proc>, p: nat, init: nat, status: int, now: nat)
    requires p < |procs| && procs[p].state.RUNNING? && procs[p].parent.Some? && procs[p].parent.value != p
    ensures ExitEffect(procs, Exited(procs, p, init, status, now), p, init, status, now)
  {
    hide HasZombie;
    var woken := WakeAll(procs, OnProc(procs[p].parent.value));
    RescheduledFamily(procs, woken, p);
  }

  lemma {:induction false} ExitParents(procs: seq<Proc>, procs': seq<Proc>, init: nat, p: nat, status: int, now: nat)
    requires Parents(procs, init) && init < |procs| && p != init && ExitEffect(procs, procs', p, init, status, now)
    requires Alive(procs[p])
    ensures Parents(procs', init)
  {
    hide HasZombie;
    assert ParentOk(procs, init, init);
    forall i | 0 <= i < |procs| ensures ParentOk(procs', init, i) {
      assert ParentOk(procs, init, i);
    }
  }

  lemma {:induction false} ExitForks(procs: seq<Proc>, procs': seq<Proc>, pcs: seq<Pc>, etime: seq<nat>, init: nat,
                                     p: nat, status: int, now: nat)
    requires |pcs| == |etime| == |procs| && Forks(procs, pcs, etime, now)
    requires ExitEffect(procs, procs', p, init, status, now)
    requires Alive(procs[p]) && pcs[p].Free?
    ensures Forks(procs', pcs, etime, now)
  {
    hide HasZombie;
    forall i | 0 <= i < |procs| ensures ForkOk(procs', pcs, etime, now, i) {
      assert ForkOk(procs, pcs, etime, now, i);
    }
  }

  lemma {:induction false} ExitWaits(procs: seq<Proc>, procs': seq<Proc>, pcs: seq<Pc>, init: nat, p: nat, status: int,
                                     now: nat)
    requires |pcs| == |procs| && Waits(procs, pcs, None) && ExitEffect(procs, procs', p, init, status, now)
    requires Alive(procs[p]) && pcs[p].Free? && procs[p].parent != Some(p)
    ensures Waits(procs', pcs, None)
  {
    forall i | 0 <= i < |procs| ensures WaitOk(procs', pcs, None, i) {
      assert WaitOk(procs, pcs, None, i);
      if i != p && pcs[i].Waiting? && procs'[i].state.SLEEPING? {
        assert procs[i].chan == OnProc(i);
        forall k | 0 <= k < |procs'| ensures !(IsChild(procs'[k], i) && procs'[k].state.ZOMBIE?) {
        }
        var k :| 0 <= k < |procs| && IsChild(procs[k], i);
        assert IsChild(procs'[k], i);
      }
    }
  }

  lemma {:induction false} ExitPids(procs: seq<Proc>, procs': seq<Proc>, nextpid: nat, exits: map<nat, int>,
                                    reports: seq<Report>, init: nat, p: nat, status: int, now: nat)
    requires Pids(procs, nextpid, exits, reports) && ExitEffect(procs, procs', p, init, status, now) && Alive(procs[p])
    ensures Pids(procs', nextpid, exits[procs[p].pid := status], reports)
  {
    hide HasZombie;
    var exits' := exits[procs[p].pid := status];
    assert PidOk(procs[p], nextpid, exits) && Unreported(procs[p], reports);
    forall i | 0 <= i < |procs| ensures PidOk(procs'[i], nextpid, exits') && Unreported(procs'[i], reports) {
      assert PidOk(procs[i], nextpid, exits) && Unreported(procs[i], reports);
    }
    forall k | 0 <= k < |reports| ensures ReportOk(reports[k], exits') {
      assert ReportOk(reports[k], exits);
    }
  }

  lemma {:induction false} ExitTimes(procs: seq<Proc>, procs': seq<Proc>, etime: seq<nat>, init: nat, p: nat,
                                     status: int, now: nat)
    requires |etime| == |procs| && Times(procs, etime, now) && ExitEffect(procs, procs', p, init, status, now)
    requires Alive(procs[p])
    ensures Times(procs', etime, now)
  {
    hide HasZombie;
    forall i | 0 <= i < |procs| ensures TimeOk(procs'[i], etime[i], now) {
      assert TimeOk(procs[i], etime[i], now);
    }
  }

  lemma {:induction false} ExitInv(s: Sys, init: nat, p: nat, status: int)
    requires Inv(s, init) && May(s, init, Exit(p, status))
    ensures Inv(Next(s, init, Exit(p, status)), init)
  {
    hide Forks, Waits, Pids, Times, Exited, ExitEffect;
    assert ParentOk(s.procs, init, p);
    var procs' := Exited(s.procs, p, init, status, s.ticks);
    ExitedEffect(s.procs, p, init, status, s.ticks);
    ExitParents(s.procs, procs', init, p, status, s.ticks);
    ExitForks(s.procs, procs', s.pcs, s.etime, init, p, status, s.ticks);
    ExitWaits(s.procs, procs', s.pcs, init, p, status, s.ticks);
    ExitPids(s.procs, procs', s.nextpid, s.exits, s.reports, init, p, status, s.ticks);
    ExitTimes(s.procs, procs', s.etime, init, p, status, s.ticks);
  }

  // Reaping

  lemma {:induction false} ReapInv(s: Sys, init: nat, p: nat, c: nat)
    requires Inv(s, init) && May(s, init, WaitStep(p, Reap(c)))
    ensures Inv(Waited(s, p, Reap(c)), init)
  {
    hide Parents, Forks, Waits, Pids, Times;
    ReapFamily(s, init, p, c);
    ReapForks(s, init, p, c);
    ReapPids(s, init, p, c);
  }

  lemma {:induction false} ReapFamily(s: Sys, init: nat, p: nat, c: nat)
    requires Inv(s, init) && May(s, init, WaitStep(p, Reap(c)))
    ensures var s' := Waited(s, p, Reap(c)); Parents(s'.procs, init) && Waits(s'.procs, s'.pcs, s'.lock)
  {
    hide Forks, Pids, Times;
    var s' := Waited(s, p, Reap(c));
    forall i | 0 <= i < |s.procs| ensures ParentOk(s'.procs, init, i) {
      assert ParentOk(s.procs, init, i);
    }
    forall i | 0 <= i < |s.procs| ensures WaitOk(s'.procs, s'.pcs, s'.lock, i) {
      assert WaitOk(s.procs, s.pcs, s.lock, i);
      if HasZombie(s'.procs, i) {
        var k :| 0 <= k < |s'.procs| && IsChild(s'.procs[k], i) && s'.procs[k].state.ZOMBIE?;
        assert IsChild(s.procs[k], i) && s.procs[k].state.ZOMBIE?;
      }
      if i != p && HasChild(s.procs, i) {
        var k :| 0 <= k < |s.procs| && IsChild(s.procs[k], i);
        assert IsChild(s'.procs[k], i);
      }
    }
  }

  lemma {:induction false} ReapForks(s: Sys, init: nat, p: nat, c: nat)
    requires Inv(s, init) && May(s, init, WaitStep(p, Reap(c)))
    ensures var s' := Waited(s, p, Reap(c));
            Forks(s'.procs, s'.pcs, s'.etime, s'.ticks) && Times(s'.procs, s'.etime, s'.ticks)
  {
    hide Parents, Waits, Pids, HasZombie, HasChild;
    var s' := Waited(s, p, Reap(c));
    forall i | 0 <= i < |s.procs| ensures ForkOk(s'.procs, s'.pcs, s'.etime, s'.ticks, i) {
      assert ForkOk(s.procs, s.pcs, s.etime, s.ticks, i);
    }
    forall i | 0 <= i < |s.procs| ensures TimeOk(s'.procs[i], s'.etime[i], s'.ticks) {
      assert TimeOk(s.procs[i], s.etime[i], s.ticks);
    }
  }

  lemma {:induction false} ReapPids(s: Sys, init: nat, p: nat, c: nat)
    requires Inv(s, init) && May(s, init, WaitStep(p, Reap(c)))
    ensures var s' := Waited(s, p, Reap(c)); Pids(s'.procs, s'.nextpid, s'.exits, s'.reports)
  {
    hide Parents, Waits, Forks, HasZombie, HasChild;
    var s' := Waited(s, p, Reap(c));
    assert PidOk(s.procs[c], s.nextpid, s.exits) && Unreported(s.procs[c], s.reports)
           && TimeOk(s.procs[c], s.etime[c], s.ticks);
    forall i | 0 <= i < |s.procs|
      ensures PidOk(s'.procs[i], s'.nextpid, s'.exits) && Unreported(s'.procs[i], s'.reports)
    {
      assert PidOk(s.procs[i], s.nextpid, s.exits) && Unreported(s.procs[i], s.reports);
    }
    forall k | 0 <= k < |s'.reports| ensures ReportOk(s'.reports[k], s'.exits) {
      assert k < |s.reports| ==> ReportOk(s.reports[k], s.exits);
    }
  }

  // The clock

  lemma {:induction false} TickInv(s: Sys, init: nat)
    requires Inv(s, init) && May(s, init, Tick)
    ensures Inv(Next(s, init, Tick), init)
  {
    hide Parents, Forks, Waits, Pids, Times, TickAll;
    TickParents(s.procs, init);
    TickForks(s, init);
    TickPids(s.procs, s.nextpid, s.exits, s.reports);
    TickWaits(s.procs, s.pcs, s.lock);
  }

  lemma {:induction false} TickParents(procs: seq<Proc>, init: nat)
    requires Parents(procs, init)
    ensures Parents(TickAll(procs), init)
  {
    forall i | 0 <= i < |procs| ensures ParentOk(TickAll(procs), init, i) {
      assert ParentOk(procs, init, i);
    }
  }

  /** Every process is charged for the tick in exactly one place. */
  lemma {:induction false} TickForks(s: Sys, init: nat)
    requires Inv(s, init) && May(s, init, Tick)
    ensures var s' := Next(s, init, Tick);
            Forks(s'.procs, s'.pcs, s'.etime, s'.ticks) && Times(s'.procs, s'.etime, s'.ticks)
  {
    hide Parents, Waits, Pids;
    var s' := Next(s, init, Tick);
    forall i | 0 <= i < |s.procs|
      ensures ForkOk(s'.procs, s'.pcs, s'.etime, s'.ticks, i) && TimeOk(s'.procs[i], s'.etime[i], s'.ticks)
    {
      assert ForkOk(s.procs, s.pcs, s.etime, s.ticks, i) && TimeOk(s.procs[i], s.etime[i], s.ticks);
    }
  }

  lemma {:induction false} TickPids(procs: seq<Proc>, nextpid: nat, exits: map<nat, int>, reports: seq<Report>)
    requires Pids(procs, nextpid, exits, reports)
    ensures Pids(TickAll(procs), nextpid, exits, reports)
  {
    forall i | 0 <= i < |procs|
      ensures PidOk(TickAll(procs)[i], nextpid, exits) && Unreported(TickAll(procs)[i], reports)
    {
      assert PidOk(procs[i], nextpid, exits) && Unreported(procs[i], reports);
    }
  }

  lemma {:induction false} TickWaits(procs: seq<Proc>, pcs: seq<Pc>, lock: Option<nat>)
    requires |procs| == |pcs| && Waits(procs, pcs, lock)
    ensures Waits(TickAll(procs), pcs, lock)
  {
    var procs' := TickAll(procs);
    forall i | 0 <= i < |procs| ensures WaitOk(procs', pcs, lock, i) {
      assert WaitOk(procs, pcs, lock, i);
      if HasZombie(procs', i) {
        var k :| 0 <= k < |procs'| && IsChild(procs'[k], i) && procs'[k].state.ZOMBIE?;
        assert IsChild(procs[k], i) && procs[k].state.ZOMBIE?;
      }
      if HasChild(procs, i) {
        var k :| 0 <= k < |procs| && IsChild(procs[k], i);
        assert IsChild(procs'[k], i);
      }
    }
  }

  lemma {:induction false} StepInv(s: Sys, init: nat, step: Step)
    requires Inv(s, init) && May(s, init, step)
    ensures Inv(Next(s, init, step), init)
  {
    hide Inv;
    match step
    case ForkAlloc(p, c) => ForkAllocInv(s, init, p, c);
    case ForkFail(_) => ForkingInv(s, init, step);
    case ForkTimes(_) => ForkingInv(s, init, step);
    case ForkParent(_) => ForkingInv(s, init, step);
    case ForkDone(_) => ForkingInv(s, init, step);
    case Exit(p, status) => ExitInv(s, init, p, status);
    case WaitStep(p, r) => if r.Reap? { ReapInv(s, init, p, r.child); } else { WaitInv(s, init, p, r); }
    case Tick => TickInv(s, init);
    case _ => SchedulingInv(s, init, step);
  }
}
