/** Runs of the life cycle from boot, and what holds of all of them. */
module LifeTheorems {
  import opened Basics
  import opened Processes
  import opened LifeCycle
  import opened LifeInvariant
  import opened LifeSafety

  const BLANK := Proc(UNUSED, 0, None, NoChan, false, 0, 0, 0, 0, 0, 0)

  /** After userinit: `n` slots, of which `init` holds the first process. */
  function Boot(n: nat, init: nat): Sys
    requires init < n
  {
    Sys(seq(n, i => if i == init then BLANK.(state := RUNNABLE, pid := 1) else BLANK), seq(n, _ => Free), None, 0, 2,
        seq(n, _ => 0), map[], [])
  }

  ghost predicate CanRun(s: Sys, init: nat, steps: seq<Step>)
    decreases |steps|
  {
    steps == [] || (May(s, init, steps[0]) && CanRun(Next(s, init, steps[0]), init, steps[1..]))
  }

  ghost function Run(s: Sys, init: nat, steps: seq<Step>): Sys
    requires CanRun(s, init, steps)
    decreases |steps|
  {
    if steps == [] then s else Run(Next(s, init, steps[0]), init, steps[1..])
  }

  lemma {:induction false} BootInv(n: nat, init: nat)
    requires init < n
    ensures Inv(Boot(n, init), init) && Settled(Boot(n, init))
  {
    hide Parents, Forks, Waits, Pids, Times;
    var s := Boot(n, init);
    BootFamily(s.procs, s.pcs, init);
    BootRest(s.procs, s.pcs, s.etime, init);
  }

  /** The table after userinit. */
  ghost predicate Fresh(procs: seq<Proc>, pcs: seq<Pc>, init: nat) {
    && |pcs| == |procs| && init < |procs|
    && forall i :: 0 <= i < |procs| ==>
        && procs[i] == (if i == init then BLANK.(state := RUNNABLE, pid := 1) else BLANK) && pcs[i] == Free
  }

  lemma {:induction false} BootFamily(procs: seq<Proc>, pcs: seq<Pc>, init: nat)
    requires Fresh(procs, pcs, init)
    ensures Parents(procs, init) && Waits(procs, pcs, None)
  {
    hide HasZombie, HasChild;
  }

  lemma {:induction false} BootRest(procs: seq<Proc>, pcs: seq<Pc>, etime: seq<nat>, init: nat)
    requires Fresh(procs, pcs, init) && |etime| == |procs| && forall i :: 0 <= i < |etime| ==> etime[i] == 0
    ensures Forks(procs, pcs, etime, 0) && Pids(procs, 2, map[], []) && Times(procs, etime, 0)
  {
    hide Pids, Forks, Times;
    NoForks(procs, pcs, etime, 0);
    BootPids(procs, pcs, init);
    BootTimes(procs, pcs, etime, init);
  }

  lemma {:induction false} BootTimes(procs: seq<Proc>, pcs: seq<Pc>, etime: seq<nat>, init: nat)
    requires Fresh(procs, pcs, init) && |etime| == |procs| && forall i :: 0 <= i < |etime| ==> etime[i] == 0
    ensures Times(procs, etime, 0)
  {
    hide TimeOk;
    forall i | 0 <= i < |procs| ensures TimeOk(procs[i], etime[i], 0) {
      BlankTime(procs[i], i == init);
    }
  }

  lemma BlankTime(p: Proc, first: bool)
    requires p == if first then BLANK.(state := RUNNABLE, pid := 1) else BLANK
    ensures TimeOk(p, 0, 0)
  {
  }

  lemma {:induction false} NoForks(procs: seq<Proc>, pcs: seq<Pc>, etime: seq<nat>, ticks: nat)
    requires |procs| == |pcs| == |etime| && forall i :: 0 <= i < |pcs| ==> pcs[i] == Free
    ensures Forks(procs, pcs, etime, ticks)
  {
    hide Alive;
  }

  lemma {:induction false} BootPids(procs: seq<Proc>, pcs: seq<Pc>, init: nat)
    requires Fresh(procs, pcs, init)
    ensures Pids(procs, 2, map[], [])
  {
    forall i | 0 <= i < |procs|
      ensures PidOk(procs[i], 2, map[]) && Unreported(procs[i], []) && (procs[i].state.UNUSED? <==> i != init)
    {
    }
  }

  /** Every exit is still in the table as a zombie, or has been reported. */
  ghost predicate Settled(s: Sys) {
    forall x :: x in s.exits ==> Lingers(s.procs, x) || Told(s.reports, x)
  }

  ghost predicate Lingers(procs: seq<Proc>, x: nat) {
    exists i :: 0 <= i < |procs| && procs[i].state.ZOMBIE? && procs[i].pid == x
  }

  ghost predicate Told(reports: seq<Report>, x: nat) {
    exists k :: 0 <= k < |reports| && reports[k].pid == x
  }

  /** A zombie stays one until it is reaped. */
  lemma {:induction false} ZombieStays(s: Sys, init: nat, step: Step, i: nat)
    requires Inv(s, init) && May(s, init, step) && i < |s.procs| && s.procs[i].state.ZOMBIE?
    requires !(step.WaitStep? && step.r == Reap(i))
    ensures var s' := Next(s, init, step);
            i < |s'.procs| && s'.procs[i].state.ZOMBIE? && s'.procs[i].pid == s.procs[i].pid
  {
    hide Parents, Waits, Pids, Times;
    if step.ForkFail? || step.ForkTimes? || step.ForkParent? || step.ForkDone? {
      assert ForkOk(s.procs, s.pcs, s.etime, s.ticks, step.p);
    }
  }

  lemma {:induction false} StepSettled(s: Sys, init: nat, step: Step)
    requires Inv(s, init) && Settled(s) && May(s, init, step)
    ensures Settled(Next(s, init, step))
  {
    hide Inv;
    var s' := Next(s, init, step);
    forall x | x in s'.exits ensures Lingers(s'.procs, x) || Told(s'.reports, x) {
      if x !in s.exits {
        assert step.Exit? && s'.procs[step.p].state.ZOMBIE? && s'.procs[step.p].pid == x;
      } else if Told(s.reports, x) {
        var k :| 0 <= k < |s.reports| && s.reports[k].pid == x;
        assert s'.reports[k].pid == x;
      } else {
        var i :| 0 <= i < |s.procs| && s.procs[i].state.ZOMBIE? && s.procs[i].pid == x;
        if step.WaitStep? && step.r == Reap(i) {
          assert s'.reports[|s.reports|].pid == x;
        } else {
          ZombieStays(s, init, step, i);
        }
      }
    }
  }

  lemma {:induction false} RunInv(s: Sys, init: nat, steps: seq<Step>)
    requires Inv(s, init) && Settled(s) && CanRun(s, init, steps)
    ensures Inv(Run(s, init, steps), init) && Settled(Run(s, init, steps))
    decreases |steps|
  {
    hide Inv, Settled, May, Next;
    if steps != [] {
      StepInv(s, init, steps[0]);
      StepSettled(s, init, steps[0]);
      RunInv(Next(s, init, steps[0]), init, steps[1..]);
    }
  }

  /** No wakeup is lost: whoever sleeps in wait has a child and none of its children is a zombie. */
  lemma {:induction false} NoLostChild(n: nat, init: nat, steps: seq<Step>, i: nat, j: nat)
    requires init < n && CanRun(Boot(n, init), init, steps)
    ensures var s := Run(Boot(n, init), init, steps);
            i < |s.procs| == |s.pcs| && j < |s.procs| && s.pcs[i].Waiting? && s.procs[i].state.SLEEPING? ==>
              HasChild(s.procs, i) && !(IsChild(s.procs[j], i) && s.procs[j].state.ZOMBIE?)
  {
    hide Parents, Forks, Pids, Times, Run, Boot, CanRun;
    BootInv(n, init);
    RunInv(Boot(n, init), init, steps);
    var s := Run(Boot(n, init), init, steps);
    if i < |s.procs| {
      assert WaitOk(s.procs, s.pcs, s.lock, i);
    }
  }

  /** Every process in use except init has a parent that has not exited; init never exits. */
  lemma {:induction false} ParentsAlive(n: nat, init: nat, steps: seq<Step>, i: nat)
    requires init < n && CanRun(Boot(n, init), init, steps)
    ensures var s := Run(Boot(n, init), init, steps);
            && init < |s.procs| && Alive(s.procs[init])
            && (i < |s.procs| && i != init
                && (Alive(s.procs[i]) || s.procs[i].state.ZOMBIE? || s.procs[i].parent.Some?) ==>
                  LiveParent(s.procs, s.procs[i].parent))
  {
    hide Waits, Forks, Pids, Times, Run, Boot, CanRun;
    BootInv(n, init);
    RunInv(Boot(n, init), init, steps);
    var s := Run(Boot(n, init), init, steps);
    assert ParentOk(s.procs, init, init);
    if i < |s.procs| {
      assert ParentOk(s.procs, init, i);
    }
  }

  /** Each child is reported at most once, with the status it gave to exit, and no exit is lost. */
  lemma {:induction false} ReapedOnce(n: nat, init: nat, steps: seq<Step>)
    requires init < n && CanRun(Boot(n, init), init, steps)
    ensures var s := Run(Boot(n, init), init, steps);
            && (forall j, k :: 0 <= j < k < |s.reports| ==> s.reports[j].pid != s.reports[k].pid)
            && (forall k :: 0 <= k < |s.reports| ==>
                s.reports[k].pid in s.exits && s.exits[s.reports[k].pid] == s.reports[k].status)
            && (forall x :: x in s.exits ==> Lingers(s.procs, x) != Told(s.reports, x))
  {
    hide Waits, Forks, Parents, Times, Run, Boot, CanRun;
    BootInv(n, init);
    RunInv(Boot(n, init), init, steps);
    var s := Run(Boot(n, init), init, steps);
    assert forall k :: 0 <= k < |s.reports| ==> ReportOk(s.reports[k], s.exits);
    forall x | x in s.exits ensures Lingers(s.procs, x) ==> !Told(s.reports, x) {
      assert forall i :: 0 <= i < |s.procs| ==> Unreported(s.procs[i], s.reports);
    }
  }

  /** Sleeping, ready and running time, and ticks as an embryo, add up to the time since creation, or until exit. */
  lemma {:induction false} TimesAddUp(n: nat, init: nat, steps: seq<Step>, i: nat)
    requires init < n && CanRun(Boot(n, init), init, steps)
    ensures var s := Run(Boot(n, init), init, steps);
            && (forall k :: 0 <= k < |s.reports| ==>
                var r := s.reports[k]; r.stime + r.retime + r.rutime + r.embryo == r.ttime - r.ctime)
            && (i < |s.procs| == |s.etime| ==>
                  && (Alive(s.procs[i]) ==> Busy(s.procs[i]) + s.etime[i] == s.ticks - s.procs[i].ctime)
                  && (s.procs[i].state.ZOMBIE? ==>
                      Busy(s.procs[i]) + s.etime[i] == s.procs[i].ttime - s.procs[i].ctime))
  {
    hide Waits, Forks, Parents, Run, Boot, CanRun;
    BootInv(n, init);
    RunInv(Boot(n, init), init, steps);
    var s := Run(Boot(n, init), init, steps);
    assert forall k :: 0 <= k < |s.reports| ==> ReportOk(s.reports[k], s.exits);
    if i < |s.procs| {
      assert TimeOk(s.procs[i], s.etime[i], s.ticks);
    }
  }
}
