/** What can still happen, from every state of every run: any process can be brought to its end, and then be reaped. */
module LifeEnds {
  import opened Basics
  import opened Processes
  import opened LifeCycle
  import opened LifeInvariant
  import opened LifeSafety
  import opened LifeTheorems

  /** Some continuation leaves process `p` a zombie. */
  ghost predicate CanEnd(s: Sys, init: nat, p: nat) {
    exists steps :: EndsBy(s, init, p, steps)
  }

  ghost predicate EndsBy(s: Sys, init: nat, p: nat, steps: seq<Step>) {
    CanRun(s, init, steps) && p < |Run(s, init, steps).procs| && Run(s, init, steps).procs[p].state.ZOMBIE?
  }

  lemma {:induction false} EndsNow(s: Sys, init: nat, p: nat)
    requires p < |s.procs| && s.procs[p].state.ZOMBIE?
    ensures CanEnd(s, init, p)
  {
    assert EndsBy(s, init, p, []);
  }

  lemma {:induction false} EndsLater(s: Sys, init: nat, p: nat, step: Step)
    requires May(s, init, step) && CanEnd(Next(s, init, step), init, p)
    ensures CanEnd(s, init, p)
  {
    hide Next, May;
    var steps :| EndsBy(Next(s, init, step), init, p, steps);
    assert ([step] + steps)[1..] == steps;
    assert EndsBy(s, init, p, [step] + steps);
  }

  /** The process runs, holds no lock and is in no system call: it may exit. */
  lemma {:induction false} FreeEnds(s: Sys, init: nat, p: nat)
    requires |s.pcs| == |s.procs| == |s.etime| && init < |s.procs| && p != init
    requires Runs(s, p) && s.pcs[p].Free?
    ensures CanEnd(s, init, p)
  {
    hide CanEnd;
    assert May(s, init, Exit(p, 0));
    EndsNow(Next(s, init, Exit(p, 0)), init, p);
    EndsLater(s, init, p, Exit(p, 0));
  }

  /** In fork it may give up or finish first. */
  lemma {:induction false} RunningEnds(s: Sys, init: nat, p: nat)
    requires Inv(s, init) && p != init && Runs(s, p)
    ensures CanEnd(s, init, p)
  {
    hide CanEnd, Parents, Pids, Times;
    assert WaitOk(s.procs, s.pcs, s.lock, p) && ForkOk(s.procs, s.pcs, s.etime, s.ticks, p);
    if s.pcs[p].Free? {
      FreeEnds(s, init, p);
    } else {
      var step := if s.pcs[p].stage == 3 then ForkDone(p) else ForkFail(p);
      FreeEnds(Next(s, init, step), init, p);
      EndsLater(s, init, p, step);
    }
  }

  /** Just dispatched and killed, it leaves wait or goes on. */
  lemma {:induction false} DispatchedEnds(s: Sys, init: nat, p: nat)
    requires Inv(s, init) && p != init && p < |s.procs| && s.lock == Some(p) && s.procs[p].killed
    ensures CanEnd(s, init, p)
  {
    hide CanEnd, Parents, Forks, Pids, Times;
    var step := if !s.pcs[p].Waiting? then Resume(p) else WaitStep(p, Scanned(s.procs, p));
    StepInv(s, init, step);
    RunningEnds(Next(s, init, step), init, p);
    EndsLater(s, init, p, step);
  }

  /** What a scan of wait decides; there always is a decision. */
  ghost function Scanned(procs: seq<Proc>, p: nat): (r: Scan)
    requires p < |procs|
    ensures ScanIs(procs, p, r)
  {
    if c: nat :| c < |procs| && IsChild(procs[c], p) && procs[c].state.ZOMBIE? then Reap(c)
    else if HasChild(procs, p) && !procs[p].killed then Wait else Childless
  }

  lemma {:induction false} UnlockedEnds(s: Sys, init: nat, p: nat)
    requires Inv(s, init) && p != init && p < |s.procs| && s.lock == None && Alive(s.procs[p])
    ensures CanEnd(s, init, p)
  {
    hide CanEnd, Inv;
    var s1 := Next(s, init, Kill(p)) by {
      assert May(s, init, Kill(p)) by { Sizes(s, init); }
    }
    StepInv(s, init, Kill(p));
    if s1.procs[p].state.RUNNABLE? {
      StepInv(s1, init, Dispatch(p));
      DispatchedEnds(Next(s1, init, Dispatch(p)), init, p);
      EndsLater(s1, init, p, Dispatch(p));
    } else {
      RunningEnds(s1, init, p);
    }
    EndsLater(s, init, p, Kill(p));
  }

  lemma Sizes(s: Sys, init: nat)
    requires Inv(s, init)
    ensures |s.pcs| == |s.procs| == |s.etime| && init < |s.procs|
    ensures s.lock.Some? ==> s.lock.value < |s.procs| && s.procs[s.lock.value].state.RUNNING?
  {
  }

  /** Whoever was dispatched goes on and lets go of the lock. */
  ghost function Release(s: Sys): Step
    requires |s.pcs| == |s.procs| && s.lock.Some? && s.lock.value < |s.procs|
  {
    var q := s.lock.value;
    if s.pcs[q].Waiting? then WaitStep(q, Scanned(s.procs, q)) else Resume(q)
  }

  lemma {:induction false} Released(s: Sys, init: nat)
    requires Inv(s, init) && s.lock.Some?
    ensures |s.pcs| == |s.procs| && s.lock.value < |s.procs| && May(s, init, Release(s))
    ensures var s' := Next(s, init, Release(s));
            Inv(s', init) && s'.lock == None && |s'.procs| == |s.procs|
  {
    hide Inv;
    Sizes(s, init);
    StepInv(s, init, Release(s));
  }

  /** From every state of every run, every process but init can be brought to its end. */
  lemma {:induction false} EveryoneCanEnd(n: nat, init: nat, steps: seq<Step>, p: nat)
    requires init < n && CanRun(Boot(n, init), init, steps) && p != init
    ensures var s := Run(Boot(n, init), init, steps); p < |s.procs| && Alive(s.procs[p]) ==> CanEnd(s, init, p)
  {
    hide Run, CanRun, Boot, Inv, CanEnd;
    BootInv(n, init);
    RunInv(Boot(n, init), init, steps);
    var s := Run(Boot(n, init), init, steps);
    if p < |s.procs| && Alive(s.procs[p]) {
      AliveEnds(s, init, p);
    }
  }

  lemma {:induction false} AliveEnds(s: Sys, init: nat, p: nat)
    requires Inv(s, init) && p != init && p < |s.procs| && Alive(s.procs[p])
    ensures CanEnd(s, init, p)
  {
    hide Inv, CanEnd;
    if s.lock == None {
      UnlockedEnds(s, init, p);
    } else {
      Released(s, init);
      UnlockedEnds(Next(s, init, Release(s)), init, p);
      EndsLater(s, init, p, Release(s));
    }
  }

  // Reaping

  /** Some continuation reports process number `pid` to its parent. */
  ghost predicate CanReport(s: Sys, init: nat, pid: nat) {
    exists steps :: ReportsBy(s, init, pid, steps)
  }

  ghost predicate ReportsBy(s: Sys, init: nat, pid: nat, steps: seq<Step>) {
    CanRun(s, init, steps) && Reported(Run(s, init, steps).reports, pid)
  }

  predicate Reported(reports: seq<Report>, pid: nat) { exists k :: 0 <= k < |reports| && reports[k].pid == pid }

  lemma {:induction false} ReportsLater(s: Sys, init: nat, pid: nat, step: Step)
    requires May(s, init, step) && CanReport(Next(s, init, step), init, pid)
    ensures CanReport(s, init, pid)
  {
    hide Next, May, Reported;
    var steps :| ReportsBy(Next(s, init, step), init, pid, steps);
    assert ([step] + steps)[1..] == steps;
    assert ReportsBy(s, init, pid, [step] + steps);
  }

  /** `c` is a zombie and its parent `q` is not asleep. */
  predicate Awaits(s: Sys, c: nat, q: nat) {
    c < |s.procs| && q < |s.procs| && s.procs[c].state.ZOMBIE? && IsChild(s.procs[c], q) && !s.procs[q].state.SLEEPING?
  }

  lemma {:induction false} ScanReports(s: Sys, init: nat, c: nat, q: nat)
    requires Awaits(s, c, q) && May(s, init, WaitStep(q, Reap(c)))
    ensures CanReport(s, init, s.procs[c].pid)
  {
    var s' := Next(s, init, WaitStep(q, Reap(c)));
    assert s'.reports[|s.reports|].pid == s.procs[c].pid;
    assert ReportsBy(s', init, s.procs[c].pid, []);
    ReportsLater(s, init, s.procs[c].pid, WaitStep(q, Reap(c)));
  }

  lemma {:induction false} RunningReports(s: Sys, init: nat, c: nat, q: nat)
    requires Inv(s, init) && Awaits(s, c, q) && Runs(s, q)
    ensures CanReport(s, init, s.procs[c].pid)
  {
    hide CanReport, Parents, Pids, Times;
    assert WaitOk(s.procs, s.pcs, s.lock, q) && ForkOk(s.procs, s.pcs, s.etime, s.ticks, q);
    if s.pcs[q].Free? {
      ScanReports(s, init, c, q);
    } else {
      var step := if s.pcs[q].stage == 3 then ForkDone(q) else ForkFail(q);
      ScanReports(Next(s, init, step), init, c, q);
      ReportsLater(s, init, s.procs[c].pid, step);
    }
  }

  lemma {:induction false} DispatchedReports(s: Sys, init: nat, c: nat, q: nat)
    requires Inv(s, init) && Awaits(s, c, q) && s.lock == Some(q)
    ensures CanReport(s, init, s.procs[c].pid)
  {
    hide CanReport, Parents, Forks, Pids, Times;
    if s.pcs[q].Waiting? {
      ScanReports(s, init, c, q);
    } else {
      StepInv(s, init, Resume(q));
      RunningReports(Next(s, init, Resume(q)), init, c, q);
      ReportsLater(s, init, s.procs[c].pid, Resume(q));
    }
  }

  lemma {:induction false} UnlockedReports(s: Sys, init: nat, c: nat, q: nat)
    requires Inv(s, init) && Awaits(s, c, q) && Alive(s.procs[q]) && s.lock == None
    ensures CanReport(s, init, s.procs[c].pid)
  {
    hide CanReport, Inv;
    Sizes(s, init);
    if s.procs[q].state.RUNNABLE? {
      StepInv(s, init, Dispatch(q));
      DispatchedReports(Next(s, init, Dispatch(q)), init, c, q);
      ReportsLater(s, init, s.procs[c].pid, Dispatch(q));
    } else {
      RunningReports(s, init, c, q);
    }
  }

  /** Letting another process go on does not reap `c`. */
  lemma {:induction false} StillAwaits(s: Sys, init: nat, c: nat, q: nat)
    requires Inv(s, init) && Awaits(s, c, q) && Alive(s.procs[q]) && s.lock.Some? && s.lock.value != q
    ensures |s.pcs| == |s.procs| && s.lock.value < |s.procs| && May(s, init, Release(s))
    ensures var s' := Next(s, init, Release(s));
            Awaits(s', c, q) && Alive(s'.procs[q]) && s'.procs[c].pid == s.procs[c].pid
  {
    hide Inv;
    Released(s, init);
  }

  /** From every state of every run, a zombie whose parent is not asleep can be reaped. */
  lemma {:induction false} ZombieCanBeReaped(n: nat, init: nat, steps: seq<Step>, c: nat, q: nat)
    requires init < n && CanRun(Boot(n, init), init, steps)
    ensures var s := Run(Boot(n, init), init, steps);
            Awaits(s, c, q) && Alive(s.procs[q]) ==> CanReport(s, init, s.procs[c].pid)
  {
    hide Run, CanRun, Boot, Inv, CanReport;
    BootInv(n, init);
    RunInv(Boot(n, init), init, steps);
    var s := Run(Boot(n, init), init, steps);
    if Awaits(s, c, q) && Alive(s.procs[q]) {
      AwaitsReports(s, init, c, q);
    }
  }

  lemma {:induction false} AwaitsReports(s: Sys, init: nat, c: nat, q: nat)
    requires Inv(s, init) && Awaits(s, c, q) && Alive(s.procs[q])
    ensures CanReport(s, init, s.procs[c].pid)
  {
    hide Inv, CanReport;
    if s.lock == None {
      UnlockedReports(s, init, c, q);
    } else if s.lock == Some(q) {
      DispatchedReports(s, init, c, q);
    } else {
      StillAwaits(s, init, c, q);
      Released(s, init);
      UnlockedReports(Next(s, init, Release(s)), init, c, q);
      ReportsLater(s, init, s.procs[c].pid, Release(s));
    }
  }
}
