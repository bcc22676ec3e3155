/**
 What a run says about each process, counted from its steps and from the states
 in which they were taken: for how many ticks it slept, was ready and ran, whether
 it was killed, whether it is alive, running or asleep, and on what.
 */
module LifeTally {
  import opened Processes
  import opened LifeCycle
  import opened LifeInvariant
  import opened LifeSafety
  import opened LifeTheorems

  /** The times of a process: the ticks that passed before its creation and its exit, and in each state. */
  datatype Clock = Clock(born: nat, died: nat, slept: nat, ready: nat, ran: nat)

  function ClockOf(p: Proc): Clock { Clock(p.ctime, p.ttime, p.stime, p.retime, p.rutime) }

  function Reported(r: Report): Clock { Clock(r.ctime, r.ttime, r.stime, r.retime, r.rutime) }

  /**
   The ticks so far. Of each slot: its clock since the last ForkTimes on it, and whether it was hit
   by kill since it was last reaped. Of each report: the clock of the child. The
   pids of processes started and not exited; the slots on a processor; and the
   slots asleep, with what they wait for.
   */
  datatype Tally = Tally(now: nat, clocks: seq<Clock>, told: seq<Clock>, hit: seq<bool>, living: set<nat>,
                         running: set<nat>, asleep: map<nat, Chan>)

  function Advance(c: Clock, st: PState): Clock {
    match st
    case SLEEPING => c.(slept := c.slept + 1)
    case RUNNABLE => c.(ready := c.ready + 1)
    case RUNNING => c.(ran := c.ran + 1)
    case _ => c
  }

  ghost function Clocks(t: Tally, s: Sys, init: nat, step: Step): seq<Clock>
    requires May(s, init, step) && |t.clocks| == |s.procs|
  {
    match step
    case Tick => seq(|t.clocks|, i requires 0 <= i < |t.clocks| => Advance(t.clocks[i], s.procs[i].state))
    case ForkTimes(p) => t.clocks[s.pcs[p].child := Clock(t.now, t.clocks[s.pcs[p].child].died, 0, 0, 0)]
    case Exit(p, _) => t.clocks[p := t.clocks[p].(died := t.now)]
    case _ => t.clocks
  }

  ghost function Told(t: Tally, s: Sys, init: nat, step: Step): seq<Clock>
    requires May(s, init, step) && |t.clocks| == |s.procs|
  {
    if step.WaitStep? && step.r.Reap? then t.told + [t.clocks[step.r.child]] else t.told
  }

  ghost function Hit(t: Tally, s: Sys, init: nat, step: Step): seq<bool>
    requires May(s, init, step) && |t.hit| == |s.procs|
  {
    match step
    case Kill(p) => t.hit[p := true]
    case WaitStep(_, r) => if r.Reap? then t.hit[r.child := false] else t.hit
    case _ => t.hit
  }

  ghost function Living(t: Tally, s: Sys, init: nat, step: Step): set<nat>
    requires May(s, init, step)
  {
    match step
    case ForkDone(p) => t.living + {s.procs[s.pcs[p].child].pid}
    case Exit(p, _) => t.living - {s.procs[p].pid}
    case _ => t.living
  }

  ghost function Running(t: Tally, s: Sys, init: nat, step: Step): set<nat>
    requires May(s, init, step)
  {
    match step
    case Dispatch(p) => t.running + {p}
    case Yield(p) => t.running - {p}
    case Sleep(p, _) => t.running - {p}
    case Exit(p, _) => t.running - {p}
    case WaitStep(p, r) => if r.Wait? then t.running - {p} else t.running
    case _ => t.running
  }

  ghost function Asleep(t: Tally, s: Sys, init: nat, step: Step): map<nat, Chan>
    requires May(s, init, step)
  {
    match step
    case Sleep(p, id) => t.asleep[p := Other(id)]
    case WaitStep(p, r) => if r.Wait? then t.asleep[p := OnProc(p)] else t.asleep
    case Wakeup(id) => map i | i in t.asleep && t.asleep[i] != Other(id) :: t.asleep[i]
    case Kill(p) => t.asleep - {p}
    case Exit(p, _) => map i | i in t.asleep && !ExitWakes(s.procs, p, init, t.asleep[i]) :: t.asleep[i]
    case _ => t.asleep
  }

  ghost function Noted(t: Tally, s: Sys, init: nat, step: Step): Tally
    requires May(s, init, step) && |t.clocks| == |t.hit| == |s.procs|
  {
    Tally(if step.Tick? then t.now + 1 else t.now,
          Clocks(t, s, init, step), Told(t, s, init, step), Hit(t, s, init, step), Living(t, s, init, step),
          Running(t, s, init, step), Asleep(t, s, init, step))
  }

  // What the process table says

  ghost predicate TimesOk(s: Sys, t: Tally) {
    && t.now == s.ticks && |t.clocks| == |s.procs| && |t.told| == |s.reports|
    && (forall i :: 0 <= i < |s.procs| ==> Timed(s, t, i))
    && (forall k :: 0 <= k < |s.reports| ==>
          t.told[k] == Reported(s.reports[k]))
  }

  ghost predicate Timed(s: Sys, t: Tally, i: nat) {
    && i < |s.procs| == |t.clocks|
    && t.now == s.ticks && t.clocks[i] == ClockOf(s.procs[i])
  }

  ghost predicate HitOk(s: Sys, t: Tally) {
    |t.hit| == |s.procs| && forall i :: 0 <= i < |s.procs| ==> s.procs[i].killed == t.hit[i]
  }

  ghost predicate LivingOk(s: Sys, t: Tally) {
    && (forall i :: 0 <= i < |s.procs| && Alive(s.procs[i]) ==> s.procs[i].pid in t.living)
    && (forall x :: x in t.living ==> exists i :: 0 <= i < |s.procs| && Alive(s.procs[i]) && s.procs[i].pid == x)
  }

  ghost predicate RunningOk(s: Sys, t: Tally) {
    forall i: nat :: RunsAt(s, t, i)
  }

  ghost predicate RunsAt(s: Sys, t: Tally, i: nat) {
    i in t.running <==> i < |s.procs| && s.procs[i].state.RUNNING?
  }

  ghost predicate AsleepOk(s: Sys, t: Tally) {
    forall i: nat :: SleepsAt(s, t, i)
  }

  ghost predicate SleepsAt(s: Sys, t: Tally, i: nat) {
    && (i in t.asleep <==> i < |s.procs| && s.procs[i].state.SLEEPING?)
    && (i in t.asleep ==> t.asleep[i] == s.procs[i].chan)
  }

  ghost predicate TallyOk(s: Sys, t: Tally) {
    TimesOk(s, t) && HitOk(s, t) && LivingOk(s, t) && RunningOk(s, t) && AsleepOk(s, t)
  }

  // Steps

  /** A process that is being forked is not in use yet. */
  lemma {:induction false} ChildIdle(s: Sys, init: nat, step: Step)
    requires Inv(s, init) && May(s, init, step)
    requires step.ForkFail? || step.ForkTimes? || step.ForkParent? || step.ForkDone?
    ensures s.procs[s.pcs[step.p].child].state.EMBRYO?
  {
    assert ForkOk(s.procs, s.pcs, s.etime, s.ticks, step.p);
  }

  lemma {:induction false} StepTimes(s: Sys, init: nat, t: Tally, step: Step)
    requires May(s, init, step) && TimesOk(s, t) && |t.hit| == |s.procs|
    ensures TimesOk(Next(s, init, step), Noted(t, s, init, step))
  {
    hide Next, Noted;
    NotedSize(s, init, t, step);
    var s', t' := Next(s, init, step), Noted(t, s, init, step);
    forall i | 0 <= i < |s.procs| ensures Timed(s', t', i) {
      TimedNext(s, init, t, step, i);
    }
    ToldNext(s, init, t, step);
  }

  lemma {:induction false} TimedNext(s: Sys, init: nat, t: Tally, step: Step, i: nat)
    requires May(s, init, step) && Timed(s, t, i) && |t.hit| == |s.procs|
    ensures Timed(Next(s, init, step), Noted(t, s, init, step), i)
  {
    hide Exited, ExitWakes, HasZombie, HasChild, Told, Hit, Living, Running, Asleep;
    if step.Exit? {
      ExitStates(s.procs, step.p, init, step.status, s.ticks);
    }
  }

  lemma {:induction false} ToldNext(s: Sys, init: nat, t: Tally, step: Step)
    requires May(s, init, step) && TimesOk(s, t) && |t.hit| == |s.procs|
    ensures var s', t' := Next(s, init, step), Noted(t, s, init, step);
            && t'.now == s'.ticks && |t'.told| == |s'.reports|
            && (forall k :: 0 <= k < |s'.reports| ==>
                  t'.told[k] == Reported(s'.reports[k]))
  {
    hide HasZombie, HasChild, Clocks, Hit, Living, Running, Asleep, Exited, WakeAll, TickAll, Killed, Aged;
    if step.WaitStep? && step.r.Reap? {
      assert Timed(s, t, step.r.child);
    }
  }

  lemma {:induction false} StepHit(s: Sys, init: nat, t: Tally, step: Step)
    requires May(s, init, step) && HitOk(s, t) && |t.clocks| == |s.procs|
    ensures HitOk(Next(s, init, step), Noted(t, s, init, step))
  {
    hide Exited, ExitWakes, HasZombie, HasChild, Clocks, Told, Living, Running, Asleep;
    if step.Exit? {
      ExitStates(s.procs, step.p, init, step.status, s.ticks);
    }
  }

  lemma {:induction false} StepRunning(s: Sys, init: nat, t: Tally, step: Step)
    requires Inv(s, init) && May(s, init, step) && RunningOk(s, t) && |t.clocks| == |t.hit| == |s.procs|
    ensures RunningOk(Next(s, init, step), Noted(t, s, init, step))
  {
    hide Inv, Next, Noted, RunsAt;
    forall i: nat ensures RunsAt(Next(s, init, step), Noted(t, s, init, step), i) {
      RunsNext(s, init, t, step, i);
    }
  }

  lemma {:induction false} RunsNext(s: Sys, init: nat, t: Tally, step: Step, i: nat)
    requires Inv(s, init) && May(s, init, step) && RunsAt(s, t, i) && |t.clocks| == |t.hit| == |s.procs|
    ensures RunsAt(Next(s, init, step), Noted(t, s, init, step), i)
  {
    hide Inv, Exited, ExitWakes, HasZombie, HasChild, Clocks, Told, Hit, Living, Asleep;
    if step.ForkFail? || step.ForkTimes? || step.ForkParent? || step.ForkDone? {
      ChildIdle(s, init, step);
    }
    if step.Exit? {
      ExitStates(s.procs, step.p, init, step.status, s.ticks);
    }
  }

  lemma {:induction false} StepAsleep(s: Sys, init: nat, t: Tally, step: Step)
    requires Inv(s, init) && May(s, init, step) && AsleepOk(s, t) && |t.clocks| == |t.hit| == |s.procs|
    ensures AsleepOk(Next(s, init, step), Noted(t, s, init, step))
  {
    hide Inv, Next, Noted, SleepsAt;
    forall i: nat ensures SleepsAt(Next(s, init, step), Noted(t, s, init, step), i) {
      SleepsNext(s, init, t, step, i);
    }
  }

  lemma {:induction false} SleepsNext(s: Sys, init: nat, t: Tally, step: Step, i: nat)
    requires Inv(s, init) && May(s, init, step) && SleepsAt(s, t, i) && |t.clocks| == |t.hit| == |s.procs|
    ensures SleepsAt(Next(s, init, step), Noted(t, s, init, step), i)
  {
    hide Inv, HasZombie, HasChild, Exited, ExitWakes, Clocks, Told, Hit, Living, Running;
    if step.ForkFail? || step.ForkTimes? || step.ForkParent? || step.ForkDone? {
      ChildIdle(s, init, step);
    }
    if step.Exit? {
      ExitStates(s.procs, step.p, init, step.status, s.ticks);
    }
  }

  /** Every state after exit. */
  lemma {:induction false} ExitStates(procs: seq<Proc>, p: nat, init: nat, status: int, now: nat)
    requires p < |procs| && procs[p].state.RUNNING?
    ensures var r := Exited(procs, p, init, status, now);
            |r| == |procs| && forall i :: 0 <= i < |procs| ==>
              && r[i].chan == procs[i].chan && r[i].pid == procs[i].pid && r[i].killed == procs[i].killed
              && ClockOf(r[i]) == (if i == p then ClockOf(procs[i]).(died := now) else ClockOf(procs[i]))
              && r[i].state ==
                 if i == p then ZOMBIE
                 else if procs[i].state.SLEEPING? && ExitWakes(procs, p, init, procs[i].chan) then RUNNABLE
                 else procs[i].state
  {
    hide HasZombie;
    if procs[p].parent.Some? {
      var woken := WakeAll(procs, OnProc(procs[p].parent.value));
      RescheduledFamily(procs, woken, p);
    }
  }

  lemma {:induction false} StepLiving(s: Sys, init: nat, t: Tally, step: Step)
    requires Inv(s, init) && May(s, init, step) && LivingOk(s, t) && |t.clocks| == |t.hit| == |s.procs|
    ensures LivingOk(Next(s, init, step), Noted(t, s, init, step))
  {
    hide Next, Clocks, Told, Hit, Running, Asleep, Parents, Waits, Times, Forks, HasZombie, HasChild;
    var s', t' := Next(s, init, step), Noted(t, s, init, step);
    forall i | 0 <= i < |s.procs| ensures LivesNext(s, init, step, i) {
      AliveNext(s, init, step, i);
    }
    NotedSize(s, init, t, step);
    forall x | x in t'.living ensures exists i :: 0 <= i < |s'.procs| && Alive(s'.procs[i]) && s'.procs[i].pid == x {
      if step.ForkDone? && x == s.procs[s.pcs[step.p].child].pid {
        assert LivesNext(s, init, step, s.pcs[step.p].child);
      } else {
        var i :| 0 <= i < |s.procs| && Alive(s.procs[i]) && s.procs[i].pid == x;
        assert LivesNext(s, init, step, i);
      }
    }
    forall i | 0 <= i < |s'.procs| && Alive(s'.procs[i]) ensures s'.procs[i].pid in t'.living {
      assert LivesNext(s, init, step, i);
    }
  }

  /** Fork brings one process to life and exit ends one; nothing else does either. */
  ghost predicate LivesNext(s: Sys, init: nat, step: Step, i: nat)
    requires May(s, init, step)
  {
    var s' := Next(s, init, step);
    && i < |s.procs| == |s'.procs|
    && (Alive(s'.procs[i]) <==>
        (Alive(s.procs[i]) && !(step.Exit? && i == step.p)) || (step.ForkDone? && i == s.pcs[step.p].child))
    && (Alive(s.procs[i]) || Alive(s'.procs[i]) ==> s'.procs[i].pid == s.procs[i].pid)
  }

  lemma {:induction false} AliveNext(s: Sys, init: nat, step: Step, i: nat)
    requires Inv(s, init) && May(s, init, step) && i < |s.procs|
    ensures LivesNext(s, init, step, i)
  {
    hide Inv, Exited, ExitWakes, HasZombie, HasChild;
    if step.ForkFail? || step.ForkTimes? || step.ForkParent? || step.ForkDone? {
      ChildIdle(s, init, step);
    }
    if step.Exit? {
      ExitStates(s.procs, step.p, init, step.status, s.ticks);
    }
  }

  lemma {:induction false} StepTally(s: Sys, init: nat, t: Tally, step: Step)
    requires Inv(s, init) && May(s, init, step) && TallyOk(s, t)
    ensures TallyOk(Next(s, init, step), Noted(t, s, init, step))
  {
    hide Inv, Next, May, Noted, LivingOk, RunningOk, AsleepOk;
    StepTimes(s, init, t, step);
    StepHit(s, init, t, step);
    StepLiving(s, init, t, step);
    StepRunning(s, init, t, step);
    StepAsleep(s, init, t, step);
  }

  // Runs

  /** The tally of a run. */
  ghost function TallyOf(t: Tally, s: Sys, init: nat, steps: seq<Step>): Tally
    requires CanRun(s, init, steps) && |t.clocks| == |t.hit| == |s.procs|
    decreases |steps|
  {
    if steps == [] then t
    else
      var s', t' := Next(s, init, steps[0]), Noted(t, s, init, steps[0]);
      NotedSize(s, init, t, steps[0]);
      TallyOf(t', s', init, steps[1..])
  }

  lemma {:induction false} NotedSize(s: Sys, init: nat, t: Tally, step: Step)
    requires May(s, init, step) && |t.clocks| == |t.hit| == |s.procs|
    ensures var t' := Noted(t, s, init, step); |t'.clocks| == |t'.hit| == |Next(s, init, step).procs| == |s.procs|
  {
    hide HasZombie, HasChild, Told, Living, Running, Asleep;
  }

  lemma {:induction false} RunTally(s: Sys, init: nat, t: Tally, steps: seq<Step>)
    requires Inv(s, init) && TallyOk(s, t) && CanRun(s, init, steps)
    ensures TallyOk(Run(s, init, steps), TallyOf(t, s, init, steps))
    decreases |steps|
  {
    hide Inv, May, Next, Noted, LivingOk, RunningOk, AsleepOk;
    if steps != [] {
      StepInv(s, init, steps[0]);
      StepTally(s, init, t, steps[0]);
      NotedSize(s, init, t, steps[0]);
      RunTally(Next(s, init, steps[0]), init, Noted(t, s, init, steps[0]), steps[1..]);
    }
  }

  /** Before the first step: init is alive and ready, and nothing has happened. */
  function AtBoot(n: nat): Tally {
    Tally(0, seq(n, _ => Clock(0, 0, 0, 0, 0)), [], seq(n, _ => false), {1}, {}, map[])
  }

  lemma {:induction false} BootTally(n: nat, init: nat)
    requires init < n
    ensures TallyOk(Boot(n, init), AtBoot(n))
  {
    var s := Boot(n, init);
    assert Alive(s.procs[init]) && s.procs[init].pid == 1;
  }

  /**
   In every run each counter of each process, and of each report, is the number
   of ticks since its creation at which the process was in the state it counts;
   its ctime and ttime are the ticks before its creation and its exit.
   */
  lemma {:induction false} TimesCounted(n: nat, init: nat, steps: seq<Step>)
    requires init < n && CanRun(Boot(n, init), init, steps)
    ensures var s, t := Run(Boot(n, init), init, steps), TallyOf(AtBoot(n), Boot(n, init), init, steps);
            && t.now == s.ticks && |t.clocks| == |s.procs| && |t.told| == |s.reports|
            && (forall i :: 0 <= i < |s.procs| ==>
                  var p := s.procs[i]; t.clocks[i] == Clock(p.ctime, p.ttime, p.stime, p.retime, p.rutime))
            && (forall k :: 0 <= k < |s.reports| ==>
                  var r := s.reports[k]; t.told[k] == Clock(r.ctime, r.ttime, r.stime, r.retime, r.rutime))
  {
    hide Inv, Run, TallyOf, CanRun, Boot, LivingOk, RunningOk, AsleepOk;
    BootInv(n, init);
    BootTally(n, init);
    RunTally(Boot(n, init), init, AtBoot(n), steps);
    var s, t := Run(Boot(n, init), init, steps), TallyOf(AtBoot(n), Boot(n, init), init, steps);
    forall i | 0 <= i < |s.procs| ensures t.clocks[i] == ClockOf(s.procs[i]) {
      assert Timed(s, t, i);
    }
  }

  /**
   In every run the processes alive are those that fork started and that have
   not exited, those running are the ones dispatched since they last gave up the
   processor, and those asleep wait for something that has not happened since.
   A process is marked killed if and only if kill has hit it.
   */
  lemma {:induction false} StatesFollow(n: nat, init: nat, steps: seq<Step>, i: nat)
    requires init < n && CanRun(Boot(n, init), init, steps)
    ensures var s, t := Run(Boot(n, init), init, steps), TallyOf(AtBoot(n), Boot(n, init), init, steps);
            && (forall x :: x in t.living <==>
                exists j :: 0 <= j < |s.procs| && Alive(s.procs[j]) && s.procs[j].pid == x)
            && (i < |s.procs| == |t.hit| ==>
                  && (s.procs[i].state.RUNNING? <==> i in t.running)
                  && (s.procs[i].state.SLEEPING? <==> i in t.asleep)
                  && (i in t.asleep ==> s.procs[i].chan == t.asleep[i])
                  && (s.procs[i].killed <==> t.hit[i]))
  {
    hide Inv, Run, TallyOf, CanRun, Boot, TimesOk;
    BootInv(n, init);
    BootTally(n, init);
    RunTally(Boot(n, init), init, AtBoot(n), steps);
    var s, t := Run(Boot(n, init), init, steps), TallyOf(AtBoot(n), Boot(n, init), init, steps);
    assert RunsAt(s, t, i) && SleepsAt(s, t, i);
  }
}
