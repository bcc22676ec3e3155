/**
 The life of processes, for any number of them and any interleaving: fork, exit,
 wait, sleep, wakeup, kill, the scheduler and the clock. Code that runs with
 ptable.lock held is one step; the lock is handed from the scheduler to the
 process it dispatches, which goes on holding it.
 */
module LifeCycle {
  import opened Basics
  import opened Processes

  /**
   Where a process is: nowhere in particular, in fork with a new process (after
   allocproc's search, after its times are set, after its parent is set), or in
   the loop of wait.
   */
  datatype Pc = Free | Forking(child: nat, stage: nat) | Waiting

  /** A child that wait has returned: the pid of who reaped it, and what it reported. */
  datatype Report = Report(to: nat, pid: nat, status: int, ctime: nat, ttime: nat, stime: nat, retime: nat, rutime: nat,
                           embryo: nat)

  /**
   `lock` is the process that holds ptable.lock between steps. `etime` counts the
   ticks a process spent EMBRYO after its ctime was set; `exits` and `reports`
   record every exit and every reaped child.
   */
  datatype Sys = Sys(procs: seq<Proc>, pcs: seq<Pc>, lock: Option<nat>, ticks: nat, nextpid: nat,
                     etime: seq<nat>, exits: map<nat, int>, reports: seq<Report>)

  datatype Step =
    | ForkAlloc(p: nat, c: nat) | ForkFail(p: nat) | ForkTimes(p: nat) | ForkParent(p: nat) | ForkDone(p: nat)
    | Exit(p: nat, status: int)
    | WaitStep(p: nat, r: Scan)
    | Yield(p: nat) | Sleep(p: nat, id: nat) | Wakeup(id: nat) | Kill(p: nat)
    | Dispatch(p: nat) | Resume(p: nat)
    | Tick

  /** Process `p` runs and does not need the lock from anyone. */
  predicate Runs(s: Sys, p: nat) {
    p < |s.procs| && |s.pcs| == |s.procs| && s.procs[p].state.RUNNING? && s.lock == None
  }

  predicate ForkAt(s: Sys, p: nat, stage: nat) {
    && p < |s.procs| && |s.pcs| == |s.procs| && s.procs[p].state.RUNNING? && s.lock != Some(p)
    && s.pcs[p].Forking? && s.pcs[p].stage == stage && s.pcs[p].child < |s.procs|
  }

  /** When a step can happen; `init` is the slot of initproc. */
  ghost predicate May(s: Sys, init: nat, step: Step) {
    |s.pcs| == |s.procs| == |s.etime| && init < |s.procs| &&
    match step
    case ForkAlloc(p, c) => Runs(s, p) && s.pcs[p].Free? && c < |s.procs| && s.procs[c].state.UNUSED?
    case ForkFail(p) => ForkAt(s, p, 1) || ForkAt(s, p, 2)
    case ForkTimes(p) => ForkAt(s, p, 1)
    case ForkParent(p) => ForkAt(s, p, 2)
    case ForkDone(p) => ForkAt(s, p, 3) && s.lock == None
    case Exit(p, _) => Runs(s, p) && s.pcs[p].Free? && p != init
    case WaitStep(p, r) =>
      && p < |s.procs| && s.procs[p].state.RUNNING? && ScanIs(s.procs, p, r)
      && ((s.lock == None && s.pcs[p].Free?) || (s.lock == Some(p) && s.pcs[p].Waiting?))
    case Yield(p) => Runs(s, p) && !s.pcs[p].Waiting?
    case Sleep(p, _) => Runs(s, p) && s.pcs[p].Free?
    case Wakeup(_) => s.lock == None
    case Kill(p) => s.lock == None && p < |s.procs|
    case Dispatch(p) => s.lock == None && p < |s.procs| && s.procs[p].state.RUNNABLE?
    case Resume(p) => s.lock == Some(p) && p < |s.procs| && !s.pcs[p].Waiting?
    case Tick => s.lock == None
  }

  function ReportOf(p: Proc, to: nat, embryo: nat): Report {
    Report(to, p.pid, p.status, p.ctime, p.ttime, p.stime, p.retime, p.rutime, embryo)
  }

  /** The end of a scan of wait. */
  function Waited(s: Sys, p: nat, r: Scan): Sys
    requires p < |s.procs| == |s.pcs| == |s.etime| && (r.Reap? ==> r.child < |s.procs|)
  {
    match r
    case Reap(c) =>
      s.(procs := s.procs[c := Reaped(s.procs[c])], pcs := s.pcs[p := Free], lock := None,
         reports := s.reports + [ReportOf(s.procs[c], s.procs[p].pid, s.etime[c])])
    case Childless => s.(pcs := s.pcs[p := Free], lock := None)
    case Wait => s.(procs := s.procs[p := s.procs[p].(state := SLEEPING, chan := OnProc(p))],
                    pcs := s.pcs[p := Waiting], lock := None)
  }

  function SetState(s: Sys, p: nat, st: PState): Sys
    requires p < |s.procs|
  {
    s.(procs := s.procs[p := s.procs[p].(state := st)])
  }

  function SetPc(s: Sys, p: nat, pc: Pc): Sys
    requires p < |s.pcs|
  {
    s.(pcs := s.pcs[p := pc])
  }

  /** The ticks as an embryo, one tick later. */
  function Aged(procs: seq<Proc>, etime: seq<nat>): seq<nat>
    requires |procs| == |etime|
  {
    seq(|etime|, i requires 0 <= i < |etime| => if procs[i].state.EMBRYO? then etime[i] + 1 else etime[i])
  }

  ghost function Next(s: Sys, init: nat, step: Step): Sys
    requires May(s, init, step)
  {
    match step
    case ForkAlloc(p, c) =>
      SetPc(s.(procs := s.procs[c := s.procs[c].(state := EMBRYO, pid := s.nextpid)], nextpid := s.nextpid + 1), p,
            Forking(c, 1))
    case ForkFail(p) => SetPc(SetState(s, s.pcs[p].child, UNUSED), p, Free)
    case ForkTimes(p) =>
      var c := s.pcs[p].child;
      SetPc(s.(procs := s.procs[c := s.procs[c].(ctime := s.ticks, stime := 0, retime := 0, rutime := 0)],
               etime := s.etime[c := 0]), p, Forking(c, 2))
    case ForkParent(p) =>
      var c := s.pcs[p].child;
      SetPc(s.(procs := s.procs[c := s.procs[c].(parent := Some(p))]), p, Forking(c, 3))
    case ForkDone(p) =>
      var c := s.pcs[p].child;
      SetPc(SetPc(SetState(s, c, RUNNABLE), p, Free), c, Free)
    case Exit(p, status) =>
      s.(procs := Exited(s.procs, p, init, status, s.ticks), exits := s.exits[s.procs[p].pid := status])
    case WaitStep(p, r) => Waited(s, p, r)
    case Yield(p) => SetState(s, p, RUNNABLE)
    case Sleep(p, id) => s.(procs := s.procs[p := s.procs[p].(state := SLEEPING, chan := Other(id))])
    case Wakeup(id) => s.(procs := WakeAll(s.procs, Other(id)))
    case Kill(p) => s.(procs := s.procs[p := Killed(s.procs[p])])
    case Dispatch(p) => SetState(s, p, RUNNING).(lock := Some(p))
    case Resume(p) => s.(lock := None)
    case Tick =>
      s.(procs := TickAll(s.procs), ticks := s.ticks + 1,
         etime := Aged(s.procs, s.etime))
  }
}
