/** What every step of the life cycle keeps. */
module LifeInvariant {
  import opened Basics
  import opened Processes
  import opened LifeCycle

  // Parents

  predicate LiveParent(procs: seq<Proc>, parent: Option<nat>) {
    parent.Some? && parent.value < |procs| && Alive(procs[parent.value])
  }

  /** A process in use has a parent that has not exited, except init, which has none and never exits. */
  predicate ParentOk(procs: seq<Proc>, init: nat, i: nat)
    requires i < |procs|
  {
    if i == init then Alive(procs[i]) && procs[i].parent == None
    else match procs[i].state
         case UNUSED => procs[i].parent == None
         case EMBRYO => procs[i].parent == None || (LiveParent(procs, procs[i].parent) && procs[i].parent != Some(i))
         case _ => LiveParent(procs, procs[i].parent) && procs[i].parent != Some(i)
  }

  ghost predicate Parents(procs: seq<Proc>, init: nat) {
    forall i :: 0 <= i < |procs| ==> ParentOk(procs, init, i)
  }

  // Forks in progress

  predicate ForkOk(procs: seq<Proc>, pcs: seq<Pc>, etime: seq<nat>, ticks: nat, i: nat)
    requires i < |procs| == |pcs| == |etime|
  {
    pcs[i].Forking? ==>
      var c := pcs[i].child;
      && Alive(procs[i]) && !procs[i].state.SLEEPING? && c < |procs| && procs[c].state.EMBRYO? && 1 <= pcs[i].stage <= 3
      && procs[c].parent == (if pcs[i].stage == 3 then Some(i) else None)
      && (pcs[i].stage >= 2 ==>
          procs[c].stime == procs[c].retime == procs[c].rutime == 0 && procs[c].ctime + etime[c] == ticks)
  }

  ghost predicate Forks(procs: seq<Proc>, pcs: seq<Pc>, etime: seq<nat>, ticks: nat)
    requires |procs| == |pcs| == |etime|
  {
    && (forall i :: 0 <= i < |procs| ==> ForkOk(procs, pcs, etime, ticks, i))
    && (forall i, j :: 0 <= i < j < |pcs| && pcs[i].Forking? && pcs[j].Forking? ==> pcs[i].child != pcs[j].child)
  }

  // Waiting for children

  /** A process asleep in wait has a child and none of its children is a zombie; awake, it holds the lock. */
  ghost predicate WaitOk(procs: seq<Proc>, pcs: seq<Pc>, lock: Option<nat>, i: nat)
    requires i < |procs| == |pcs|
  {
    pcs[i].Waiting? ==>
      && Alive(procs[i])
      && (procs[i].state.SLEEPING? ==> procs[i].chan == OnProc(i) && !HasZombie(procs, i) && HasChild(procs, i))
      && (procs[i].state.RUNNING? ==> lock == Some(i))
  }

  ghost predicate Waits(procs: seq<Proc>, pcs: seq<Pc>, lock: Option<nat>)
    requires |procs| == |pcs|
  {
    && (lock.Some? ==> lock.value < |procs| && procs[lock.value].state.RUNNING?)
    && (forall i :: 0 <= i < |procs| ==> WaitOk(procs, pcs, lock, i))
  }

  // Process numbers and reports

  predicate PidOk(p: Proc, nextpid: nat, exits: map<nat, int>) {
    && (!p.state.UNUSED? ==> 0 < p.pid < nextpid)
    && (p.state.ZOMBIE? ==> p.pid in exits && exits[p.pid] == p.status)
    && (Alive(p) || p.state.EMBRYO? ==> p.pid !in exits)
  }

  predicate Unreported(p: Proc, reports: seq<Report>) {
    !p.state.UNUSED? ==> forall k :: 0 <= k < |reports| ==> reports[k].pid != p.pid
  }

  /** A report repeats what the child gave to exit, and its times add up. */
  predicate ReportOk(r: Report, exits: map<nat, int>) {
    r.pid in exits && exits[r.pid] == r.status && r.ctime + (r.stime + r.retime + r.rutime) + r.embryo == r.ttime
  }

  ghost predicate Pids(procs: seq<Proc>, nextpid: nat, exits: map<nat, int>, reports: seq<Report>) {
    && 0 < nextpid
    && (forall i :: 0 <= i < |procs| ==> PidOk(procs[i], nextpid, exits) && Unreported(procs[i], reports))
    && (forall i, j :: 0 <= i < j < |procs| && !procs[i].state.UNUSED? && !procs[j].state.UNUSED? ==>
        procs[i].pid != procs[j].pid)
    && (forall x :: x in exits ==> x < nextpid)
    && (forall k :: 0 <= k < |reports| ==> ReportOk(reports[k], exits))
    && (forall j, k :: 0 <= j < k < |reports| ==> reports[j].pid != reports[k].pid)
  }

  // Times

  function Busy(p: Proc): nat { p.stime + p.retime + p.rutime }

  /** Every tick since a process was created is accounted for. */
  predicate TimeOk(p: Proc, etime: nat, ticks: nat) {
    && (Alive(p) ==> p.ctime + Busy(p) + etime == ticks)
    && (p.state.ZOMBIE? ==> p.ctime + Busy(p) + etime == p.ttime)
  }

  ghost predicate Times(procs: seq<Proc>, etime: seq<nat>, ticks: nat)
    requires |procs| == |etime|
  {
    forall i :: 0 <= i < |procs| ==> TimeOk(procs[i], etime[i], ticks)
  }

  ghost predicate Inv(s: Sys, init: nat) {
    && |s.pcs| == |s.procs| == |s.etime| && init < |s.procs|
    && Parents(s.procs, init) && Forks(s.procs, s.pcs, s.etime, s.ticks) && Waits(s.procs, s.pcs, s.lock)
    && Pids(s.procs, s.nextpid, s.exits, s.reports) && Times(s.procs, s.etime, s.ticks)
  }

  // Steps that only move processes between SLEEPING, RUNNABLE and RUNNING

  /** Nothing that outlives a scheduling decision has changed. */
  predicate SameLife(p: Proc, q: Proc) {
    && q.pid == p.pid && q.parent == p.parent && q.status == p.status
    && q.ctime == p.ctime && q.ttime == p.ttime && q.stime == p.stime && q.retime == p.retime && q.rutime == p.rutime
    && (q.state == p.state || (Alive(p) && Alive(q)))
  }

  ghost predicate Rescheduled(procs: seq<Proc>, procs': seq<Proc>) {
    |procs'| == |procs| && forall i :: 0 <= i < |procs| ==> SameLife(procs[i], procs'[i])
  }

  lemma {:induction false} RescheduledKeeps(procs: seq<Proc>, procs': seq<Proc>, init: nat, nextpid: nat,
                                            exits: map<nat, int>, reports: seq<Report>, etime: seq<nat>, ticks: nat)
    requires Rescheduled(procs, procs') && |etime| == |procs|
    requires Parents(procs, init) && Pids(procs, nextpid, exits, reports) && Times(procs, etime, ticks)
    ensures Parents(procs', init) && Pids(procs', nextpid, exits, reports) && Times(procs', etime, ticks)
  {
    forall i | 0 <= i < |procs'| ensures ParentOk(procs', init, i) {
      assert ParentOk(procs, init, i);
    }
    forall i | 0 <= i < |procs'|
      ensures PidOk(procs'[i], nextpid, exits) && Unreported(procs'[i], reports) && TimeOk(procs'[i], etime[i], ticks)
    {
      assert PidOk(procs[i], nextpid, exits) && Unreported(procs[i], reports) && TimeOk(procs[i], etime[i], ticks);
    }
  }

  lemma {:induction false} RescheduledForks(procs: seq<Proc>, procs': seq<Proc>, pcs: seq<Pc>, etime: seq<nat>,
                                            ticks: nat)
    requires Rescheduled(procs, procs') && |etime| == |procs| == |pcs| && Forks(procs, pcs, etime, ticks)
    requires forall i :: 0 <= i < |procs| && pcs[i].Forking? ==> !procs'[i].state.SLEEPING?
    ensures Forks(procs', pcs, etime, ticks)
  {
    forall i | 0 <= i < |procs'| ensures ForkOk(procs', pcs, etime, ticks, i) {
      assert ForkOk(procs, pcs, etime, ticks, i);
    }
  }

  /** Zombies and children are what they were. */
  lemma {:induction false} RescheduledFamily(procs: seq<Proc>, procs': seq<Proc>, p: nat)
    requires Rescheduled(procs, procs')
    ensures HasZombie(procs', p) == HasZombie(procs, p) && HasChild(procs', p) == HasChild(procs, p)
  {
    if HasZombie(procs, p) {
      var i :| 0 <= i < |procs| && IsChild(procs[i], p) && procs[i].state.ZOMBIE?;
      assert IsChild(procs'[i], p) && procs'[i].state.ZOMBIE?;
    }
    if HasZombie(procs', p) {
      var i :| 0 <= i < |procs'| && IsChild(procs'[i], p) && procs'[i].state.ZOMBIE?;
      assert IsChild(procs[i], p) && procs[i].state.ZOMBIE?;
    }
    if HasChild(procs, p) {
      var i :| 0 <= i < |procs| && IsChild(procs[i], p);
      assert IsChild(procs'[i], p);
    }
    if HasChild(procs', p) {
      var i :| 0 <= i < |procs'| && IsChild(procs'[i], p);
      assert IsChild(procs[i], p);
    }
  }

  /** A waiting process is left alone, or made runnable, or run with the lock. */
  lemma {:induction false} RescheduledWaits(procs: seq<Proc>, procs': seq<Proc>, pcs: seq<Pc>, lock: Option<nat>,
                                            lock': Option<nat>)
    requires Rescheduled(procs, procs') && |procs| == |pcs| && Waits(procs, pcs, lock)
    requires lock'.Some? ==> lock'.value < |procs'| && procs'[lock'.value].state.RUNNING?
    requires forall i :: 0 <= i < |procs| && pcs[i].Waiting? ==>
               procs'[i].state.RUNNABLE? || (procs'[i].state.RUNNING? && lock' == Some(i))
               || (procs'[i].state.SLEEPING? && procs[i].state.SLEEPING? && procs'[i].chan == procs[i].chan)
    ensures Waits(procs', pcs, lock')
  {
    forall i | 0 <= i < |procs'| ensures WaitOk(procs', pcs, lock', i) {
      assert WaitOk(procs, pcs, lock, i);
      RescheduledFamily(procs, procs', i);
    }
  }
}
