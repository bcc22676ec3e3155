/** Who is told of an exit: the process that forked the child, or init if that process has exited itself. */
module LifeKin {
  import opened Basics
  import opened Processes
  import opened LifeCycle
  import opened LifeInvariant
  import opened LifeSafety
  import opened LifeTheorems

  /** Which process forked which, by pid. */
  type Creators = map<nat, nat>

  ghost function Recorded(cr: Creators, s: Sys, init: nat, step: Step): Creators
    requires May(s, init, step)
  {
    if step.ForkParent? then cr[s.procs[s.pcs[step.p].child].pid := s.procs[step.p].pid] else cr
  }

  /** The forks of a run. */
  ghost function CreatorsOf(cr: Creators, s: Sys, init: nat, steps: seq<Step>): Creators
    requires CanRun(s, init, steps)
    decreases |steps|
  {
    if steps == [] then cr else CreatorsOf(Recorded(cr, s, init, steps[0]), Next(s, init, steps[0]), init, steps[1..])
  }

  /** Process `pid` may report to process `to`: its creator, or init in place of a creator that has exited. */
  ghost predicate Entitled(cr: Creators, exits: map<nat, int>, pid: nat, to: nat) {
    pid in cr && (to == cr[pid] || (to == 1 && cr[pid] in exits))
  }

  ghost predicate KinOk(procs: seq<Proc>, cr: Creators, exits: map<nat, int>, i: nat)
    requires i < |procs|
  {
    procs[i].parent.Some? ==>
      procs[i].parent.value < |procs| && Entitled(cr, exits, procs[i].pid, procs[procs[i].parent.value].pid)
  }

  ghost predicate Kin(s: Sys, init: nat, cr: Creators) {
    && init < |s.procs| && s.procs[init].pid == 1
    && (forall i :: 0 <= i < |s.procs| ==> KinOk(s.procs, cr, s.exits, i))
    && (forall k :: 0 <= k < |s.reports| ==> Entitled(cr, s.exits, s.reports[k].pid, s.reports[k].to))
  }

  /** Nothing happens to pids, parents, exits and reports. */
  lemma {:induction false} SameKin(s: Sys, s': Sys, init: nat, cr: Creators)
    requires Kin(s, init, cr) && |s'.procs| == |s.procs| && s'.exits == s.exits && s'.reports == s.reports
    requires forall i :: 0 <= i < |s.procs| ==> s'.procs[i].parent == s.procs[i].parent
    requires forall i :: 0 <= i < |s.procs| && s'.procs[i].pid != s.procs[i].pid ==>
              && s.procs[i].state.UNUSED? && s.procs[i].parent == None
    requires forall i :: 0 <= i < |s.procs| ==> LiveParent(s.procs, s.procs[i].parent) || s.procs[i].parent == None
    requires Alive(s.procs[init])
    ensures Kin(s', init, cr)
  {
    forall i | 0 <= i < |s'.procs| ensures KinOk(s'.procs, cr, s'.exits, i) {
      assert KinOk(s.procs, cr, s.exits, i);
    }
  }

  /** Parents in the table are alive. */
  lemma {:induction false} LiveParents(procs: seq<Proc>, init: nat)
    requires Parents(procs, init) && init < |procs|
    ensures Alive(procs[init])
    ensures forall i :: 0 <= i < |procs| ==> LiveParent(procs, procs[i].parent) || procs[i].parent == None
  {
    assert ParentOk(procs, init, init);
    forall i | 0 <= i < |procs| ensures LiveParent(procs, procs[i].parent) || procs[i].parent == None {
      assert ParentOk(procs, init, i);
    }
  }

  /** fork makes the creator the parent. */
  lemma {:induction false} ParentKin(s: Sys, init: nat, cr: Creators, p: nat)
    requires Inv(s, init) && Kin(s, init, cr) && May(s, init, ForkParent(p))
    ensures Kin(Next(s, init, ForkParent(p)), init, Recorded(cr, s, init, ForkParent(p)))
  {
    hide Waits, Times;
    var s', cr', c := Next(s, init, ForkParent(p)), Recorded(cr, s, init, ForkParent(p)), s.pcs[p].child;
    assert ForkOk(s.procs, s.pcs, s.etime, s.ticks, p);
    LiveParents(s.procs, init);
    forall i | 0 <= i < |s'.procs| ensures KinOk(s'.procs, cr', s'.exits, i) {
      assert KinOk(s.procs, cr, s.exits, i) && ParentOk(s.procs, init, i);
    }
    forall k | 0 <= k < |s'.reports| ensures Entitled(cr', s'.exits, s'.reports[k].pid, s'.reports[k].to) {
      assert Unreported(s.procs[c], s.reports);
    }
  }

  /** exit passes the children on to init. */
  lemma {:induction false} ExitKin(s: Sys, init: nat, cr: Creators, p: nat, status: int)
    requires Inv(s, init) && Kin(s, init, cr) && May(s, init, Exit(p, status))
    ensures Kin(Next(s, init, Exit(p, status)), init, cr)
  {
    hide Waits, Times, Forks, Pids, Exited, HasZombie;
    var s' := Next(s, init, Exit(p, status));
    assert ParentOk(s.procs, init, p);
    ExitedEffect(s.procs, p, init, status, s.ticks);
    assert PidOfExit(s, s', p);
    forall i | 0 <= i < |s'.procs| ensures KinOk(s'.procs, cr, s'.exits, i) {
      assert KinOk(s.procs, cr, s.exits, i);
      assert s'.procs[i].pid == s.procs[i].pid
             && s'.procs[i].parent == if s.procs[i].parent == Some(p) then Some(init) else s.procs[i].parent;
    }
  }

  ghost predicate PidOfExit(s: Sys, s': Sys, p: nat) {
    p < |s.procs| && s.procs[p].pid in s'.exits && forall x :: x in s.exits ==> x in s'.exits
  }

  /** The report goes to the process in whose name the child was waited for. */
  lemma {:induction false} ReapKin(s: Sys, init: nat, cr: Creators, p: nat, c: nat)
    requires Inv(s, init) && Kin(s, init, cr) && May(s, init, WaitStep(p, Reap(c)))
    ensures Kin(Next(s, init, WaitStep(p, Reap(c))), init, cr)
  {
    hide Waits, Times, Forks, Pids;
    var s' := Next(s, init, WaitStep(p, Reap(c)));
    LiveParents(s.procs, init);
    assert KinOk(s.procs, cr, s.exits, c);
    forall i | 0 <= i < |s'.procs| ensures KinOk(s'.procs, cr, s'.exits, i) {
      assert KinOk(s.procs, cr, s.exits, i);
    }
  }

  lemma {:induction false} StepKin(s: Sys, init: nat, cr: Creators, step: Step)
    requires Inv(s, init) && Kin(s, init, cr) && May(s, init, step)
    ensures Kin(Next(s, init, step), init, Recorded(cr, s, init, step))
  {
    hide Inv, Kin, May, Next;
    if step.ForkParent? {
      ParentKin(s, init, cr, step.p);
    } else if step.Exit? {
      ExitKin(s, init, cr, step.p, step.status);
    } else if step.WaitStep? && step.r.Reap? {
      assert step == WaitStep(step.p, Reap(step.r.child));
      ReapKin(s, init, cr, step.p, step.r.child);
    } else {
      OtherKin(s, init, cr, step);
    }
  }

  predicate OnKin(step: Step) { step.ForkParent? || step.Exit? || (step.WaitStep? && step.r.Reap?) }

  lemma {:induction false} OtherKin(s: Sys, init: nat, cr: Creators, step: Step)
    requires Inv(s, init) && Kin(s, init, cr) && May(s, init, step) && !OnKin(step)
    ensures Kin(Next(s, init, step), init, cr)
  {
    hide Parents, Waits, Times, Forks, Pids, Kin, May, Next;
    LiveParents(s.procs, init);
    if step.ForkAlloc? {
      AllocSlot(s, init, step);
    } else {
      QuietStep(s, init, step);
    }
    SameKin(s, Next(s, init, step), init, cr);
  }

  /** Most steps have nothing to do with pids and parents. */
  lemma {:induction false} QuietStep(s: Sys, init: nat, step: Step)
    requires May(s, init, step) && !OnKin(step) && !step.ForkAlloc?
    ensures var s' := Next(s, init, step);
            && |s'.procs| == |s.procs| && s'.exits == s.exits && s'.reports == s.reports
            && (forall i :: 0 <= i < |s.procs| ==> s'.procs[i].parent == s.procs[i].parent)
            && (forall i :: 0 <= i < |s.procs| ==> s'.procs[i].pid == s.procs[i].pid)
  {
    hide ScanIs, HasZombie, HasChild;
  }

  /** allocproc takes a slot that nobody is the parent of. */
  lemma {:induction false} AllocSlot(s: Sys, init: nat, step: Step)
    requires Parents(s.procs, init) && May(s, init, step) && step.ForkAlloc?
    ensures s.procs[step.c].parent == None
    ensures var s' := Next(s, init, step);
            && |s'.procs| == |s.procs| && s'.exits == s.exits && s'.reports == s.reports
            && (forall i :: 0 <= i < |s.procs| ==> s'.procs[i].parent == s.procs[i].parent)
            && (forall i :: 0 <= i < |s.procs| && s'.procs[i].pid != s.procs[i].pid ==>
                s.procs[i].state.UNUSED? && s.procs[i].parent == None)
  {
    NoParentYet(s.procs, init, step.c);
  }

  lemma {:induction false} NoParentYet(procs: seq<Proc>, init: nat, c: nat)
    requires Parents(procs, init) && c < |procs| && procs[c].state.UNUSED?
    ensures procs[c].parent == None
  {
    assert ParentOk(procs, init, c);
  }

  lemma {:induction false} RunKin(s: Sys, init: nat, cr: Creators, steps: seq<Step>)
    requires Inv(s, init) && Kin(s, init, cr) && CanRun(s, init, steps)
    ensures Kin(Run(s, init, steps), init, CreatorsOf(cr, s, init, steps))
    decreases |steps|
  {
    hide Inv, Kin, May, Next, Recorded;
    if steps != [] {
      StepInv(s, init, steps[0]);
      StepKin(s, init, cr, steps[0]);
      RunKin(Next(s, init, steps[0]), init, Recorded(cr, s, init, steps[0]), steps[1..]);
    }
  }

  /**
   In every run each exit status goes to the process that forked the child, or
   to init, and to init only if that process has exited.
   */
  lemma {:induction false} ToldToParent(n: nat, init: nat, steps: seq<Step>, k: nat)
    requires init < n && CanRun(Boot(n, init), init, steps)
    ensures var s, cr := Run(Boot(n, init), init, steps), CreatorsOf(map[], Boot(n, init), init, steps);
            k < |s.reports| ==>
              var r := s.reports[k];
              r.pid in cr && (r.to == cr[r.pid] || (r.to == 1 && cr[r.pid] in s.exits))
  {
    hide Inv, Run, CreatorsOf, CanRun;
    BootInv(n, init);
    var s := Boot(n, init);
    assert Kin(s, init, map[]);
    RunKin(s, init, map[], steps);
  }
}
