/**
 acquiresleep and releasesleep of sleeplock.c over sleep and wakeup of proc.c,
 for any number of processes and any interleaving of their steps. The two spin
 locks, the one inside the sleep lock and ptable.lock, are held by processes;
 ptable.lock is also taken by code that has nothing to do with this lock.
 */
module SleepLock {
  import opened Basics

  /** Where a process is. The comment says which spin locks it holds. */
  datatype Loc =
    | Idle // none
    | WantAcq // none: acquiresleep waits for the inner lock
    | Test // inner: looks at `locked`
    | WantPt // inner: sleep waits for ptable.lock
    | Both // inner, ptable
    | PtOnly // ptable: about to set its state to SLEEPING
    | SchedOut // ptable: SLEEPING, switching to the scheduler
    | Asleep // none: SLEEPING
    | Ready // none: RUNNABLE
    | Resumed // ptable: handed over by the scheduler
    | WantBack // none: sleep takes the inner lock again
    | Got // inner: has set `locked`
    | Holding // none: owns the sleep lock
    | WantRel // none: releasesleep waits for the inner lock
    | RelIn // inner: about to clear `locked`
    | Cleared // inner: wakeup waits for ptable.lock
    | Waking // inner, ptable: about to wake the sleepers
    | Woke // inner, ptable
    | Done // inner

  predicate HoldsInner(l: Loc) {
    l.Test? || l.WantPt? || l.Both? || l.Got? || l.RelIn? || l.Cleared? || l.Waking? || l.Woke? || l.Done?
  }

  predicate HoldsPt(l: Loc) { l.Both? || l.PtOnly? || l.SchedOut? || l.Resumed? || l.Waking? || l.Woke? }

  predicate Owns(l: Loc) { l.Got? || l.Holding? || l.WantRel? || l.RelIn? }

  predicate Sleeping(l: Loc) { l.SchedOut? || l.Asleep? }

  /** Has found the lock taken and has not yet been woken. */
  predicate Dozing(l: Loc) { l.WantPt? || l.Both? || l.PtOnly? || Sleeping(l) }

  /** Who holds ptable.lock: one of these processes, or somebody else. */
  datatype Who = Proc(i: nat) | Other

  datatype Sys = Sys(locs: seq<Loc>, inner: Option<nat>, pt: Option<Who>, locked: bool, pid: Option<nat>)

  datatype Step =
    | Acquire(i: nat) | Release(i: nat) | Advance(i: nat) | Dispatch(i: nat) | KillWake(i: nat)
    | OtherLock | OtherUnlock

  /** When process `i` can take its next step on its own. */
  predicate CanAdvance(s: Sys, i: nat)
    requires i < |s.locs|
  {
    match s.locs[i]
    case Idle => false
    case Holding => false
    case Asleep => false
    case Ready => false
    case WantAcq => s.inner == None
    case WantBack => s.inner == None
    case WantRel => s.inner == None
    case WantPt => s.pt == None
    case Cleared => s.pt == None
    case _ => true
  }

  predicate May(s: Sys, step: Step) {
    match step
    case Acquire(i) => i < |s.locs| && s.locs[i].Idle?
    case Release(i) => i < |s.locs| && s.locs[i].Holding?
    case Advance(i) => i < |s.locs| && CanAdvance(s, i)
    case Dispatch(i) => i < |s.locs| && s.locs[i].Ready? && s.pt == None
    case KillWake(i) => i < |s.locs| && s.locs[i].Asleep? && s.pt == None
    case OtherLock => s.pt == None
    case OtherUnlock => s.pt == Some(Other)
  }

  function Move(s: Sys, i: nat, l: Loc): Sys
    requires i < |s.locs|
  {
    s.(locs := s.locs[i := l])
  }

  /** wakeup1: every sleeper becomes runnable. */
  function WakeAll(locs: seq<Loc>): (r: seq<Loc>)
    ensures |r| == |locs| && forall k :: 0 <= k < |locs| ==> r[k] == if Sleeping(locs[k]) then Ready else locs[k]
  {
    seq(|locs|, k requires 0 <= k < |locs| => if Sleeping(locs[k]) then Ready else locs[k])
  }

  function Advanced(s: Sys, i: nat): Sys
    requires i < |s.locs| && CanAdvance(s, i)
  {
    match s.locs[i]
    case WantAcq => Move(s, i, Test).(inner := Some(i))
    case WantBack => Move(s, i, Test).(inner := Some(i))
    case Test => if s.locked then Move(s, i, WantPt) else Move(s, i, Got).(locked := true, pid := Some(i))
    case WantPt => Move(s, i, Both).(pt := Some(Proc(i)))
    case Both => Move(s, i, PtOnly).(inner := None)
    case PtOnly => Move(s, i, SchedOut)
    case SchedOut => Move(s, i, Asleep).(pt := None)
    case Resumed => Move(s, i, WantBack).(pt := None)
    case Got => Move(s, i, Holding).(inner := None)
    case WantRel => Move(s, i, RelIn).(inner := Some(i))
    case RelIn => Move(s, i, Cleared).(locked := false, pid := None)
    case Cleared => Move(s, i, Waking).(pt := Some(Proc(i)))
    case Waking => Move(s.(locs := WakeAll(s.locs)), i, Woke)
    case Woke => Move(s, i, Done).(pt := None)
    case Done => Move(s, i, Idle).(inner := None)
  }

  function Next(s: Sys, step: Step): Sys
    requires May(s, step)
  {
    match step
    case Acquire(i) => Move(s, i, WantAcq)
    case Release(i) => Move(s, i, WantRel)
    case Advance(i) => Advanced(s, i)
    case Dispatch(i) => Move(s, i, Resumed).(pt := Some(Proc(i)))
    case KillWake(i) => Move(s, i, Ready)
    case OtherLock => s.(pt := Some(Other))
    case OtherUnlock => s.(pt := None)
  }

  // The invariant, one process at a time

  predicate LocOk(l: Loc, i: nat, inner: Option<nat>, pt: Option<Who>, locked: bool, pid: Option<nat>,
                  releasing: bool) {
    && (HoldsInner(l) <==> inner == Some(i))
    && (HoldsPt(l) <==> pt == Some(Proc(i)))
    && (Owns(l) <==> locked && pid == Some(i))
    && (Dozing(l) ==> locked || releasing)
    && (l.WantPt? || l.Both? ==> locked)
  }

  /** A releaser has cleared `locked` and has still to wake the sleepers. */
  predicate Releasing(s: Sys) {
    s.inner.Some? && s.inner.value < |s.locs| && (s.locs[s.inner.value].Cleared? || s.locs[s.inner.value].Waking?)
  }

  ghost predicate Inv(s: Sys) {
    && (s.inner.Some? ==> s.inner.value < |s.locs|)
    && (s.locked ==> s.pid.Some? && s.pid.value < |s.locs|)
    && (!s.locked ==> s.pid == None)
    && (Releasing(s) ==> !s.locked)
    && (forall i :: 0 <= i < |s.locs| ==> LocOk(s.locs[i], i, s.inner, s.pt, s.locked, s.pid, Releasing(s)))
  }

  function Start(n: nat): Sys { Sys(seq(n, _ => Idle), None, None, false, None) }

  lemma {:induction false} StartInv(n: nat)
    ensures Inv(Start(n))
  {
  }

  /** Steps that take or give up the inner lock. */
  lemma {:induction false} InnerInv(s: Sys, i: nat)
    requires Inv(s) && i < |s.locs| && CanAdvance(s, i)
    requires var l := s.locs[i]; l.WantAcq? || l.WantBack? || l.WantRel? || l.Both? || l.Got? || l.Done?
    ensures Inv(Advanced(s, i))
  {
    var s' := Advanced(s, i);
    assert LocOk(s.locs[i], i, s.inner, s.pt, s.locked, s.pid, Releasing(s));
    forall k | 0 <= k < |s'.locs| ensures LocOk(s'.locs[k], k, s'.inner, s'.pt, s'.locked, s'.pid, Releasing(s')) {
      assert LocOk(s.locs[k], k, s.inner, s.pt, s.locked, s.pid, Releasing(s));
    }
  }

  /** Steps that look at or change `locked`. */
  lemma {:induction false} LockedInv(s: Sys, i: nat)
    requires Inv(s) && i < |s.locs| && (s.locs[i].Test? || s.locs[i].RelIn?)
    ensures Inv(Advanced(s, i))
  {
    var s' := Advanced(s, i);
    assert LocOk(s.locs[i], i, s.inner, s.pt, s.locked, s.pid, Releasing(s));
    forall k | 0 <= k < |s'.locs| ensures LocOk(s'.locs[k], k, s'.inner, s'.pt, s'.locked, s'.pid, Releasing(s')) {
      assert LocOk(s.locs[k], k, s.inner, s.pt, s.locked, s.pid, Releasing(s));
    }
  }

  /** Steps under ptable.lock. */
  lemma {:induction false} TableInv(s: Sys, i: nat)
    requires Inv(s) && i < |s.locs| && CanAdvance(s, i)
    requires var l := s.locs[i]; l.WantPt? || l.PtOnly? || l.SchedOut? || l.Resumed? || l.Cleared? || l.Woke?
    ensures Inv(Advanced(s, i))
  {
    var s' := Advanced(s, i);
    assert LocOk(s.locs[i], i, s.inner, s.pt, s.locked, s.pid, Releasing(s));
    forall k | 0 <= k < |s'.locs| ensures LocOk(s'.locs[k], k, s'.inner, s'.pt, s'.locked, s'.pid, Releasing(s')) {
      assert LocOk(s.locs[k], k, s.inner, s.pt, s.locked, s.pid, Releasing(s));
    }
  }

  /** The wakeup: nobody can be on the way to sleep while both locks are held. */
  lemma {:induction false} WakingInv(s: Sys, i: nat)
    requires Inv(s) && i < |s.locs| && s.locs[i].Waking?
    ensures Inv(Advanced(s, i))
  {
    var s' := Advanced(s, i);
    assert LocOk(s.locs[i], i, s.inner, s.pt, s.locked, s.pid, Releasing(s));
    forall k | 0 <= k < |s'.locs| ensures LocOk(s'.locs[k], k, s'.inner, s'.pt, s'.locked, s'.pid, Releasing(s')) {
      assert LocOk(s.locs[k], k, s.inner, s.pt, s.locked, s.pid, Releasing(s));
    }
  }

  lemma {:induction false} StepInv(s: Sys, step: Step)
    requires Inv(s) && May(s, step)
    ensures Inv(Next(s, step))
  {
    if step.Advance? {
      hide Inv;
      var l := s.locs[step.i];
      if l.Test? || l.RelIn? {
        LockedInv(s, step.i);
      } else if l.WantAcq? || l.WantBack? || l.WantRel? || l.Both? || l.Got? || l.Done? {
        InnerInv(s, step.i);
      } else if l.Waking? {
        WakingInv(s, step.i);
      } else {
        TableInv(s, step.i);
      }
    } else {
      OuterInv(s, step);
    }
  }

  /** Calls, dispatch, wakeups by kill, and other users of ptable.lock. */
  lemma {:induction false} OuterInv(s: Sys, step: Step)
    requires Inv(s) && May(s, step) && !step.Advance?
    ensures Inv(Next(s, step))
  {
    var s' := Next(s, step);
    forall k | 0 <= k < |s'.locs| ensures LocOk(s'.locs[k], k, s'.inner, s'.pt, s'.locked, s'.pid, Releasing(s')) {
      assert LocOk(s.locs[k], k, s.inner, s.pt, s.locked, s.pid, Releasing(s));
    }
  }

  ghost predicate CanRun(s: Sys, steps: seq<Step>)
    decreases |steps|
  {
    steps == [] || (May(s, steps[0]) && CanRun(Next(s, steps[0]), steps[1..]))
  }

  ghost function Run(s: Sys, steps: seq<Step>): Sys
    requires CanRun(s, steps)
    decreases |steps|
  {
    if steps == [] then s else Run(Next(s, steps[0]), steps[1..])
  }

  lemma {:induction false} RunInv(s: Sys, steps: seq<Step>)
    requires Inv(s) && CanRun(s, steps)
    ensures Inv(Run(s, steps))
    decreases |steps|
  {
    hide Inv, Next, May;
    if steps != [] {
      StepInv(s, steps[0]);
      RunInv(Next(s, steps[0]), steps[1..]);
    }
  }

  /** At most one process owns the sleep lock, and it is the one recorded in it. */
  lemma {:induction false} MutualExclusion(n: nat, steps: seq<Step>)
    requires CanRun(Start(n), steps)
    ensures var s := Run(Start(n), steps);
            && (forall i :: 0 <= i < |s.locs| && Owns(s.locs[i]) ==> s.locked && s.pid == Some(i))
            && (s.locked ==> exists i :: 0 <= i < |s.locs| && Owns(s.locs[i]))
            && (!s.locked ==> s.pid == None)
  {
    StartInv(n);
    RunInv(Start(n), steps);
    var s := Run(Start(n), steps);
    forall i | 0 <= i < |s.locs| && Owns(s.locs[i]) ensures s.locked && s.pid == Some(i) {
      assert LocOk(s.locs[i], i, s.inner, s.pt, s.locked, s.pid, Releasing(s));
    }
    if s.locked {
      assert LocOk(s.locs[s.pid.value], s.pid.value, s.inner, s.pt, s.locked, s.pid, Releasing(s));
    }
  }

  /** A process sleeps on the lock only while it is held or a releaser is still before its wakeup. */
  lemma {:induction false} NoLostWakeup(n: nat, steps: seq<Step>)
    requires CanRun(Start(n), steps)
    ensures var s := Run(Start(n), steps);
            (exists i :: 0 <= i < |s.locs| && Sleeping(s.locs[i])) ==>
              s.locked || exists r :: 0 <= r < |s.locs| && (s.locs[r].Cleared? || s.locs[r].Waking?)
  {
    StartInv(n);
    RunInv(Start(n), steps);
    var s := Run(Start(n), steps);
    if i :| 0 <= i < |s.locs| && Sleeping(s.locs[i]) {
      assert LocOk(s.locs[i], i, s.inner, s.pt, s.locked, s.pid, Releasing(s));
    }
  }
}
