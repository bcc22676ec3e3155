/**
 The process table of proc.c and the effect on it of the code that runs with
 ptable.lock held. A process is its slot in the table.
 */
module Processes {
  import opened Basics

  datatype PState = UNUSED | EMBRYO | SLEEPING | RUNNABLE | RUNNING | ZOMBIE

  /** What a process sleeps on: nothing, the process in a slot, or some other address. */
  datatype Chan = NoChan | OnProc(slot: nat) | Other(id: nat)

  datatype Proc = Proc(state: PState, pid: nat, parent: Option<nat>, chan: Chan, killed: bool, status: int,
                       ctime: nat, ttime: nat, stime: nat, retime: nat, rutime: nat)

  /** Started and not yet exited. */
  predicate Alive(p: Proc) { p.state.SLEEPING? || p.state.RUNNABLE? || p.state.RUNNING? }

  predicate IsChild(p: Proc, of: nat) { p.parent == Some(of) }

  /** wakeup1, for one process. */
  function Woken(p: Proc, chan: Chan): Proc {
    if p.state.SLEEPING? && p.chan == chan then p.(state := RUNNABLE) else p
  }

  function WakeAll(procs: seq<Proc>, chan: Chan): (r: seq<Proc>)
    ensures |r| == |procs| && forall i :: 0 <= i < |procs| ==> r[i] == Woken(procs[i], chan)
  {
    seq(|procs|, i requires 0 <= i < |procs| => Woken(procs[i], chan))
  }

  /** The loop of exit, for one process: children of `p` go to `init`, which is woken if one of them is a zombie. */
  function Adopted(q: Proc, p: nat, init: nat, zombie: bool): Proc {
    var q' := if zombie then Woken(q, OnProc(init)) else q;
    if IsChild(q, p) then q'.(parent := Some(init)) else q'
  }

  ghost predicate HasZombie(procs: seq<Proc>, p: nat) {
    exists i :: 0 <= i < |procs| && IsChild(procs[i], p) && procs[i].state.ZOMBIE?
  }

  ghost predicate HasChild(procs: seq<Proc>, p: nat) {
    exists i :: 0 <= i < |procs| && IsChild(procs[i], p)
  }

  ghost function AdoptAll(procs: seq<Proc>, p: nat, init: nat): (r: seq<Proc>)
    ensures |r| == |procs| && forall i :: 0 <= i < |procs| ==> r[i] == Adopted(procs[i], p, init, HasZombie(procs, p))
  {
    seq(|procs|, i requires 0 <= i < |procs| => Adopted(procs[i], p, init, HasZombie(procs, p)))
  }

  /** exit of `p` wakes who sleeps on its parent, and on init if it leaves a zombie to it. */
  ghost predicate ExitWakes(procs: seq<Proc>, p: nat, init: nat, chan: Chan)
    requires p < |procs|
  {
    (procs[p].parent.Some? && chan == OnProc(procs[p].parent.value)) || (chan == OnProc(init) && HasZombie(procs, p))
  }

  /** exit, from the wakeup of the parent to the scheduler. */
  ghost function Exited(procs: seq<Proc>, p: nat, init: nat, status: int, now: nat): (r: seq<Proc>)
    requires p < |procs|
    ensures |r| == |procs|
  {
    var woken := if procs[p].parent.Some? then WakeAll(procs, OnProc(procs[p].parent.value)) else procs;
    var adopted := AdoptAll(woken, p, init);
    adopted[p := adopted[p].(state := ZOMBIE, status := status, ttime := now)]
  }

  /** update_times, for one process. */
  function Ticked(p: Proc): Proc {
    match p.state
    case RUNNING => p.(rutime := p.rutime + 1)
    case RUNNABLE => p.(retime := p.retime + 1)
    case SLEEPING => p.(stime := p.stime + 1)
    case _ => p
  }

  function TickAll(procs: seq<Proc>): (r: seq<Proc>)
    ensures |r| == |procs| && forall i :: 0 <= i < |procs| ==> r[i] == Ticked(procs[i])
  {
    seq(|procs|, i requires 0 <= i < |procs| => Ticked(procs[i]))
  }

  /** A reaped slot. */
  function Reaped(p: Proc): Proc { p.(pid := 0, parent := None, killed := false, state := UNUSED) }

  /** What wait_stat tells of a child's times. */
  datatype Perf = Perf(ctime: nat, ttime: nat, stime: nat, retime: nat, rutime: nat)

  /** What one scan of wait decides. */
  datatype Scan = Reap(child: nat) | Childless | Wait

  ghost predicate ScanIs(procs: seq<Proc>, p: nat, r: Scan)
    requires p < |procs|
  {
    match r
    case Reap(c) => c < |procs| && IsChild(procs[c], p) && procs[c].state.ZOMBIE?
    case Childless => !HasZombie(procs, p) && (!HasChild(procs, p) || procs[p].killed)
    case Wait => !HasZombie(procs, p) && HasChild(procs, p) && !procs[p].killed
  }

  function Killed(p: Proc): Proc {
    if p.state.SLEEPING? then p.(killed := true, state := RUNNABLE) else p.(killed := true)
  }

  ghost predicate FirstWith(procs: seq<Proc>, pid: nat, k: nat) {
    k < |procs| && procs[k].pid == pid && forall j :: 0 <= j < k ==> procs[j].pid != pid
  }

  /** The loops over the process table. */
  class Table {
    var procs: seq<Proc>
    var nextpid: nat

    /** wakeup1. */
    method Wakeup1(chan: Chan)
      modifies this`procs
      ensures procs == WakeAll(old(procs), chan) && |procs| == |old(procs)|
      ensures forall i :: 0 <= i < |procs| ==>
                procs[i] == if old(procs)[i].state.SLEEPING? && old(procs)[i].chan == chan
                            then old(procs)[i].(state := RUNNABLE) else old(procs)[i]
    {
      var i := 0;
      while i < |procs|
        invariant 0 <= i <= |procs| == |old(procs)|
        invariant forall k :: 0 <= k < |procs| ==>
                    procs[k] == if k < i then Woken(old(procs)[k], chan) else old(procs)[k]
      {
        if procs[i].state.SLEEPING? && procs[i].chan == chan {
          procs := procs[i := procs[i].(state := RUNNABLE)];
        }
        i := i + 1;
      }
    }

    /** The critical section of exit. */
    method Exit(p: nat, init: nat, status: int, now: nat)
      requires p < |procs| && init < |procs|
      modifies this`procs
      ensures procs == Exited(old(procs), p, init, status, now) && |procs| == |old(procs)|
      ensures procs[p].state == ZOMBIE && procs[p].status == status && procs[p].ttime == now
      ensures forall i :: 0 <= i < |procs| ==>
                && procs[i].parent == (if old(procs)[i].parent == Some(p) then Some(init) else old(procs)[i].parent)
                && procs[i].pid == old(procs)[i].pid && procs[i].killed == old(procs)[i].killed
                && (i != p && !old(procs)[i].state.SLEEPING? ==> procs[i].state == old(procs)[i].state)
      ensures forall i :: 0 <= i < |procs| && i != p && old(procs)[i].state.SLEEPING? ==>
                && procs[i].chan == old(procs)[i].chan
                && procs[i].state == if ExitWakes(old(procs), p, init, procs[i].chan) then RUNNABLE else SLEEPING
    {
      if procs[p].parent.Some? {
        Wakeup1(OnProc(procs[p].parent.value));
      }
      Adopt(p, init);
      procs := procs[p := procs[p].(state := ZOMBIE)];
      procs := procs[p := procs[p].(status := status)];
      procs := procs[p := procs[p].(ttime := now)];
    }

    /** The loop of exit that passes abandoned children to init. */
    method Adopt(p: nat, init: nat)
      modifies this`procs
      ensures procs == AdoptAll(old(procs), p, init) && |procs| == |old(procs)|
      ensures forall i :: 0 <= i < |procs| ==>
                && procs[i].parent == (if old(procs)[i].parent == Some(p) then Some(init) else old(procs)[i].parent)
                && procs[i] == old(procs)[i].(parent := procs[i].parent, state := procs[i].state)
      ensures forall i :: 0 <= i < |procs| && procs[i].state != old(procs)[i].state ==>
                old(procs)[i].state.SLEEPING? && old(procs)[i].chan == OnProc(init) && procs[i].state.RUNNABLE?
      ensures HasZombie(old(procs), p) ==>
                forall i :: 0 <= i < |procs| ==> !(procs[i].state.SLEEPING? && procs[i].chan == OnProc(init))
    {
      var i := 0;
      ghost var zombie := false;
      while i < |procs|
        invariant 0 <= i <= |procs| == |old(procs)|
        invariant zombie <==> exists k :: 0 <= k < i && IsChild(old(procs)[k], p) && old(procs)[k].state.ZOMBIE?
        invariant forall k :: 0 <= k < i ==> procs[k] == Adopted(old(procs)[k], p, init, zombie)
        invariant forall k :: i <= k < |procs| ==>
                    procs[k] == if zombie then Woken(old(procs)[k], OnProc(init)) else old(procs)[k]
      {
        if procs[i].parent == Some(p) {
          procs := procs[i := procs[i].(parent := Some(init))];
          if procs[i].state.ZOMBIE? {
            Wakeup1(OnProc(init));
            zombie := true;
          }
        }
        i := i + 1;
      }
      assert zombie == HasZombie(old(procs), p);
    }

    /** The scan of wait and wait_stat; a zombie child is reaped. */
    method WaitScan(p: nat) returns (r: Scan, pid: nat, status: int, perf: Perf)
      requires p < |procs|
      modifies this`procs
      ensures ScanIs(old(procs), p, r)
      ensures r.Reap? ==>
                && procs == old(procs)[r.child := Reaped(old(procs)[r.child])]
                && procs[r.child].state.UNUSED? && procs[r.child].parent == None && !procs[r.child].killed
                && procs[r.child].pid == 0
                && (var q := old(procs)[r.child];
                    && pid == q.pid && status == q.status
                    && perf == Perf(q.ctime, q.ttime, q.stime, q.retime, q.rutime))
                && forall k :: 0 <= k < r.child ==> !(IsChild(old(procs)[k], p) && old(procs)[k].state.ZOMBIE?)
      ensures !r.Reap? ==> procs == old(procs)
    {
      var havekids := false;
      pid, status, perf := 0, 0, Perf(0, 0, 0, 0, 0);
      var i := 0;
      while i < |procs|
        invariant 0 <= i <= |procs| && procs == old(procs)
        invariant havekids <==> exists k :: 0 <= k < i && IsChild(procs[k], p)
        invariant forall k :: 0 <= k < i ==> !(IsChild(procs[k], p) && procs[k].state.ZOMBIE?)
      {
        if procs[i].parent == Some(p) {
          havekids := true;
          if procs[i].state.ZOMBIE? {
            perf := Perf(procs[i].ctime, procs[i].ttime, procs[i].stime, procs[i].retime, procs[i].rutime);
            pid, status := procs[i].pid, procs[i].status;
            procs := procs[i := procs[i].(pid := 0, parent := None, killed := false, state := UNUSED)];
            return Reap(i), pid, status, perf;
          }
        }
        i := i + 1;
      }
      if !havekids || procs[p].killed {
        return Childless, 0, 0, perf;
      }
      return Wait, 0, 0, perf;
    }

    /** The search of allocproc. */
    method AllocProc() returns (r: Option<nat>)
      modifies this`procs, this`nextpid
      ensures r == None ==>
                && procs == old(procs) && nextpid == old(nextpid)
                && forall k :: 0 <= k < |procs| ==> !procs[k].state.UNUSED?
      ensures r.Some? ==>
                && r.value < |old(procs)| && old(procs)[r.value].state.UNUSED? && nextpid == old(nextpid) + 1
                && (forall k :: 0 <= k < r.value ==> !old(procs)[k].state.UNUSED?)
                && procs == old(procs)[r.value := old(procs)[r.value].(state := EMBRYO, pid := old(nextpid))]
    {
      var i := 0;
      while i < |procs|
        invariant 0 <= i <= |procs| && forall k :: 0 <= k < i ==> !procs[k].state.UNUSED?
      {
        if procs[i].state.UNUSED? {
          procs := procs[i := procs[i].(state := EMBRYO, pid := nextpid)];
          nextpid := nextpid + 1;
          return Some(i);
        }
        i := i + 1;
      }
      r := None;
    }

    /** kill: the first slot with this pid, a free one included. */
    method Kill(pid: nat) returns (ok: bool)
      modifies this`procs
      ensures ok <==> exists k :: 0 <= k < |old(procs)| && old(procs)[k].pid == pid
      ensures !ok ==> procs == old(procs)
      ensures ok ==> exists k: nat :: FirstWith(old(procs), pid, k) && procs == old(procs)[k := Killed(old(procs)[k])]
    {
      var i := 0;
      while i < |procs|
        invariant 0 <= i <= |procs| && procs == old(procs) && forall k :: 0 <= k < i ==> procs[k].pid != pid
      {
        if procs[i].pid == pid {
          assert FirstWith(procs, pid, i);
          procs := procs[i := procs[i].(killed := true)];
          if procs[i].state.SLEEPING? {
            procs := procs[i := procs[i].(state := RUNNABLE)];
          }
          assert procs == old(procs)[i := Killed(old(procs)[i])];
          return true;
        }
        i := i + 1;
      }
      ok := false;
    }

    /** update_times. */
    method UpdateTimes()
      modifies this`procs
      ensures procs == TickAll(old(procs)) && |procs| == |old(procs)|
      ensures forall i :: 0 <= i < |procs| ==>
                && procs[i].stime == old(procs)[i].stime + (if old(procs)[i].state.SLEEPING? then 1 else 0)
                && procs[i].retime == old(procs)[i].retime + (if old(procs)[i].state.RUNNABLE? then 1 else 0)
                && procs[i].rutime == old(procs)[i].rutime + (if old(procs)[i].state.RUNNING? then 1 else 0)
                && procs[i].state == old(procs)[i].state
    {
      var i := 0;
      while i < |procs|
        invariant 0 <= i <= |procs| == |old(procs)|
        invariant forall k :: 0 <= k < |procs| ==> procs[k] == if k < i then Ticked(old(procs)[k]) else old(procs)[k]
      {
        match procs[i].state {
          case RUNNING => procs := procs[i := procs[i].(rutime := procs[i].rutime + 1)];
          case RUNNABLE => procs := procs[i := procs[i].(retime := procs[i].retime + 1)];
          case SLEEPING => procs := procs[i := procs[i].(stime := procs[i].stime + 1)];
          case _ =>
        }
        i := i + 1;
      }
    }
  }
}
