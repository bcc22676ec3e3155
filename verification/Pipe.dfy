/**
 pipewrite, piperead and pipeclose of pipe.c for any number of readers and
 writers and any interleaving. A step is what a process does between taking the
 pipe's lock and giving it up, in release or in sleep.
 */
module Pipe {
  import opened Basics
  import opened RingBuffer

  /**
   A process outside the pipe, in piperead for `n` bytes, or in pipewrite with
   the bytes `rest` still to write; `asleep` says whether it is SLEEPING.
   */
  datatype Where = Outside | Reading(n: nat, asleep: bool) | Writing(rest: seq<Byte>, asleep: bool)

  /** What a call returned. */
  datatype Result = Failed | Wrote | Read(bytes: seq<Byte>)

  datatype Sys = Sys(data: seq<Byte>, nread: nat, nwrite: nat, readopen: bool, writeopen: bool, procs: seq<Where>,
                     killed: seq<bool>)

  datatype Step =
    | CallRead(i: nat, n: nat) | CallWrite(i: nat, bytes: seq<Byte>)
    | ReadStep(i: nat) | WriteStep(i: nat)
    | CloseRead | CloseWrite | Kill(i: nat)

  predicate SleepingReader(w: Where) { w.Reading? && w.asleep }

  predicate SleepingWriter(w: Where) { w.Writing? && w.asleep }

  /** A process in the pipe keeps its end of the pipe open. */
  predicate May(s: Sys, step: Step) {
    |s.killed| == |s.procs| &&
    match step
    case CallRead(i, _) => i < |s.procs| && s.procs[i].Outside? && s.readopen
    case CallWrite(i, _) => i < |s.procs| && s.procs[i].Outside? && s.writeopen
    case ReadStep(i) => i < |s.procs| && s.procs[i].Reading? && !s.procs[i].asleep
    case WriteStep(i) => i < |s.procs| && s.procs[i].Writing? && !s.procs[i].asleep
    case CloseRead => s.readopen && forall i :: 0 <= i < |s.procs| ==> !s.procs[i].Reading?
    case CloseWrite => s.writeopen && forall i :: 0 <= i < |s.procs| ==> !s.procs[i].Writing?
    case Kill(i) => i < |s.procs|
  }

  /** wakeup(&p->nread) and wakeup(&p->nwrite), for one process. */
  function WakeReader(w: Where): Where {
    match w
    case Reading(n, _) => Reading(n, false)
    case _ => w
  }

  function WakeWriter(w: Where): Where {
    match w
    case Writing(rest, _) => Writing(rest, false)
    case _ => w
  }

  function WakeReaders(procs: seq<Where>): (r: seq<Where>)
    ensures |r| == |procs| && forall k :: 0 <= k < |procs| ==> r[k] == WakeReader(procs[k])
  {
    seq(|procs|, k requires 0 <= k < |procs| => WakeReader(procs[k]))
  }

  function WakeWriters(procs: seq<Where>): (r: seq<Where>)
    ensures |r| == |procs| && forall k :: 0 <= k < |procs| ==> r[k] == WakeWriter(procs[k])
  {
    seq(|procs|, k requires 0 <= k < |procs| => WakeWriter(procs[k]))
  }

  predicate Sized(s: Sys) { |s.data| == PIPESIZE && |s.killed| == |s.procs| }

  /** pipewrite returns -1 here: bytes are left, the ring is full, and nobody reads or the writer was killed. */
  predicate GivesUp(s: Sys, i: nat)
    requires Sized(s) && i < |s.procs| && s.procs[i].Writing?
  {
    Filled(s.data, s.nread, s.nwrite, s.procs[i].rest).2 != [] && (!s.readopen || s.killed[i])
  }

  /** The state and the result, if the call returns, after a writer had the lock. */
  function AfterWrite(s: Sys, i: nat): (Sys, seq<Result>)
    requires Sized(s) && i < |s.procs| && s.procs[i].Writing?
  {
    var bytes := s.procs[i].rest;
    var (data, nwrite, rest) := Filled(s.data, s.nread, s.nwrite, bytes);
    var stored := s.(data := data, nwrite := nwrite);
    if rest == [] then (stored.(procs := WakeReaders(s.procs)[i := Outside]), [Wrote])
    else if GivesUp(s, i) then (stored.(procs := s.procs[i := Outside]), [Failed])
    else (stored.(procs := WakeReaders(s.procs)[i := Writing(rest, true)]), [])
  }

  function AfterRead(s: Sys, i: nat): (Sys, seq<Result>)
    requires Sized(s) && i < |s.procs| && s.procs[i].Reading?
  {
    var n := s.procs[i].n;
    if Empty(s.nread, s.nwrite) && s.writeopen then
      if s.killed[i] then (s.(procs := s.procs[i := Outside]), [Failed])
      else (s.(procs := s.procs[i := Reading(n, true)]), [])
    else
      var (bytes, nread) := Drained(s.data, s.nread, s.nwrite, n);
      (s.(nread := nread, procs := WakeWriters(s.procs)[i := Outside]), [Read(bytes)])
  }

  function Next(s: Sys, step: Step): Sys
    requires Sized(s) && May(s, step)
  {
    match step
    case CallRead(i, n) => s.(procs := s.procs[i := Reading(n, false)])
    case CallWrite(i, bytes) => s.(procs := s.procs[i := Writing(bytes, false)])
    case ReadStep(i) => AfterRead(s, i).0
    case WriteStep(i) => AfterWrite(s, i).0
    case CloseRead => s.(readopen := false, procs := WakeWriters(s.procs))
    case CloseWrite => s.(writeopen := false, procs := WakeReaders(s.procs))
    case Kill(i) =>
      s.(killed := s.killed[i := true],
         procs := s.procs[i := match s.procs[i]
                               case Outside => Outside
                               case Reading(n, _) => Reading(n, false)
                               case Writing(rest, _) => Writing(rest, false)])
  }

  /** What a step returns to the process that takes it: nothing while the call goes on. */
  function Returned(s: Sys, step: Step): seq<Result>
    requires Sized(s) && May(s, step)
  {
    match step
    case ReadStep(i) => AfterRead(s, i).1
    case WriteStep(i) => AfterWrite(s, i).1
    case _ => []
  }

  // What every step keeps

  /** The counters are in range, and ends stay open while in use. */
  ghost predicate Ok(s: Sys) {
    && Sized(s) && RingOk(s.data, s.nread, s.nwrite)
    && (forall i :: 0 <= i < |s.procs| ==>
        (s.procs[i].Reading? ==> s.readopen) && (s.procs[i].Writing? ==> s.writeopen))
  }

  /** A sleeping writer has nothing to do: the ring is full and someone may read it. */
  ghost predicate WritersOk(s: Sys) {
    forall i :: 0 <= i < |s.procs| && SleepingWriter(s.procs[i]) ==> Full(s.nread, s.nwrite) && s.readopen
  }

  /** A sleeping reader has nothing to do: the ring is empty and someone may write to it. */
  ghost predicate ReadersOk(s: Sys) {
    forall i :: 0 <= i < |s.procs| && SleepingReader(s.procs[i]) ==> Empty(s.nread, s.nwrite) && s.writeopen
  }

  /** A writer that gives up without waking the readers, although it has stored bytes. */
  ghost predicate Forgets(s: Sys, step: Step)
    requires Ok(s) && May(s, step)
  {
    && step.WriteStep? && GivesUp(s, step.i) && !Full(s.nread, s.nwrite)
    && exists j :: 0 <= j < |s.procs| && SleepingReader(s.procs[j])
  }

  /** The bytes in the pipe, oldest first. */
  ghost function Contents(s: Sys): seq<Byte>
    requires Ok(s)
  {
    Queue(s.data, s.nread, s.nwrite)
  }

  lemma {:induction false} WriteOk(s: Sys, i: nat)
    requires Ok(s) && May(s, WriteStep(i))
    ensures Ok(AfterWrite(s, i).0)
  {
    hide Filled, Queue, RingOk, Full;
    FilledQueue(s.data, s.nread, s.nwrite, s.procs[i].rest);
  }

  lemma {:induction false} ReadOk(s: Sys, i: nat)
    requires Ok(s) && May(s, ReadStep(i))
    ensures Ok(AfterRead(s, i).0)
  {
    hide Drained, Queue, RingOk;
    DrainedQueue(s.data, s.nread, s.nwrite, s.procs[i].n);
  }

  lemma {:induction false} StepOk(s: Sys, step: Step)
    requires Ok(s) && May(s, step)
    ensures Ok(Next(s, step))
  {
    hide AfterWrite, AfterRead;
    if step.WriteStep? {
      WriteOk(s, step.i);
    } else if step.ReadStep? {
      ReadOk(s, step.i);
    }
  }

  /**
   A writer's turn stores what fits. The call returns `Wrote` exactly when
   nothing is left over, and `Failed` exactly when something is and nobody reads
   or the writer was killed; otherwise the writer sleeps with what is left.
   */
  lemma {:induction false} WriteReturns(s: Sys, i: nat)
    requires Ok(s) && May(s, WriteStep(i))
    ensures var (s', r) := AfterWrite(s, i);
            var rest := s.procs[i].rest;
            var k := Min(|rest|, PIPESIZE - |Contents(s)|);
            && 0 <= k && Ok(s') && Contents(s') == Contents(s) + rest[..k]
            && (k == |rest| ==> r == [Wrote] && s'.procs == WakeReaders(s.procs)[i := Outside])
            && (k < |rest| && (!s.readopen || s.killed[i]) ==> r == [Failed] && s'.procs == s.procs[i := Outside])
            && (k < |rest| && s.readopen && !s.killed[i] ==>
                  r == [] && s'.procs == WakeReaders(s.procs)[i := Writing(rest[k..], true)])
            && s' == s.(data := s'.data, nwrite := s'.nwrite, procs := s'.procs)
  {
    hide Filled, Queue, Held, Full;
    var bytes := s.procs[i].rest;
    var (data, nwrite, rest) := Filled(s.data, s.nread, s.nwrite, bytes);
    FilledQueue(s.data, s.nread, s.nwrite, bytes);
    WriteOk(s, i);
    Tests(s.nread, nwrite);
    StoredBytes(Contents(s), bytes, Queue(data, s.nread, nwrite), rest);
  }

  /** What was stored is the front of the bytes to write. */
  lemma {:induction false} StoredBytes(q: seq<Byte>, bytes: seq<Byte>, q': seq<Byte>, rest: seq<Byte>)
    requires q' + rest == q + bytes && |q'| <= PIPESIZE && |q| <= PIPESIZE && |rest| <= |bytes|
    requires rest != [] ==> |q'| == PIPESIZE
    ensures var k := Min(|bytes|, PIPESIZE - |q|); 0 <= k && q' == q + bytes[..k] && rest == bytes[k..]
  {
    var k := |bytes| - |rest|;
    assert |q' + rest| == |q'| + |rest| && |q + bytes| == |q| + |bytes|;
    assert q' == (q' + rest)[..|q'|] && rest == (q' + rest)[|q'|..];
    assert q + bytes[..k] == (q + bytes)[..|q| + k] && bytes[k..] == (q + bytes)[|q| + k..];
  }

  /**
   A reader's turn sleeps exactly at an empty pipe that may still be written,
   and fails exactly there if the reader was killed; otherwise it returns the
   oldest bytes, as many as it asked for or all there are.
   */
  lemma {:induction false} ReadReturns(s: Sys, i: nat)
    requires Ok(s) && May(s, ReadStep(i))
    ensures var (s', r) := AfterRead(s, i);
            var n := s.procs[i].n;
            var k := Min(n, |Contents(s)|);
            && Ok(s')
            && (Contents(s) == [] && s.writeopen && !s.killed[i] ==>
                  r == [] && Contents(s') == [] && s'.procs == s.procs[i := Reading(n, true)])
            && (Contents(s) == [] && s.writeopen && s.killed[i] ==>
                  r == [Failed] && Contents(s') == [] && s'.procs == s.procs[i := Outside])
            && (!(Contents(s) == [] && s.writeopen) ==>
                  && r == [Read(Contents(s)[..k])] && Contents(s') == Contents(s)[k..]
                  && s'.procs == WakeWriters(s.procs)[i := Outside])
            && s' == s.(nread := s'.nread, procs := s'.procs)
  {
    hide Drained, Queue, Held, Empty;
    var r := Drained(s.data, s.nread, s.nwrite, s.procs[i].n);
    DrainedQueue(s.data, s.nread, s.nwrite, s.procs[i].n);
    ReadOk(s, i);
    Tests(s.nread, s.nwrite);
    Tests(r.1, s.nwrite);
    assert Contents(s)[..|r.0|] == r.0 && Contents(s)[|r.0|..] == Queue(s.data, r.1, s.nwrite);
  }

  /** What a writer's turn does to the tests for full and empty. */
  lemma {:induction false} WriteTests(s: Sys, i: nat)
    requires Ok(s) && May(s, WriteStep(i))
    ensures var (_, nwrite, rest) := Filled(s.data, s.nread, s.nwrite, s.procs[i].rest);
            && (rest != [] ==> Full(s.nread, nwrite) && !Empty(s.nread, nwrite))
            && (Full(s.nread, s.nwrite) ==> nwrite == s.nwrite && !Empty(s.nread, s.nwrite))
            && (!Full(s.nread, s.nwrite) && s.procs[i].rest != [] ==> !Empty(s.nread, nwrite))
  {
    hide Queue, Held;
    var bytes := s.procs[i].rest;
    var r := Filled(s.data, s.nread, s.nwrite, bytes);
    FilledQueue(s.data, s.nread, s.nwrite, bytes);
    Tests(s.nread, s.nwrite);
    Tests(s.nread, r.1);
    assert |Queue(r.0, s.nread, r.1) + r.2| == |Queue(s.data, s.nread, s.nwrite) + bytes|;
  }

  lemma {:induction false} StepWriters(s: Sys, step: Step)
    requires Ok(s) && WritersOk(s) && May(s, step)
    ensures WritersOk(Next(s, step))
  {
    hide Filled, Drained, Full, Empty, Queue, RingOk;
    var s' := Next(s, step);
    if step.WriteStep? {
      WriteTests(s, step.i);
    }
    forall k | 0 <= k < |s'.procs| && SleepingWriter(s'.procs[k]) ensures Full(s'.nread, s'.nwrite) && s'.readopen {
      assert 0 <= k < |s.procs|;
    }
  }

  /** Readers are never forgotten, except exactly by a writer that gives up after storing bytes. */
  lemma {:induction false} StepReaders(s: Sys, step: Step)
    requires Ok(s) && ReadersOk(s) && May(s, step)
    ensures ReadersOk(Next(s, step)) <==> !Forgets(s, step)
  {
    hide Filled, Drained, Full, Empty, Queue, RingOk;
    var s' := Next(s, step);
    if step.WriteStep? {
      WriteTests(s, step.i);
    }
    if Forgets(s, step) {
      var j :| 0 <= j < |s.procs| && SleepingReader(s.procs[j]);
      assert s'.procs[j] == s.procs[j];
    } else {
      forall k | 0 <= k < |s'.procs| && SleepingReader(s'.procs[k]) ensures Empty(s'.nread, s'.nwrite) && s'.writeopen {
        assert 0 <= k < |s.procs|;
      }
    }
  }

  // Runs

  ghost predicate CanRun(s: Sys, steps: seq<Step>)
    requires Ok(s)
    decreases |steps|
  {
    steps == [] || (May(s, steps[0]) && (StepOk(s, steps[0]); CanRun(Next(s, steps[0]), steps[1..])))
  }

  ghost function Run(s: Sys, steps: seq<Step>): (r: Sys)
    requires Ok(s) && CanRun(s, steps)
    decreases |steps|
  {
    if steps == [] then s else (StepOk(s, steps[0]); Run(Next(s, steps[0]), steps[1..]))
  }

  /** A new pipe among `n` processes, none of them killed. */
  function Start(n: nat): (s: Sys)
    ensures Ok(s) && WritersOk(s) && ReadersOk(s)
  {
    Sys(seq(PIPESIZE, _ => 0), 0, 0, true, true, seq(n, _ => Outside), seq(n, _ => false))
  }

  lemma {:induction false} RunKeeps(s: Sys, steps: seq<Step>)
    requires Ok(s) && CanRun(s, steps)
    ensures Ok(Run(s, steps))
    decreases |steps|
  {
    hide Queue, RingOk, Next, May;
    if steps != [] {
      StepOk(s, steps[0]);
      RunKeeps(Next(s, steps[0]), steps[1..]);
    }
  }

  lemma {:induction false} RunWriters(s: Sys, steps: seq<Step>)
    requires Ok(s) && WritersOk(s) && CanRun(s, steps)
    ensures WritersOk(Run(s, steps))
    decreases |steps|
  {
    hide WritersOk, Next, May;
    if steps != [] {
      StepOk(s, steps[0]);
      StepWriters(s, steps[0]);
      RunWriters(Next(s, steps[0]), steps[1..]);
    }
  }

  /** No writer gives up in this run without waking a reader for which it has stored bytes. */
  ghost predicate NeverForgets(s: Sys, steps: seq<Step>)
    requires Ok(s) && CanRun(s, steps)
    decreases |steps|
  {
    steps == [] || (!Forgets(s, steps[0]) && (StepOk(s, steps[0]); NeverForgets(Next(s, steps[0]), steps[1..])))
  }

  /** Then no reader sleeps with something to do. */
  lemma {:induction false} RunReaders(s: Sys, steps: seq<Step>)
    requires Ok(s) && ReadersOk(s) && CanRun(s, steps) && NeverForgets(s, steps)
    ensures ReadersOk(Run(s, steps))
    decreases |steps|
  {
    hide ReadersOk, Next, May, Forgets;
    if steps != [] {
      StepOk(s, steps[0]);
      StepReaders(s, steps[0]);
      RunReaders(Next(s, steps[0]), steps[1..]);
    }
  }

  ghost predicate NoneKilled(s: Sys) { forall i :: 0 <= i < |s.killed| ==> !s.killed[i] }

  lemma {:induction false} NotForgotten(s: Sys, step: Step)
    requires Ok(s) && May(s, step) && NoneKilled(s)
    ensures !Forgets(s, step) && (!step.Kill? ==> NoneKilled(Next(s, step)))
  {
  }

  /** Without killed processes nothing is forgotten. */
  lemma {:induction false} AliveNeverForgets(s: Sys, steps: seq<Step>)
    requires Ok(s) && NoneKilled(s) && CanRun(s, steps) && forall k :: 0 <= k < |steps| ==> !steps[k].Kill?
    ensures NeverForgets(s, steps)
    decreases |steps|
  {
    hide NoneKilled, Next, May, Forgets;
    if steps != [] {
      StepOk(s, steps[0]);
      NotForgotten(s, steps[0]);
      AliveNeverForgets(Next(s, steps[0]), steps[1..]);
    }
  }

  /** No reader and writer are asleep together. */
  ghost predicate NotBoth(s: Sys) {
    forall i, j :: 0 <= i < |s.procs| && 0 <= j < |s.procs| ==>
      !(SleepingReader(s.procs[i]) && SleepingWriter(s.procs[j]))
  }

  /** Whoever goes to sleep has woken the other side, or would not sleep if the other side did. */
  lemma {:induction false} StepNotBoth(s: Sys, step: Step)
    requires Ok(s) && WritersOk(s) && NotBoth(s) && May(s, step)
    ensures NotBoth(Next(s, step))
  {
    hide Filled, Drained, Full, Empty, Queue, Held;
    var s' := Next(s, step);
    if step.WriteStep? {
      WriteTests(s, step.i);
    }
    Tests(s.nread, s.nwrite);
    forall i, j | 0 <= i < |s'.procs| && 0 <= j < |s'.procs|
      ensures !(SleepingReader(s'.procs[i]) && SleepingWriter(s'.procs[j]))
    {
      assert 0 <= i < |s.procs| && 0 <= j < |s.procs|;
    }
  }

  lemma {:induction false} RunNotBoth(s: Sys, steps: seq<Step>)
    requires Ok(s) && WritersOk(s) && NotBoth(s) && CanRun(s, steps)
    ensures NotBoth(Run(s, steps))
    decreases |steps|
  {
    hide WritersOk, NotBoth, Next, May;
    if steps != [] {
      StepOk(s, steps[0]);
      StepWriters(s, steps[0]);
      StepNotBoth(s, steps[0]);
      RunNotBoth(Next(s, steps[0]), steps[1..]);
    }
  }

  /** In every run, kills included, the two sides never sleep at once. */
  lemma {:induction false} NeverBothAsleep(n: nat, steps: seq<Step>, i: nat, j: nat)
    requires CanRun(Start(n), steps)
    ensures var s := Run(Start(n), steps);
            i < |s.procs| && j < |s.procs| ==> !(SleepingReader(s.procs[i]) && SleepingWriter(s.procs[j]))
  {
    RunNotBoth(Start(n), steps);
  }

  lemma RunMore(s: Sys, step: Step, rest: seq<Step>)
    requires Ok(s) && May(s, step) && Ok(Next(s, step)) && CanRun(Next(s, step), rest)
    ensures CanRun(s, [step] + rest) && Run(s, [step] + rest) == Run(Next(s, step), rest)
  {
    assert ([step] + rest)[1..] == rest;
  }

  /** Two processes: the first reads one byte, the second writes `bytes`. */
  function Duo(r: Where, w: Where, killed: bool): Sys {
    Sys(seq(PIPESIZE, _ => 0), 0, 0, true, true, [r, w], [false, killed])
  }

  lemma DuoSteps(bytes: seq<Byte>)
    ensures Start(2) == Duo(Outside, Outside, false)
    ensures Next(Start(2), CallRead(0, 1)) == Duo(Reading(1, false), Outside, false)
    ensures Next(Duo(Reading(1, false), Outside, false), ReadStep(0)) == Duo(Reading(1, true), Outside, false)
    ensures Next(Duo(Reading(1, true), Outside, false), CallWrite(1, bytes)) == Duo(Reading(1, true),
              Writing(bytes, false), false)
    ensures Next(Duo(Reading(1, true), Writing(bytes, false), false), Kill(1)) == Duo(Reading(1, true),
              Writing(bytes, false), true)
  {
  }

  lemma DuoForgets(bytes: seq<Byte>)
    requires |bytes| > PIPESIZE
    ensures var s := Duo(Reading(1, true), Writing(bytes, false), true);
            Ok(s) && May(s, WriteStep(1)) && Ok(Next(s, WriteStep(1))) && !ReadersOk(Next(s, WriteStep(1)))
  {
    var s := Duo(Reading(1, true), Writing(bytes, false), true);
    var r := Filled(s.data, 0, 0, bytes);
    FilledQueue(s.data, 0, 0, bytes);
    assert |Queue(r.0, 0, r.1) + r.2| == |Queue(s.data, 0, 0) + bytes|;
    assert SleepingReader(s.procs[0]) && Forgets(s, WriteStep(1));
    StepReaders(s, WriteStep(1));
    StepOk(s, WriteStep(1));
  }

  /** The exception happens: a killed writer fills the buffer and returns, and the reader sleeps on. */
  lemma {:induction false} KilledWriterForgets()
    ensures exists steps :: CanRun(Start(2), steps) && !ReadersOk(Run(Start(2), steps))
  {
    hide CanRun, Run, Next, ReadersOk, Start;
    var bytes: seq<Byte> := seq(PIPESIZE + 1, _ => 0);
    DuoSteps(bytes);
    DuoForgets(bytes);
    var s4 := Duo(Reading(1, true), Writing(bytes, false), true);
    var t4 := [WriteStep(1)] + [];
    RunNone(Next(s4, WriteStep(1)));
    RunMore(s4, WriteStep(1), []);
    RunMore(s4.(killed := [false, false]), Kill(1), t4);
    var t3 := [Kill(1)] + t4;
    RunMore(Duo(Reading(1, true), Outside, false), CallWrite(1, bytes), t3);
    var t2 := [CallWrite(1, bytes)] + t3;
    RunMore(Duo(Reading(1, false), Outside, false), ReadStep(0), t2);
    var t1 := [ReadStep(0)] + t2;
    RunMore(Start(2), CallRead(0, 1), t1);
  }

  lemma RunNone(s: Sys)
    requires Ok(s)
    ensures CanRun(s, []) && Run(s, []) == s
  {
  }
}
