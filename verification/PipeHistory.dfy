/**
 What the calls of a run on a pipe did, told from the run: which call stored
 which byte, what each call returned, and what the readers got.
 */
module PipeHistory {
  import opened Basics
  import opened RingBuffer
  import opened Pipe

  datatype Wish = ToRead(n: nat) | ToWrite(bytes: seq<Byte>)

  /** A call of process `proc`, and what it returned. */
  datatype Call = Call(proc: nat, wish: Wish, result: Option<Result>)

  /**
   The calls in order; of each process its last call; every byte ever stored, in
   order, with the call that stored it; and the bytes of the results of the
   reads, in the order in which they returned.
   */
  datatype History = History(calls: seq<Call>, last: seq<nat>, stream: seq<(nat, Byte)>, got: seq<Byte>)

  function Tagged(c: nat, bytes: seq<Byte>): seq<(nat, Byte)> {
    seq(|bytes|, k requires 0 <= k < |bytes| => (c, bytes[k]))
  }

  function Plain(stream: seq<(nat, Byte)>): seq<Byte> {
    seq(|stream|, k requires 0 <= k < |stream| => stream[k].1)
  }

  /** The bytes that call `c` stored. */
  function By(stream: seq<(nat, Byte)>, c: nat): seq<Byte> {
    if stream == [] then []
    else
      var n := |stream| - 1;
      if stream[n].0 == c then By(stream[..n], c) + [stream[n].1] else By(stream[..n], c)
  }

  /** The bytes that a step has added to the pipe. */
  ghost function Added(s: Sys, s': Sys): seq<Byte>
    requires Ok(s) && Ok(s')
  {
    if |Contents(s)| <= |Contents(s')| then Contents(s')[|Contents(s)|..] else []
  }

  function BytesOf(r: seq<Result>): seq<Byte> { if |r| == 1 && r[0].Read? then r[0].bytes else [] }

  function Answered(calls: seq<Call>, c: nat, r: seq<Result>): (a: seq<Call>)
    ensures |a| == |calls|
  {
    if c < |calls| && |r| == 1 then calls[c := calls[c].(result := Some(r[0]))] else calls
  }

  /** The history after one more step. */
  ghost function Noted(h: History, s: Sys, step: Step): History
    requires Ok(s) && May(s, step) && Ok(Next(s, step)) && |h.last| == |s.procs|
  {
    match step
    case CallRead(i, n) =>
      h.(calls := h.calls + [Call(i, ToRead(n), None)], last := h.last[i := |h.calls|])
    case CallWrite(i, bytes) =>
      h.(calls := h.calls + [Call(i, ToWrite(bytes), None)], last := h.last[i := |h.calls|])
    case ReadStep(i) =>
      h.(calls := Answered(h.calls, h.last[i], Returned(s, step)), got := h.got + BytesOf(Returned(s, step)))
    case WriteStep(i) =>
      h.(calls := Answered(h.calls, h.last[i], Returned(s, step)),
         stream := h.stream + Tagged(h.last[i], Added(s, Next(s, step))))
    case _ => h
  }

  // What the history says of the state

  /** First in, first out: what was stored is what the readers got and then what the pipe holds. */
  ghost predicate Fifo(s: Sys, h: History)
    requires Ok(s)
  {
    Plain(h.stream) == h.got + Contents(s)
  }

  /** A process is in a call exactly while the call has not returned. */
  ghost predicate BusyOk(s: Sys, h: History, i: nat)
    requires |h.last| == |s.procs|
  {
    i < |s.procs| && !s.procs[i].Outside? ==>
      h.last[i] < |h.calls| && h.calls[h.last[i]].proc == i && h.calls[h.last[i]].result == None
  }

  ghost predicate ReadCallOk(s: Sys, h: History, c: nat)
    requires Ok(s) && |h.last| == |s.procs| && c < |h.calls| && h.calls[c].wish.ToRead?
  {
    var Call(i, ToRead(n), result) := h.calls[c];
    i < |s.procs| && By(h.stream, c) == [] &&
    match result
    case None => h.last[i] == c && s.procs[i].Reading? && s.procs[i].n == n
    case Some(Read(b)) => |b| <= n && (b == [] && n > 0 ==> !s.writeopen && Contents(s) == [])
    case Some(Failed) => s.killed[i]
    case Some(Wrote) => false
  }

  ghost predicate WriteCallOk(s: Sys, h: History, c: nat)
    requires Ok(s) && |h.last| == |s.procs| && c < |h.calls| && h.calls[c].wish.ToWrite?
  {
    var Call(i, ToWrite(bytes), result) := h.calls[c];
    i < |s.procs| &&
    match result
    case None => h.last[i] == c && s.procs[i].Writing? && By(h.stream, c) + s.procs[i].rest == bytes
    case Some(Wrote) => By(h.stream, c) == bytes
    case Some(Failed) => By(h.stream, c) < bytes && (s.killed[i] || !s.readopen)
    case Some(Read(_)) => false
  }

  ghost predicate CallOk(s: Sys, h: History, c: nat)
    requires Ok(s) && |h.last| == |s.procs| && c < |h.calls|
  {
    if h.calls[c].wish.ToRead? then ReadCallOk(s, h, c) else WriteCallOk(s, h, c)
  }

  ghost predicate TagsOk(h: History) { forall k :: 0 <= k < |h.stream| ==> h.stream[k].0 < |h.calls| }

  ghost predicate HistoryOk(s: Sys, h: History) {
    && Ok(s) && Fifo(s, h) && |h.last| == |s.procs| && TagsOk(h)
    && (forall i: nat :: BusyOk(s, h, i))
    && (forall c :: 0 <= c < |h.calls| ==> CallOk(s, h, c))
  }

  // Streams

  lemma {:induction false} ByMore(stream: seq<(nat, Byte)>, c: nat, bytes: seq<Byte>, d: nat)
    ensures By(stream + Tagged(c, bytes), d) == if c == d then By(stream, d) + bytes else By(stream, d)
    decreases |bytes|
  {
    if bytes == [] {
      assert stream + Tagged(c, bytes) == stream;
    } else {
      var n := |bytes| - 1;
      ByMore(stream, c, bytes[..n], d);
      var all := stream + Tagged(c, bytes);
      assert all[..|all| - 1] == stream + Tagged(c, bytes[..n]);
      assert bytes == bytes[..n] + [bytes[n]];
    }
  }

  lemma {:induction false} ByNobody(stream: seq<(nat, Byte)>, c: nat)
    requires forall k :: 0 <= k < |stream| ==> stream[k].0 < c
    ensures By(stream, c) == []
    decreases |stream|
  {
    if stream != [] {
      ByNobody(stream[..|stream| - 1], c);
    }
  }

  lemma PlainMore(stream: seq<(nat, Byte)>, c: nat, bytes: seq<Byte>)
    ensures Plain(stream + Tagged(c, bytes)) == Plain(stream) + bytes
  {
  }

  // Steps

  lemma {:induction false} StepFifo(s: Sys, h: History, step: Step)
    requires Ok(s) && Fifo(s, h) && |h.last| == |s.procs| && May(s, step)
    ensures Ok(Next(s, step)) && Fifo(Next(s, step), Noted(h, s, step))
  {
    hide AfterWrite, AfterRead, Queue, Plain, RingOk;
    StepOk(s, step);
    if step.WriteStep? {
      WriteReturns(s, step.i);
      PlainMore(h.stream, h.last[step.i], Added(s, Next(s, step)));
    } else if step.ReadStep? {
      ReadReturns(s, step.i);
    }
  }

  lemma {:induction false} StepBusy(s: Sys, h: History, step: Step, i: nat)
    requires HistoryOk(s, h) && May(s, step) && Ok(Next(s, step))
    ensures var s', h' := Next(s, step), Noted(h, s, step); |h'.last| == |s'.procs| && BusyOk(s', h', i)
  {
    hide AfterWrite, AfterRead, Fifo, TagsOk, CallOk, Queue, RingOk, Plain;
    assert BusyOk(s, h, i);
    if step.WriteStep? {
      WriteReturns(s, step.i);
      assert BusyOk(s, h, step.i);
    } else if step.ReadStep? {
      ReadReturns(s, step.i);
      assert BusyOk(s, h, step.i);
    }
  }

  lemma {:induction false} StepTags(s: Sys, h: History, step: Step)
    requires HistoryOk(s, h) && May(s, step) && Ok(Next(s, step))
    ensures TagsOk(Noted(h, s, step))
  {
    hide AfterWrite, AfterRead, Fifo, CallOk, Queue, RingOk, Plain;
    if step.WriteStep? {
      assert BusyOk(s, h, step.i);
    }
  }

  /** A call that a step does not make or take further. */
  lemma {:induction false} OtherCall(s: Sys, h: History, step: Step, c: nat)
    requires HistoryOk(s, h) && May(s, step) && Ok(Next(s, step)) && |Noted(h, s, step).last| == |s.procs|
    requires |Next(s, step).procs| == |s.procs|
    requires c < |h.calls| && ((step.ReadStep? || step.WriteStep?) ==> h.last[step.i] != c)
    ensures CallOk(Next(s, step), Noted(h, s, step), c)
  {
    hide AfterWrite, AfterRead, Fifo, TagsOk, BusyOk, Queue, RingOk, Plain, By;
    assert CallOk(s, h, c);
    if step.WriteStep? {
      WriteReturns(s, step.i);
      ByMore(h.stream, h.last[step.i], Added(s, Next(s, step)), c);
    } else if step.ReadStep? {
      ReadReturns(s, step.i);
    }
  }

  lemma {:induction false} ReadCall(s: Sys, h: History, i: nat)
    requires HistoryOk(s, h) && May(s, ReadStep(i)) && Ok(Next(s, ReadStep(i)))
    ensures var s', h' := Next(s, ReadStep(i)), Noted(h, s, ReadStep(i));
            |s'.procs| == |s.procs| && h.last[i] < |h.calls| && CallOk(s', h', h.last[i])
  {
    hide AfterWrite, AfterRead, Fifo, TagsOk, Queue, RingOk, Plain, By;
    assert BusyOk(s, h, i);
    assert CallOk(s, h, h.last[i]);
    ReadReturns(s, i);
  }

  lemma {:induction false} WriteCall(s: Sys, h: History, i: nat)
    requires HistoryOk(s, h) && May(s, WriteStep(i)) && Ok(Next(s, WriteStep(i)))
    ensures var s', h' := Next(s, WriteStep(i)), Noted(h, s, WriteStep(i));
            |s'.procs| == |s.procs| && h.last[i] < |h.calls| && CallOk(s', h', h.last[i])
  {
    hide AfterWrite, AfterRead, Fifo, TagsOk, Queue, RingOk, Plain, By;
    assert BusyOk(s, h, i);
    var c := h.last[i];
    assert CallOk(s, h, c);
    WriteReturns(s, i);
    var rest := s.procs[i].rest;
    var k := Min(|rest|, PIPESIZE - |Contents(s)|);
    assert Added(s, Next(s, WriteStep(i))) == rest[..k];
    ByMore(h.stream, c, rest[..k], c);
    assert (By(h.stream, c) + rest[..k]) + rest[k..] == By(h.stream, c) + rest;
  }

  lemma {:induction false} StepCalls(s: Sys, h: History, step: Step, c: nat)
    requires HistoryOk(s, h) && May(s, step) && Ok(Next(s, step)) && c < |Noted(h, s, step).calls|
    requires |Noted(h, s, step).last| == |Next(s, step).procs| == |s.procs|
    ensures CallOk(Next(s, step), Noted(h, s, step), c)
  {
    hide HistoryOk, CallOk, AfterWrite, AfterRead, Queue, RingOk, Plain;
    if c == |h.calls| {
      NewCall(s, h, step);
    } else if step.ReadStep? && h.last[step.i] == c {
      ReadCall(s, h, step.i);
    } else if step.WriteStep? && h.last[step.i] == c {
      WriteCall(s, h, step.i);
    } else {
      OtherCall(s, h, step, c);
    }
  }

  lemma {:induction false} NewCall(s: Sys, h: History, step: Step)
    requires HistoryOk(s, h) && May(s, step) && Ok(Next(s, step)) && (step.CallRead? || step.CallWrite?)
    ensures var s', h' := Next(s, step), Noted(h, s, step);
            |h'.last| == |s'.procs| && |h'.calls| == |h.calls| + 1 && CallOk(s', h', |h.calls|)
  {
    hide BusyOk, Queue, RingOk, Plain;
    ByNobody(h.stream, |h.calls|);
  }

  lemma {:induction false} StepHistory(s: Sys, h: History, step: Step)
    requires HistoryOk(s, h) && May(s, step)
    ensures Ok(Next(s, step)) && HistoryOk(Next(s, step), Noted(h, s, step))
  {
    hide AfterWrite, AfterRead, CallOk, BusyOk, Fifo, TagsOk, Queue, RingOk, Plain, By;
    StepOk(s, step);
    StepTags(s, h, step);
    StepFifo(s, h, step);
    var s', h' := Next(s, step), Noted(h, s, step);
    forall i: nat ensures |h'.last| == |s'.procs| && BusyOk(s', h', i) {
      StepBusy(s, h, step, i);
    }
    assert |h'.last| == |s'.procs| by {
      StepBusy(s, h, step, 0);
    }
    forall c | 0 <= c < |h'.calls| ensures CallOk(s', h', c) {
      StepCalls(s, h, step, c);
    }
  }

  // Runs

  ghost function HistoryOf(h: History, s: Sys, steps: seq<Step>): History
    requires Ok(s) && CanRun(s, steps) && |h.last| == |s.procs|
    decreases |steps|
  {
    if steps == [] then h
    else
      StepOk(s, steps[0]);
      NotedSize(h, s, steps[0]);
      HistoryOf(Noted(h, s, steps[0]), Next(s, steps[0]), steps[1..])
  }

  lemma {:induction false} NotedSize(h: History, s: Sys, step: Step)
    requires Ok(s) && May(s, step) && Ok(Next(s, step)) && |h.last| == |s.procs|
    ensures |Noted(h, s, step).last| == |Next(s, step).procs|
  {
  }

  lemma {:induction false} RunHistory(s: Sys, h: History, steps: seq<Step>)
    requires HistoryOk(s, h) && CanRun(s, steps)
    ensures HistoryOk(Run(s, steps), HistoryOf(h, s, steps))
    decreases |steps|
  {
    hide Next, May, Noted, Fifo, TagsOk, CallOk, BusyOk;
    if steps != [] {
      StepOk(s, steps[0]);
      StepHistory(s, h, steps[0]);
      NotedSize(h, s, steps[0]);
      RunHistory(Next(s, steps[0]), Noted(h, s, steps[0]), steps[1..]);
    }
  }

  function Nothing(n: nat): History { History([], seq(n, _ => 0), [], []) }

  lemma StartHistory(n: nat)
    ensures HistoryOk(Start(n), Nothing(n))
  {
  }

  /** In every run the readers get the bytes stored, in order, and the pipe holds the others. */
  lemma {:induction false} RunFifo(n: nat, steps: seq<Step>)
    requires CanRun(Start(n), steps)
    ensures var s, h := Run(Start(n), steps), HistoryOf(Nothing(n), Start(n), steps);
            Ok(s) && Plain(h.stream) == h.got + Contents(s)
  {
    hide Run, HistoryOf, CanRun, Queue, RingOk, Plain;
    StartHistory(n);
    RunHistory(Start(n), Nothing(n), steps);
  }

  /**
   In every run a write stores its bytes in order, and when it returns it says
   `Wrote` if and only if it has stored them all; it says `Failed` only if it was
   killed or nobody can read.
   */
  lemma {:induction false} RunWrites(n: nat, steps: seq<Step>, c: nat)
    requires CanRun(Start(n), steps)
    requires var h := HistoryOf(Nothing(n), Start(n), steps); c < |h.calls| && h.calls[c].wish.ToWrite?
    ensures var s, h := Run(Start(n), steps), HistoryOf(Nothing(n), Start(n), steps);
            var call := h.calls[c];
            && By(h.stream, c) <= call.wish.bytes
            && (call.result.Some? ==> (call.result.value == Wrote <==> By(h.stream, c) == call.wish.bytes))
            && (call.result.Some? && call.result.value != Wrote ==>
                  && call.result.value == Failed && call.proc < |s.procs| == |s.killed|
                  && (s.killed[call.proc] || !s.readopen))
  {
    hide Run, HistoryOf, CanRun, Queue, RingOk, Plain, By;
    StartHistory(n);
    RunHistory(Start(n), Nothing(n), steps);
    assert CallOk(Run(Start(n), steps), HistoryOf(Nothing(n), Start(n), steps), c);
  }

  /**
   In every run a read returns at most what it asked for, and nothing only if it
   asked for nothing or at the end: then nobody can write and all that was ever
   stored has been read. It says `Failed` only if it was killed.
   */
  lemma {:induction false} RunReads(n: nat, steps: seq<Step>, c: nat)
    requires CanRun(Start(n), steps)
    requires var h := HistoryOf(Nothing(n), Start(n), steps); c < |h.calls| && h.calls[c].wish.ToRead?
    ensures var s, h := Run(Start(n), steps), HistoryOf(Nothing(n), Start(n), steps);
            var call := h.calls[c];
            && (call.result.Some? && call.result.value.Read? ==>
                  && |call.result.value.bytes| <= call.wish.n
                  && (call.result.value.bytes == [] && call.wish.n > 0 ==>
                        !s.writeopen && Plain(h.stream) == h.got))
            && (call.result.Some? && !call.result.value.Read? ==>
                  call.result.value == Failed && call.proc < |s.procs| == |s.killed| && s.killed[call.proc])
  {
    hide Run, HistoryOf, CanRun, Queue, RingOk, Plain, By;
    StartHistory(n);
    RunHistory(Start(n), Nothing(n), steps);
    assert CallOk(Run(Start(n), steps), HistoryOf(Nothing(n), Start(n), steps), c);
  }
}
