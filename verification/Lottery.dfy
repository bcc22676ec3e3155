/** The lottery scheduler of proc.c: tickets, the random draw, and the process it selects. */
module Lottery {
  import opened Basics

  /** The scheduling fields of a process. */
  datatype Slot = Slot(runnable: bool, tickets: int, priority: int)

  predicate InRange(procs: seq<Slot>) {
    forall i :: 0 <= i < |procs| ==> 1 <= procs[i].tickets <= 109
  }

  /** Tickets in play: those of runnable processes. */
  function Stake(s: Slot): int { if s.runnable then s.tickets else 0 }

  function Total(procs: seq<Slot>): int {
    if procs == [] then 0 else Total(procs[..|procs| - 1]) + Stake(procs[|procs| - 1])
  }

  lemma {:induction false} TotalNext(procs: seq<Slot>, i: nat)
    requires i < |procs|
    ensures Total(procs[..i + 1]) == Total(procs[..i]) + Stake(procs[i])
  {
    assert procs[..i + 1][..i] == procs[..i];
  }

  lemma {:induction false} TotalGrows(procs: seq<Slot>, i: nat, j: nat)
    requires InRange(procs) && i <= j <= |procs|
    ensures 0 <= Total(procs[..i]) <= Total(procs[..j]) <= 109 * j
    decreases j
  {
    if j > 0 {
      TotalNext(procs, j - 1);
      if i < j {
        TotalGrows(procs, i, j - 1);
      } else {
        TotalGrows(procs, j - 1, j - 1);
      }
    } else {
      assert procs[..0] == [];
    }
  }

  // Policies

  function Uniform(s: Slot): Slot { s.(tickets := 10) }

  function ByPriority(s: Slot): Slot { if s.runnable then s.(priority := 10, tickets := 10) else s.(priority := 10) }

  function Dynamic(s: Slot): Slot { s.(tickets := 20) }

  function Policy(pl: nat, s: Slot): Slot
    requires pl < 3
  {
    if pl == 0 then Uniform(s) else if pl == 1 then ByPriority(s) else Dynamic(s)
  }

  /** What sleep and yield do to the tickets of the process. */
  function Slept(s: Slot, npolicy: int): Slot {
    s.(runnable := false, tickets := if npolicy == 2 && s.tickets < 100 then s.tickets + 10 else s.tickets)
  }

  function Yielded(s: Slot, npolicy: int): Slot {
    s.(runnable := true, tickets := if npolicy == 2 && s.tickets > 1 then s.tickets - 1 else s.tickets)
  }

  // The draw

  function Step(next: nat): nat { (next * 1103515245 + 12345) % WORD }

  /** Bitwise exclusive or. */
  function Xor(a: nat, b: nat): nat
    decreases a + b
  {
    if a == 0 then b else if b == 0 then a else 2 * Xor(a / 2, b / 2) + if a % 2 != b % 2 then 1 else 0
  }

  /** `(r << 10) ^ x`. */
  function ShiftIn(r: nat, x: nat): nat { Xor(r * 1024, x) }

  function Pow2(k: nat): (p: nat)
    ensures p > 0
  {
    if k == 0 then 1 else 2 * Pow2(k - 1)
  }

  /** The low bits of a shifted number are zero, so the bits that come in are added. */
  lemma {:induction false} XorLow(r: nat, x: nat, k: nat)
    requires x < Pow2(k)
    ensures Xor(r * Pow2(k), x) == r * Pow2(k) + x
  {
    if k > 0 && r > 0 && x > 0 {
      var half := r * Pow2(k - 1);
      assert r * Pow2(k) == 2 * half;
      assert half > 0;
      XorLow(r, x / 2, k - 1);
      assert Xor(2 * half, x) == 2 * Xor(half, x / 2) + x % 2;
    }
  }

  lemma {:induction false} ShiftInAdds(r: nat, x: nat)
    requires x < 1024
    ensures ShiftIn(r, x) == r * 1024 + x
  {
    assert Pow2(10) == 1024 by {
      assert Pow2(5) == 32;
    }
    XorLow(r, x, 10);
  }

  /** The number PRNG makes of three steps of the generator: 11, 10 and 10 bits. */
  function Draw(seed: nat): nat {
    var a, b := Step(seed), Step(Step(seed));
    ShiftIn(ShiftIn(a / 65536 % 2048, b / 65536 % 1024), Step(b) / 65536 % 1024)
  }

  /** Its bit fields are the high halves of three consecutive numbers of the generator, the first one on top. */
  lemma {:induction false} DrawBits(seed: nat)
    ensures var a := (seed * 1103515245 + 12345) % WORD;
            var b := (a * 1103515245 + 12345) % WORD;
            var c := (b * 1103515245 + 12345) % WORD;
            && Draw(seed) / 0x10_0000 == a / 65536 % 2048 && Draw(seed) / 1024 % 1024 == b / 65536 % 1024
            && Draw(seed) % 1024 == c / 65536 % 1024
  {
    var a := Step(seed);
    var b := Step(a);
    Fields(a / 65536 % 2048, b / 65536 % 1024, Step(b) / 65536 % 1024);
  }

  lemma {:induction false} Fields(x: nat, y: nat, z: nat)
    requires y < 1024 && z < 1024
    ensures var r := ShiftIn(ShiftIn(x, y), z); r / 0x10_0000 == x && r / 1024 % 1024 == y && r % 1024 == z
  {
    hide ShiftIn;
    ShiftInAdds(x, y);
    ShiftInAdds(ShiftIn(x, y), z);
  }

  /** It fits a signed int, and so does everything on the way to it. */
  lemma DrawFits(seed: nat)
    ensures Draw(seed) < 0x8000_0000
    ensures ShiftIn(Step(seed) / 65536 % 2048, Step(Step(seed)) / 65536 % 1024) < 0x20_0000
  {
    hide Step, ShiftIn;
    var a, b := Step(seed), Step(Step(seed));
    var r := ShiftIn(a / 65536 % 2048, b / 65536 % 1024);
    ShiftInAdds(a / 65536 % 2048, b / 65536 % 1024);
    ShiftInAdds(r, Step(b) / 65536 % 1024);
  }

  /** The process that draw `ticket` selects: the first whose stake exhausts it. */
  predicate Selects(procs: seq<Slot>, ticket: int, p: nat) {
    p < |procs| && procs[p].runnable && Total(procs[..p]) <= ticket < Total(procs[..p + 1])
  }

  lemma {:induction false} SelectsOne(procs: seq<Slot>, ticket: int, p: nat, q: nat)
    requires InRange(procs) && Selects(procs, ticket, p) && Selects(procs, ticket, q)
    ensures p == q
  {
    if p < q {
      TotalGrows(procs, p + 1, q);
    } else if q < p {
      TotalGrows(procs, q + 1, p);
    }
  }

  /** The draws that select a runnable process are as many as its tickets. */
  lemma {:induction false} DrawsMatchTickets(procs: seq<Slot>, p: nat, draws: set<int>)
    requires InRange(procs) && p < |procs| && procs[p].runnable
    requires forall t :: t in draws <==> 0 <= t < Total(procs) && Selects(procs, t, p)
    ensures |draws| == procs[p].tickets
  {
    TotalNext(procs, p);
    TotalGrows(procs, p + 1, |procs|);
    TotalGrows(procs, 0, p);
    assert procs[..|procs|] == procs;
    Interval(Total(procs[..p]), Total(procs[..p + 1]), draws);
  }

  lemma {:induction false} Interval(a: int, b: int, s: set<int>)
    requires a <= b && forall t :: t in s <==> a <= t < b
    ensures |s| == b - a
    decreases b - a
  {
    if a == b {
      forall t ensures t !in s {
      }
      assert s == {};
    } else {
      Interval(a, b - 1, s - {b - 1});
    }
  }

  class Scheduler {
    var procs: seq<Slot>
    var npolicy: int
    var seed: nat

    /** policies[pl].fun: each slot changes as the policy says, and the stakes are added up. */
    method Apply(pl: nat) returns (total: int)
      requires pl < 3
      modifies this`procs
      ensures |procs| == |old(procs)| && forall i :: 0 <= i < |procs| ==> procs[i] == Policy(pl, old(procs)[i])
      ensures forall i :: 0 <= i < |procs| ==>
                && procs[i].runnable == old(procs)[i].runnable
                && procs[i].priority == (if pl == 1 then 10 else old(procs)[i].priority)
                && procs[i].tickets ==
                   if pl == 2 then 20 else if pl == 0 || procs[i].runnable then 10 else old(procs)[i].tickets
      ensures total == Total(procs)
    {
      total := 0;
      var i := 0;
      while i < |procs|
        invariant 0 <= i <= |procs| == |old(procs)| && total == Total(procs[..i])
        invariant forall k :: 0 <= k < |procs| ==>
                    procs[k] == if k < i then Policy(pl, old(procs)[k]) else old(procs)[k]
      {
        var slot := Assign(pl, procs[i]);
        if slot.runnable {
          total := total + slot.tickets;
        }
        ghost var before := procs;
        procs := procs[i := slot];
        assert procs[..i] == before[..i];
        TotalNext(procs, i);
        i := i + 1;
      }
      assert procs[..i] == procs;
    }

    /** What the loop body of each policy assigns to a slot. */
    static method Assign(pl: nat, s: Slot) returns (r: Slot)
      requires pl < 3
      ensures r == Policy(pl, s)
    {
      r := s;
      if pl == 0 {
        r := r.(tickets := 10);
        if r.runnable {
          r := r.(tickets := 10);
        }
      } else if pl == 1 {
        r := r.(priority := 10);
        if r.runnable {
          r := r.(tickets := r.priority);
        }
      } else {
        r := r.(tickets := 20);
      }
    }

    /** getTickets. */
    method GetTickets() returns (total: int)
      ensures total == Total(procs)
    {
      total := 0;
      var i := 0;
      while i < |procs|
        invariant 0 <= i <= |procs| && total == Total(procs[..i])
      {
        TotalNext(procs, i);
        if procs[i].runnable {
          total := total + procs[i].tickets;
        }
        i := i + 1;
      }
      assert procs[..i] == procs;
    }

    /** PRNG: a number below `bound`, without overflowing a signed int. */
    method Prng(bound: nat) returns (r: nat)
      modifies this`seed
      ensures bound == 0 ==> r == 0 && seed == old(seed)
      ensures bound > 0 ==> r < bound && r == Draw(old(seed)) % bound && seed == Step(Step(Step(old(seed))))
    {
      if bound == 0 { return 0; }
      var next := seed;
      next := (next * 1103515245 + 12345) % WORD;
      var result := next / 65536 % 2048;
      next := (next * 1103515245 + 12345) % WORD;
      result := ShiftIn(result, next / 65536 % 1024);
      next := (next * 1103515245 + 12345) % WORD;
      result := ShiftIn(result, next / 65536 % 1024);
      seed := next;
      r := result % bound;
    }

    /** One round of scheduler; `last` is the number of tickets of the round before. */
    method Round(last: int) returns (total: int, chosen: Option<nat>)
      requires last == 0 || InRange(procs)
      modifies this`procs, this`seed
      ensures InRange(procs) && |procs| == |old(procs)| && total == Total(procs)
      ensures forall i :: 0 <= i < |procs| ==> procs[i] == if last == 0 then Uniform(old(procs)[i]) else old(procs)[i]
      ensures chosen == None <==> forall i :: 0 <= i < |procs| ==> !procs[i].runnable
      ensures chosen.Some? ==> chosen.value < |procs| && procs[chosen.value].runnable
      ensures chosen.Some? ==> total > 0 && Selects(procs, Draw(old(seed)) % total, chosen.value)
    {
      if last == 0 {
        total := Apply(0);
      } else {
        total := GetTickets();
      }
      TotalGrows(procs, 0, |procs|);
      assert procs[..|procs|] == procs;
      var draw := Prng(total);
      chosen := Dispatch(draw, total);
    }

    /**
     policy. It is `false` for a number without a policy, which the source takes
     over and then has nothing to call.
     */
    method SetPolicy(pl: int) returns (ok: bool)
      modifies this`procs, this`npolicy
      ensures npolicy == pl && |procs| == |old(procs)| && (ok <==> 0 <= pl < 3)
      ensures forall i :: 0 <= i < |procs| ==> procs[i] == if ok then Policy(pl, old(procs)[i]) else old(procs)[i]
      ensures old(InRange(procs)) ==> InRange(procs)
    {
      npolicy := pl;
      if pl < 0 || pl >= 3 { return false; }
      var _ := Apply(pl);
      ok := true;
    }

    /** The ticket updates of sleep and yield. */
    method Leave(p: nat, asleep: bool)
      requires p < |procs|
      modifies this`procs
      ensures asleep ==> procs == old(procs)[p := Slept(old(procs)[p], npolicy)]
      ensures !asleep ==> procs == old(procs)[p := Yielded(old(procs)[p], npolicy)]
      ensures procs[p].runnable != asleep && procs[p].priority == old(procs)[p].priority
      ensures var was := old(procs)[p].tickets;
              procs[p].tickets == if npolicy != 2 then was
                                  else if asleep then (if was < 100 then was + 10 else was)
                                  else if was > 1 then was - 1 else was
      ensures old(InRange(procs)) ==> InRange(procs)
    {
      procs := procs[p := procs[p].(runnable := !asleep)];
      if asleep {
        if npolicy == 2 && procs[p].tickets < 100 {
          procs := procs[p := procs[p].(tickets := procs[p].tickets + 10)];
        }
      } else if npolicy == 2 && procs[p].tickets > 1 {
        procs := procs[p := procs[p].(tickets := procs[p].tickets - 1)];
      }
    }

    /** The loop that finds the process of a draw. */
    method Dispatch(draw: nat, total: int) returns (chosen: Option<nat>)
      requires InRange(procs) && total == Total(procs) && (total > 0 ==> draw < total)
      ensures chosen.Some? ==> Selects(procs, draw, chosen.value) && draw < total
      ensures chosen == None <==> forall i :: 0 <= i < |procs| ==> !procs[i].runnable
    {
      var ticket: int := draw;
      var p := 0;
      TotalGrows(procs, 0, 0);
      while p < |procs|
        invariant 0 <= p <= |procs| && ticket == draw - Total(procs[..p])
        invariant ticket >= 0
        invariant Total(procs[..p]) == 0 <==> forall i :: 0 <= i < p ==> !procs[i].runnable
      {
        TotalNext(procs, p);
        TotalGrows(procs, 0, p);
        if procs[p].runnable {
          ticket := ticket - procs[p].tickets;
          if ticket < 0 {
            TotalGrows(procs, p + 1, |procs|);
            assert procs[..|procs|] == procs;
            return Some(p);
          }
        }
        p := p + 1;
      }
      TotalGrows(procs, 0, |procs|);
      assert procs[..p] == procs;
      chosen := None;
    }
  }

  // Every run: the tickets between rounds

  datatype Op =
    | NextRound(last: int) | Sleep(p: nat) | Yield(p: nat)
    | Dispatched(p: nat) | SetPolicy(pl: int) | Wake(p: nat)

  datatype State = State(procs: seq<Slot>, npolicy: int)

  /** What the operations do to the tickets. */
  ghost function After(s: State, op: Op): State {
    match op
    case NextRound(last) =>
      if last != 0 then s else s.(procs := seq(|s.procs|, i requires 0 <= i < |s.procs| => Uniform(s.procs[i])))
    case Sleep(p) => if p < |s.procs| then s.(procs := s.procs[p := Slept(s.procs[p], s.npolicy)]) else s
    case Yield(p) => if p < |s.procs| then s.(procs := s.procs[p := Yielded(s.procs[p], s.npolicy)]) else s
    case Dispatched(p) => if p < |s.procs| then s.(procs := s.procs[p := s.procs[p].(runnable := false)]) else s
    case Wake(p) => if p < |s.procs| then s.(procs := s.procs[p := s.procs[p].(runnable := true)]) else s
    case SetPolicy(pl) =>
      if 0 <= pl < 3 then State(seq(|s.procs|, i requires 0 <= i < |s.procs| => Policy(pl, s.procs[i])), pl)
      else s.(npolicy := pl)
  }

  ghost function AfterAll(s: State, ops: seq<Op>): State {
    if ops == [] then s else After(AfterAll(s, ops[..|ops| - 1]), ops[|ops| - 1])
  }

  /** From the first round on, every slot has between 1 and 109 tickets. */
  lemma {:induction false} TicketsInRange(s: State, ops: seq<Op>)
    requires ops != [] && ops[0] == NextRound(0)
    ensures InRange(AfterAll(s, ops).procs)
    decreases |ops|
  {
    var n := |ops| - 1;
    if n > 0 {
      TicketsInRange(s, ops[..n]);
    } else {
      assert AfterAll(s, ops) == After(AfterAll(s, ops[..0]), ops[0]);
    }
  }
}
