/** The buffer of pipe.c: a ring of PIPESIZE bytes and two 32-bit counters that wrap. */
module RingBuffer {
  import opened Basics

  const PIPESIZE: nat := 512

  /** Bytes held: the 32-bit difference of the counters. */
  function Held(nread: nat, nwrite: nat): (h: nat)
    requires nread < WORD && nwrite < WORD
    ensures h == (nwrite - nread) % WORD
  {
    if nread <= nwrite then nwrite - nread else nwrite + WORD - nread
  }

  ghost predicate RingOk(data: seq<Byte>, nread: nat, nwrite: nat) {
    |data| == PIPESIZE && nread < WORD && nwrite < WORD && Held(nread, nwrite) <= PIPESIZE
  }

  /** The slot of the byte `k` places after counter value `n`. */
  function At(n: nat, k: nat): nat { (n + k) % PIPESIZE }

  /** The bytes held, oldest first. */
  ghost function Queue(data: seq<Byte>, nread: nat, nwrite: nat): (q: seq<Byte>)
    requires RingOk(data, nread, nwrite)
    ensures |q| == Held(nread, nwrite)
  {
    seq(Held(nread, nwrite), k requires 0 <= k < Held(nread, nwrite) => data[At(nread, k)])
  }

  /** The tests of the source: 32-bit comparisons of the counters. */
  predicate Full(nread: nat, nwrite: nat) { nwrite == (nread + PIPESIZE) % WORD }

  predicate Empty(nread: nat, nwrite: nat) { nread == nwrite }

  lemma Tests(nread: nat, nwrite: nat)
    requires nread < WORD && nwrite < WORD && Held(nread, nwrite) <= PIPESIZE
    ensures Full(nread, nwrite) <==> Held(nread, nwrite) == PIPESIZE
    ensures Empty(nread, nwrite) <==> Held(nread, nwrite) == 0
  {
  }

  lemma NextHeld(nread: nat, nwrite: nat)
    requires nread < WORD && nwrite < WORD
    ensures Held(nread, nwrite) < WORD - 1 ==> Held(nread, (nwrite + 1) % WORD) == Held(nread, nwrite) + 1
    ensures Held(nread, nwrite) > 0 ==> Held((nread + 1) % WORD, nwrite) == Held(nread, nwrite) - 1
  {
  }

  /** Where byte `k` of the queue lies; the ring size divides the range of the counters. */
  lemma Slots(nread: nat, nwrite: nat)
    requires nread < WORD && nwrite < WORD && Held(nread, nwrite) < PIPESIZE
    ensures nwrite % PIPESIZE == At(nread, Held(nread, nwrite))
    ensures forall k :: 0 <= k < Held(nread, nwrite) ==> At(nread, k) != nwrite % PIPESIZE
  {
    assert WORD % PIPESIZE == 0;
    assert nwrite == nread + Held(nread, nwrite) || nwrite == nread + Held(nread, nwrite) - WORD;
  }

  /** Storing a byte and counting it appends it to the queue. */
  lemma {:induction false} PutQueue(data: seq<Byte>, nread: nat, nwrite: nat, b: Byte)
    requires RingOk(data, nread, nwrite) && Held(nread, nwrite) < PIPESIZE
    ensures RingOk(data[nwrite % PIPESIZE := b], nread, (nwrite + 1) % WORD)
    ensures Queue(data[nwrite % PIPESIZE := b], nread, (nwrite + 1) % WORD) == Queue(data, nread, nwrite) + [b]
  {
    NextHeld(nread, nwrite);
    Slots(nread, nwrite);
  }

  /** Counting a byte as read removes the oldest. */
  lemma {:induction false} GetQueue(data: seq<Byte>, nread: nat, nwrite: nat)
    requires RingOk(data, nread, nwrite) && Held(nread, nwrite) > 0
    ensures RingOk(data, (nread + 1) % WORD, nwrite)
    ensures Queue(data, nread, nwrite) == [data[nread % PIPESIZE]] + Queue(data, (nread + 1) % WORD, nwrite)
  {
    NextHeld(nread, nwrite);
    var q, q' := Queue(data, nread, nwrite), Queue(data, (nread + 1) % WORD, nwrite);
    forall k | 0 <= k < |q'| ensures q'[k] == q[k + 1] {
      assert At((nread + 1) % WORD, k) == At(nread, k + 1);
    }
  }

  // What the loops of pipewrite and piperead do while they hold the lock

  /** pipewrite stores bytes until they run out or the ring is full; the bytes not stored come last. */
  function Filled(data: seq<Byte>, nread: nat, nwrite: nat, bytes: seq<Byte>): (r: (seq<Byte>, nat, seq<Byte>))
    requires |data| == PIPESIZE
    ensures |r.0| == PIPESIZE && |r.2| <= |bytes|
    decreases |bytes|
  {
    if bytes == [] || Full(nread, nwrite) then (data, nwrite, bytes)
    else Filled(data[nwrite % PIPESIZE := bytes[0]], nread, (nwrite + 1) % WORD, bytes[1..])
  }

  /** piperead takes bytes until it has `n` or the ring is empty. */
  function Drained(data: seq<Byte>, nread: nat, nwrite: nat, n: nat): (seq<Byte>, nat)
    requires |data| == PIPESIZE
    decreases n
  {
    if n == 0 || Empty(nread, nwrite) then ([], nread)
    else
      var r := Drained(data, (nread + 1) % WORD, nwrite, n - 1);
      ([data[nread % PIPESIZE]] + r.0, r.1)
  }

  /** The bytes stored join the queue in order; bytes are left over only when the ring is full. */
  lemma {:induction false} FilledQueue(data: seq<Byte>, nread: nat, nwrite: nat, bytes: seq<Byte>)
    requires RingOk(data, nread, nwrite)
    ensures var r := Filled(data, nread, nwrite, bytes);
            && RingOk(r.0, nread, r.1) && (r.2 != [] ==> Full(nread, r.1))
            && Queue(r.0, nread, r.1) + r.2 == Queue(data, nread, nwrite) + bytes
    decreases |bytes|
  {
    hide Queue, Held;
    Tests(nread, nwrite);
    if bytes != [] && !Full(nread, nwrite) {
      var data', nwrite' := data[nwrite % PIPESIZE := bytes[0]], (nwrite + 1) % WORD;
      PutQueue(data, nread, nwrite, bytes[0]);
      FilledQueue(data', nread, nwrite', bytes[1..]);
      assert Queue(data, nread, nwrite) + bytes == Queue(data', nread, nwrite') + bytes[1..];
    }
  }

  /** The bytes taken are the oldest ones; fewer than `n` only when the ring is empty. */
  lemma {:induction false} DrainedQueue(data: seq<Byte>, nread: nat, nwrite: nat, n: nat)
    requires RingOk(data, nread, nwrite)
    ensures var r := Drained(data, nread, nwrite, n);
            && RingOk(data, r.1, nwrite) && |r.0| <= n && (|r.0| < n ==> Empty(r.1, nwrite))
            && Queue(data, nread, nwrite) == r.0 + Queue(data, r.1, nwrite)
    decreases n
  {
    hide Queue, Held;
    Tests(nread, nwrite);
    if n > 0 && !Empty(nread, nwrite) {
      GetQueue(data, nread, nwrite);
      DrainedQueue(data, (nread + 1) % WORD, nwrite, n - 1);
    }
  }

  class Ring {
    var data: array<Byte>
    var nread: nat
    var nwrite: nat

    ghost predicate Valid()
      reads this, data
    {
      RingOk(data[..], nread, nwrite)
    }

    ghost function Bytes(): seq<Byte>
      reads this, data
      requires Valid()
    {
      Queue(data[..], nread, nwrite)
    }

    constructor ()
      ensures Valid() && Bytes() == [] && fresh(data)
    {
      data := new Byte[PIPESIZE](_ => 0);
      nread, nwrite := 0, 0;
    }

    /** pipewrite from one sleep to the next: store bytes until they run out or the ring is full. */
    method Fill(addr: seq<Byte>) returns (i: nat)
      requires Valid()
      modifies this`nwrite, data
      ensures Valid() && i <= |addr| && Filled(old(data[..]), nread, old(nwrite), addr) == (data[..], nwrite, addr[i..])
      ensures i == Min(|addr|, PIPESIZE - |old(Bytes())|) && Bytes() == old(Bytes()) + addr[..i]
    {
      hide Queue, Held, Filled, Full;
      FilledQueue(data[..], nread, nwrite, addr);
      i := StoreLoop(addr);
      Tests(nread, nwrite);
      assert addr == addr[..i] + addr[i..];
      assert old(Bytes()) + addr == (old(Bytes()) + addr[..i]) + addr[i..];
      SameFront(Bytes(), old(Bytes()) + addr[..i], addr[i..]);
    }

    method StoreLoop(addr: seq<Byte>) returns (i: nat)
      requires data.Length == PIPESIZE
      modifies this`nwrite, data
      ensures i <= |addr| && Filled(old(data[..]), nread, old(nwrite), addr) == (data[..], nwrite, addr[i..])
    {
      hide Filled, Full;
      i := 0;
      assert addr[0..] == addr;
      while i < |addr| && !Full(nread, nwrite)
        invariant i <= |addr|
        invariant Filled(old(data[..]), nread, old(nwrite), addr) == Filled(data[..], nread, nwrite, addr[i..])
      {
        FilledStep(data[..], nread, nwrite, addr, i);
        data[nwrite % PIPESIZE] := addr[i];
        nwrite := (nwrite + 1) % WORD;
        i := i + 1;
      }
      FilledStop(data[..], nread, nwrite, addr[i..]);
    }

    /** The copy loop of piperead. */
    method Drain(n: nat) returns (addr: seq<Byte>)
      requires Valid()
      modifies this`nread
      ensures Valid() && Drained(data[..], old(nread), nwrite, n) == (addr, nread)
      ensures |addr| == Min(n, |old(Bytes())|) && old(Bytes()) == addr + Bytes()
    {
      hide Queue, Held, Drained;
      DrainedQueue(data[..], nread, nwrite, n);
      addr := CopyLoop(n);
      Tests(nread, nwrite);
    }

    method CopyLoop(n: nat) returns (addr: seq<Byte>)
      requires data.Length == PIPESIZE
      modifies this`nread
      ensures Drained(data[..], old(nread), nwrite, n) == (addr, nread)
    {
      hide Drained, Empty;
      ghost var all := Drained(data[..], nread, nwrite, n);
      addr := [];
      var i := 0;
      while i < n
        invariant 0 <= i == |addr| <= n
        invariant all.0 == addr + Drained(data[..], nread, nwrite, n - i).0
        invariant all.1 == Drained(data[..], nread, nwrite, n - i).1
      {
        DrainedStep(data[..], nread, nwrite, n - i);
        if Empty(nread, nwrite) {
          assert addr + [] == addr;
          return;
        }
        addr := addr + [data[nread % PIPESIZE]];
        nread := (nread + 1) % WORD;
        i := i + 1;
      }
      DrainedStop(data[..], nread, nwrite);
      assert addr + [] == addr;
    }
  }

  lemma FilledStep(data: seq<Byte>, nread: nat, nwrite: nat, addr: seq<Byte>, i: nat)
    requires |data| == PIPESIZE && i < |addr| && !Full(nread, nwrite)
    ensures Filled(data, nread, nwrite, addr[i..])
            == Filled(data[nwrite % PIPESIZE := addr[i]], nread, (nwrite + 1) % WORD, addr[i + 1..])
  {
    assert addr[i..][1..] == addr[i + 1..];
  }

  lemma FilledStop(data: seq<Byte>, nread: nat, nwrite: nat, bytes: seq<Byte>)
    requires |data| == PIPESIZE && (bytes == [] || Full(nread, nwrite))
    ensures Filled(data, nread, nwrite, bytes) == (data, nwrite, bytes)
  {
  }

  lemma DrainedStep(data: seq<Byte>, nread: nat, nwrite: nat, n: nat)
    requires |data| == PIPESIZE && n > 0
    ensures Empty(nread, nwrite) ==> Drained(data, nread, nwrite, n) == ([], nread)
    ensures !Empty(nread, nwrite) ==>
              var r := Drained(data, (nread + 1) % WORD, nwrite, n - 1);
              Drained(data, nread, nwrite, n) == ([data[nread % PIPESIZE]] + r.0, r.1)
  {
  }

  lemma DrainedStop(data: seq<Byte>, nread: nat, nwrite: nat)
    requires |data| == PIPESIZE
    ensures Drained(data, nread, nwrite, 0) == ([], nread)
  {
  }

  lemma SameFront(a: seq<Byte>, b: seq<Byte>, c: seq<Byte>)
    requires a + c == b + c
    ensures a == b
  {
    assert |a + c| == |a| + |c| && |b + c| == |b| + |c|;
    assert a == (a + c)[..|a|] && b == (b + c)[..|b|];
  }
}
