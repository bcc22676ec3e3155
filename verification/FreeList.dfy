/**
 The free list of umalloc.c as a sequence of segments in address order, and
 what giving back and taking blocks does to it. Addresses and sizes are in
 units of one header.
 */
module FreeList {
  datatype Seg = Seg(addr: nat, size: nat) {
    function End(): nat { addr + size }

    predicate Has(u: nat) { addr <= u < End() }
  }

  /** In address order, disjoint, and no two segments adjacent. */
  ghost predicate Gapped(free: seq<Seg>) {
    forall i, j :: 0 <= i < j < |free| ==> free[i].End() < free[j].addr
  }

  ghost predicate Covers(free: seq<Seg>, u: nat) {
    exists i :: 0 <= i < |free| && free[i].Has(u)
  }

  /** `s` lies strictly between segment `t` and the next one. */
  predicate Between(free: seq<Seg>, s: Seg, t: nat) {
    && t < |free| && 0 < s.size && free[t].End() <= s.addr && free[t].addr < s.addr
    && (t + 1 < |free| ==> s.End() <= free[t + 1].addr)
  }

  /** Segments before Lo and from Hi on are untouched by giving back `s` after segment `t`. */
  function Lo(free: seq<Seg>, s: Seg, t: nat): nat
    requires Between(free, s, t)
  {
    if free[t].End() == s.addr then t else t + 1
  }

  function Hi(free: seq<Seg>, s: Seg, t: nat): nat
    requires Between(free, s, t)
  {
    if t + 1 < |free| && s.End() == free[t + 1].addr then t + 2 else t + 1
  }

  /** `s` together with the neighbours it touches. */
  function Merged(free: seq<Seg>, s: Seg, t: nat): Seg
    requires Between(free, s, t)
  {
    var size := if Hi(free, s, t) == t + 2 then s.size + free[t + 1].size else s.size;
    if Lo(free, s, t) == t then Seg(free[t].addr, free[t].size + size) else Seg(s.addr, size)
  }

  /** The free list after giving back `s`. */
  function Put(free: seq<Seg>, s: Seg, t: nat): seq<Seg>
    requires Between(free, s, t)
  {
    free[..Lo(free, s, t)] + [Merged(free, s, t)] + free[Hi(free, s, t)..]
  }

  lemma {:induction false} PutGapped(free: seq<Seg>, s: Seg, t: nat)
    requires Gapped(free) && Between(free, s, t)
    ensures Gapped(Put(free, s, t))
  {
    SplicedGapped(free, Lo(free, s, t), Hi(free, s, t), Merged(free, s, t));
  }

  /** Replacing segments `lo..hi` by one that keeps its distance. */
  lemma {:induction false} SplicedGapped(free: seq<Seg>, lo: nat, hi: nat, m: Seg)
    requires Gapped(free) && lo <= hi <= |free|
    requires (forall i :: 0 <= i < lo ==> free[i].End() < m.addr)
    requires (forall j :: hi <= j < |free| ==> m.End() < free[j].addr)
    ensures Gapped(free[..lo] + [m] + free[hi..])
  {
    var put := free[..lo] + [m] + free[hi..];
    forall i, j | 0 <= i < j < |put| ensures put[i].End() < put[j].addr {
      assert put[i] == if i < lo then free[i] else if i == lo then m else free[i - lo - 1 + hi];
      assert put[j] == if j < lo then free[j] else if j == lo then m else free[j - lo - 1 + hi];
    }
  }

  /** The merged segment is `s` and the segments it replaces. */
  lemma {:induction false} MergedHas(free: seq<Seg>, s: Seg, t: nat, u: nat)
    requires Gapped(free) && Between(free, s, t)
    ensures Merged(free, s, t).Has(u) <==>
              s.Has(u) || exists i :: Lo(free, s, t) <= i < Hi(free, s, t) && free[i].Has(u)
  {
    if Lo(free, s, t) == t && u < s.addr && Merged(free, s, t).Has(u) {
      assert free[t].Has(u);
    }
    if Hi(free, s, t) == t + 2 && u >= s.End() && Merged(free, s, t).Has(u) {
      assert free[t + 1].Has(u);
    }
  }

  /** The free list covers what it covered before, and `s`. */
  lemma {:induction false} PutCovers(free: seq<Seg>, s: Seg, t: nat, u: nat)
    requires Gapped(free) && Between(free, s, t)
    ensures Covers(Put(free, s, t), u) <==> Covers(free, u) || s.Has(u)
  {
    hide Gapped, Lo, Hi, Merged;
    MergedHas(free, s, t, u);
    LoHi(free, s, t);
    SplicedCovers(free, Lo(free, s, t), Hi(free, s, t), Merged(free, s, t), u);
  }

  lemma LoHi(free: seq<Seg>, s: Seg, t: nat)
    requires Between(free, s, t)
    ensures Lo(free, s, t) <= Hi(free, s, t) <= |free|
  {
  }

  /** What is covered when segments `lo..hi` are replaced. */
  lemma {:induction false} SplicedCovers(free: seq<Seg>, lo: nat, hi: nat, m: Seg, u: nat)
    requires lo <= hi <= |free|
    requires (exists i :: lo <= i < hi && free[i].Has(u)) ==> m.Has(u)
    ensures Covers(free[..lo] + [m] + free[hi..], u) ==> Covers(free, u) || m.Has(u)
    ensures Covers(free, u) || m.Has(u) ==> Covers(free[..lo] + [m] + free[hi..], u)
  {
    var put := free[..lo] + [m] + free[hi..];
    assert put[lo] == m;
    if i :| 0 <= i < |free| && free[i].Has(u) {
      assert i < lo ==> put[i] == free[i];
      assert i >= hi ==> put[i - hi + lo + 1] == free[i];
    }
    if k :| 0 <= k < |put| && put[k].Has(u) {
      assert k < lo ==> put[k] == free[k];
      assert k > lo ==> put[k] == free[k - lo - 1 + hi];
    }
  }

  /** Take `n` units from the tail of segment `k`, or the whole segment. */
  function Take(free: seq<Seg>, k: nat, n: nat): seq<Seg>
    requires k < |free| && n <= free[k].size
  {
    if free[k].size == n then free[..k] + free[k + 1..]
    else free[k := Seg(free[k].addr, free[k].size - n)]
  }

  /** What was taken. */
  function Taken(free: seq<Seg>, k: nat, n: nat): Seg
    requires k < |free| && n <= free[k].size
  {
    Seg(free[k].End() - n, n)
  }

  lemma {:induction false} TakeGapped(free: seq<Seg>, k: nat, n: nat)
    requires Gapped(free) && k < |free| && 0 < n <= free[k].size
    ensures Gapped(Take(free, k, n))
  {
  }

  /** The taken segment is removed from the free list and nothing else is. */
  lemma {:induction false} TakeCovers(free: seq<Seg>, k: nat, n: nat, u: nat)
    requires Gapped(free) && k < |free| && 0 < n <= free[k].size
    ensures Covers(Take(free, k, n), u) <==> Covers(free, u) && !Taken(free, k, n).Has(u)
  {
    var took := Take(free, k, n);
    if i :| 0 <= i < |took| && took[i].Has(u) {
      var j := if free[k].size == n && i >= k then i + 1 else i;
      assert free[j].Has(u);
      assert j != k ==> free[j].End() < free[k].addr || free[k].End() < free[j].addr;
    }
    if i :| 0 <= i < |free| && free[i].Has(u) && !Taken(free, k, n).Has(u) {
      assert took[if free[k].size == n && i > k then i - 1 else i].Has(u);
    }
  }
}
