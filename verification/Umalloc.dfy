/**
 malloc, free and morecore of umalloc.c: the circular list of free blocks kept
 through pointers in the block headers. Addresses are in units of one header;
 `base` lies below the memory that sbrk hands out.
 */
module Umalloc {
  import opened Basics
  import opened FreeList
  import opened HeapShape

  /** The result is the end of block `k`, the first that fits after block `f`, and the rest of the list is as it was. */
  ghost predicate CutFrom(free: seq<Seg>, f: nat, k: nat, n: nat, free': seq<Seg>, r: Option<nat>) {
    FirstFit(free, f, k, n) && free' == Take(free, k, n) && r == Some(Taken(free, k, n).addr + 1)
  }

  class Heap {
    const base: nat
    /** The headers: the pointer and the size of each block that has one. */
    var next: map<nat, nat>
    var size: map<nat, nat>
    /** Where the next search starts, or 0 before the first malloc. */
    var freep: nat
    /** Memory at and above `brk` has not been handed out. */
    var brk: nat
    ghost var free: seq<Seg>
    ghost var at: nat
    ghost var live: map<nat, nat>
    ghost var heap: set<nat>

    ghost predicate Valid()
      reads this
    {
      && 0 < base && Shape(base, free, live, heap, brk) && LiveHeaders(live, size)
      && (freep == 0 ==> free == [Seg(base, 0)] && live == map[])
      && (freep != 0 ==> Linked(free, next, size) && at < |free| && free[at].addr == freep)
    }

    constructor (base: nat, brk: nat)
      requires 0 < base < brk
      ensures Valid() && this.base == base && this.brk == brk && live == map[] && heap == {}
    {
      this.base, this.brk := base, brk;
      next, size, freep := map[], map[], 0;
      free, at, live, heap := [Seg(base, 0)], 0, map[], {};
    }

    /** The search of free: the list goes round until it reaches the two blocks on either side of `bp`. */
    method FindPlace(bp: nat) returns (p: nat, ghost t: nat)
      requires Valid() && bp in live
      ensures t < |free| && p == free[t].addr && CanPut(base, free, brk, next, size, Seg(bp, live[bp]), t)
    {
      hide Gapped, Apart, Tiled;
      ghost var goal := PlaceOf(base, free, live, brk, bp);
      p := freep;
      ghost var i: nat := at;
      assert Link(free, next, size, i);
      while !(bp > p && bp < next[p])
        invariant i < |free| && p == free[i].addr && Link(free, next, size, i)
        decreases if i <= goal then goal - i else |free| - i + goal
      {
        Position(base, free, brk, next, size, bp, i, goal);
        if p >= next[p] && (bp > p || bp < next[p]) {
          break;
        }
        p := next[p];
        i := After(free, i);
        assert Link(free, next, size, i);
      }
      Position(base, free, brk, next, size, bp, i, goal);
      t := i;
      assert t == goal && Link(free, next, size, After(free, t));
    }

    /** free: the block joins the list, merged with the blocks it touches. */
    method Free(ap: nat)
      requires Valid() && 0 < ap && ap - 1 in live
      modifies this
      ensures Valid() && live == old(live) - {ap - 1} && heap == old(heap) && brk == old(brk) && freep != 0
      ensures HasRoom(free, old(live)[ap - 1])
    {
      hide Shape, Linked, LiveHeaders, Put, HasRoom, Relinked;
      var bp := ap - 1;
      var p, t := FindPlace(bp);
      ghost var s := Seg(bp, live[bp]);
      FreeDone(base, free, live, heap, brk, next, size, bp, t);
      Relink(p, bp);
      freep := p;
      free, live, at := Put(free, s, t), live - {bp}, t;
    }

    /** The pointer and size updates of free. */
    method Relink(p: nat, bp: nat)
      requires p in next && p in size && bp in size && next[p] in next && next[p] in size && p != bp
      modifies this`next, this`size
      ensures (next, size) == Relinked(old(next), old(size), p, bp)
    {
      if bp + size[bp] == next[p] {
        size := size[bp := size[bp] + size[next[p]]];
        next := next[bp := next[next[p]]];
      } else {
        next := next[bp := next[p]];
      }
      if p + size[p] == bp {
        size := size[p := size[p] + size[bp]];
        next := next[p := next[bp]];
      } else {
        next := next[p := bp];
      }
    }

    /** morecore: at least 4096 units from sbrk, given to free; it fails when sbrk does. */
    method Morecore(nu: nat, sbrk: (nat, nat) -> Option<nat>) returns (ok: bool)
      requires Valid() && freep != 0 && 0 < nu && Grows(sbrk)
      modifies this
      ensures Valid() && freep != 0 && live == old(live) && ok == sbrk(old(brk), CoreUnits(nu)).Some?
      ensures ok ==> brk == sbrk(old(brk), CoreUnits(nu)).value + CoreUnits(nu) && HasRoom(free, nu)
      ensures ok ==>
                && old(heap) !! Units(Seg(brk - CoreUnits(nu), CoreUnits(nu)))
                && heap == old(heap) + Units(Seg(brk - CoreUnits(nu), CoreUnits(nu)))
      ensures !ok ==> free == old(free) && heap == old(heap) && brk == old(brk) && freep == old(freep) && at == old(at)
    {
      hide Shape, Linked, LiveHeaders, HasRoom, Units;
      var n := if nu < 4096 then 4096 else nu;
      var p := sbrk(brk, n);
      if p == None { return false; }
      AddCore(p.value, n);
      LessRoom(free, n, nu);
      ok := true;
    }

    /** The memory sbrk returned becomes one block, which is then freed. */
    method AddCore(hp: nat, n: nat)
      requires Valid() && freep != 0 && 0 < n && brk <= hp
      modifies this
      ensures Valid() && freep != 0 && live == old(live) && brk == hp + n && HasRoom(free, n)
      ensures old(heap) !! Units(Seg(hp, n)) && heap == old(heap) + Units(Seg(hp, n))
    {
      hide Shape, HasRoom, Units, Linked, LiveHeaders;
      CoreShape(base, free, live, heap, brk, Seg(hp, n));
      HeaderElsewhere(base, free, live, heap, brk, next, size, hp, n);
      size := size[hp := n];
      live, heap, brk := live[hp := n], heap + Units(Seg(hp, n)), hp + n;
      Free(hp + 1);
      assert live == old(live);
    }

    /** The first malloc: the list holds `base` alone. */
    method Init()
      requires Valid() && freep == 0
      modifies this`next, this`size, this`freep, this`at
      ensures Valid() && freep != 0
    {
      next, size, freep, at := next[base := base], size[base := 0], base, 0;
      assert Link(free, next, size, 0);
    }

    /** The end of malloc: take block `p`, or its tail. */
    method Cut(prevp: nat, p: nat, nunits: nat, ghost k: nat) returns (b: nat)
      requires Valid() && freep != 0 && 1 <= k && FitsAt(free, k, nunits) && 0 < nunits
      requires p == free[k].addr && prevp == free[k - 1].addr
      modifies this
      ensures Valid() && freep == prevp && heap == old(heap) && brk == old(brk)
      ensures b !in old(live) && live == old(live)[b := nunits]
      ensures free == Take(old(free), k, nunits) && b == Taken(old(free), k, nunits).addr
    {
      hide Shape, Linked, LiveHeaders, Take, Gapped;
      CutDone(base, free, live, heap, brk, next, size, k, nunits);
      b := p;
      if size[p] == nunits {
        next := next[prevp := next[p]];
      } else {
        size := size[p := size[p] - nunits];
        b := p + size[p];
        size := size[b := nunits];
      }
      freep := prevp;
      free, at, live := Take(free, k, nunits), k - 1, live[b := nunits];
    }

    /** malloc, with the answers of sbrk as a parameter. */
    method Malloc(nbytes: nat, sbrk: (nat, nat) -> Option<nat>) returns (r: Option<nat>)
      requires Valid() && Grows(sbrk) && nbytes < 0x7fff_fff0
      modifies this
      ensures Valid()
      ensures r.Some? ==> 0 < r.value && r.value - 1 !in old(live) && live == old(live)[r.value - 1 := UnitsFor(nbytes)]
      ensures r == None <==>
                && !HasRoom(old(free), UnitsFor(nbytes)) && sbrk(old(brk), CoreUnits(UnitsFor(nbytes))) == None
      ensures r == None ==> live == old(live) && free == old(free) && heap == old(heap) && brk == old(brk)
      ensures HasRoom(old(free), UnitsFor(nbytes)) ==>
                && heap == old(heap) && brk == old(brk)
                && exists k :: CutFrom(old(free), old(at), k, UnitsFor(nbytes), free, r)
      ensures r.Some? && !HasRoom(old(free), UnitsFor(nbytes)) ==>
                && brk == sbrk(old(brk), CoreUnits(UnitsFor(nbytes))).value + CoreUnits(UnitsFor(nbytes))
                && heap == old(heap) + Units(Seg(brk - CoreUnits(UnitsFor(nbytes)), CoreUnits(UnitsFor(nbytes))))
    {
      hide Valid, HasRoom, Grows, Units, CoreUnits, CutFrom;
      var nunits := (nbytes + 8 - 1) / 8 + 1;
      r := Search(nunits, sbrk);
    }

    /** The loop of malloc. */
    method Search(nunits: nat, sbrk: (nat, nat) -> Option<nat>) returns (r: Option<nat>)
      requires Valid() && Grows(sbrk) && 0 < nunits
      modifies this
      ensures Valid()
      ensures r.Some? ==> 0 < r.value && r.value - 1 !in old(live) && live == old(live)[r.value - 1 := nunits]
      ensures r == None <==> !HasRoom(old(free), nunits) && sbrk(old(brk), CoreUnits(nunits)) == None
      ensures r == None ==> live == old(live) && free == old(free) && heap == old(heap) && brk == old(brk)
      ensures HasRoom(old(free), nunits) ==>
                && heap == old(heap) && brk == old(brk)
                && exists k :: CutFrom(old(free), old(at), k, nunits, free, r)
      ensures r.Some? && !HasRoom(old(free), nunits) ==>
                && brk == sbrk(old(brk), CoreUnits(nunits)).value + CoreUnits(nunits)
                && heap == old(heap) + Units(Seg(brk - CoreUnits(nunits), CoreUnits(nunits)))
    {
      hide Shape, Linked, LiveHeaders, Take, Taken, HasRoom, Units, Grows, Scan, Since, Along, FitsAt, FirstFit,
          CoreUnits;
      var prevp := freep;
      if prevp == 0 {
        BaseFull(base, nunits);
        Init();
        prevp := freep;
      }
      ghost var j, asked := 1, false;
      ScanStart(base, free, live, heap, brk, next, size, at, nunits);
      var p := next[prevp];
      SinceStart(free, heap, brk, nunits, sbrk);
      while true
        invariant Valid() && freep != 0 && live == old(live) && j <= |free|
        invariant Scan(free, at, j, prevp, p, nunits)
        invariant !asked && HasRoom(old(free), nunits) ==> at == old(at)
        invariant Since(asked, old(free), old(heap), old(brk), free, heap, brk, nunits, sbrk)
        decreases !asked, |free| - j
      {
        ScanAt(base, free, live, heap, brk, next, size, at, j, prevp, p, nunits);
        if size[p] >= nunits {
          SinceFound(asked, old(free), old(heap), old(brk), free, heap, brk, nunits, sbrk, Along(free, at, j));
          FirstFound(asked, old(free), old(heap), old(brk), free, heap, brk, nunits, sbrk, at, j, prevp, p);
          ghost var k := Along(free, at, j);
          var b := Cut(prevp, p, nunits, k);
          assert HasRoom(old(free), nunits) ==> CutFrom(old(free), old(at), k, nunits, free, Some(b + 1));
          return Some(b + 1);
        }
        if p == freep {
          SinceFull(asked, old(free), old(heap), old(brk), free, heap, brk, nunits, sbrk);
          var ok := Refill(nunits, sbrk);
          if !ok { return None; }
          p := freep;
          asked, j := true, 0;
        }
        prevp, p, j := p, next[p], j + 1;
      }
    }

    /** morecore in the middle of the search, after which it starts over. */
    method Refill(nunits: nat, sbrk: (nat, nat) -> Option<nat>) returns (ok: bool)
      requires Valid() && freep != 0 && Grows(sbrk) && 0 < nunits && !HasRoom(free, nunits)
      modifies this
      ensures Valid() && freep != 0 && live == old(live) && ok == sbrk(old(brk), CoreUnits(nunits)).Some?
      ensures !ok ==> free == old(free) && heap == old(heap) && brk == old(brk)
      ensures ok ==>
                && Since(true, old(free), old(heap), old(brk), free, heap, brk, nunits, sbrk)
                && freep in next && Scan(free, at, 1, freep, next[freep], nunits)
    {
      hide Shape, Linked, LiveHeaders, HasRoom, Units, Grows, Scan, Since, CoreUnits;
      ok := Morecore(nunits, sbrk);
      if ok {
        SinceMore(old(free), old(heap), old(brk), free, heap, brk, nunits, sbrk);
        ScanStart(base, free, live, heap, brk, next, size, at, nunits);
      }
    }
  }
}
