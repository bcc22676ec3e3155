/** kalloc.c and vm.c over physical memory: pages are numbered, and page 0 stands for the null pointer. */
module Vm {
  import opened Counting
  import opened PageTables
  import opened FreePages
  import opened VmSpec
  import opened PageCount

  class Memory {
    /** The first page after the kernel image; pages below it are never allocated. */
    const lo: nat
    var mem: seq<Page>
    var freelist: nat
    ghost var flist: seq<nat>
    ghost var own: map<nat, Role>
    ghost var spaces: set<nat>

    ghost predicate Valid()
      reads this
    {
      Owned(mem, own, spaces, lo) && FreeOk(mem, flist, freelist, own, lo)
    }

    /** kinit1 and kinit2: every whole page from `lo` on is given to the free list. */
    constructor (lo: nat, mem: seq<Page>)
      requires 0 < lo <= |mem|
      ensures Valid() && this.lo == lo && |this.mem| == |mem| && own == map[] && spaces == {} && |flist| == |mem| - lo
    {
      this.lo, this.mem, freelist := lo, mem, 0;
      ghost var all := Range(lo, |mem| - lo);
      flist, own, spaces := [], map x | x in all :: Held, {};
      new;
      CardRange(lo, |mem| - lo);
      Freerange(lo, |mem|);
      assert own == map[];
      AllFree(this.mem, flist, freelist, own, lo);
    }

    /** kalloc: a page that nobody uses, or 0. */
    method Kalloc() returns (x: nat)
      requires Valid()
      modifies this`freelist, this`flist, this`own
      ensures Valid() && (x == 0 <==> old(flist) == [])
      ensures x == 0 ==> own == old(own) && flist == old(flist)
      ensures x != 0 ==> x !in old(own) && lo <= x < |mem| && own == old(own)[x := Held] && |flist| == |old(flist)| - 1
    {
      hide Owned, FreeOk;
      x := freelist;
      FreeHead(mem, flist, freelist, own, lo);
      if x != 0 {
        PopOk(mem, flist, freelist, own, lo, Held);
        Grant(mem, own, spaces, lo, x);
        freelist := PageOf(mem[x][0]);
        flist, own := flist[1..], own[x := Held];
      }
    }

    /** kfree of a page in use: filled with junk and put in front of the free list. */
    method Kfree(x: nat)
      requires FreeOk(mem, flist, freelist, own, lo) && x in own
      modifies this`mem, this`freelist, this`flist, this`own
      ensures x < |old(mem)| && mem == old(mem)[x := Junk(old(freelist))]
      ensures own == old(own) - {x} && FreeOk(mem, flist, freelist, own, lo)
    {
      PushOk(mem, flist, freelist, own, lo, x);
      mem := mem[x := Junk(freelist)];
      freelist := x;
      flist, own := [x] + flist, own - {x};
    }

    /** freerange: at boot, every page from `a` up to `b` becomes free. */
    method Freerange(a: nat, b: nat)
      requires FreeOk(mem, flist, freelist, own, lo) && a <= b && forall x :: a <= x < b ==> x in own
      modifies this`mem, this`freelist, this`flist, this`own
      ensures FreeOk(mem, flist, freelist, own, lo) && |mem| == |old(mem)|
      ensures own.Keys == old(own.Keys) - set x | x in old(own) && a <= x < b
    {
      hide FreeOk;
      var p := a;
      while p < b
        invariant a <= p <= b && FreeOk(mem, flist, freelist, own, lo) && |mem| == |old(mem)|
        invariant forall x :: x in own <==> x in old(own) && !(a <= x < p)
      {
        Kfree(p);
        p := p + 1;
      }
    }

    /** walkpgdir: the table for page `v`, created if `alloc` and there is memory; otherwise 0. */
    method Walkpgdir(pd: nat, v: nat, alloc: bool) returns (t: nat)
      requires Valid() && pd in spaces && v < VPAGES
      modifies this`mem, this`freelist, this`flist, this`own
      ensures Valid() && |mem| == |old(mem)|
      ensures t != 0 ==> IsTable(mem, pd, v, t) && MoreTables(old(own), own, pd)
      ensures t == 0 ==>
                && mem == old(mem) && own == old(own) && forall u: nat :: u / 1024 == v / 1024 ==> Pte(mem, pd, u) == 0
      ensures t != 0 ==> Regions(own, pd) == Regions(old(own), pd) + {v / 1024}
      ensures t == 0 <==> v / 1024 !in Regions(old(own), pd) && (!alloc || old(flist) == [])
      ensures |flist| == |old(flist)| - if t == 0 || v / 1024 in Regions(old(own), pd) then 0 else 1
      ensures !alloc ==> mem == old(mem) && own == old(own) && flist == old(flist)
      ensures PteKept(old(mem), mem, spaces, pd, 0, 0) && SameData(old(mem), mem, old(own))
    {
      hide Pte, TablesOk, DataOk, RoleOk, FreeOk, Regions;
      FreeHead(mem, flist, freelist, own, lo);
      assert SpaceOk(mem, own, pd);
      RegionIs(mem, own, spaces, lo, pd, v / 1024);
      var pde := mem[pd][v / 1024];
      if Present(pde) {
        t := Frame(pde);
        TableNumber(mem, own, spaces, lo, pd, v / 1024);
      } else {
        NoTable(mem, pd, v / 1024);
        if !alloc { return 0; }
        t := Kalloc();
        if t == 0 { return 0; }
        RegionSame(old(own), pd, t, Held);
        RegionAdd(own, pd, v / 1024, t);
        AddZeroTable(pd, v / 1024, t);
      }
    }

    /** The allocating branch of walkpgdir: clear page `x` and enter it in the directory. */
    method AddZeroTable(pd: nat, i: nat, x: nat)
      requires Valid() && pd in spaces && i < 1024 && pd < |mem| && x in own && own[x] == Held && x < |mem|
      requires !Present(mem[pd][i])
      modifies this`mem, this`own
      ensures Valid() && |mem| == |old(mem)| && own == old(own)[x := Table(pd, i)]
      ensures Present(mem[pd][i]) && Frame(mem[pd][i]) == x
      ensures PteKept(old(mem), mem, spaces, pd, 0, 0)
      ensures forall y :: 0 <= y < |mem| && y != x && y != pd ==> mem[y] == old(mem)[y]
    {
      ZeroTable(mem, own, spaces, lo, pd, i, x);
      EntryParts(x, 7);
      assert SpaceOk(mem, own, pd);
      ghost var mem0 := mem;
      mem := mem[x := Zero()];
      mem := mem[pd := mem[pd][i := Entry(x, 7)]];
      FreeSame(mem0, flist, freelist, own, lo, mem, own[x := Table(pd, i)]);
      own := own[x := Table(pd, i)];
    }

    /**
     One iteration of mappages. A user page must be backed by a held page, which
     becomes part of the address space.
     */
    method MapPage(pd: nat, v: nat, pa: nat, perm: nat) returns (ok: bool)
      requires Valid() && pd in spaces && v < VPAGES && perm < 4096 && !Present(Pte(mem, pd, v))
      requires v < UPAGES ==> pa in own && own[pa] == Held
      modifies this`mem, this`freelist, this`flist, this`own
      ensures Valid() && |mem| == |old(mem)| && SameData(old(mem), mem, old(own))
      ensures !ok ==> mem == old(mem) && own == old(own)
      ensures ok <==> v / 1024 in Regions(old(own), pd) || old(flist) != []
      ensures |flist| == |old(flist)| - if !ok || v / 1024 in Regions(old(own), pd) then 0 else 1
      ensures ok ==> Regions(own, pd) == Regions(old(own), pd) + {v / 1024}
      ensures ok ==>
                && PteKept(old(mem), mem, spaces, pd, v, v + 1) && Pte(mem, pd, v) == Entry(pa, WithPresent(perm))
                && MoreTables(old(own) - {pa}, own - {pa}, pd)
                && (v < UPAGES ==> pa in own && own[pa] == Data(pd, v))
                && (v >= UPAGES ==> MoreTables(old(own), own, pd))
    {
      hide Owned, FreeOk, Pte, IsTable, Present, Entry, PutPte, Regions;
      var t := Walkpgdir(pd, v, true);
      if t == 0 { return false; }
      ghost var mem1 := mem;
      WithPresentOk(perm);
      MapOwned(mem, own, spaces, lo, pd, v, t, pa, WithPresent(perm));
      PutKept(mem, own, spaces, lo, pd, v, t, Entry(pa, WithPresent(perm)));
      StorePte(t, v, Entry(pa, WithPresent(perm)), pd);
      if v < UPAGES {
        FreeSame(mem, flist, freelist, own, lo, mem, own[pa := Data(pd, v)]);
        RegionSame(own, pd, pa, Data(pd, v));
        own := own[pa := Data(pd, v)];
      }
      ok := true;
    }

    /** `*pte = w`. */
    method StorePte(t: nat, v: nat, w: nat, ghost pd: nat)
      requires Valid() && pd in spaces && IsTable(mem, pd, v, t)
      modifies this`mem
      ensures t < |old(mem)| && mem == PutPte(old(mem), t, v, w) && FreeOk(mem, flist, freelist, own, lo)
    {
      hide DataOk, RoleOk, FreeOk, Pte;
      assert SpaceOk(mem, own, pd);
      ghost var mem0 := mem;
      mem := mem[t := mem[t][v % 1024 := w]];
      FreeSame(mem0, flist, freelist, own, lo, mem, own);
    }

    /** The body of deallocuvm's loop for a mapped page. */
    method UnmapPage(pd: nat, v: nat, t: nat)
      requires Valid() && pd in spaces && IsTable(mem, pd, v, t) && v < UPAGES && Present(Pte(mem, pd, v))
      modifies this`mem, this`freelist, this`flist, this`own
      ensures Valid() && Frame(Pte(old(mem), pd, v)) in old(own) && old(own)[Frame(Pte(old(mem), pd, v))] == Data(pd, v)
      ensures own == old(own) - {Frame(Pte(old(mem), pd, v))}
      ensures PteKept(old(mem), mem, spaces, pd, v, v + 1) && Pte(mem, pd, v) == 0 && SameData(old(mem), mem, own)
    {
      hide Owned, FreeOk, Present, PutPte;
      UnmapFreed(mem, own, spaces, lo, pd, v, t, Junk(freelist));
      PutKept(mem, own, spaces, lo, pd, v, t, 0);
      var pte := mem[t][v % 1024];
      assert pte == Pte(mem, pd, v);
      Kfree(Frame(pte));
      ClearPte(t, v);
    }

    /** `*pte = 0` after its frame has been freed. */
    method ClearPte(t: nat, v: nat)
      requires FreeOk(mem, flist, freelist, own, lo) && t in own && t < |mem|
      modifies this`mem
      ensures mem == PutPte(old(mem), t, v, 0) && FreeOk(mem, flist, freelist, own, lo)
    {
      hide FreeOk;
      ghost var was := mem;
      mem := mem[t := mem[t][v % 1024 := 0]];
      FreeSame(was, flist, freelist, own, lo, mem, own);
    }

    /** deallocuvm: exactly the mapped user pages from PageUp(newsz) to PageUp(oldsz) are unmapped and freed. */
    method Deallocuvm(pd: nat, oldsz: nat, newsz: nat) returns (r: nat)
      requires Valid() && pd in spaces && oldsz <= KERNBASE
      modifies this`mem, this`freelist, this`flist, this`own
      ensures Valid() && |mem| == |old(mem)|
      ensures newsz >= oldsz ==> r == oldsz && mem == old(mem) && own == old(own)
      ensures newsz < oldsz ==>
                && r == newsz && Emptied(old(mem), old(own), mem, own, spaces, pd, PageUp(newsz), PageUp(oldsz))
      ensures newsz < oldsz ==> EmptiedBytes(old(mem), mem, spaces, pd, oldsz, newsz)
    {
      hide Owned, FreeOk, Pte, Emptied, PteKept, SameData, IsTable, MoreTables, Present;
      if newsz >= oldsz { return oldsz; }
      var a := PageUp(newsz);
      ghost var from, end, e := a, PageUp(oldsz), a;
      EmptyStart(mem, own, spaces, pd, a);
      while a < PageUp(oldsz)
        invariant from <= a && e == (if a < end then a else end) && Valid() && |mem| == |old(mem)|
        invariant Emptied(old(mem), old(own), mem, own, spaces, pd, from, e)
      {
        var t := Walkpgdir(pd, a, false);
        if t == 0 {
          var next := (a / 1024 + 1) * 1024;
          e := if next < end then next else end;
          SkipTable(mem, pd, a, next);
          EmptySkip(old(mem), old(own), mem, own, spaces, lo, pd, from, a, e);
          a := next;
        } else {
          Visit(pd, a, t, old(mem), old(own), from);
          a := a + 1;
          e := a;
        }
      }
      EmptiedIsBytes(old(mem), old(own), mem, own, spaces, pd, oldsz, newsz);
      r := newsz;
    }

    /** The body of deallocuvm's loop where there is a table. */
    method Visit(pd: nat, a: nat, t: nat, ghost mem0: seq<Page>, ghost own0: map<nat, Role>, ghost from: nat)
      requires Valid() && pd in spaces && IsTable(mem, pd, a, t) && a < UPAGES && from <= a
      requires Emptied(mem0, own0, mem, own, spaces, pd, from, a)
      modifies this`mem, this`freelist, this`flist, this`own
      ensures Valid() && |mem| == |old(mem)| && Emptied(mem0, own0, mem, own, spaces, pd, from, a + 1)
    {
      var pte := mem[t][a % 1024];
      assert pte == Pte(mem, pd, a);
      if Present(pte) {
        UnmapPage(pd, a, t);
        EmptyOne(mem0, own0, old(mem), old(own), mem, spaces, lo, pd, from, a, Frame(pte));
      } else {
        EmptySkip(mem0, own0, mem, own, spaces, lo, pd, from, a, a + 1);
      }
    }

    /** One iteration of allocuvm. If it fails, `x` is the page that could not be mapped, or 0. */
    method AllocPage(pd: nat, v: nat, ghost mem0: seq<Page>, ghost own0: map<nat, Role>, ghost a: nat)
      returns (ok: bool, x: nat)
      requires Valid() && pd in spaces && a <= v < UPAGES && !Present(Pte(mem, pd, v))
      requires Grown(mem0, own0, mem, own, spaces, pd, a, v)
      modifies this`mem, this`freelist, this`flist, this`own
      ensures Valid() && |mem| == |old(mem)|
      ensures ok ==> Grown(mem0, own0, mem, own, spaces, pd, a, v + 1)
      ensures !ok ==>
                && Grown(mem0, own0, mem, own - {x}, spaces, pd, a, v) && x !in own0
                && (x != 0 ==> x in own && own[x] == Held)
      ensures ok <==> |old(flist)| >= 1 + if v / 1024 in Regions(old(own), pd) then 0 else 1
      ensures ok ==> |flist| == |old(flist)| - 1 - if v / 1024 in Regions(old(own), pd) then 0 else 1
      ensures ok ==> Regions(own, pd) == Regions(old(own), pd) + {v / 1024}
    {
      hide Owned, FreeOk, Pte, Grown, PteKept, Present, Regions;
      FreeHead(mem, flist, freelist, own, lo);
      NoPageZero(mem, own, spaces, lo);
      GrownOwn(mem0, own0, mem, own, spaces, pd, a, v);
      x := Kalloc();
      if x == 0 {
        assert own - {0} == own;
        return false, 0;
      }
      ghost var own1 := own;
      RegionSame(old(own), pd, x, Held);
      FillHeld(x, Zero());
      GrownMemset(mem0, own0, old(mem), old(own), mem, spaces, pd, a, v, x);
      ghost var mem1 := mem;
      Release(mem, own, spaces, lo, x);
      UserPerm();
      ok := MapPage(pd, v, x, 6);
      if ok {
        assert own1 - {x} == old(own);
        GrowOne(mem0, own0, mem1, old(own), mem, own, spaces, lo, pd, a, v, x);
      } else {
        assert own - {x} == old(own);
      }
    }

    /** memset or memmove of a whole held page. */
    method FillHeld(x: nat, page: Page)
      requires Valid() && x in own && own[x] == Held && x < |mem|
      modifies this`mem
      ensures Valid() && mem == old(mem)[x := page]
      ensures forall q, v: nat :: q in spaces ==> Pte(mem, q, v) == Pte(old(mem), q, v)
    {
      SameOwned(mem, own, spaces, lo, mem[x := page]);
      FreeSame(mem, flist, freelist, own, lo, mem[x := page], own);
      mem := mem[x := page];
    }

    /**
     allocuvm: new pages of zeroes from PageUp(oldsz) to PageUp(newsz). If
     memory runs out, every user page looks as before and only tables have been
     added.
     */
    method Allocuvm(pd: nat, oldsz: nat, newsz: nat) returns (r: nat, ok: bool)
      requires Valid() && pd in spaces
      requires oldsz <= newsz < KERNBASE ==>
                forall v :: PageUp(oldsz) <= v < PageUp(newsz) ==> !Present(Pte(mem, pd, v))
      modifies this`mem, this`freelist, this`flist, this`own
      ensures Valid() && |mem| == |old(mem)|
      ensures newsz >= KERNBASE ==> r == 0 && !ok
      ensures newsz < KERNBASE && newsz < oldsz ==> r == oldsz && ok
      ensures newsz >= KERNBASE || newsz < oldsz ==> mem == old(mem) && own == old(own)
      ensures oldsz <= newsz < KERNBASE ==> r == if ok then newsz else 0
      ensures oldsz <= newsz < KERNBASE && ok ==>
                Grown(old(mem), old(own), mem, own, spaces, pd, PageUp(oldsz), PageUp(newsz))
      ensures !ok ==> LookKept(old(mem), mem, spaces, pd, 0, 0) && MoreTables(old(own), own, pd)
      ensures oldsz <= newsz < KERNBASE ==>
                var n := PageUp(newsz) - PageUp(oldsz);
                ok <==> |old(flist)| >= n + Lacking(Regions(old(own), pd), PageUp(oldsz), n)
      ensures oldsz <= newsz < KERNBASE && ok ==> GrownBytes(old(mem), old(own), mem, spaces, pd, oldsz, newsz)
    {
      hide Owned, FreeOk, Pte, Grown, PteKept, SameData, Present, LookKept, Regions, Lacking, Span;
      if newsz >= KERNBASE {
        LookSame(mem, spaces, pd);
        return 0, false;
      }
      if newsz < oldsz { return oldsz, true; }
      var a := PageUp(oldsz);
      ghost var from, have, end := a, Regions(own, pd), PageUp(newsz);
      GrowStart(mem, own, spaces, pd, a);
      LackingNone(have, a);
      while a < PageUp(newsz)
        invariant from <= a && (a <= PageUp(newsz) || a == from) && Valid() && |mem| == |old(mem)|
        invariant Grown(old(mem), old(own), mem, own, spaces, pd, from, a)
        invariant Regions(own, pd) == have + Span(from, a - from)
        invariant |flist| == |old(flist)| - (a - from) - Lacking(have, from, a - from)
      {
        LackingNext(have, from, a - from);
        LackingGrows(have, from, a - from + 1, end - from);
        UserRange(newsz);
        StillAbsent(old(mem), old(own), mem, own, spaces, pd, from, a);
        var more, x := AllocPage(pd, a, old(mem), old(own), from);
        if !more {
          Undo(pd, oldsz, newsz, a, x, old(mem), old(own));
          return 0, false;
        }
        a := a + 1;
      }
      GrownIsBytes(old(mem), old(own), mem, own, spaces, pd, oldsz, newsz);
      return newsz, true;
    }

    /** The failure path of allocuvm: deallocuvm, then kfree of the page that could not be mapped. */
    method Undo(pd: nat, oldsz: nat, newsz: nat, a: nat, x: nat, ghost mem0: seq<Page>, ghost own0: map<nat, Role>)
      requires Valid() && pd in spaces && oldsz < newsz < KERNBASE && PageUp(oldsz) <= a < PageUp(newsz)
      requires Owned(mem0, own0, spaces, lo) && Grown(mem0, own0, mem, own - {x}, spaces, pd, PageUp(oldsz), a)
      requires x !in own0 && (x != 0 ==> x in own && own[x] == Held)
      requires forall v :: PageUp(oldsz) <= v < PageUp(newsz) ==> !Present(Pte(mem0, pd, v))
      modifies this`mem, this`freelist, this`flist, this`own
      ensures Valid() && |mem| == |old(mem)|
      ensures LookKept(mem0, mem, spaces, pd, 0, 0) && MoreTables(own0, own, pd)
    {
      hide Owned, FreeOk, Pte, Grown, PteKept, SameData, Present, LookKept, MoreTables;
      FreeHead(mem, flist, freelist, own, lo);
      NoPageZero(mem, own, spaces, lo);
      ghost var mem1, own1 := mem, own;
      var _ := Deallocuvm(pd, newsz, oldsz);
      GrowEmpty(mem0, own0, mem1, own1, mem, own, spaces, lo, pd, PageUp(oldsz), a, PageUp(newsz), x);
      if x != 0 {
        FreeHeld(x, mem0, own0, pd, PageUp(oldsz), PageUp(newsz));
      } else {
        assert own - {x} == own;
      }
      RestoredLook(mem0, own0, mem, own, spaces, lo, pd, PageUp(oldsz), PageUp(newsz));
    }

    /** kfree of a held page. */
    method FreeHeld(x: nat, ghost mem0: seq<Page>, ghost own0: map<nat, Role>, ghost pd: nat, ghost a: nat,
                    ghost b: nat)
      requires Valid() && x in own && own[x] == Held && pd in spaces && x !in own0
      requires Restored(mem0, own0, mem, own - {x}, spaces, pd, a, b)
      modifies this`mem, this`freelist, this`flist, this`own
      ensures Valid() && own == old(own) - {x} && |mem| == |old(mem)|
      ensures Restored(mem0, own0, mem, own, spaces, pd, a, b)
    {
      hide FreeOk, Pte, Restored, SpaceOk, RoleOk;
      Release(mem, own, spaces, lo, x);
      SameOwned(mem, own - {x}, spaces, lo, mem[x := Junk(freelist)]);
      RestoredFree(mem0, own0, mem, own - {x}, mem[x := Junk(freelist)], spaces, lo, pd, a, b, x);
      Kfree(x);
    }

    /** freevm: every page of the address space is freed, once, and nothing else. */
    method Freevm(pd: nat)
      requires Valid() && pd in spaces
      modifies this
      ensures Valid() && |mem| == |old(mem)| && spaces == old(spaces) - {pd} && own == Without(old(own), pd)
      ensures PteKept(old(mem), mem, spaces, pd, 0, 0) && SameData(old(mem), mem, own)
    {
      hide FreeOk, Pte, SpaceOk, RoleOk, Present;
      DataInRange(mem, own, spaces, lo);
      ghost var own0 := own;
      var _ := Deallocuvm(pd, KERNBASE, 0);
      ghost var mem1, own1 := mem, own;
      FreeTables(pd);
      AllGone(mem1, own0, own1, spaces, lo, pd);
      Kfree(pd);
      DropOwned(mem1, own1, spaces, lo, pd);
      SameOwned(mem1, Without(own1, pd), spaces - {pd}, lo, mem);
      spaces := spaces - {pd};
    }

    /** The loop of freevm over the directory. */
    method FreeTables(pd: nat)
      requires Valid() && pd in spaces
      modifies this`mem, this`freelist, this`flist, this`own
      ensures FreeOk(mem, flist, freelist, own, lo) && own == LessTables(old(own), pd, 1024) && |mem| == |old(mem)|
      ensures pd in own && SpaceOk(old(mem), old(own), pd)
      ensures forall x :: x in own && x < |mem| ==> mem[x] == old(mem)[x]
    {
      hide FreeOk, Pte, RoleOk, Present, TablesOk, DataOk;
      assert SpaceOk(mem, own, pd);
      var i := 0;
      assert own == LessTables(own, pd, 0);
      while i < 1024
        invariant 0 <= i <= 1024 && FreeOk(mem, flist, freelist, own, lo) && own == LessTables(old(own), pd, i)
        invariant |mem| == |old(mem)|
        invariant pd in own && forall x :: x in own && x < |mem| ==> mem[x] == old(mem)[x]
      {
        NextTable(old(mem), old(own), spaces, lo, pd, i);
        if Present(mem[pd][i]) {
          Kfree(Frame(mem[pd][i]));
        }
        i := i + 1;
        if i < 1024 { NextTable(old(mem), old(own), spaces, lo, pd, i); }
      }
    }

    /**
     mappages: consecutive pages to consecutive frames; those of user pages must
     be held and become part of the address space.
     */
    method Mappages(pd: nat, v: nat, n: nat, pa: nat, perm: nat) returns (ok: bool)
      requires Valid() && pd in spaces && 0 < n && (v + n <= UPAGES || UPAGES <= v) && v + n <= VPAGES && perm < 4096
      requires StillHeld(own, v, pa, n)
      requires forall u :: v <= u < v + n ==> !Present(Pte(mem, pd, u))
      modifies this`mem, this`freelist, this`flist, this`own
      ensures Valid() && |mem| == |old(mem)|
      ensures ok ==> MappedRange(old(mem), old(own), mem, own, spaces, pd, v, pa, perm, n)
      ensures !ok ==> exists m: nat :: m <= n && MappedRange(old(mem), old(own), mem, own, spaces, pd, v, pa, perm, m)
      ensures ok ==> Regions(own, pd) == Regions(old(own), pd) + Span(v, n)
      ensures |flist| == if ok then |old(flist)| - Lacking(Regions(old(own), pd), v, n) else 0
      ensures ok <==> |old(flist)| >= Lacking(Regions(old(own), pd), v, n)
    {
      hide Owned, FreeOk, Pte, Present, PteKept, SameData, MoreTables, MappedRange, Entry, WithPresent, Regions,
          Lacking, Span;
      var i := 0;
      ghost var have := Regions(own, pd);
      LackingNone(have, v);
      MappedNone(mem, own, spaces, pd, v, pa, perm);
      while true
        invariant 0 <= i < n && Valid() && |mem| == |old(mem)|
        invariant Regions(own, pd) == have + Span(v, i) && |flist| == |old(flist)| - Lacking(have, v, i)
        invariant MappedRange(old(mem), old(own), mem, own, spaces, pd, v, pa, perm, i)
        decreases n - i
      {
        Unmapped(old(mem), old(own), mem, own, spaces, pd, v, pa, perm, i);
        FrameHeld(old(mem), old(own), mem, own, spaces, pd, v, pa, perm, i, n);
        ghost var mem1, own1 := mem, own;
        LackingNext(have, v, i);
        LackingGrows(have, v, i + 1, n);
        ok := MapPage(pd, v + i, pa + i, perm);
        if !ok { return; }
        MappedMore(old(mem), old(own), mem1, own1, mem, own, spaces, pd, v, pa, perm, i);
        if i == n - 1 { return; }
        i := i + 1;
      }
    }

    /**
     setupkvm: a new address space with exactly the kernel's mappings, or 0; what
     it allocated before failing stays allocated.
     */
    method Setupkvm(kmap: seq<Kmap>) returns (d: nat)
      requires Valid() && KmapOk(kmap)
      modifies this
      ensures Valid() && |mem| == |old(mem)|
      ensures d != 0 ==>
                && spaces == old(spaces) + {d}
                && KernelSpace(old(mem), old(own), mem, own, old(spaces), d, kmap, |kmap|)
      ensures d == 0 ==> spaces == old(spaces) && Unseen(old(mem), old(own), mem, spaces) && MoreHeld(old(own), own)
      ensures d != 0 <==> |old(flist)| >= 1 + KernelTables(kmap)
      ensures d != 0 ==> |flist| == |old(flist)| - 1 - KernelTables(kmap) && Regions(own, d) == KernelSpan(kmap, |kmap|)
      ensures d == 0 ==> flist == [] && |own| == |old(own)| + |old(flist)|
    {
      hide Owned, FreeOk, Pte, Present, Unseen, MappedRange, Entry, KernelSpace, MoreHeld, Regions, KernelSpan, Lacking,
          Span;
      d := NewDirectory(kmap);
      if d == 0 {
        FreeBalance(old(mem), old(flist), old(freelist), old(own), mem, flist, freelist, own, lo);
        return;
      }
      NoSpan(kmap);
      var k := 0;
      while k < |kmap|
        invariant 0 <= k <= |kmap| && Valid() && |mem| == |old(mem)| && spaces == old(spaces) + {d} && d != 0
        invariant KernelSpace(old(mem), old(own), mem, own, old(spaces), d, kmap, k)
        invariant Regions(own, d) == KernelSpan(kmap, k) && |flist| == |old(flist)| - 1 - |KernelSpan(kmap, k)|
      {
        KernelSpanNext(kmap, k);
        KernelSpanGrows(kmap, k + 1, |kmap|);
        var ok := MapRow(d, kmap, k, old(mem), old(own), old(spaces));
        if !ok {
          Abandon(d, old(mem), old(own));
          FreeBalance(old(mem), old(flist), old(freelist), old(own), mem, flist, freelist, own, lo);
          return 0;
        }
        k := k + 1;
      }
    }

    /** kalloc and memset for the directory. */
    method NewDirectory(ghost kmap: seq<Kmap>) returns (d: nat)
      requires Valid()
      modifies this
      ensures Valid() && |mem| == |old(mem)|
      ensures d != 0 ==>
                && d !in old(own) && spaces == old(spaces) + {d}
                && KernelSpace(old(mem), old(own), mem, own, old(spaces), d, kmap, 0)
      ensures d == 0 ==> spaces == old(spaces) && Unseen(old(mem), old(own), mem, spaces) && MoreHeld(old(own), own)
      ensures if d != 0 then |flist| == |old(flist)| - 1 && Regions(own, d) == {} else old(flist) == [] && flist == []
    {
      hide Owned, FreeOk, Pte, KernelSpace;
      ghost var own0 := own;
      d := Kalloc();
      if d != 0 {
        FreshDirectory(mem, own0, spaces, lo, d, kmap);
        NoRegions(mem, own0, spaces, lo, d);
        FreeSame(mem, flist, freelist, own, lo, mem[d := Zero()], own[d := Dir]);
        assert own[d := Dir] == own0[d := Dir];
        mem := mem[d := Zero()];
        own, spaces := own[d := Dir], spaces + {d};
      }
    }

    /** One row of the kernel's mappings. */
    method MapRow(d: nat, kmap: seq<Kmap>, k: nat, ghost mem0: seq<Page>, ghost own0: map<nat, Role>,
                  ghost spaces0: set<nat>) returns (ok: bool)
      requires Valid() && KmapOk(kmap) && k < |kmap| && spaces == spaces0 + {d}
      requires KernelSpace(mem0, own0, mem, own, spaces0, d, kmap, k)
      modifies this`mem, this`freelist, this`flist, this`own
      ensures Valid() && |mem| == |old(mem)|
      ensures ok ==> KernelSpace(mem0, own0, mem, own, spaces0, d, kmap, k + 1)
      ensures !ok ==> d !in own0 && d !in spaces0 && Unseen(mem0, own0, mem, spaces0) && Without(own, d) == own0
      ensures ok ==> Regions(own, d) == Regions(old(own), d) + Span(kmap[k].virt, kmap[k].n)
      ensures |flist| == if ok then |old(flist)| - Lacking(Regions(old(own), d), kmap[k].virt, kmap[k].n) else 0
      ensures ok <==> |old(flist)| >= Lacking(Regions(old(own), d), kmap[k].virt, kmap[k].n)
    {
      hide Regions, Lacking, Span, FreeOk, Pte, Present, Entry, Unseen, RoleOk, PteKept, SameData, MoreTables, Without;
      forall v | kmap[k].virt <= v < kmap[k].virt + kmap[k].n ensures !Present(Pte(mem, d, v)) {
        KernelFree(mem0, own0, mem, own, spaces0, d, kmap, k, v);
      }
      ghost var mem1, own1 := mem, own;
      assert SpaceOk(mem, own, d);
      ok := Mappages(d, kmap[k].virt, kmap[k].n, kmap[k].phys, kmap[k].perm);
      if ok {
        KernelStep(mem0, own0, mem1, own1, mem, own, spaces0, d, kmap, k);
      } else {
        ghost var m: nat :| m <= kmap[k].n
            && MappedRange(mem1, own1, mem, own, spaces, d, kmap[k].virt, kmap[k].phys, kmap[k].perm, m);
        NoFrames(own, kmap[k].virt, kmap[k].phys, m);
        NoFrames(own1, kmap[k].virt, kmap[k].phys, m);
        StillUnseen(mem0, own0, mem1, own1, mem, own, spaces0, d, kmap[k].virt, kmap[k].virt + m);
      }
    }

    /** setupkvm returns without freeing what it has built. */
    ghost method Abandon(d: nat, mem0: seq<Page>, own0: map<nat, Role>)
      requires Valid() && d in spaces && d !in own0 && Unseen(mem0, own0, mem, spaces - {d}) && Without(own, d) == own0
      modifies this`own, this`spaces
      ensures Valid() && spaces == old(spaces) - {d} && Unseen(mem0, own0, mem, spaces) && MoreHeld(own0, own)
    {
      hide Owned, FreeOk, Pte, Unseen, Without, MoreHeld;
      LeakOwned(mem, own, spaces, lo, d);
      Abandoned(mem0, own0, mem, own, spaces - {d}, d);
      FreeSame(mem, flist, freelist, own, lo, mem, Leaked(own, d));
      own, spaces := Leaked(own, d), spaces - {d};
    }

    /**
     copyuvm: an address space with the same contents and flags for the first
     `sz` bytes, on pages of its own; or 0, with nothing changed but pages that
     stay allocated.
     */
    method Copyuvm(pd: nat, sz: nat, kmap: seq<Kmap>) returns (d: nat)
      requires Valid() && KmapOk(kmap) && pd in spaces && sz <= KERNBASE
      requires forall v :: 0 <= v < PageUp(sz) ==> Present(Pte(mem, pd, v))
      modifies this
      ensures Valid() && |mem| == |old(mem)|
      ensures d != 0 ==>
                && spaces == old(spaces) + {d}
                && Copied(old(mem), old(own), mem, own, old(spaces), pd, d, kmap, PageUp(sz))
      ensures d == 0 ==> spaces == old(spaces) && Unseen(old(mem), old(own), mem, spaces) && MoreHeld(old(own), own)
      ensures d != 0 <==> |old(flist)| >= CopyNeeds(kmap, PageUp(sz))
      ensures d != 0 ==> |flist| == |old(flist)| - CopyNeeds(kmap, PageUp(sz))
      ensures d == 0 ==>
                && |flist| == |old(flist)| - CopyLoss(kmap, |old(flist)|)
                && |own| == |old(own)| + CopyLoss(kmap, |old(flist)|)
      ensures d != 0 ==> CopiedBytes(old(mem), old(own), mem, pd, d, sz)
    {
      hide Owned, FreeOk, Pte, Present, Unseen, KernelSpace, MoreHeld, Copied, KernelSpan, Regions, Span, Tables;
      UserRange(sz);
      d := Setupkvm(kmap);
      if d == 0 { return; }
      ghost var f1 := |flist|;
      NoTables(KernelSpan(kmap, |kmap|));
      CopyStart(old(mem), old(own), mem, own, old(spaces), pd, d, kmap);
      var i := 0;
      while i < PageUp(sz)
        invariant 0 <= i <= PageUp(sz) && Valid() && |mem| == |old(mem)| && spaces == old(spaces) + {d} && d != 0
        invariant Copied(old(mem), old(own), mem, own, old(spaces), pd, d, kmap, i)
        invariant Regions(own, d) == KernelSpan(kmap, |kmap|) + Span(0, i) && |flist| == f1 - i - Tables(i)
      {
        CopyTable(kmap, i);
        LossAt(i);
        TablesGrow(i + 1, PageUp(sz));
        var ok, x := CopyPage(pd, d, i, kmap, old(mem), old(own), old(spaces));
        if !ok {
          Bad(pd, d, i, x, kmap, old(mem), old(own), old(spaces));
          FreeBalance(old(mem), old(flist), old(freelist), old(own), mem, flist, freelist, own, lo);
          return 0;
        }
        i := i + 1;
      }
      CopiedIsBytes(old(mem), old(own), mem, own, old(spaces), pd, d, kmap, sz);
    }

    /** One iteration of copyuvm. If it fails, `x` is the page that could not be mapped, or 0. */
    method CopyPage(pd: nat, d: nat, v: nat, kmap: seq<Kmap>, ghost mem0: seq<Page>, ghost own0: map<nat, Role>,
                    ghost spaces0: set<nat>)
      returns (ok: bool, x: nat)
      requires Valid() && KmapOk(kmap) && spaces == spaces0 + {d} && pd in spaces0 && v < UPAGES
      requires Owned(mem0, own0, spaces0, lo) && Present(Pte(mem0, pd, v))
      requires Copied(mem0, own0, mem, own, spaces0, pd, d, kmap, v)
      modifies this`mem, this`freelist, this`flist, this`own
      ensures Valid() && |mem| == |old(mem)|
      ensures ok ==> Copied(mem0, own0, mem, own, spaces0, pd, d, kmap, v + 1)
      ensures !ok ==>
                && Copied(mem0, own0, mem, own - {x}, spaces0, pd, d, kmap, v) && x !in own0
                && (x in own ==> own[x] == Held)
      ensures ok <==> |old(flist)| >= 1 + if v / 1024 in Regions(old(own), d) then 0 else 1
      ensures ok ==> |flist| == |old(flist)| - 1 - if v / 1024 in Regions(old(own), d) then 0 else 1
      ensures ok ==> Regions(own, d) == Regions(old(own), d) + {v / 1024}
      ensures !ok ==> (x in own <==> |old(flist)| == 1)
    {
      hide Regions, Owned, FreeOk, Pte, Copied, PteKept, MoreTables, TablesOk, DataOk, KernelPte, Frame, Flags, Present,
          IsTable;
      FreeHead(mem, flist, freelist, own, lo);
      NoPageZero(mem0, own0, spaces0, lo);
      NoPageZero(mem, own, spaces, lo);
      CopyNext(mem0, own0, mem, own, spaces0, lo, pd, d, kmap, v);
      FlagsOk(Pte(mem0, pd, v), 0);
      ghost var own1 := own;
      var pte := ReadPte(pd, v);
      x := Kalloc();
      if x == 0 {
        assert own - {0} == own;
        return false, 0;
      }
      ghost var mem1 := mem;
      RegionSame(own1, d, x, Held);
      Release(mem, own, spaces, lo, x);
      assert own - {x} == own1;
      FillHeld(x, mem[Frame(pte)]);
      CopiedMemmove(mem0, own0, mem1, own1, mem, spaces0, lo, pd, d, kmap, v, x);
      Release(mem, own, spaces, lo, x);
      mem1 := mem;
      ok := MapPage(d, v, x, Flags(pte));
      if ok {
        FlagsOk(pte, x);
        CopyOne(mem0, own0, mem1, own1, mem, own, spaces0, lo, pd, d, kmap, v, x);
      }
    }

    /** walkpgdir without allocation, and the load of the entry of a mapped page. */
    method ReadPte(pd: nat, v: nat) returns (pte: nat)
      requires Valid() && pd in spaces && v < VPAGES && Present(Pte(mem, pd, v))
      modifies this`mem, this`freelist, this`flist, this`own
      ensures pte == Pte(mem, pd, v) && mem == old(mem) && own == old(own) && Valid() && |flist| == |old(flist)|
    {
      hide Owned, FreeOk;
      var t := Walkpgdir(pd, v, false);
      pte := mem[t][v % 1024];
    }

    /** The label `bad` of copyuvm. */
    method Bad(pd: nat, d: nat, v: nat, x: nat, kmap: seq<Kmap>, ghost mem0: seq<Page>, ghost own0: map<nat, Role>,
               ghost spaces0: set<nat>)
      requires Valid() && spaces == spaces0 + {d} && x !in own0 && (x in own ==> own[x] == Held)
      requires Copied(mem0, own0, mem, own - {x}, spaces0, pd, d, kmap, v)
      modifies this
      ensures Valid() && |mem| == |old(mem)| && spaces == spaces0 && Unseen(mem0, own0, mem, spaces0)
      ensures MoreHeld(own0, own)
      ensures |own| == |own0| + if x in old(own) then 1 else 0
    {
      hide Owned, FreeOk, Pte, Copied, PteKept, SameData, Unseen, MoreHeld, Without;
      ghost var mem1, own1 := mem, own;
      CopiedNew(mem0, own0, mem, own - {x}, spaces0, pd, d, kmap, v);
      DirectoryRole(mem, own, spaces, lo, d);
      Freevm(d);
      assert spaces == spaces0;
      CopyDropped(mem0, own0, mem1, own1, mem, spaces0, pd, d, kmap, v, x);
      OneKept(own0, own1, d, x);
    }

    /** fork's copy and its end: copyuvm, then freevm of the copy. */
    method CopyAndFree(pd: nat, sz: nat, kmap: seq<Kmap>) returns (ok: bool)
      requires Valid() && KmapOk(kmap) && pd in spaces && sz <= KERNBASE
      requires forall v :: 0 <= v < PageUp(sz) ==> Present(Pte(mem, pd, v))
      modifies this
      ensures Valid() && |mem| == |old(mem)| && spaces == old(spaces)
      ensures ok <==> |old(flist)| >= CopyNeeds(kmap, PageUp(sz))
      ensures ok ==> own == old(own) && multiset(flist) == multiset(old(flist))
      ensures !ok ==> |flist| == |old(flist)| - CopyLoss(kmap, |old(flist)|)
    {
      hide Owned, FreeOk, Pte, Present, Unseen, MoreHeld, Without, KernelTables, CopyNeeds, CopyLoss;
      var d := Copyuvm(pd, sz, kmap);
      ok := d != 0;
      if ok {
        CopiedNew(old(mem), old(own), mem, own, old(spaces), pd, d, kmap, PageUp(sz));
        Freevm(d);
        assert spaces == old(spaces);
        FreeSetDetermined(old(mem), old(flist), old(freelist), mem, flist, freelist, old(own), own, lo);
      }
    }
  }

  /** Without a table, the rest of the four-megabyte region is absent. */
  lemma SkipTable(mem: seq<Page>, pd: nat, a: nat, next: nat)
    requires next == (a / 1024 + 1) * 1024 && forall u: nat :: u / 1024 == a / 1024 ==> Pte(mem, pd, u) == 0
    ensures a < next && (a < UPAGES ==> next <= UPAGES)
    ensures forall u :: a <= u < next ==> !Present(Pte(mem, pd, u))
  {
    hide Pte;
    forall u: nat | a <= u < next ensures u / 1024 == a / 1024 {
    }
  }

  lemma GrownOwn(mem0: seq<Page>, own0: map<nat, Role>, mem: seq<Page>, own: map<nat, Role>, spaces: set<nat>, pd: nat,
                 a: nat, b: nat)
    requires Grown(mem0, own0, mem, own, spaces, pd, a, b)
    ensures own0.Keys <= own.Keys
  {
  }

  /** PTE_W | PTE_U with PTE_P added. */
  lemma UserPerm()
    ensures WithPresent(6) == 7
  {
  }

  lemma NoPageZero(mem: seq<Page>, own: map<nat, Role>, spaces: set<nat>, lo: nat)
    requires Owned(mem, own, spaces, lo) && 0 < lo
    ensures 0 !in own
  {
  }

  lemma {:induction false} GrownMemset(mem0: seq<Page>, own0: map<nat, Role>, mem: seq<Page>, own: map<nat, Role>,
                                       mem': seq<Page>, spaces: set<nat>, pd: nat, a: nat, b: nat, x: nat)
    requires Grown(mem0, own0, mem, own, spaces, pd, a, b) && x !in own && x < |mem| && mem' == mem[x := Zero()]
    requires pd in spaces
    requires forall q, v: nat :: q in spaces ==> Pte(mem', q, v) == Pte(mem, q, v)
    ensures Grown(mem0, own0, mem', own, spaces, pd, a, b)
  {
    hide Pte, Present;
    forall v | a <= v < b ensures Fresh(mem', own0, pd, v) {
      assert Fresh(mem, own0, pd, v);
    }
  }

  lemma LookSame(mem: seq<Page>, spaces: set<nat>, pd: nat)
    ensures LookKept(mem, mem, spaces, pd, 0, 0)
  {
  }

  lemma UserRange(sz: nat)
    requires sz <= KERNBASE
    ensures PageUp(sz) <= UPAGES
  {
  }

  lemma {:induction false} StillAbsent(mem0: seq<Page>, own0: map<nat, Role>, mem: seq<Page>, own: map<nat, Role>,
                                       spaces: set<nat>, pd: nat, a: nat, v: nat)
    requires Grown(mem0, own0, mem, own, spaces, pd, a, v) && pd in spaces && !Present(Pte(mem0, pd, v))
    ensures !Present(Pte(mem, pd, v))
  {
  }

  lemma {:induction false} MappedNone(mem: seq<Page>, own: map<nat, Role>, spaces: set<nat>, pd: nat, v: nat, pa: nat,
                                      perm: nat)
    ensures MappedRange(mem, own, mem, own, spaces, pd, v, pa, perm, 0)
  {
  }

  /** A frame that has not been mapped yet is still held. */
  lemma {:induction false} FrameHeld(mem0: seq<Page>, own0: map<nat, Role>, mem: seq<Page>, own: map<nat, Role>,
                                     spaces: set<nat>, pd: nat, v: nat, pa: nat, perm: nat, i: nat, n: nat)
    requires MappedRange(mem0, own0, mem, own, spaces, pd, v, pa, perm, i) && StillHeld(own0, v, pa, n) && i < n
    ensures v < UPAGES ==> pa + i in own && own[pa + i] == Held
  {
    hide Pte, PteKept, SameData, Frames;
    FramesAre(v, pa, i);
    if v < UPAGES {
      assert pa + i in own0 - Frames(v, pa, i);
    }
  }

  lemma {:induction false} Unmapped(mem0: seq<Page>, own0: map<nat, Role>, mem: seq<Page>, own: map<nat, Role>,
                                    spaces: set<nat>, pd: nat, v: nat, pa: nat, perm: nat, n: nat)
    requires MappedRange(mem0, own0, mem, own, spaces, pd, v, pa, perm, n) && pd in spaces
    requires !Present(Pte(mem0, pd, v + n))
    ensures !Present(Pte(mem, pd, v + n))
  {
    hide Pte;
  }

  lemma CopiedNew(mem0: seq<Page>, own0: map<nat, Role>, mem: seq<Page>, own: map<nat, Role>, spaces: set<nat>, pd: nat,
                  d: nat, kmap: seq<Kmap>, n: nat)
    requires Copied(mem0, own0, mem, own, spaces, pd, d, kmap, n)
    ensures d !in spaces && d !in own0 && Without(own, d) == own0
  {
  }

  lemma DirectoryRole(mem: seq<Page>, own: map<nat, Role>, spaces: set<nat>, lo: nat, d: nat)
    requires Owned(mem, own, spaces, lo) && d in spaces
    ensures d in own && own[d] == Dir
  {
    assert SpaceOk(mem, own, d);
  }
}
