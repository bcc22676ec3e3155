/**
 How many pages the operations of vm.c take: one for each page table they need
 and do not find, besides the pages they map. A table covers a region of 1024
 pages.
 */
module PageCount {
  import opened Counting
  import opened PageTables
  import opened FreePages
  import opened VmSpec

  /** The regions for which `pd` has a table. */
  ghost function Regions(own: map<nat, Role>, pd: nat): set<nat> {
    set x | x in own && own[x].Table? && own[x].pd == pd :: own[x].i
  }

  /** The regions of pages `v` to `v + n`. */
  function Span(v: nat, n: nat): set<nat> {
    if n == 0 then {} else Span(v, n - 1) + {(v + n - 1) / 1024}
  }

  /** Tables that pages `v` to `v + n` of an address space with tables for `have` still need. */
  function Lacking(have: set<nat>, v: nat, n: nat): nat { |Span(v, n) - have| }

  lemma {:induction false} SpanIs(v: nat, n: nat, i: nat)
    ensures i in Span(v, n) <==> exists u: nat :: v <= u < v + n && u / 1024 == i
  {
    if n > 0 {
      SpanIs(v, n - 1, i);
    }
  }

  /** One page more needs a table more if its region has none yet. */
  lemma {:induction false} LackingNext(have: set<nat>, v: nat, n: nat)
    ensures have + Span(v, n + 1) == have + Span(v, n) + {(v + n) / 1024}
    ensures Lacking(have, v, n + 1) == Lacking(have, v, n) + if (v + n) / 1024 in have + Span(v, n) then 0 else 1
  {
    var i := (v + n) / 1024;
    if i in have + Span(v, n) {
      assert Span(v, n + 1) - have == Span(v, n) - have;
    } else {
      assert Span(v, n + 1) - have == (Span(v, n) - have) + {i};
    }
  }

  lemma {:induction false} LackingGrows(have: set<nat>, v: nat, m: nat, n: nat)
    requires m <= n
    ensures Lacking(have, v, m) <= Lacking(have, v, n)
    decreases n
  {
    if m < n {
      LackingNext(have, v, n - 1);
      LackingGrows(have, v, m, n - 1);
    }
  }

  // Roles and regions

  /** A present directory entry is a table, an absent one is none. */
  lemma {:induction false} RegionIs(mem: seq<Page>, own: map<nat, Role>, spaces: set<nat>, lo: nat, pd: nat, i: nat)
    requires Owned(mem, own, spaces, lo) && pd in spaces && pd < |mem| && i < 1024
    ensures i in Regions(own, pd) <==> Present(mem[pd][i])
  {
    hide Pte, DataOk, Present;
    assert SpaceOk(mem, own, pd);
    if Present(mem[pd][i]) {
      assert own[Frame(mem[pd][i])] == Table(pd, i);
    }
    if i in Regions(own, pd) {
      var x :| x in own && own[x].Table? && own[x].pd == pd && own[x].i == i;
      assert RoleOk(mem, spaces, x, own[x]);
    }
  }

  lemma {:induction false} RegionAdd(own: map<nat, Role>, pd: nat, i: nat, x: nat)
    requires x in own ==> own[x] == Held
    ensures Regions(own[x := Table(pd, i)], pd) == Regions(own, pd) + {i}
  {
    var own' := own[x := Table(pd, i)];
    assert own'[x].i == i;
    forall y | y in own && own[y].Table? && own[y].pd == pd ensures own[y].i in Regions(own', pd) {
      assert own'[y] == own[y];
    }
  }

  /** Roles other than tables do not matter. */
  lemma {:induction false} RegionSame(own: map<nat, Role>, pd: nat, x: nat, r: Role)
    requires (x in own ==> !own[x].Table?) && !r.Table?
    ensures Regions(own[x := r], pd) == Regions(own, pd)
  {
    var own' := own[x := r];
    forall y | y in own && own[y].Table? && own[y].pd == pd ensures own[y].i in Regions(own', pd) {
      assert own'[y] == own[y];
    }
  }

  // The kernel's tables

  ghost function KernelSpan(kmap: seq<Kmap>, n: nat): set<nat>
    requires n <= |kmap|
  {
    if n == 0 then {} else KernelSpan(kmap, n - 1) + Span(kmap[n - 1].virt, kmap[n - 1].n)
  }

  /** The tables that setupkvm builds. */
  ghost function KernelTables(kmap: seq<Kmap>): nat { |KernelSpan(kmap, |kmap|)| }

  lemma {:induction false} KernelSpanGrows(kmap: seq<Kmap>, m: nat, n: nat)
    requires m <= n <= |kmap|
    ensures |KernelSpan(kmap, m)| <= |KernelSpan(kmap, n)|
    decreases n
  {
    hide KernelSpan, Span, Lacking;
    if m < n {
      KernelSpanGrows(kmap, m, n - 1);
      KernelSpanNext(kmap, n - 1);
    }
  }

  lemma {:induction false} KernelSpanNext(kmap: seq<Kmap>, n: nat)
    requires n < |kmap|
    ensures KernelSpan(kmap, n + 1) == KernelSpan(kmap, n) + Span(kmap[n].virt, kmap[n].n)
    ensures |KernelSpan(kmap, n + 1)| == |KernelSpan(kmap, n)| + Lacking(KernelSpan(kmap, n), kmap[n].virt, kmap[n].n)
  {
    var a, b := KernelSpan(kmap, n), Span(kmap[n].virt, kmap[n].n);
    assert a + b == a + (b - a);
  }

  /** The kernel's regions are in the upper half. */
  lemma {:induction false} KernelHigh(kmap: seq<Kmap>, n: nat, i: nat)
    requires KmapOk(kmap) && n <= |kmap| && i in KernelSpan(kmap, n)
    ensures i >= 512
  {
    if i !in KernelSpan(kmap, n - 1) {
      SpanIs(kmap[n - 1].virt, kmap[n - 1].n, i);
    } else {
      KernelHigh(kmap, n - 1, i);
    }
  }

  // Copying

  /** Tables for the first `n` pages. */
  function Tables(n: nat): nat { (n + 1023) / 1024 }

  lemma {:induction false} LowSpan(n: nat)
    ensures forall i: nat :: i in Span(0, n) <==> i < Tables(n)
    ensures |Span(0, n)| == Tables(n)
  {
    hide Range;
    if n > 0 {
      SpanRange(0, n);
    }
    CardRange(0, Tables(n));
    assert Span(0, n) == Range(0, Tables(n));
  }

  /** Pages that copying the first `n` pages of an address space takes. */
  ghost function CopyNeeds(kmap: seq<Kmap>, n: nat): nat { 1 + KernelTables(kmap) + n + Tables(n) }

  /**
   Pages that a failing copyuvm with `f` free pages keeps: all of them if the
   kernel's part cannot be built; afterwards one, if it is the last free page and
   the first page of a region.
   */
  ghost function CopyLoss(kmap: seq<Kmap>, f: nat): nat {
    if f < 1 + KernelTables(kmap) then f
    else if (f - 1 - KernelTables(kmap)) % 1025 == 1 then 1
    else 0
  }

  /**
   A failing copyuvm of `n` pages keeps pages exactly if some are free and too few
   for the kernel's part, or one is left when the first page of a region is mapped.
   */
  lemma {:induction false} LosesPages(kmap: seq<Kmap>, n: nat, f: nat)
    requires f < CopyNeeds(kmap, n)
    ensures CopyLoss(kmap, f) > 0 <==>
            || 0 < f < 1 + KernelTables(kmap)
            || exists m: nat :: f == 1 + KernelTables(kmap) + 1025 * m + 1 && 1024 * m < n
  {
    hide KernelTables;
    var k := 1 + KernelTables(kmap);
    if f >= k && CopyLoss(kmap, f) > 0 {
      var m := (f - k) / 1025;
      assert f == k + 1025 * m + 1;
      assert 1024 * m >= n ==> Tables(n) <= m;
    }
  }

  /** With the kernel's own table and a process of one page: 64 free pages are lost, of 65 none, of 66 one. */
  lemma {:induction false} SourceLosses(data: nat)
    requires 0x100 < data < 0xE000
    ensures var kmap := SourceKmap(data);
            CopyNeeds(kmap, 1) == 67 && CopyLoss(kmap, 64) == 64 && CopyLoss(kmap, 65) == 0 && CopyLoss(kmap, 66) == 1
  {
    hide KernelTables;
    SourceTables(data);
  }

  /** A page needs a table of its own exactly if it is the first of its region. */
  lemma {:induction false} CopyTable(kmap: seq<Kmap>, v: nat)
    requires KmapOk(kmap) && v < UPAGES
    ensures v / 1024 in KernelSpan(kmap, |kmap|) + Span(0, v) <==> v % 1024 != 0
    ensures KernelSpan(kmap, |kmap|) + Span(0, v + 1) == KernelSpan(kmap, |kmap|) + Span(0, v) + {v / 1024}
    ensures Tables(v + 1) == Tables(v) + if v % 1024 == 0 then 1 else 0
  {
    hide KernelSpan;
    LowSpan(v);
    assert v / 1024 < Tables(v) <==> v % 1024 != 0;
    if v / 1024 in KernelSpan(kmap, |kmap|) {
      KernelHigh(kmap, |kmap|, v / 1024);
      assert false;
    }
  }

  /** What is left before the first page of a region that cannot be mapped. */
  lemma LossAt(v: nat)
    ensures (v + Tables(v)) % 1025 != 1
    ensures v % 1024 == 0 ==> (v + Tables(v) + 1) % 1025 == 1
  {
    var m, r := v / 1024, v % 1024;
    assert v == 1024 * m + r;
    if r == 0 {
      assert Tables(v) == m;
      assert v + Tables(v) == 1025 * m;
    } else {
      assert Tables(v) == m + 1;
      assert v + Tables(v) == 1025 * m + r + 1;
    }
  }

  /** The kernel's own table needs 64 page tables, so setupkvm needs 65 free pages. */
  lemma {:induction false} SourceTables(data: nat)
    requires 0x100 < data < 0xE000
    ensures KernelTables(SourceKmap(data)) == 64
  {
    hide KernelSpan, Range, SourceKmap;
    var low, high := Range(512, 56), Range(1016, 8);
    CardRange(512, 56);
    CardRange(1016, 8);
    SourceSpan(data);
    assert KernelSpan(SourceKmap(data), 4) == low + high;
    assert low !! high;
  }

  lemma {:induction false} SourceSpan(data: nat)
    requires 0x100 < data < 0xE000
    ensures |SourceKmap(data)| == 4
    ensures forall i: nat :: i in KernelSpan(SourceKmap(data), 4) <==> 512 <= i < 568 || 1016 <= i < 1024
  {
    hide KernelSpan, Span, Lacking;
    var kmap := SourceKmap(data);
    SpanRange(0x80000, 0x100);
    SpanRange(0x80100, data - 0x100);
    SpanRange(0x80000 + data, 0xE000 - data);
    SpanRange(0xFE000, 0x2000);
    KernelSpanNext(kmap, 0);
    KernelSpanNext(kmap, 1);
    KernelSpanNext(kmap, 2);
    KernelSpanNext(kmap, 3);
    NoSpan(kmap);
  }

  lemma NoSpan(kmap: seq<Kmap>)
    ensures KernelSpan(kmap, 0) == {}
  {
  }

  lemma {:induction false} SpanRange(v: nat, n: nat)
    requires n > 0
    ensures forall i: nat :: i in Span(v, n) <==> v / 1024 <= i <= (v + n - 1) / 1024
  {
    if n > 1 {
      SpanRange(v, n - 1);
    } else {
      assert Span(v, 1) == Span(v, 0) + {v / 1024};
    }
  }

  // Free pages

  /** Free pages and pages in use add up to the same number. */
  lemma {:induction false} FreeBalance(mem: seq<Page>, flist: seq<nat>, head: nat, own: map<nat, Role>,
                                       mem': seq<Page>, flist': seq<nat>, head': nat, own': map<nat, Role>, lo: nat)
    requires FreeOk(mem, flist, head, own, lo) && FreeOk(mem', flist', head', own', lo) && |mem| == |mem'|
    ensures |flist| + |own| == |flist'| + |own'|
  {
    hide FreeOk, Elems;
    InUse(mem, flist, head, own, lo);
    InUse(mem', flist', head', own', lo);
    assert Elems(flist) + own.Keys == Elems(flist') + own'.Keys;
  }

  lemma {:induction false} InUse(mem: seq<Page>, flist: seq<nat>, head: nat, own: map<nat, Role>, lo: nat)
    requires FreeOk(mem, flist, head, own, lo)
    ensures forall x :: x in Elems(flist) + own.Keys <==> lo <= x < |mem|
    ensures |Elems(flist) + own.Keys| == |flist| + |own|
  {
    CardElems(flist);
    forall x | x in flist ensures lo <= x < |mem| && x !in own {
      var k :| 0 <= k < |flist| && flist[k] == x;
      assert Link(mem, flist, k);
    }
    assert Elems(flist) !! own.Keys;
    assert |own| == |own.Keys|;
  }

  lemma {:induction false} AllFree(mem: seq<Page>, flist: seq<nat>, head: nat, own: map<nat, Role>, lo: nat)
    requires FreeOk(mem, flist, head, own, lo) && own == map[] && lo <= |mem|
    ensures |flist| == |mem| - lo
  {
    hide FreeOk, Elems, Range;
    InUse(mem, flist, head, own, lo);
    CardRange(lo, |mem| - lo);
    assert Elems(flist) + own.Keys == Range(lo, |mem| - lo);
  }

  lemma LackingNone(have: set<nat>, v: nat)
    ensures Lacking(have, v, 0) == 0 && have + Span(v, 0) == have
  {
  }

  /** A new directory has no tables. */
  lemma {:induction false} NoRegions(mem: seq<Page>, own: map<nat, Role>, spaces: set<nat>, lo: nat, d: nat)
    requires Owned(mem, own, spaces, lo) && d !in own
    ensures Regions(own[d := Dir], d) == {}
  {
    hide Pte, TablesOk, DataOk;
    assert d in spaces ==> SpaceOk(mem, own, d);
    forall x | x in own && own[x].Table? ensures own[x].pd != d {
      assert RoleOk(mem, spaces, x, own[x]);
    }
  }

  lemma NoTables(have: set<nat>)
    ensures Tables(0) == 0 && have + Span(0, 0) == have
  {
  }

  lemma TablesGrow(m: nat, n: nat)
    requires m <= n
    ensures Tables(m) <= Tables(n)
  {
  }

  /** Of a copy that failed nothing is left but the page that could not be mapped. */
  lemma {:induction false} OneKept(own0: map<nat, Role>, own: map<nat, Role>, d: nat, x: nat)
    requires Without(own - {x}, d) == own0 && x !in own0 && (x in own ==> own[x] == Held && x != d)
    ensures |Without(own, d)| == |own0| + if x in own then 1 else 0
  {
    if x in own {
      assert Without(own, d) == own0[x := Held];
    } else {
      assert own - {x} == own;
    }
  }
}
