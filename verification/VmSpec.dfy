/** What the operations of vm.c promise, on values: page views kept, grown, emptied and copied. */
module VmSpec {
  import opened Counting
  import opened PageTables

  /** Pages needed for `sz` bytes: PGROUNDUP(sz) / PGSIZE. */
  function PageUp(sz: nat): (n: nat)
    ensures sz <= 4096 * n < sz + 4096
  {
    (sz + 4095) / 4096
  }

  /** What user page `v` of an address space shows. */
  datatype Cell = Absent | Mapped(frame: nat, flags: nat, page: Page)

  function Look(mem: seq<Page>, pd: nat, v: nat): Cell {
    var w := Pte(mem, pd, v);
    if Present(w) && Frame(w) < |mem| then Mapped(Frame(w), Flags(w), mem[Frame(w)]) else Absent
  }

  /** Translation is the same except for pages `a..b` of address space `pd`. */
  ghost predicate PteKept(mem: seq<Page>, mem': seq<Page>, spaces: set<nat>, pd: nat, a: nat, b: nat) {
    forall q, v: nat :: q in spaces && !(q == pd && a <= v < b) ==> Pte(mem', q, v) == Pte(mem, q, v)
  }

  /** The contents of user pages and held pages are the same. */
  ghost predicate SameData(mem: seq<Page>, mem': seq<Page>, own: map<nat, Role>) {
    |mem'| == |mem| && forall x :: x in own && x < |mem| && (own[x].Data? || own[x].Held?) ==> mem'[x] == mem[x]
  }

  /** User pages look the same, except for pages `a..b` of address space `pd`. */
  ghost predicate LookKept(mem: seq<Page>, mem': seq<Page>, spaces: set<nat>, pd: nat, a: nat, b: nat) {
    forall q, v: nat :: q in spaces && v < UPAGES && !(q == pd && a <= v < b) ==> Look(mem', q, v) == Look(mem, q, v)
  }

  /** The roles are the same, apart from new tables of `pd`. */
  ghost predicate MoreTables(own: map<nat, Role>, own': map<nat, Role>, pd: nat) {
    && (forall x :: x in own ==> x in own' && own'[x] == own[x])
    && (forall x :: x in own' && x !in own ==> own'[x].Table? && own'[x].pd == pd)
  }

  /** The roles without user pages `a..b` of `pd`. */
  function Minus(own: map<nat, Role>, pd: nat, a: nat, b: nat): map<nat, Role> {
    map x | x in own && !(own[x].Data? && own[x].pd == pd && a <= own[x].v < b) :: own[x]
  }

  /** The tables and user pages `a..b` of `pd` are what has been added to the roles. */
  ghost predicate Added(own: map<nat, Role>, own': map<nat, Role>, pd: nat, a: nat, b: nat) {
    && (forall x :: x in own ==> x in own' && own'[x] == own[x])
    && (forall x :: x in own' && x !in own ==>
          (own'[x].Table? && own'[x].pd == pd) || (own'[x].Data? && own'[x].pd == pd && a <= own'[x].v < b))
  }

  /** Page `v` of `pd` is a new page of zeroes. */
  predicate Fresh(mem: seq<Page>, own: map<nat, Role>, pd: nat, v: nat) {
    var w := Pte(mem, pd, v);
    Present(w) && Flags(w) == 7 && Frame(w) !in own && Frame(w) < |mem| && mem[Frame(w)] == Zero()
  }

  /** `pd` has grown by new pages `a..b` and nothing else has changed. */
  ghost predicate Grown(mem: seq<Page>, own: map<nat, Role>, mem': seq<Page>, own': map<nat, Role>, spaces: set<nat>,
                        pd: nat, a: nat, b: nat) {
    && PteKept(mem, mem', spaces, pd, a, b) && SameData(mem, mem', own) && Added(own, own', pd, a, b)
    && forall v :: a <= v < b ==> Fresh(mem', own, pd, v)
  }

  /** Pages `a..b` of `pd` have been unmapped and given up, and nothing else has changed. */
  ghost predicate Emptied(mem: seq<Page>, own: map<nat, Role>, mem': seq<Page>, own': map<nat, Role>, spaces: set<nat>,
                          pd: nat, a: nat, b: nat) {
    && PteKept(mem, mem', spaces, pd, a, b) && own' == Minus(own, pd, a, b) && SameData(mem, mem', own')
    && forall v :: a <= v < b ==> !Present(Pte(mem', pd, v))
  }

  /** Equal entries and equal page contents look the same. */
  lemma {:induction false} KeptLook(mem: seq<Page>, own: map<nat, Role>, spaces: set<nat>, lo: nat, mem': seq<Page>,
                                    own': map<nat, Role>, pd: nat, a: nat, b: nat)
    requires Owned(mem, own, spaces, lo) && PteKept(mem, mem', spaces, pd, a, b) && SameData(mem, mem', own')
    requires forall x :: x in own && own[x].Data? && !(own[x].pd == pd && a <= own[x].v < b) ==>
              && x in own' && own'[x] == own[x]
    ensures LookKept(mem, mem', spaces, pd, a, b)
  {
    forall q, v: nat | q in spaces && v < UPAGES && !(q == pd && a <= v < b)
      ensures Look(mem', q, v) == Look(mem, q, v)
    {
      hide Pte, TablesOk;
      assert SpaceOk(mem, own, q);
    }
  }

  lemma {:induction false} MinusNone(own: map<nat, Role>, pd: nat, a: nat)
    ensures Minus(own, pd, a, a) == own
  {
  }

  /** What storing the entry of one page amounts to. */
  lemma {:induction false} PutKept(mem: seq<Page>, own: map<nat, Role>, spaces: set<nat>, lo: nat, pd: nat, v: nat,
                                   t: nat, w: nat)
    requires Owned(mem, own, spaces, lo) && pd in spaces && IsTable(mem, pd, v, t)
    ensures var mem' := PutPte(mem, t, v, w);
            PteKept(mem, mem', spaces, pd, v, v + 1) && Pte(mem', pd, v) == w && SameData(mem, mem', own)
  {
    var mem' := PutPte(mem, t, v, w);
    forall q, u: nat | q in spaces ensures Pte(mem', q, u) == if q == pd && u == v then w else Pte(mem, q, u) {
      PutPteAt(mem, own, spaces, lo, pd, v, t, w, q, u);
    }
    assert SpaceOk(mem, own, pd);
  }

  lemma {:induction false} KeptThen(mem: seq<Page>, mem1: seq<Page>, mem2: seq<Page>, spaces: set<nat>, pd: nat, a: nat,
                                    b: nat, c: nat)
    requires PteKept(mem, mem1, spaces, pd, a, b) && PteKept(mem1, mem2, spaces, pd, b, c) && a <= b <= c
    ensures PteKept(mem, mem2, spaces, pd, a, c)
  {
  }

  // Unmapping

  lemma {:induction false} EmptyStart(mem: seq<Page>, own: map<nat, Role>, spaces: set<nat>, pd: nat, a: nat)
    ensures Emptied(mem, own, mem, own, spaces, pd, a, a)
  {
    MinusNone(own, pd, a);
  }

  /** Absent pages need no work. */
  lemma {:induction false} EmptySkip(mem0: seq<Page>, own0: map<nat, Role>, mem: seq<Page>, own: map<nat, Role>,
                                     spaces: set<nat>, lo: nat, pd: nat, a: nat, b: nat, c: nat)
    requires Emptied(mem0, own0, mem, own, spaces, pd, a, b) && Owned(mem, own, spaces, lo) && a <= b <= c
    requires forall u :: b <= u < c ==> !Present(Pte(mem, pd, u))
    ensures Emptied(mem0, own0, mem, own, spaces, pd, a, c)
  {
    hide Pte, Present;
    forall x | x in own && own[x].Data? && own[x].pd == pd ensures !(b <= own[x].v < c) {
      assert RoleOk(mem, spaces, x, own[x]);
    }
    assert Minus(own0, pd, a, c) == Minus(own0, pd, a, b) by {
      forall x | x in own0 && own0[x].Data? && own0[x].pd == pd && b <= own0[x].v < c
        ensures x !in Minus(own0, pd, a, b)
      {
      }
    }
  }

  /** One mapped page has been unmapped and given up. */
  lemma {:induction false} EmptyOne(mem0: seq<Page>, own0: map<nat, Role>, mem: seq<Page>, own: map<nat, Role>,
                                    mem': seq<Page>, spaces: set<nat>, lo: nat, pd: nat, a: nat, b: nat, x: nat)
    requires Emptied(mem0, own0, mem, own, spaces, pd, a, b) && Owned(mem, own, spaces, lo) && a <= b && pd in spaces
    requires x in own && own[x] == Data(pd, b)
    requires PteKept(mem, mem', spaces, pd, b, b + 1) && SameData(mem, mem', own - {x}) && !Present(Pte(mem', pd, b))
    ensures Emptied(mem0, own0, mem', own - {x}, spaces, pd, a, b + 1)
  {
    hide Pte, Present;
    KeptThen(mem0, mem, mem', spaces, pd, a, b, b + 1);
    forall y | y in own && own[y] == Data(pd, b) ensures y == x {
      assert RoleOk(mem, spaces, y, own[y]) && RoleOk(mem, spaces, x, own[x]);
    }
    assert own - {x} == Minus(own0, pd, a, b + 1);
  }

  // Growing

  lemma {:induction false} GrowStart(mem: seq<Page>, own: map<nat, Role>, spaces: set<nat>, pd: nat, a: nat)
    ensures Grown(mem, own, mem, own, spaces, pd, a, a)
  {
  }

  /** A held page has been cleared and mapped as page `b`. */
  lemma {:induction false} GrowOne(mem0: seq<Page>, own0: map<nat, Role>, mem: seq<Page>, own: map<nat, Role>,
                                   mem': seq<Page>, own': map<nat, Role>, spaces: set<nat>, lo: nat, pd: nat, a: nat,
                                   b: nat, x: nat)
    requires Grown(mem0, own0, mem, own, spaces, pd, a, b) && a <= b < UPAGES && x !in own && pd in spaces
    requires Owned(mem, own, spaces, lo)
    requires PteKept(mem, mem', spaces, pd, b, b + 1) && Pte(mem', pd, b) == Entry(x, 7)
    requires SameData(mem, mem', own) && x < |mem'| && mem'[x] == Zero()
    requires MoreTables(own, own' - {x}, pd) && x in own' && own'[x] == Data(pd, b)
    ensures Grown(mem0, own0, mem', own', spaces, pd, a, b + 1)
  {
    hide Pte, Entry, Owned;
    KeptThen(mem0, mem, mem', spaces, pd, a, b, b + 1);
    EntryParts(x, 7);
    assert Added(own0, own', pd, a, b + 1) by {
      forall y | y in own' && y !in own0 && y != x
        ensures (own'[y].Table? && own'[y].pd == pd) || (own'[y].Data? && own'[y].pd == pd && a <= own'[y].v < b + 1)
      {
        assert y in own' - {x} && (own' - {x})[y] == own'[y];
      }
      forall y | y in own0 ensures y in own' && own'[y] == own0[y] {
        assert y in own' - {x};
      }
    }
    forall v | a <= v < b ensures Fresh(mem', own0, pd, v) {
      FreshKept(mem0, own0, mem, own, mem', spaces, lo, pd, a, b, v);
    }
  }

  lemma {:induction false} FreshKept(mem0: seq<Page>, own0: map<nat, Role>, mem: seq<Page>, own: map<nat, Role>,
                                     mem': seq<Page>, spaces: set<nat>, lo: nat, pd: nat, a: nat, b: nat, v: nat)
    requires Grown(mem0, own0, mem, own, spaces, pd, a, b) && a <= v < b <= UPAGES && pd in spaces
    requires Owned(mem, own, spaces, lo)
    requires PteKept(mem, mem', spaces, pd, b, b + 1) && SameData(mem, mem', own)
    ensures Fresh(mem', own0, pd, v)
  {
    hide Pte, TablesOk;
    assert SpaceOk(mem, own, pd);
    assert Fresh(mem, own0, pd, v);
  }

  /** A failed growth: user pages `a..b` are absent again, the rest is as before, and only tables have been added. */
  ghost predicate Restored(mem: seq<Page>, own: map<nat, Role>, mem': seq<Page>, own': map<nat, Role>, spaces: set<nat>,
                           pd: nat, a: nat, b: nat) {
    && PteKept(mem, mem', spaces, pd, a, b) && SameData(mem, mem', own) && MoreTables(own, own', pd)
    && forall v :: a <= v < b ==> !Present(Pte(mem', pd, v))
  }

  /** Growing to `b` and then emptying up to `c` restores everything but the tables. */
  lemma {:induction false} GrowEmpty(mem0: seq<Page>, own0: map<nat, Role>, mem1: seq<Page>, own1: map<nat, Role>,
                                     mem2: seq<Page>, own2: map<nat, Role>, spaces: set<nat>, lo: nat, pd: nat, a: nat,
                                     b: nat, c: nat, x: nat)
    requires Owned(mem0, own0, spaces, lo) && Grown(mem0, own0, mem1, own1 - {x}, spaces, pd, a, b) && a <= b <= c
    requires pd in spaces
    requires Emptied(mem1, own1, mem2, own2, spaces, pd, a, c) && x !in own0 && (x in own1 ==> own1[x] == Held)
    requires forall v :: a <= v < c ==> !Present(Pte(mem0, pd, v))
    ensures Restored(mem0, own0, mem2, own2 - {x}, spaces, pd, a, c)
  {
    hide Pte, Present, Owned, Fresh;
    assert PteKept(mem0, mem2, spaces, pd, a, c);
    assert NotInRange(own0, pd, a, c) by { AbsentRoles(mem0, own0, spaces, lo, pd, a, c); }
    forall y | y in own0 ensures y in own2 - {x} && (own2 - {x})[y] == own0[y] {
      assert y in own1 - {x} && (own1 - {x})[y] == own0[y];
    }
    forall y | y in own2 - {x} && y !in own0 ensures (own2 - {x})[y].Table? && (own2 - {x})[y].pd == pd {
      assert y in own1 - {x} && (own1 - {x})[y] == own2[y];
    }
  }

  ghost predicate NotInRange(own: map<nat, Role>, pd: nat, a: nat, b: nat) {
    forall y :: y in own && own[y].Data? && own[y].pd == pd ==> !(a <= own[y].v < b)
  }

  lemma {:induction false} AbsentRoles(mem: seq<Page>, own: map<nat, Role>, spaces: set<nat>, lo: nat, pd: nat, a: nat,
                                       b: nat)
    requires Owned(mem, own, spaces, lo) && forall v :: a <= v < b ==> !Present(Pte(mem, pd, v))
    ensures NotInRange(own, pd, a, b)
  {
    hide Pte, Present;
    forall y | y in own ensures own[y].Data? && own[y].pd == pd ==> !(a <= own[y].v < b) {
      assert RoleOk(mem, spaces, y, own[y]);
    }
  }

  /** Giving up the page that could not be mapped changes nothing that anyone sees. */
  lemma {:induction false} RestoredFree(mem0: seq<Page>, own0: map<nat, Role>, mem: seq<Page>, own: map<nat, Role>,
                                        mem': seq<Page>, spaces: set<nat>, lo: nat, pd: nat, a: nat, b: nat, x: nat)
    requires Restored(mem0, own0, mem, own, spaces, pd, a, b) && x !in own0 && |mem'| == |mem| && pd in spaces
    requires forall q, v: nat :: q in spaces ==> Pte(mem', q, v) == Pte(mem, q, v)
    requires forall y :: 0 <= y < |mem| && y != x ==> mem'[y] == mem[y]
    ensures Restored(mem0, own0, mem', own, spaces, pd, a, b)
  {
    hide Pte, Present;
  }

  /** So every user page looks as it did. */
  lemma {:induction false} RestoredLook(mem0: seq<Page>, own0: map<nat, Role>, mem: seq<Page>, own: map<nat, Role>,
                                        spaces: set<nat>, lo: nat, pd: nat, a: nat, b: nat)
    requires Owned(mem0, own0, spaces, lo) && Restored(mem0, own0, mem, own, spaces, pd, a, b)
    requires forall v :: a <= v < b ==> !Present(Pte(mem0, pd, v))
    ensures LookKept(mem0, mem, spaces, pd, 0, 0)
  {
    hide Pte, Present, Owned;
    KeptLook(mem0, own0, spaces, lo, mem, own0, pd, a, b);
    forall q, v: nat | q in spaces && v < UPAGES ensures Look(mem, q, v) == Look(mem0, q, v) {
    }
  }

  // Dropping an address space

  /** The roles without the first `n` tables of `pd`. */
  function LessTables(own: map<nat, Role>, pd: nat, n: nat): map<nat, Role> {
    map x | x in own && !(own[x].Table? && own[x].pd == pd && own[x].i < n) :: own[x]
  }

  lemma {:induction false} NextTable(mem: seq<Page>, own: map<nat, Role>, spaces: set<nat>, lo: nat, pd: nat, n: nat)
    requires Owned(mem, own, spaces, lo) && pd in spaces && pd < |mem| && n < 1024
    ensures pd in LessTables(own, pd, n)
    ensures Present(mem[pd][n]) ==>
              && Frame(mem[pd][n]) in LessTables(own, pd, n)
              && LessTables(own, pd, n) - {Frame(mem[pd][n])} == LessTables(own, pd, n + 1)
    ensures !Present(mem[pd][n]) ==> LessTables(own, pd, n) == LessTables(own, pd, n + 1)
  {
    hide Pte, DataOk, Present;
    assert SpaceOk(mem, own, pd);
    forall x | x in own && own[x] == Table(pd, n) ensures Present(mem[pd][n]) && x == Frame(mem[pd][n]) {
      assert RoleOk(mem, spaces, x, own[x]);
    }
  }

  /** With its user pages and tables gone, only the directory of `pd` is left. */
  lemma {:induction false} AllGone(mem: seq<Page>, own0: map<nat, Role>, own: map<nat, Role>, spaces: set<nat>, lo: nat,
                                   pd: nat)
    requires Owned(mem, own, spaces, lo) && pd in spaces && own == Minus(own0, pd, 0, UPAGES) && SpaceOk(mem, own, pd)
    requires forall x :: x in own0 && own0[x].Data? ==> own0[x].v < UPAGES
    ensures LessTables(own, pd, 1024) - {pd} == Without(own0, pd) == Without(own, pd)
  {
    hide Pte, DataOk, TablesOk, Present;
    forall x | x in own ensures own[x].Table? ==> own[x].i < 1024 {
      assert RoleOk(mem, spaces, x, own[x]);
    }
    assert forall x :: x in own ==> x in own0 && own[x] == own0[x];
  }

  lemma {:induction false} DataInRange(mem: seq<Page>, own: map<nat, Role>, spaces: set<nat>, lo: nat)
    requires Owned(mem, own, spaces, lo)
    ensures forall x :: x in own && own[x].Data? ==> own[x].v < UPAGES
  {
    hide Pte, Present;
    forall x | x in own && own[x].Data? ensures own[x].v < UPAGES {
      assert RoleOk(mem, spaces, x, own[x]);
    }
  }

  // The kernel part

  /** A row of the kernel's table of mappings, in pages. */
  datatype Kmap = Kmap(virt: nat, phys: nat, n: nat, perm: nat) {
    predicate Ok() { UPAGES <= virt && 0 < n && virt + n <= VPAGES && perm < 4096 }

    predicate Has(v: nat) { virt <= v < virt + n }
  }

  ghost predicate KmapOk(kmap: seq<Kmap>) {
    && (forall k :: 0 <= k < |kmap| ==> kmap[k].Ok())
    && (forall j, k :: 0 <= j < k < |kmap| ==>
        kmap[j].virt + kmap[j].n <= kmap[k].virt || kmap[k].virt + kmap[k].n <= kmap[j].virt)
  }

  /** The entry that a table of kernel mappings gives page `v`. */
  function KernelPte(kmap: seq<Kmap>, v: nat): nat
    decreases |kmap|
  {
    if kmap == [] then 0
    else
      var k := kmap[|kmap| - 1];
      if k.Has(v) then Entry(k.phys + (v - k.virt), WithPresent(k.perm)) else KernelPte(kmap[..|kmap| - 1], v)
  }

  /** A page covered by none of the rows is absent. */
  lemma {:induction false} KernelAbsent(kmap: seq<Kmap>, v: nat)
    requires forall k :: 0 <= k < |kmap| ==> !kmap[k].Has(v)
    ensures KernelPte(kmap, v) == 0
    decreases |kmap|
  {
    if kmap != [] {
      KernelAbsent(kmap[..|kmap| - 1], v);
    }
  }

  /** Every page covered by a row is mapped as that row says. */
  lemma {:induction false} KernelPresent(kmap: seq<Kmap>, k: nat, v: nat)
    requires KmapOk(kmap) && k < |kmap| && kmap[k].Has(v)
    ensures KernelPte(kmap, v) == Entry(kmap[k].phys + (v - kmap[k].virt), WithPresent(kmap[k].perm))
    decreases |kmap|
  {
    var n := |kmap| - 1;
    if k < n {
      assert kmap[..n][k] == kmap[k] && KmapOk(kmap[..n]);
      KernelPresent(kmap[..n], k, v);
    }
  }

  /** The roles are the same, apart from new held pages. */
  ghost predicate MoreHeld(own: map<nat, Role>, own': map<nat, Role>) {
    && (forall x :: x in own ==> x in own' && own'[x] == own[x])
    && (forall x :: x in own' && x !in own ==> own'[x] == Held)
  }

  /** What the other address spaces notice: nothing. */
  ghost predicate Unseen(mem: seq<Page>, own: map<nat, Role>, mem': seq<Page>, spaces: set<nat>) {
    PteKept(mem, mem', spaces, 0, 0, 0) && SameData(mem, mem', own)
  }

  /** A new directory `d` maps what the first `n` rows say. */
  ghost predicate KernelSpace(mem: seq<Page>, own: map<nat, Role>, mem': seq<Page>, own': map<nat, Role>,
                              spaces: set<nat>, d: nat, kmap: seq<Kmap>, n: nat) {
    && n <= |kmap| && d !in own && d !in spaces && Unseen(mem, own, mem', spaces) && Without(own', d) == own
    && (forall v: nat :: v < VPAGES ==> Pte(mem', d, v) == KernelPte(kmap[..n], v))
    && (forall x :: x in own' && x !in own ==> x == d || own'[x].Table?)
  }

  /** Page `v` of `d` is a private copy of page `v` of `pd`. */
  predicate CopyOf(mem: seq<Page>, own: map<nat, Role>, pd: nat, mem': seq<Page>, d: nat, v: nat) {
    var w, w' := Pte(mem, pd, v), Pte(mem', d, v);
    && Present(w) && Present(w') && Flags(w') == Flags(w)
    && Frame(w) < |mem| && Frame(w') < |mem'| && Frame(w') !in own && mem'[Frame(w')] == mem[Frame(w)]
  }

  /** `d` is a copy of the first `n` pages of `pd` on pages of its own, with the kernel's mappings. */
  ghost predicate Copied(mem: seq<Page>, own: map<nat, Role>, mem': seq<Page>, own': map<nat, Role>, spaces: set<nat>,
                         pd: nat, d: nat, kmap: seq<Kmap>, n: nat) {
    && d !in own && d !in spaces && Unseen(mem, own, mem', spaces) && Without(own', d) == own
    && (forall v :: 0 <= v < n ==> CopyOf(mem, own, pd, mem', d, v))
    && (forall v: nat :: n <= v < VPAGES ==> Pte(mem', d, v) == KernelPte(kmap, v))
  }

  /** The frames that mapping `n` pages from `v` on makes part of an address space: user pages belong to it. */
  function Frames(v: nat, pa: nat, n: nat): set<nat> { if v < UPAGES then Range(pa, n) else {} }

  /** Pages from `v` on are mapped to frames from `pa` on. */
  ghost predicate MappedRange(mem: seq<Page>, own: map<nat, Role>, mem': seq<Page>, own': map<nat, Role>,
                              spaces: set<nat>, pd: nat, v: nat, pa: nat, perm: nat, n: nat)
  {
    && PteKept(mem, mem', spaces, pd, v, v + n) && SameData(mem, mem', own)
    && MoreTables(own - Frames(v, pa, n), own' - Frames(v, pa, n), pd)
    && (v < UPAGES ==> forall x :: pa <= x < pa + n ==> x in own' && own'[x] == Data(pd, v + (x - pa)))
    && (forall u :: v <= u < v + n ==> Pte(mem', pd, u) == Entry(pa + (u - v), WithPresent(perm)))
  }

  lemma {:induction false} MappedMore(mem0: seq<Page>, own0: map<nat, Role>, mem: seq<Page>, own: map<nat, Role>,
                                      mem': seq<Page>, own': map<nat, Role>, spaces: set<nat>, pd: nat, v: nat, pa: nat,
                                      perm: nat, n: nat)
    requires MappedRange(mem0, own0, mem, own, spaces, pd, v, pa, perm, n) && pd in spaces
    requires PteKept(mem, mem', spaces, pd, v + n, v + n + 1) && SameData(mem, mem', own)
    requires Pte(mem', pd, v + n) == Entry(pa + n, WithPresent(perm))
    requires v >= UPAGES ==> MoreTables(own, own', pd)
    requires v < UPAGES ==>
              && MoreTables(own - {pa + n}, own' - {pa + n}, pd) && pa + n in own' && own'[pa + n] == Data(pd, v + n)
    ensures MappedRange(mem0, own0, mem', own', spaces, pd, v, pa, perm, n + 1)
  {
    hide Pte, Entry, WithPresent, Frames;
    KeptThen(mem0, mem, mem', spaces, pd, v, v + n, v + n + 1);
    MappedData(mem0, own0, mem, own, mem', spaces, pd, v, pa, perm, n);
    FramesAre(v, pa, n);
    FramesAre(v, pa, n + 1);
    assert Frames(v, pa, n + 1) == if v < UPAGES then Frames(v, pa, n) + {pa + n} else Frames(v, pa, n);
    MappedRoles(own0, own, own', pd, v < UPAGES, pa + n, Frames(v, pa, n), Frames(v, pa, n + 1));
  }

  lemma {:induction false} MappedData(mem0: seq<Page>, own0: map<nat, Role>, mem: seq<Page>, own: map<nat, Role>,
                                      mem': seq<Page>, spaces: set<nat>, pd: nat, v: nat, pa: nat, perm: nat, n: nat)
    requires MappedRange(mem0, own0, mem, own, spaces, pd, v, pa, perm, n) && SameData(mem, mem', own)
    ensures SameData(mem0, mem', own0)
  {
    hide Pte, Entry, WithPresent, PteKept, Frames;
    FramesAre(v, pa, n);
    forall x | x in own0 && x < |mem0| && (own0[x].Data? || own0[x].Held?) ensures mem'[x] == mem0[x] {
      if x !in Frames(v, pa, n) {
        assert x in own0 - Frames(v, pa, n);
      }
      assert x in own && (own[x].Data? || own[x].Held?);
    }
  }

  /** The frames to be mapped as user pages are held. */
  ghost predicate StillHeld(own: map<nat, Role>, v: nat, pa: nat, n: nat) {
    v < UPAGES ==> forall i :: pa <= i < pa + n ==> i in own && own[i] == Held
  }

  lemma {:induction false} FramesAre(v: nat, pa: nat, n: nat)
    ensures forall x: nat :: x in Frames(v, pa, n) <==> v < UPAGES && pa <= x < pa + n
  {
    CardRange(pa, n);
  }

  lemma {:induction false} MappedRoles(own0: map<nat, Role>, own: map<nat, Role>, own': map<nat, Role>, pd: nat,
                                       user: bool, x: nat, f: set<nat>, f': set<nat>)
    requires MoreTables(own0 - f, own - f, pd) && f' == if user then f + {x} else f
    requires if user then MoreTables(own - {x}, own' - {x}, pd) else MoreTables(own, own', pd)
    ensures MoreTables(own0 - f', own' - f', pd)
    ensures forall y :: y in own && y != x ==> y in own' && own'[y] == own[y]
  {
    forall y | y in own0 - f' ensures y in own' - f' && (own' - f')[y] == own0[y] {
      assert y in own0 - f && y in own - f && (own - f)[y] == own0[y];
      assert user ==> y in own - {x};
    }
    forall y | y in own' - f' && y !in own0 - f' ensures (own' - f')[y].Table? && (own' - f')[y].pd == pd {
      if y in own {
        assert y in own - f && y !in own0 - f;
        assert user ==> y in own - {x};
      } else {
        assert user ==> y in own' - {x};
      }
    }
    forall y | y in own && y != x ensures y in own' && own'[y] == own[y] {
      assert user ==> y in own - {x};
    }
  }

  lemma {:induction false} KernelStart(mem: seq<Page>, own: map<nat, Role>, mem': seq<Page>, spaces: set<nat>, d: nat,
                                       kmap: seq<Kmap>)
    requires d !in own && d !in spaces && Unseen(mem, own, mem', spaces) && forall v: nat :: Pte(mem', d, v) == 0
    requires forall x :: x in own ==> !PartOf(x, own[x], d)
    ensures KernelSpace(mem, own, mem', own[d := Dir], spaces, d, kmap, 0)
  {
    hide Pte;
    assert kmap[..0] == [];
  }

  lemma {:induction false} KernelStep(mem0: seq<Page>, own0: map<nat, Role>, mem: seq<Page>, own: map<nat, Role>,
                                      mem': seq<Page>, own': map<nat, Role>, spaces: set<nat>, d: nat, kmap: seq<Kmap>,
                                      n: nat)
    requires KernelSpace(mem0, own0, mem, own, spaces, d, kmap, n) && n < |kmap| && KmapOk(kmap) && d in own
    requires MappedRange(mem, own, mem', own', spaces + {d}, d, kmap[n].virt, kmap[n].phys, kmap[n].perm, kmap[n].n)
    ensures KernelSpace(mem0, own0, mem', own', spaces, d, kmap, n + 1)
  {
    hide Pte, Entry, WithPresent;
    assert kmap[..n + 1][..n] == kmap[..n] && kmap[..n + 1][n] == kmap[n];
    NoFrames(own, kmap[n].virt, kmap[n].phys, kmap[n].n);
    NoFrames(own', kmap[n].virt, kmap[n].phys, kmap[n].n);
    forall v: nat | v < VPAGES ensures Pte(mem', d, v) == KernelPte(kmap[..n + 1], v) {
    }
    TablesOnly(own0, own, own', d);
  }

  lemma NoFrames(own: map<nat, Role>, v: nat, pa: nat, n: nat)
    requires v >= UPAGES
    ensures own - Frames(v, pa, n) == own
  {
  }

  lemma {:induction false} TablesOnly(own0: map<nat, Role>, own: map<nat, Role>, own': map<nat, Role>, d: nat)
    requires Without(own, d) == own0 && MoreTables(own, own', d)
    ensures Without(own', d) == own0
  {
  }

  /** Before row `n` its pages are absent. */
  lemma {:induction false} KernelFree(mem0: seq<Page>, own0: map<nat, Role>, mem: seq<Page>, own: map<nat, Role>,
                                      spaces: set<nat>, d: nat, kmap: seq<Kmap>, n: nat, v: nat)
    requires KernelSpace(mem0, own0, mem, own, spaces, d, kmap, n) && n < |kmap| && KmapOk(kmap) && kmap[n].Has(v)
    ensures !Present(Pte(mem, d, v))
  {
    hide Pte;
    KernelAbsent(kmap[..n], v);
  }

  /** The start of setupkvm: a free page cleared and made a directory. */
  lemma {:induction false} FreshDirectory(mem: seq<Page>, own: map<nat, Role>, spaces: set<nat>, lo: nat, d: nat,
                                          kmap: seq<Kmap>)
    requires Owned(mem, own, spaces, lo) && d !in own && lo <= d < |mem|
    ensures var mem', own' := mem[d := Zero()], own[d := Dir];
            Owned(mem', own', spaces + {d}, lo) && KernelSpace(mem, own, mem', own', spaces, d, kmap, 0)
  {
    hide Pte, SpaceOk;
    var mem', own1 := mem[d := Zero()], own[d := Held];
    Grant(mem, own, spaces, lo, d);
    SameOwned(mem, own1, spaces, lo, mem');
    NewSpace(mem', own1, spaces, lo, d);
    assert own1[d := Dir] == own[d := Dir];
    forall x | x in own ensures !PartOf(x, own[x], d) {
      assert RoleOk(mem, spaces, x, own[x]);
    }
    KernelStart(mem, own, mem', spaces, d, kmap);
  }

  /** Nothing of a half-built address space is seen by the others, and its pages are lost. */
  lemma {:induction false} Abandoned(mem0: seq<Page>, own0: map<nat, Role>, mem: seq<Page>, own: map<nat, Role>,
                                     spaces: set<nat>, d: nat)
    requires d !in own0 && d !in spaces && Unseen(mem0, own0, mem, spaces) && Without(own, d) == own0
    ensures MoreHeld(own0, Leaked(own, d))
  {
    forall x | x in own0 ensures x in Leaked(own, d) && Leaked(own, d)[x] == own0[x] {
      assert x in Without(own, d);
    }
    forall x | x in Leaked(own, d) && x !in own0 ensures Leaked(own, d)[x] == Held {
      assert x !in Without(own, d);
    }
  }

  /** mappages on the new directory is unseen by the others. */
  lemma {:induction false} StillUnseen(mem0: seq<Page>, own0: map<nat, Role>, mem: seq<Page>, own: map<nat, Role>,
                                       mem': seq<Page>, own': map<nat, Role>, spaces: set<nat>, d: nat, v: nat, n: nat)
    requires Unseen(mem0, own0, mem, spaces) && d !in spaces && d !in own0 && Without(own, d) == own0
    requires PteKept(mem, mem', spaces + {d}, d, v, n) && SameData(mem, mem', own) && MoreTables(own, own', d)
    ensures Unseen(mem0, own0, mem', spaces) && Without(own', d) == own0
  {
    hide Pte;
    TablesOnly(own0, own, own', d);
    forall x | x in own0 && x < |mem| && (own0[x].Data? || own0[x].Held?) ensures mem'[x] == mem0[x] {
      assert x in Without(own, d) && own[x] == own0[x];
    }
  }

  // Copying

  lemma {:induction false} CopyStart(mem0: seq<Page>, own0: map<nat, Role>, mem: seq<Page>, own: map<nat, Role>,
                                     spaces: set<nat>, pd: nat, d: nat, kmap: seq<Kmap>)
    requires KernelSpace(mem0, own0, mem, own, spaces, d, kmap, |kmap|)
    ensures Copied(mem0, own0, mem, own, spaces, pd, d, kmap, 0)
  {
    hide Pte;
    assert kmap[..|kmap|] == kmap;
  }

  /** A page not yet copied is absent, and the parent's page is as it was. */
  lemma {:induction false} CopyNext(mem0: seq<Page>, own0: map<nat, Role>, mem: seq<Page>, own: map<nat, Role>,
                                    spaces: set<nat>, lo: nat, pd: nat, d: nat, kmap: seq<Kmap>, v: nat)
    requires Copied(mem0, own0, mem, own, spaces, pd, d, kmap, v) && KmapOk(kmap) && v < UPAGES && pd in spaces
    requires Owned(mem0, own0, spaces, lo) && Present(Pte(mem0, pd, v))
    ensures !Present(Pte(mem, d, v)) && Pte(mem, pd, v) == Pte(mem0, pd, v)
    ensures Frame(Pte(mem0, pd, v)) < |mem| == |mem0| && mem[Frame(Pte(mem0, pd, v))] == mem0[Frame(Pte(mem0, pd, v))]
    ensures Frame(Pte(mem0, pd, v)) in own0
  {
    hide Pte, TablesOk;
    KernelAbsent(kmap, v);
    assert SpaceOk(mem0, own0, pd);
  }

  /** Page `x` now holds the parent's page and has been mapped as page `v`. */
  lemma {:induction false} CopyOne(mem0: seq<Page>, own0: map<nat, Role>, mem: seq<Page>, own: map<nat, Role>,
                                   mem': seq<Page>, own': map<nat, Role>, spaces: set<nat>, lo: nat, pd: nat, d: nat,
                                   kmap: seq<Kmap>, v: nat, x: nat)
    requires Copied(mem0, own0, mem, own, spaces, pd, d, kmap, v) && v < UPAGES && pd in spaces
    requires Owned(mem, own, spaces + {d}, lo) && x !in own && x < |mem'|
    requires Frame(Pte(mem0, pd, v)) < |mem0| && Present(Pte(mem0, pd, v)) && mem'[x] == mem0[Frame(Pte(mem0, pd, v))]
    requires PteKept(mem, mem', spaces + {d}, d, v, v + 1) && Pte(mem', d, v) == Entry(x, Flags(Pte(mem0, pd, v)))
    requires SameData(mem, mem', own)
    requires MoreTables(own, own' - {x}, d) && x in own' && own'[x] == Data(d, v)
    ensures Copied(mem0, own0, mem', own', spaces, pd, d, kmap, v + 1)
  {
    hide Pte, Entry, Frame, Flags, Present, Owned, KernelPte;
    CopyRoles(own0, own, own', d, v, x);
    FlagsOk(Pte(mem0, pd, v), x);
    forall u | 0 <= u < v ensures CopyOf(mem0, own0, pd, mem', d, u) {
      CopyKept(mem0, own0, mem, own, mem', spaces, lo, pd, d, kmap, v, u);
    }
    assert Unseen(mem0, own0, mem', spaces) by {
      assert forall y :: y in own0 ==> y in Without(own, d) && own[y] == own0[y];
    }
  }

  lemma FlagsOk(w: nat, x: nat)
    requires Present(w)
    ensures Flags(w) < 4096 && Flags(Entry(x, Flags(w))) == Flags(w) && Present(Entry(x, Flags(w)))
    ensures Frame(Entry(x, Flags(w))) == x
    ensures WithPresent(Flags(w)) == Flags(w)
  {
    hide Entry;
    assert Present(w % 4096);
    EntryParts(x, Flags(w));
  }

  lemma {:induction false} CopyRoles(own0: map<nat, Role>, own: map<nat, Role>, own': map<nat, Role>, d: nat, v: nat,
                                     x: nat)
    requires Without(own, d) == own0 && x !in own && MoreTables(own, own' - {x}, d) && x in own'
    requires own'[x] == Data(d, v)
    ensures Without(own', d) == own0 && x !in own0
  {
    forall y | y in Without(own', d) ensures y in own0 && own0[y] == own'[y] {
      assert y in own' - {x};
    }
    forall y | y in own0 ensures y in Without(own', d) && own'[y] == own0[y] {
      assert y in Without(own, d) && y in own' - {x};
    }
  }

  lemma {:induction false} CopyKept(mem0: seq<Page>, own0: map<nat, Role>, mem: seq<Page>, own: map<nat, Role>,
                                    mem': seq<Page>, spaces: set<nat>, lo: nat, pd: nat, d: nat, kmap: seq<Kmap>,
                                    v: nat, u: nat)
    requires Copied(mem0, own0, mem, own, spaces, pd, d, kmap, v) && u < v <= UPAGES
    requires Owned(mem, own, spaces + {d}, lo)
    requires PteKept(mem, mem', spaces + {d}, d, v, v + 1) && SameData(mem, mem', own)
    ensures CopyOf(mem0, own0, pd, mem', d, u)
  {
    hide Pte, TablesOk;
    assert SpaceOk(mem, own, d) && CopyOf(mem0, own0, pd, mem, d, u);
  }

  /** Dropping the half-made copy leaves the others as they were. */
  lemma {:induction false} CopyDropped(mem0: seq<Page>, own0: map<nat, Role>, mem: seq<Page>, own: map<nat, Role>,
                                       mem': seq<Page>, spaces: set<nat>, pd: nat, d: nat, kmap: seq<Kmap>, v: nat,
                                       x: nat)
    requires Copied(mem0, own0, mem, own - {x}, spaces, pd, d, kmap, v) && x !in own0 && (x in own ==> own[x] == Held)
    requires PteKept(mem, mem', spaces, d, 0, 0) && SameData(mem, mem', Without(own, d))
    ensures Unseen(mem0, own0, mem', spaces) && MoreHeld(own0, Without(own, d))
  {
    hide Pte, KernelPte;
    forall y | y in own0 ensures y in Without(own, d) && Without(own, d)[y] == own0[y] {
      assert y in Without(own - {x}, d);
    }
    forall y | y in Without(own, d) && y !in own0 ensures Without(own, d)[y] == Held {
      assert y !in Without(own - {x}, d);
    }
  }

  /** memmove into a page that nobody uses yet. */
  lemma {:induction false} CopiedMemmove(mem0: seq<Page>, own0: map<nat, Role>, mem: seq<Page>, own: map<nat, Role>,
                                         mem': seq<Page>, spaces: set<nat>, lo: nat, pd: nat, d: nat, kmap: seq<Kmap>,
                                         v: nat, x: nat)
    requires Copied(mem0, own0, mem, own, spaces, pd, d, kmap, v) && Owned(mem, own, spaces + {d}, lo) && v <= UPAGES
    requires x !in own && x < |mem| == |mem'| && (forall y :: 0 <= y < |mem| && y != x ==> mem'[y] == mem[y])
    requires forall q, u: nat :: q in spaces + {d} ==> Pte(mem', q, u) == Pte(mem, q, u)
    ensures Copied(mem0, own0, mem', own, spaces, pd, d, kmap, v) && x !in own0
  {
    hide Pte, KernelPte, TablesOk;
    assert SpaceOk(mem, own, d);
    forall u | 0 <= u < v ensures CopyOf(mem0, own0, pd, mem', d, u) {
      assert CopyOf(mem0, own0, pd, mem, d, u);
    }
    assert forall y :: y in own0 ==> y in Without(own, d);
  }

  // The promises in bytes

  /** Page `v` begins at or past byte `a` and before byte `b`. */
  predicate Begins(v: nat, a: nat, b: nat) { a <= 4096 * v < b }

  /**
   The page of every byte from `oldsz` rounded up to `newsz` is new and holds
   zeroes; every page that begins elsewhere is translated as before.
   */
  ghost predicate GrownBytes(mem: seq<Page>, own: map<nat, Role>, mem': seq<Page>, spaces: set<nat>, pd: nat,
                             oldsz: nat, newsz: nat)
  {
    && (forall x: nat :: 4096 * PageUp(oldsz) <= x < newsz ==> Fresh(mem', own, pd, x / 4096))
    && (forall q, v: nat :: q in spaces && !(q == pd && Begins(v, oldsz, newsz)) ==> Pte(mem', q, v) == Pte(mem, q, v))
  }

  lemma {:induction false} GrownIsBytes(mem: seq<Page>, own: map<nat, Role>, mem': seq<Page>, own': map<nat, Role>,
                                        spaces: set<nat>, pd: nat, oldsz: nat, newsz: nat)
    requires Grown(mem, own, mem', own', spaces, pd, PageUp(oldsz), PageUp(newsz))
    ensures GrownBytes(mem, own, mem', spaces, pd, oldsz, newsz)
  {
    hide Pte, Fresh;
    forall x: nat | 4096 * PageUp(oldsz) <= x < newsz ensures Fresh(mem', own, pd, x / 4096) {
      assert PageUp(oldsz) <= x / 4096 < PageUp(newsz);
    }
  }

  /**
   Every user page that begins in the range is absent; every other page is
   translated as before, in particular those with a byte below `newsz`.
   */
  ghost predicate EmptiedBytes(mem: seq<Page>, mem': seq<Page>, spaces: set<nat>, pd: nat, oldsz: nat, newsz: nat) {
    && (forall v: nat :: Begins(v, newsz, oldsz) ==> !Present(Pte(mem', pd, v)))
    && (forall q, v: nat :: q in spaces && !(q == pd && Begins(v, newsz, oldsz)) ==> Pte(mem', q, v) == Pte(mem, q, v))
    && (forall x: nat :: pd in spaces && x < newsz ==> Pte(mem', pd, x / 4096) == Pte(mem, pd, x / 4096))
  }

  lemma {:induction false} EmptiedIsBytes(mem: seq<Page>, own: map<nat, Role>, mem': seq<Page>, own': map<nat, Role>,
                                          spaces: set<nat>, pd: nat, oldsz: nat, newsz: nat)
    requires Emptied(mem, own, mem', own', spaces, pd, PageUp(newsz), PageUp(oldsz))
    ensures EmptiedBytes(mem, mem', spaces, pd, oldsz, newsz)
  {
    hide Pte, Present;
    forall x: nat | pd in spaces && x < newsz ensures Pte(mem', pd, x / 4096) == Pte(mem, pd, x / 4096) {
      assert x / 4096 < PageUp(newsz);
    }
  }

  /** The page of every byte below `sz` is a private copy; user pages that begin at or past `sz` are absent. */
  ghost predicate CopiedBytes(mem: seq<Page>, own: map<nat, Role>, mem': seq<Page>, pd: nat, d: nat, sz: nat) {
    && (forall x: nat :: x < sz ==> CopyOf(mem, own, pd, mem', d, x / 4096))
    && (forall v: nat :: v < UPAGES && sz <= 4096 * v ==> !Present(Pte(mem', d, v)))
  }

  lemma {:induction false} CopiedIsBytes(mem: seq<Page>, own: map<nat, Role>, mem': seq<Page>, own': map<nat, Role>,
                                         spaces: set<nat>, pd: nat, d: nat, kmap: seq<Kmap>, sz: nat)
    requires Copied(mem, own, mem', own', spaces, pd, d, kmap, PageUp(sz)) && KmapOk(kmap)
    ensures CopiedBytes(mem, own, mem', pd, d, sz)
  {
    hide Pte, CopyOf;
    forall x: nat | x < sz ensures CopyOf(mem, own, pd, mem', d, x / 4096) {
      assert x / 4096 < PageUp(sz);
    }
    forall v: nat | v < UPAGES && sz <= 4096 * v ensures !Present(Pte(mem', d, v)) {
      KernelAbsent(kmap, v);
    }
  }

  // What the promises mean for the user

  /** allocuvm adds pages of zeroes, writable by the user, and changes no other user page of anyone. */
  lemma {:induction false} GrownLook(mem: seq<Page>, own: map<nat, Role>, mem': seq<Page>, own': map<nat, Role>,
                                     spaces: set<nat>, lo: nat, pd: nat, a: nat, b: nat)
    requires Owned(mem, own, spaces, lo) && Grown(mem, own, mem', own', spaces, pd, a, b)
    ensures LookKept(mem, mem', spaces, pd, a, b)
    ensures forall v :: a <= v < b ==>
              && Look(mem', pd, v).Mapped? && Look(mem', pd, v).flags == 7 && Look(mem', pd, v).page == Zero()
  {
    hide Pte, Owned;
    KeptLook(mem, own, spaces, lo, mem', own, pd, a, b);
    forall v | a <= v < b
      ensures Look(mem', pd, v).Mapped? && Look(mem', pd, v).flags == 7 && Look(mem', pd, v).page == Zero()
    {
      assert Fresh(mem', own, pd, v);
    }
  }

  /** deallocuvm makes its pages absent and changes no other user page of anyone. */
  lemma {:induction false} EmptiedLook(mem: seq<Page>, own: map<nat, Role>, mem': seq<Page>, own': map<nat, Role>,
                                       spaces: set<nat>, lo: nat, pd: nat, a: nat, b: nat)
    requires Owned(mem, own, spaces, lo) && Emptied(mem, own, mem', own', spaces, pd, a, b)
    ensures LookKept(mem, mem', spaces, pd, a, b)
    ensures forall v :: a <= v < b ==> Look(mem', pd, v) == Absent
  {
    hide Pte, Owned;
    KeptLook(mem, own, spaces, lo, mem', own', pd, a, b);
  }

  /** copyuvm shows the child what the parent sees, on other frames, and every address space sees what it saw. */
  lemma {:induction false} CopiedLook(mem: seq<Page>, own: map<nat, Role>, mem': seq<Page>, own': map<nat, Role>,
                                      spaces: set<nat>, lo: nat, pd: nat, d: nat, kmap: seq<Kmap>, n: nat)
    requires Owned(mem, own, spaces, lo) && Copied(mem, own, mem', own', spaces, pd, d, kmap, n) && KmapOk(kmap)
    requires pd in spaces && n <= UPAGES
    ensures LookKept(mem, mem', spaces, 0, 0, 0)
    ensures forall v :: 0 <= v < n ==>
              && Look(mem', d, v).Mapped? && Look(mem, pd, v).Mapped?
              && Look(mem', d, v).flags == Look(mem, pd, v).flags && Look(mem', d, v).page == Look(mem, pd, v).page
              && Look(mem', d, v).frame !in own && Look(mem, pd, v).frame in own
    ensures forall v :: n <= v < UPAGES ==> Look(mem', d, v) == Absent
  {
    hide Pte, Owned, KernelPte;
    KeptLook(mem, own, spaces, lo, mem', own, 0, 0, 0);
    forall v | 0 <= v < n
      ensures Look(mem', d, v).Mapped? && Look(mem, pd, v).Mapped?
      ensures Look(mem', d, v).flags == Look(mem, pd, v).flags && Look(mem', d, v).page == Look(mem, pd, v).page
      ensures Look(mem', d, v).frame !in own && Look(mem, pd, v).frame in own
    {
      assert CopyOf(mem, own, pd, mem', d, v);
      DataFrame(mem, own, spaces, lo, pd, v);
    }
    forall v | n <= v < UPAGES ensures Look(mem', d, v) == Absent {
      KernelAbsent(kmap, v);
    }
  }

  lemma DataFrame(mem: seq<Page>, own: map<nat, Role>, spaces: set<nat>, lo: nat, pd: nat, v: nat)
    requires Owned(mem, own, spaces, lo) && pd in spaces && v < UPAGES && Present(Pte(mem, pd, v))
    ensures Frame(Pte(mem, pd, v)) in own && own[Frame(Pte(mem, pd, v))] == Data(pd, v)
  {
    assert SpaceOk(mem, own, pd);
  }

  /** The kernel's own table of mappings, with its data starting at page `data`. */
  function SourceKmap(data: nat): seq<Kmap>
    requires 0x100 < data < 0xE000
  {
    [Kmap(0x80000, 0, 0x100, 2), Kmap(0x80100, 0x100, data - 0x100, 0), Kmap(0x80000 + data, data, 0xE000 - data, 2),
     Kmap(0xFE000, 0xFE000, 0x2000, 2)]
  }

  lemma SourceKmapOk(data: nat)
    requires 0x100 < data < 0xE000
    ensures KmapOk(SourceKmap(data))
  {
  }

  /**
   Where the kernel finds physical memory, in bytes: at its address plus
   0x80000000, writable except for the kernel's text from 0x80100000 to its
   data; devices at 0xFE000000 and above at their own address; nothing else.
   */
  lemma {:induction false} KernelBytes(data: nat, x: nat)
    requires 0x100 < data < 0xE000 && x < 0x1_0000_0000
    ensures var w := KernelPte(SourceKmap(data), x / 4096);
            && (0x8000_0000 <= x < 0x8E00_0000 ==>
                  && w / 4096 * 4096 + x % 4096 == x - 0x8000_0000
                  && w % 4096 == if 0x8010_0000 <= x < 0x8000_0000 + 4096 * data then 1 else 3)
            && (0xFE00_0000 <= x ==> w / 4096 * 4096 + x % 4096 == x && w % 4096 == 3)
            && (x < 0x8000_0000 || 0x8E00_0000 <= x < 0xFE00_0000 ==> w == 0)
  {
    var v := x / 4096;
    KernelPages(data, v);
    assert x == 4096 * v + x % 4096;
  }

  lemma {:induction false} KernelPages(data: nat, v: nat)
    requires 0x100 < data < 0xE000 && v < VPAGES
    ensures KernelPte(SourceKmap(data), v) ==
            if 0x80000 <= v < 0x80100 then Entry(v - 0x80000, 3)
            else if 0x80100 <= v < 0x80000 + data then Entry(v - 0x80000, 1)
            else if 0x80000 + data <= v < 0x8E000 then Entry(v - 0x80000, 3)
            else if 0xFE000 <= v then Entry(v, 3) else 0
  {
    var k4 := SourceKmap(data);
    var k3, k2, k1 := k4[..3], k4[..2], k4[..1];
    assert k4[..|k4| - 1] == k3 && k3[..|k3| - 1] == k2 && k2[..|k2| - 1] == k1 && k1[..|k1| - 1] == [];
    assert KernelPte([], v) == 0;
    assert KernelPte(k1, v) == if 0x80000 <= v < 0x80100 then Entry(v - 0x80000, 3) else 0;
    assert KernelPte(k2, v) ==
           if 0x80100 <= v < 0x80000 + data then Entry(v - 0x80000, 1) else KernelPte(k1, v);
    assert KernelPte(k3, v) ==
           if 0x80000 + data <= v < 0x8E000 then Entry(v - 0x80000, 3) else KernelPte(k2, v);
  }
}
