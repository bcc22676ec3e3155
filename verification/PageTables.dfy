/**
 Two-level page tables over physical memory, as vm.c builds them (32-bit paging,
 section 4.3 of the Intel SDM volume 3A): page numbers and words of pages stand
 for addresses and bytes. Every page in use has one role, recorded in `own`.
 */
module PageTables {
  const UPAGES: nat := 0x80000
  const VPAGES: nat := 0x100000

  type Page = p: seq<nat> | |p| == 1024 witness ZEROS
  const ZEROS: seq<nat> := seq(1024, _ => 0)

  /** memset(p, 0, PGSIZE). */
  function Zero(): (p: Page)
    ensures forall k :: 0 <= k < 1024 ==> p[k] == 0
  {
    seq(1024, _ => 0)
  }

  // Directory and table entries: frame number and twelve flag bits, of which the lowest says present

  function Entry(frame: nat, flags: nat): nat { frame * 4096 + flags }

  predicate Present(w: nat) { w % 2 == 1 }

  function Frame(w: nat): nat { w / 4096 }

  function Flags(w: nat): nat { w % 4096 }

  /** `perm | PTE_P`. */
  function WithPresent(perm: nat): nat { if Present(perm) then perm else perm + 1 }

  lemma EntryParts(frame: nat, flags: nat)
    requires flags < 4096
    ensures Frame(Entry(frame, flags)) == frame && Flags(Entry(frame, flags)) == flags
    ensures Present(Entry(frame, flags)) <==> flags % 2 == 1
    ensures Entry(frame, flags) % 0x1000 == flags && Entry(frame, flags) / 0x1000 == frame
  {
  }

  lemma WithPresentOk(perm: nat)
    requires perm < 4096
    ensures WithPresent(perm) < 4096 && Present(WithPresent(perm)) && (Present(perm) ==> WithPresent(perm) == perm)
  {
  }

  /** The page-table entry for virtual page `v`, or 0 if there is no table for it. */
  function Pte(mem: seq<Page>, pd: nat, v: nat): nat {
    if pd < |mem| && v < VPAGES && Present(mem[pd][v / 1024]) && Frame(mem[pd][v / 1024]) < |mem|
    then mem[Frame(mem[pd][v / 1024])][v % 1024]
    else 0
  }

  /** Which entry translates a virtual address: its top ten bits choose the table, the next ten the entry. */
  lemma Translates(mem: seq<Page>, pd: nat, va: nat)
    requires pd < |mem| && va < 0x1_0000_0000
    ensures var pde := mem[pd][va / 0x40_0000];
            Pte(mem, pd, va / 0x1000) ==
            if pde % 2 == 1 && pde / 0x1000 < |mem| then mem[pde / 0x1000][va / 0x1000 % 0x400] else 0
  {
    assert va / 0x1000 / 1024 == va / 0x40_0000;
  }

  /** What a page is used for; a held page is allocated and not yet part of an address space. */
  datatype Role = Dir | Table(pd: nat, i: nat) | Data(pd: nat, v: nat) | Held

  ghost predicate TablesOk(mem: seq<Page>, own: map<nat, Role>, pd: nat)
    requires pd < |mem|
  {
    forall i :: 0 <= i < 1024 && Present(mem[pd][i]) ==>
        && Frame(mem[pd][i]) in own && own[Frame(mem[pd][i])] == Table(pd, i)
  }

  ghost predicate DataOk(mem: seq<Page>, own: map<nat, Role>, pd: nat) {
    forall v :: 0 <= v < UPAGES && Present(Pte(mem, pd, v)) ==>
      Frame(Pte(mem, pd, v)) in own && own[Frame(Pte(mem, pd, v))] == Data(pd, v)
  }

  ghost predicate SpaceOk(mem: seq<Page>, own: map<nat, Role>, pd: nat) {
    pd < |mem| && pd in own && own[pd] == Dir && TablesOk(mem, own, pd) && DataOk(mem, own, pd)
  }

  ghost predicate RoleOk(mem: seq<Page>, spaces: set<nat>, x: nat, r: Role) {
    match r
    case Dir => x in spaces
    case Table(pd, i) => pd in spaces && pd < |mem| && i < 1024 && Present(mem[pd][i]) && Frame(mem[pd][i]) == x
    case Data(pd, v) => pd in spaces && v < UPAGES && Present(Pte(mem, pd, v)) && Frame(Pte(mem, pd, v)) == x
    case Held => true
  }

  /** Every table and user page of every address space belongs to it alone, and every role is real. */
  ghost predicate Owned(mem: seq<Page>, own: map<nat, Role>, spaces: set<nat>, lo: nat) {
    && (forall x :: x in own ==> lo <= x < |mem|)
    && (forall pd :: pd in spaces ==> SpaceOk(mem, own, pd))
    && (forall x :: x in own ==> RoleOk(mem, spaces, x, own[x]))
  }

  // Steps

  /** Pages outside directories and tables do not affect address translation. */
  lemma {:induction false} SameEntries(mem: seq<Page>, own: map<nat, Role>, mem': seq<Page>, pd: nat, v: nat)
    requires SpaceOk(mem, own, pd) && |mem'| == |mem|
    requires forall x :: x in own && x < |mem| && (own[x].Dir? || own[x].Table?) ==> mem'[x] == mem[x]
    ensures Pte(mem', pd, v) == Pte(mem, pd, v) && mem'[pd] == mem[pd]
  {
  }

  /** Ownership depends on the directories and tables only. */
  lemma {:induction false} SameOwned(mem: seq<Page>, own: map<nat, Role>, spaces: set<nat>, lo: nat, mem': seq<Page>)
    requires Owned(mem, own, spaces, lo) && |mem'| == |mem|
    requires forall x :: x in own && x < |mem| && (own[x].Dir? || own[x].Table?) ==> mem'[x] == mem[x]
    ensures Owned(mem', own, spaces, lo)
    ensures forall pd, v :: pd in spaces ==> Pte(mem', pd, v) == Pte(mem, pd, v)
  {
    hide TablesOk;
    forall pd, v: nat | pd in spaces ensures Pte(mem', pd, v) == Pte(mem, pd, v) {
      SameEntries(mem, own, mem', pd, v);
    }
    forall pd | pd in spaces ensures SpaceOk(mem', own, pd) {
      assert TablesOk(mem', own, pd) by { SameTables(mem, own, mem', pd); }
    }
    forall x | x in own ensures RoleOk(mem', spaces, x, own[x]) {
    }
  }

  lemma {:induction false} SameTables(mem: seq<Page>, own: map<nat, Role>, mem': seq<Page>, pd: nat)
    requires pd < |mem| == |mem'| && mem'[pd] == mem[pd] && TablesOk(mem, own, pd)
    ensures TablesOk(mem', own, pd)
  {
  }

  /** A free page may become held. */
  lemma {:induction false} Grant(mem: seq<Page>, own: map<nat, Role>, spaces: set<nat>, lo: nat, x: nat)
    requires Owned(mem, own, spaces, lo) && x !in own && lo <= x < |mem|
    ensures Owned(mem, own[x := Held], spaces, lo)
  {
    hide Pte;
    var own' := own[x := Held];
    forall pd | pd in spaces ensures SpaceOk(mem, own', pd) {
      assert SpaceOk(mem, own, pd);
    }
    forall y | y in own' ensures RoleOk(mem, spaces, y, own'[y]) {
      assert y != x ==> RoleOk(mem, spaces, y, own[y]);
    }
  }

  /** A held page may be given up. */
  lemma {:induction false} Release(mem: seq<Page>, own: map<nat, Role>, spaces: set<nat>, lo: nat, x: nat)
    requires Owned(mem, own, spaces, lo) && x in own && own[x] == Held
    ensures Owned(mem, own - {x}, spaces, lo)
  {
    hide Pte;
    var own' := own - {x};
    forall pd | pd in spaces ensures SpaceOk(mem, own', pd) {
      assert SpaceOk(mem, own, pd);
    }
    forall y | y in own' ensures RoleOk(mem, spaces, y, own'[y]) {
      assert RoleOk(mem, spaces, y, own[y]);
    }
  }

  /** A held page of zeroes becomes a directory without entries. */
  lemma {:induction false} NewSpace(mem: seq<Page>, own: map<nat, Role>, spaces: set<nat>, lo: nat, x: nat)
    requires Owned(mem, own, spaces, lo) && x in own && own[x] == Held && mem[x] == Zero()
    ensures Owned(mem, own[x := Dir], spaces + {x}, lo) && x !in spaces
    ensures forall v :: Pte(mem, x, v) == 0
  {
    var own', spaces' := own[x := Dir], spaces + {x};
    forall v: nat ensures Pte(mem, x, v) == 0 {
    }
    assert x !in spaces by {
      assert x in spaces ==> SpaceOk(mem, own, x);
    }
    forall pd | pd in spaces' ensures SpaceOk(mem, own', pd) {
      assert pd != x ==> SpaceOk(mem, own, pd);
    }
    forall y | y in own' ensures RoleOk(mem, spaces', y, own'[y]) {
      assert y != x ==> RoleOk(mem, spaces, y, own[y]);
    }
  }

  /** Memory after directory `pd` got page `x` as the table of its entry `i`: `PTE_P | PTE_W | PTE_U`. */
  function AddTable(mem: seq<Page>, pd: nat, i: nat, x: nat): seq<Page>
    requires pd < |mem| && i < 1024
  {
    mem[pd := mem[pd][i := Entry(x, 7)]]
  }

  lemma {:induction false} AddTablePte(mem: seq<Page>, own: map<nat, Role>, spaces: set<nat>, lo: nat, pd: nat, i: nat,
                                       x: nat, q: nat, v: nat)
    requires Owned(mem, own, spaces, lo) && pd in spaces && q in spaces && i < 1024 && pd < |mem|
    requires x in own && own[x] == Held && mem[x] == Zero() && !Present(mem[pd][i])
    ensures Pte(AddTable(mem, pd, i, x), q, v) == Pte(mem, q, v)
  {
    EntryParts(x, 7);
    assert SpaceOk(mem, own, q) && SpaceOk(mem, own, pd);
    assert x != pd;
    if v < VPAGES && Present(mem[q][v / 1024]) {
      assert own[Frame(mem[q][v / 1024])] == Table(q, v / 1024);
    }
  }

  /** Nothing is mapped or unmapped by a new, empty table. */
  lemma {:induction false} AddTableOwned(mem: seq<Page>, own: map<nat, Role>, spaces: set<nat>, lo: nat, pd: nat,
                                         i: nat, x: nat)
    requires Owned(mem, own, spaces, lo) && pd in spaces && i < 1024 && pd < |mem|
    requires x in own && own[x] == Held && mem[x] == Zero() && !Present(mem[pd][i])
    ensures Owned(AddTable(mem, pd, i, x), own[x := Table(pd, i)], spaces, lo)
    ensures forall q, v :: q in spaces ==> Pte(AddTable(mem, pd, i, x), q, v) == Pte(mem, q, v)
  {
    var mem', own' := AddTable(mem, pd, i, x), own[x := Table(pd, i)];
    forall q, v: nat | q in spaces ensures Pte(mem', q, v) == Pte(mem, q, v) {
      AddTablePte(mem, own, spaces, lo, pd, i, x, q, v);
    }
    EntryParts(x, 7);
    forall q | q in spaces ensures SpaceOk(mem', own', q) {
      assert SpaceOk(mem, own, q);
    }
    forall y | y in own' ensures RoleOk(mem', spaces, y, own'[y]) {
      assert y != x ==> RoleOk(mem, spaces, y, own[y]);
    }
  }

  /** Memory after `w` was stored as the entry of page `v` in table `t`. */
  function PutPte(mem: seq<Page>, t: nat, v: nat, w: nat): seq<Page>
    requires t < |mem|
  {
    mem[t := mem[t][v % 1024 := w]]
  }

  /** `t` is the table for page `v` of directory `pd`. */
  predicate IsTable(mem: seq<Page>, pd: nat, v: nat, t: nat) {
    pd < |mem| && v < VPAGES && Present(mem[pd][v / 1024]) && Frame(mem[pd][v / 1024]) == t && t < |mem|
  }

  /** Storing an entry changes the translation of that one page of that one address space. */
  lemma {:induction false} PutPteAt(mem: seq<Page>, own: map<nat, Role>, spaces: set<nat>, lo: nat, pd: nat, v: nat,
                                    t: nat, w: nat, q: nat, u: nat)
    requires Owned(mem, own, spaces, lo) && pd in spaces && q in spaces && IsTable(mem, pd, v, t)
    ensures Pte(PutPte(mem, t, v, w), q, u) == if q == pd && u == v then w else Pte(mem, q, u)
    ensures PutPte(mem, t, v, w)[q] == mem[q]
  {
    hide DataOk;
    assert SpaceOk(mem, own, q) && SpaceOk(mem, own, pd);
    assert own[t] == Table(pd, v / 1024) && own[q] == Dir;
    if u < VPAGES && Present(mem[q][u / 1024]) {
      assert own[Frame(mem[q][u / 1024])] == Table(q, u / 1024);
      assert u == u / 1024 * 1024 + u % 1024 && v == v / 1024 * 1024 + v % 1024;
    }
  }

  /** The roles after an entry was stored: page `x` now backs user page `v`, or `own` is unchanged for a kernel page. */
  lemma {:induction false} MapOwned(mem: seq<Page>, own: map<nat, Role>, spaces: set<nat>, lo: nat, pd: nat, v: nat,
                                    t: nat, x: nat, flags: nat)
    requires Owned(mem, own, spaces, lo) && pd in spaces && IsTable(mem, pd, v, t) && flags < 4096 && Present(flags)
    requires !Present(Pte(mem, pd, v)) && (v < UPAGES ==> x in own && own[x] == Held)
    ensures Owned(PutPte(mem, t, v, Entry(x, flags)), if v < UPAGES then own[x := Data(pd, v)] else own, spaces, lo)
  {
    var w := Entry(x, flags);
    var mem', own' := PutPte(mem, t, v, w), if v < UPAGES then own[x := Data(pd, v)] else own;
    forall q, u: nat | q in spaces
      ensures Pte(mem', q, u) == (if q == pd && u == v then w else Pte(mem, q, u)) && mem'[q] == mem[q]
    {
      PutPteAt(mem, own, spaces, lo, pd, v, t, w, q, u);
    }
    EntryParts(x, flags);
    forall q | q in spaces ensures SpaceOk(mem', own', q) {
      assert SpaceOk(mem, own, q) && mem'[q] == mem[q];
    }
    forall y | y in own' ensures RoleOk(mem', spaces, y, own'[y]) {
      assert y != x || v >= UPAGES ==> RoleOk(mem, spaces, y, own[y]);
    }
  }

  /** Clearing the entry of a user page leaves its frame to nobody. */
  lemma {:induction false} UnmapOwned(mem: seq<Page>, own: map<nat, Role>, spaces: set<nat>, lo: nat, pd: nat, v: nat,
                                      t: nat)
    requires Owned(mem, own, spaces, lo) && pd in spaces && IsTable(mem, pd, v, t) && v < UPAGES
    requires Present(Pte(mem, pd, v))
    ensures Frame(Pte(mem, pd, v)) in own && own[Frame(Pte(mem, pd, v))] == Data(pd, v) && Frame(Pte(mem, pd, v)) != t
    ensures Owned(PutPte(mem, t, v, 0), own - {Frame(Pte(mem, pd, v))}, spaces, lo)
  {
    var x := Frame(Pte(mem, pd, v));
    var mem', own' := PutPte(mem, t, v, 0), own - {x};
    assert SpaceOk(mem, own, pd);
    assert own[x] == Data(pd, v) && own[t] == Table(pd, v / 1024);
    forall q, u: nat | q in spaces
      ensures Pte(mem', q, u) == (if q == pd && u == v then 0 else Pte(mem, q, u)) && mem'[q] == mem[q]
    {
      PutPteAt(mem, own, spaces, lo, pd, v, t, 0, q, u);
    }
    forall q | q in spaces ensures SpaceOk(mem', own', q) {
      assert SpaceOk(mem, own, q) && mem'[q] == mem[q];
    }
    forall y | y in own' ensures RoleOk(mem', spaces, y, own'[y]) {
      assert RoleOk(mem, spaces, y, own[y]);
    }
  }

  // Dropping an address space

  /** Role `r` is part of address space `pd`, whose directory is page `x`. */
  predicate PartOf(x: nat, r: Role, pd: nat) {
    match r
    case Dir => x == pd
    case Table(q, _) => q == pd
    case Data(q, _) => q == pd
    case Held => false
  }

  function Without(own: map<nat, Role>, pd: nat): map<nat, Role> {
    map x | x in own && !PartOf(x, own[x], pd) :: own[x]
  }

  /** Once nothing of it is left, the other address spaces are as they were. */
  lemma {:induction false} DropOwned(mem: seq<Page>, own: map<nat, Role>, spaces: set<nat>, lo: nat, pd: nat)
    requires Owned(mem, own, spaces, lo) && pd in spaces
    ensures Owned(mem, Without(own, pd), spaces - {pd}, lo)
  {
    hide Pte;
    var own', spaces' := Without(own, pd), spaces - {pd};
    forall q | q in spaces' ensures SpaceOk(mem, own', q) {
      assert SpaceOk(mem, own, q);
    }
    forall y | y in own' ensures RoleOk(mem, spaces', y, own'[y]) {
      assert RoleOk(mem, spaces, y, own[y]);
    }
  }

  lemma TableNumber(mem: seq<Page>, own: map<nat, Role>, spaces: set<nat>, lo: nat, pd: nat, i: nat)
    requires Owned(mem, own, spaces, lo) && pd in spaces && pd < |mem| && i < 1024 && Present(mem[pd][i])
    ensures lo <= Frame(mem[pd][i]) < |mem|
  {
    assert SpaceOk(mem, own, pd);
  }

  lemma NoTable(mem: seq<Page>, pd: nat, i: nat)
    requires pd < |mem| && i < 1024 && !Present(mem[pd][i])
    ensures forall u: nat :: u / 1024 == i ==> Pte(mem, pd, u) == 0
  {
  }

  /** A held page is cleared and becomes a table. */
  lemma {:induction false} ZeroTable(mem: seq<Page>, own: map<nat, Role>, spaces: set<nat>, lo: nat, pd: nat, i: nat,
                                     x: nat)
    requires Owned(mem, own, spaces, lo) && pd in spaces && i < 1024 && pd < |mem|
    requires x in own && own[x] == Held && x < |mem| && !Present(mem[pd][i])
    ensures var mem' := AddTable(mem[x := Zero()], pd, i, x);
            && Owned(mem', own[x := Table(pd, i)], spaces, lo)
            && forall q, v :: q in spaces ==> Pte(mem', q, v) == Pte(mem, q, v)
  {
    hide Pte, Present;
    var mem1 := mem[x := Zero()];
    assert SpaceOk(mem, own, pd);
    SameOwned(mem, own, spaces, lo, mem1);
    AddTableOwned(mem1, own, spaces, lo, pd, i, x);
  }

  /** kfree of the frame and clearing of the entry, together. */
  lemma {:induction false} UnmapFreed(mem: seq<Page>, own: map<nat, Role>, spaces: set<nat>, lo: nat, pd: nat, v: nat,
                                      t: nat, junk: Page)
    requires Owned(mem, own, spaces, lo) && pd in spaces && IsTable(mem, pd, v, t) && v < UPAGES
    requires Present(Pte(mem, pd, v))
    ensures var x := Frame(Pte(mem, pd, v));
            && x in own && own[x] == Data(pd, v) && t in own && x != t && x < |mem|
            && var mem' := PutPte(mem[x := junk], t, v, 0);
               && Owned(mem', own - {x}, spaces, lo) && mem' == PutPte(mem, t, v, 0)[x := junk]
               && forall q, u :: q in spaces ==> Pte(mem', q, u) == Pte(PutPte(mem, t, v, 0), q, u)
  {
    hide Pte, Present;
    assert SpaceOk(mem, own, pd);
    UnmapOwned(mem, own, spaces, lo, pd, v, t);
    var x := Frame(Pte(mem, pd, v));
    SameOwned(PutPte(mem, t, v, 0), own - {x}, spaces, lo, PutPte(mem, t, v, 0)[x := junk]);
    assert PutPte(mem[x := junk], t, v, 0) == PutPte(mem, t, v, 0)[x := junk];
  }

  /** An abandoned address space: its pages stay allocated and belong to nobody. */
  function Leaked(own: map<nat, Role>, pd: nat): map<nat, Role> {
    map x | x in own :: if PartOf(x, own[x], pd) then Held else own[x]
  }

  lemma {:induction false} LeakOwned(mem: seq<Page>, own: map<nat, Role>, spaces: set<nat>, lo: nat, pd: nat)
    requires Owned(mem, own, spaces, lo) && pd in spaces
    ensures Owned(mem, Leaked(own, pd), spaces - {pd}, lo)
  {
    hide Pte;
    var own', spaces' := Leaked(own, pd), spaces - {pd};
    forall q | q in spaces' ensures SpaceOk(mem, own', q) {
      assert SpaceOk(mem, own, q);
    }
    forall y | y in own' ensures RoleOk(mem, spaces', y, own'[y]) {
      assert RoleOk(mem, spaces, y, own[y]);
    }
  }
}
