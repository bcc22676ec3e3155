/**
 What single steps of the inode layer do, on values: the bookkeeping of one
 iteration of writei's loop, what a finished write amounts to, and what itrunc
 has freed.
 */
module InodeSteps {
  import opened Basics
  import opened Volume
  import opened FileBytes

  /** What readi and writei return: -1, the device driver's answer, a panic, or the number of bytes moved. */
  datatype Io = Fail | Device | Panic | Done(n: nat)

  const NDEV: int := 10

  /** The inode is a device with an entry in `drivers`, the majors for which devsw has the function. */
  predicate Driven(drivers: set<int>, ip: Inode) {
    ip.typ == T_DEV && 0 <= ip.major < NDEV && ip.major in drivers
  }

  /** 32-bit addition. */
  function Add32(a: nat, b: nat): nat { (a + b) % WORD }

  /** Number of file blocks a transfer of `n` bytes at `off` touches. */
  function Touched(off: nat, n: nat): nat {
    if n == 0 then 0 else (off + n - 1) / BSIZE - off / BSIZE + 1
  }

  /** Every block is in use. */
  predicate Full(v: Vol) { forall c :: 0 <= c < |v.bits| ==> v.bits[c] }

  /** Blocks keep their owners. */
  ghost predicate Grows(o: map<nat, (nat, nat)>, o': map<nat, (nat, nat)>) {
    forall x :: x in o ==> x in o' && o'[x] == o[x]
  }

  /** Reading may map holes of the file read; it changes nothing that any file reads as. */
  ghost predicate ReadKeeps(sb: Super, v: Vol, inodes: map<nat, Inode>, v': Vol, inodes': map<nat, Inode>, inum: nat) {
    && VolOk(sb, v) && VolOk(sb, v') && inum in inodes && inodes'.Keys == inodes.Keys
    && (forall j :: j in inodes ==> InodeOk(sb, inodes[j])) && (forall j :: j in inodes' ==> InodeOk(sb, inodes'[j]))
    && Keeps(sb, v, inodes, v', inodes')
    && (forall j :: j in inodes && j != inum ==> inodes'[j] == inodes[j])
    && (inodes[inum].size <= MAXBYTES ==>
        inodes'[inum].size == inodes[inum].size && Contents(sb, v', inodes'[inum]) == Contents(sb, v, inodes[inum]))
  }

  lemma {:induction false} ReadNothing(sb: Super, v: Vol, inodes: map<nat, Inode>, inum: nat)
    requires VolOk(sb, v) && inum in inodes && forall j :: j in inodes ==> InodeOk(sb, inodes[j])
    ensures ReadKeeps(sb, v, inodes, v, inodes, inum)
  {
  }

  lemma {:induction false} ReadTwice(sb: Super, v: Vol, inodes: map<nat, Inode>, v1: Vol, inodes1: map<nat, Inode>,
                                     v2: Vol, inodes2: map<nat, Inode>, inum: nat)
    requires ReadKeeps(sb, v, inodes, v1, inodes1, inum) && ReadKeeps(sb, v1, inodes1, v2, inodes2, inum)
    ensures ReadKeeps(sb, v, inodes, v2, inodes2, inum)
  {
    hide Contents, KeepsFile;
    KeepsTrans(sb, v, inodes, v1, inodes1, v2, inodes2);
  }

  lemma ReadSame(sb: Super, v: Vol, inodes: map<nat, Inode>, v': Vol, inodes': map<nat, Inode>, inum: nat)
    requires ReadKeeps(sb, v, inodes, v', inodes', inum)
    ensures inum in inodes' && inodes'[inum].size == inodes[inum].size
    ensures inodes[inum].size <= MAXBYTES ==> Contents(sb, v', inodes'[inum]) == Contents(sb, v, inodes[inum])
  {
  }

  lemma {:induction false} KeepsOne(sb: Super, v: Vol, inodes: map<nat, Inode>, v': Vol, inodes': map<nat, Inode>,
                                    inum: nat)
    requires VolOk(sb, v) && VolOk(sb, v') && inum in inodes
    requires forall j :: j in inodes ==> InodeOk(sb, inodes[j])
    requires forall j :: j in inodes' ==> InodeOk(sb, inodes'[j])
    requires Keeps(sb, v, inodes, v', inodes')
    ensures inum in inodes' && inodes'[inum].size == inodes[inum].size
    ensures KeepsFile(sb, v, inodes[inum], v', inodes'[inum])
    ensures inodes'.Keys == inodes.Keys
  {
  }

  /** Every block below the size of a file without holes is mapped. */
  lemma {:induction false} MappedAt(sb: Super, v: Vol, ip: Inode, off: nat)
    requires VolOk(sb, v) && InodeOk(sb, ip) && NoHoles(sb, v, ip) && off < ip.size
    ensures off / BSIZE < MAXFILE && Addr(sb, v, ip, off / BSIZE) != 0
  {
    assert off / BSIZE * BSIZE <= off;
  }

  /** How far the write of `src` has come since `v0`, `inodes0`. */
  ghost predicate Progress(sb: Super, v0: Vol, inodes0: map<nat, Inode>, v: Vol, inodes: map<nat, Inode>,
                           inum: nat, src: seq<Byte>, off: nat, tot: nat)
  {
    && VolOk(sb, v0) && VolOk(sb, v) && inum in inodes && inum in inodes0
    && (forall j :: j in inodes0 ==> InodeOk(sb, inodes0[j])) && InodeOk(sb, inodes[inum])
    && tot <= |src| && off + |src| <= MAXBYTES
    && Wrote(sb, v0, inodes0[inum], v, inodes[inum], src, off, tot)
    && OthersKept(sb, v0, inodes0, v, inodes, inum)
    && inodes[inum] == inodes0[inum].(addrs := inodes[inum].addrs)
    && (off + |src| <= inodes0[inum].size ==> inodes[inum] == inodes0[inum])
  }

  lemma {:induction false} MappedBefore(sb: Super, v0: Vol, inodes0: map<nat, Inode>, v: Vol, inodes: map<nat, Inode>,
                                        inum: nat, src: seq<Byte>, off: nat, tot: nat)
    requires Progress(sb, v0, inodes0, v, inodes, inum, src, off, tot) && tot < |src|
    requires InRange(sb, v0, inodes0[inum]) && NoHoles(sb, v0, inodes0[inum]) && off <= inodes0[inum].size
    ensures off + |src| <= inodes0[inum].size ==> Addr(sb, v, inodes[inum], (off + tot) / BSIZE) != 0
  {
    if off + |src| <= inodes0[inum].size {
      WroteMapped(sb, v0, inodes0[inum], v, inodes[inum], src, off, tot, (off + tot) / BSIZE);
    }
  }

  lemma {:induction false} ProgressStart(sb: Super, v: Vol, inodes: map<nat, Inode>, inum: nat, src: seq<Byte>,
                                         off: nat)
    requires VolOk(sb, v) && inum in inodes && (forall j :: j in inodes ==> InodeOk(sb, inodes[j]))
    requires off + |src| <= MAXBYTES
    ensures Progress(sb, v, inodes, v, inodes, inum, src, off, 0)
  {
  }

  lemma {:induction false} ProgressStep(sb: Super, v0: Vol, inodes0: map<nat, Inode>, v: Vol, inodes: map<nat, Inode>,
                                        v': Vol, inodes': map<nat, Inode>, inum: nat, src: seq<Byte>, off: nat,
                                        tot: nat, m: nat)
    requires Progress(sb, v0, inodes0, v, inodes, inum, src, off, tot) && tot < |src| && tot + m <= |src|
    requires VolOk(sb, v')
    requires inum in inodes' && InodeOk(sb, inodes'[inum])
    requires Wrote(sb, v0, inodes0[inum], v', inodes'[inum], src, off, tot + m)
    requires (forall j :: j in inodes ==> InodeOk(sb, inodes[j])) && OthersKept(sb, v, inodes, v', inodes', inum)
    requires inodes'[inum] == inodes[inum].(addrs := inodes'[inum].addrs)
    requires Addr(sb, v, inodes[inum], (off + tot) / BSIZE) != 0 ==> inodes'[inum] == inodes[inum]
    requires InRange(sb, v0, inodes0[inum]) && NoHoles(sb, v0, inodes0[inum]) && off <= inodes0[inum].size
    ensures Progress(sb, v0, inodes0, v', inodes', inum, src, off, tot + m)
  {
    hide Wrote, OthersKept, NoHoles, InRange;
    MappedBefore(sb, v0, inodes0, v, inodes, inum, src, off, tot);
    OthersTrans(sb, v0, inodes0, v, inodes, v', inodes', inum);
  }

  lemma {:induction false} ProgressWrote(sb: Super, v0: Vol, inodes0: map<nat, Inode>, v: Vol, inodes: map<nat, Inode>,
                                         inum: nat, src: seq<Byte>, off: nat, tot: nat, m: nat)
    requires Progress(sb, v0, inodes0, v, inodes, inum, src, off, tot) && tot < |src|
    requires m == Min(|src| - tot, BSIZE - (off + tot) % BSIZE)
    ensures VolOk(sb, v0) && VolOk(sb, v) && inum in inodes && inum in inodes0 && InodeOk(sb, inodes0[inum])
    ensures InodeOk(sb, inodes[inum])
    ensures 0 < m && tot + m <= |src| && off + |src| <= MAXBYTES && (off + tot) % BSIZE + m <= BSIZE
    ensures Wrote(sb, v0, inodes0[inum], v, inodes[inum], src, off, tot)
  {
  }

  /** Every file is free of holes. */
  ghost predicate Solid(sb: Super, v: Vol, inodes: map<nat, Inode>) {
    VolOk(sb, v) && forall i :: i in inodes ==> InodeOk(sb, inodes[i]) && NoHoles(sb, v, inodes[i])
  }

  /** What the file system stores: one byte sequence per inode. */
  ghost function Files(sb: Super, v: Vol, inodes: map<nat, Inode>): (fs: map<nat, seq<Byte>>)
    requires Solid(sb, v, inodes)
  {
    map i | i in inodes :: Contents(sb, v, inodes[i])
  }

  lemma {:induction false} AllInRange(sb: Super, v: Vol, inodes: map<nat, Inode>, owner: map<nat, (nat, nat)>)
    requires Owned(sb, v, inodes, owner)
    ensures forall j :: j in inodes ==> InRange(sb, v, inodes[j])
  {
    forall j | j in inodes ensures InRange(sb, v, inodes[j]) {
      OwnedInRange(sb, v, inodes, owner, j);
    }
  }

  /** The size of an inode plays no part in ownership. */
  lemma {:induction false} ResizeOwned(sb: Super, v: Vol, inodes: map<nat, Inode>, owner: map<nat, (nat, nat)>, i: nat,
                                       n: nat)
    requires Owned(sb, v, inodes, owner) && i in inodes
    ensures Owned(sb, v, inodes[i := inodes[i].(size := n)], owner)
  {
    var inodes' := inodes[i := inodes[i].(size := n)];
    forall j | j in inodes' ensures InodeOk(sb, inodes'[j]) && SlotsOwned(sb, v, inodes'[j], j, owner) {
      assert SlotsOwned(sb, v, inodes[j], j, owner);
      assert forall t :: 0 <= t < SLOTS ==> Slot(sb, v, inodes'[j], t) == Slot(sb, v, inodes[j], t);
    }
    forall a | a in owner ensures Owns(sb, v, inodes', owner[a], a) {
      assert Owns(sb, v, inodes, owner[a], a);
    }
  }

  /**
   A finished write, with the size brought up to date, splices the source into
   one file and leaves the others alone.
   */
  lemma {:induction false} WriteDone(sb: Super, v0: Vol, inodes0: map<nat, Inode>, v: Vol, inodes: map<nat, Inode>,
                                     inodes': map<nat, Inode>, inum: nat, src: seq<Byte>, off: nat)
    requires Progress(sb, v0, inodes0, v, inodes, inum, src, off, |src|) && Solid(sb, v0, inodes0)
    requires forall j :: j in inodes0 ==> InRange(sb, v0, inodes0[j])
    requires off <= inodes0[inum].size
    requires inodes' == inodes[inum := inodes[inum].(size := Max(inodes0[inum].size, off + |src|))]
    ensures inodes' == inodes0[inum := inodes'[inum]] && (off + |src| <= inodes0[inum].size ==> inodes' == inodes0)
    ensures Solid(sb, v, inodes')
    ensures Files(sb, v, inodes') == Files(sb, v0, inodes0)[inum := Splice(Files(sb, v0, inodes0)[inum], off, src)]
  {
    hide Wrote, InRange, CellsKept, Contents, Splice, Addr;
    OthersContents(sb, v0, inodes0, v, inodes, inum);
    SelfContents(sb, v0, inodes0[inum], v, inodes[inum], inodes'[inum], src, off);
  }

  lemma {:induction false} OthersContents(sb: Super, v0: Vol, inodes0: map<nat, Inode>, v: Vol, inodes: map<nat, Inode>,
                                          inum: nat)
    requires Solid(sb, v0, inodes0) && VolOk(sb, v) && OthersKept(sb, v0, inodes0, v, inodes, inum)
    requires forall j :: j in inodes0 ==> InRange(sb, v0, inodes0[j])
    ensures forall j :: j in inodes0 && j != inum ==>
              inodes[j] == inodes0[j] && NoHoles(sb, v, inodes0[j])
                  && Contents(sb, v, inodes0[j]) == Contents(sb, v0, inodes0[j])
  {
    forall j | j in inodes0 && j != inum
      ensures NoHoles(sb, v, inodes0[j]) && Contents(sb, v, inodes0[j]) == Contents(sb, v0, inodes0[j])
    {
      KeepsContents(sb, v0, inodes0[j], v, inodes0[j]);
    }
  }

  lemma {:induction false} SelfContents(sb: Super, v0: Vol, ip0: Inode, v: Vol, ip: Inode, ip': Inode, src: seq<Byte>,
                                        off: nat)
    requires VolOk(sb, v0) && InodeOk(sb, ip0) && VolOk(sb, v) && InodeOk(sb, ip) && NoHoles(sb, v0, ip0)
    requires InRange(sb, v0, ip0)
    requires off + |src| <= MAXBYTES && Wrote(sb, v0, ip0, v, ip, src, off, |src|) && off <= ip0.size
    requires ip' == ip.(size := Max(ip0.size, off + |src|))
    ensures InodeOk(sb, ip') && NoHoles(sb, v, ip') && Contents(sb, v, ip') == Splice(Contents(sb, v0, ip0), off, src)
  {
    assert Wrote(sb, v0, ip0, v, ip', src, off, |src|) by {
      assert forall p: nat :: p < MAXBYTES ==> CellAt(sb, v, ip', p) == CellAt(sb, v, ip, p);
    }
    WroteNoHoles(sb, v0, ip0, v, ip', src, off);
    WroteContents(sb, v0, ip0, v, ip', src, off);
  }

  /** How far itrunc has come: direct slots, entries of the indirect block, the indirect pointer. */
  datatype Freed = Freed(direct: nat, entries: nat, pointer: bool) {
    predicate Has(s: nat) {
      s < direct || NDIRECT < s <= NDIRECT + entries || (s == NDIRECT && pointer)
    }
  }

  const ALL := Freed(NDIRECT, NINDIRECT, true)

  /** The blocks that the slots `done` of inode `i` own have been freed, and nothing else has changed. */
  ghost predicate Cleared(sb: Super, v0: Vol, v: Vol, owner: map<nat, (nat, nat)>, i: nat, done: Freed) {
    && VolOk(sb, v0) && VolOk(sb, v) && v.blocks == v0.blocks
    && forall a :: 0 <= a < sb.size ==>
         (v.bits[a] <==> v0.bits[a] && !(a in owner && owner[a].0 == i && done.Has(owner[a].1)))
  }

  function Truncated(ip: Inode): Inode {
    ip.(size := 0, addrs := seq(NDIRECT + 1, _ => 0))
  }

  /** Freeing the block of one more slot. */
  lemma {:induction false} ClearOne(sb: Super, v0: Vol, v: Vol, inodes: map<nat, Inode>, owner: map<nat, (nat, nat)>,
                                    i: nat, done: Freed, done': Freed, s: nat, a: nat)
    requires Owned(sb, v0, inodes, owner) && i in inodes && Cleared(sb, v0, v, owner, i, done)
    requires s < SLOTS && !done.Has(s) && (forall t: nat :: done'.Has(t) <==> done.Has(t) || t == s)
    requires a == Slot(sb, v0, inodes[i], s)
    ensures a == 0 ==> Cleared(sb, v0, v, owner, i, done')
    ensures a != 0 ==> a < sb.size && v.bits[a] && Cleared(sb, v0, v.(bits := v.bits[a := false]), owner, i, done')
  {
    assert SlotsOwned(sb, v0, inodes[i], i, owner);
    assert forall b :: b in owner && owner[b] == (i, s) ==> Owns(sb, v0, inodes, owner[b], b);
  }

  /** With every slot cleared, exactly the blocks of inode `i` are free, and ownership holds without it. */
  lemma {:induction false} ClearedOwned(sb: Super, v0: Vol, v: Vol, inodes: map<nat, Inode>,
                                        owner: map<nat, (nat, nat)>, i: nat)
    requires Owned(sb, v0, inodes, owner) && i in inodes && Cleared(sb, v0, v, owner, i, ALL)
    ensures Owned(sb, v, inodes[i := Truncated(inodes[i])], map a | a in owner && owner[a].0 != i :: owner[a])
  {
    var inodes', owner' := inodes[i := Truncated(inodes[i])], map a | a in owner && owner[a].0 != i :: owner[a];
    forall a | a in owner ensures ALL.Has(owner[a].1) {
      assert Owns(sb, v0, inodes, owner[a], a);
    }
    forall j | j in inodes' ensures InodeOk(sb, inodes'[j]) && SlotsOwned(sb, v, inodes'[j], j, owner') {
      assert SlotsOwned(sb, v0, inodes[j], j, owner);
      assert j != i ==> forall s :: 0 <= s < SLOTS ==> Slot(sb, v, inodes[j], s) == Slot(sb, v0, inodes[j], s);
    }
    forall a | a in owner' ensures Owns(sb, v, inodes', owner'[a], a) {
      assert Owns(sb, v0, inodes, owner[a], a);
    }
  }

  /** The other files keep their bytes; the truncated one is empty. */
  lemma {:induction false} ClearedFiles(sb: Super, v0: Vol, v: Vol, inodes: map<nat, Inode>, i: nat)
    requires Solid(sb, v0, inodes) && VolOk(sb, v) && v.blocks == v0.blocks && i in inodes && 0 < sb.size
    ensures Solid(sb, v, inodes[i := Truncated(inodes[i])])
    ensures Files(sb, v, inodes[i := Truncated(inodes[i])]) == Files(sb, v0, inodes)[i := []]
  {
    forall j | j in inodes
      ensures NoHoles(sb, v, inodes[j]) && Contents(sb, v, inodes[j]) == Contents(sb, v0, inodes[j])
    {
      assert forall bn :: 0 <= bn < MAXFILE ==> Addr(sb, v, inodes[j], bn) == Addr(sb, v0, inodes[j], bn);
    }
    var ip := Truncated(inodes[i]);
    assert NoHoles(sb, v, ip) && Contents(sb, v, ip) == [];
  }

  lemma {:induction false} ClearedNone(sb: Super, v: Vol, owner: map<nat, (nat, nat)>, i: nat)
    requires VolOk(sb, v)
    ensures Cleared(sb, v, v, owner, i, Freed(0, 0, false))
  {
  }

  /** Without an indirect block the direct slots are all there is. */
  lemma {:induction false} NoIndirect(sb: Super, v0: Vol, v: Vol, inodes: map<nat, Inode>, owner: map<nat, (nat, nat)>,
                                      i: nat)
    requires Owned(sb, v0, inodes, owner) && i in inodes && inodes[i].addrs[NDIRECT] == 0
    requires Cleared(sb, v0, v, owner, i, Freed(NDIRECT, 0, false))
    ensures Cleared(sb, v0, v, owner, i, ALL)
  {
    forall a | a in owner && owner[a].0 == i ensures owner[a].1 < NDIRECT {
      assert Owns(sb, v0, inodes, owner[a], a);
    }
  }

  /** The freed blocks, in terms of the inode's slots. */
  lemma {:induction false} ClearedExact(sb: Super, v0: Vol, v: Vol, inodes: map<nat, Inode>,
                                        owner: map<nat, (nat, nat)>, i: nat)
    requires Owned(sb, v0, inodes, owner) && i in inodes && Cleared(sb, v0, v, owner, i, ALL)
    ensures forall a :: 0 <= a < sb.size ==>
              (v.bits[a] <==> v0.bits[a] && !Refers(sb, v0, inodes[i], a))
  {
    forall a | 0 <= a < sb.size
      ensures (a in owner && owner[a].0 == i && ALL.Has(owner[a].1))
              <==> Refers(sb, v0, inodes[i], a)
    {
      assert SlotsOwned(sb, v0, inodes[i], i, owner);
      if a in owner {
        assert Owns(sb, v0, inodes, owner[a], a);
        assert Slot(sb, v0, inodes[owner[a].0], owner[a].1) == a;
      }
    }
  }

  /** The direct addresses have been cleared. */
  predicate DirectZero(ip: Inode, ip': Inode) {
    && |ip.addrs| == |ip'.addrs| == NDIRECT + 1 && ip' == ip.(addrs := ip'.addrs)
    && ip'.addrs[NDIRECT] == ip.addrs[NDIRECT] && forall k :: 0 <= k < NDIRECT ==> ip'.addrs[k] == 0
  }

  /** All there is to know once itrunc has freed every slot. */
  lemma {:induction false} TruncDone(sb: Super, v0: Vol, v: Vol, inodes: map<nat, Inode>, owner: map<nat, (nat, nat)>,
                                     i: nat)
    requires Owned(sb, v0, inodes, owner) && Solid(sb, v0, inodes) && i in inodes && Cleared(sb, v0, v, owner, i, ALL)
    ensures Owned(sb, v, inodes[i := Truncated(inodes[i])], map a | a in owner && owner[a].0 != i :: owner[a])
    ensures Solid(sb, v, inodes[i := Truncated(inodes[i])])
    ensures Files(sb, v, inodes[i := Truncated(inodes[i])]) == Files(sb, v0, inodes)[i := []]
    ensures v.blocks == v0.blocks && |v.bits| == |v0.bits| == sb.size
    ensures forall a :: 0 <= a < sb.size ==>
              (v.bits[a] <==> v0.bits[a] && !Refers(sb, v0, inodes[i], a))
  {
    hide SlotsOwned, Owns, NoHoles, Contents, Slot, Files;
    ClearedOwned(sb, v0, v, inodes, owner, i);
    ClearedFiles(sb, v0, v, inodes, i);
    ClearedExact(sb, v0, v, inodes, owner, i);
  }

  /** The arithmetic of moving on to the next block. */
  lemma NextBlock(off: nat, tot: nat, m: nat, n: nat)
    requires tot < n && m == Min(n - tot, BSIZE - (off + tot) % BSIZE) && (tot > 0 ==> (off + tot) % BSIZE == 0)
    ensures 0 < m && tot + m <= n
    ensures (tot + m < n ==> (off + tot + m) % BSIZE == 0 && (off + tot + m) / BSIZE == (off + tot) / BSIZE + 1)
    ensures Touched(off, tot + m) == Touched(off, tot) + 1 && (off + tot) / BSIZE == off / BSIZE + Touched(off, tot)
  {
  }
}
