/**
 The block layer of fs.c: the free bitmap, and the blocks an inode reaches
 through its direct addresses, its indirect pointer and the entries of the
 indirect block.
 */
module Volume {
  import opened Basics
  import opened Words

  const NDIRECT: nat := 12
  const NINDIRECT: nat := BSIZE / 4
  const MAXFILE: nat := NDIRECT + NINDIRECT
  const BPB: nat := BSIZE * 8
  const IPB: nat := 8

  type Block = b: seq<Byte> | |b| == BSIZE witness ZEROS
  const ZEROS: seq<Byte> := seq(BSIZE, _ => 0)

  /** A block of zeroes, as bzero leaves it. */
  function Zero(): (b: Block)
    ensures forall k :: 0 <= k < BSIZE ==> b[k] == 0
  {
    seq(BSIZE, _ => 0)
  }

  const T_DIR: nat := 1
  const T_FILE: nat := 2
  const T_DEV: nat := 3

  datatype Inode = Inode(typ: nat, major: int, minor: int, nlink: int, size: nat, addrs: seq<nat>)

  /** Superblock fields the block layer uses; data blocks start at `data`. */
  datatype Super = Super(size: nat, inodestart: nat, bmapstart: nat, data: nat) {
    ghost predicate Valid() {
      0 < data <= size < WORD
    }

    /** The block of inode `inum`, with eight inodes to a block. */
    function IBlock(inum: nat): (r: nat)
      ensures r >= inodestart && 8 * (r - inodestart) <= inum < 8 * (r - inodestart) + 8
    {
      inum / IPB + inodestart
    }

    /** The block with the bit of block `b`, with 4096 bits to a block. */
    function BBlock(b: nat): (r: nat)
      ensures r >= bmapstart && 4096 * (r - bmapstart) <= b < 4096 * (r - bmapstart) + 4096
    {
      b / BPB + bmapstart
    }
  }

  /** Bit `b` of the bitmap, and the contents of block `b`. */
  datatype Vol = Vol(bits: seq<bool>, blocks: seq<Block>)

  // An inode's slots: 0..NDIRECT direct, NDIRECT the indirect pointer, then the indirect entries

  const SLOTS: nat := NDIRECT + 1 + NINDIRECT

  predicate InodeOk(sb: Super, ip: Inode) {
    |ip.addrs| == NDIRECT + 1 && forall k :: 0 <= k <= NDIRECT ==> ip.addrs[k] < sb.size
  }

  predicate VolOk(sb: Super, v: Vol) {
    |v.bits| == |v.blocks| == sb.size
  }

  function Slot(sb: Super, v: Vol, ip: Inode, s: nat): nat
    requires VolOk(sb, v) && InodeOk(sb, ip) && s < SLOTS
  {
    if s <= NDIRECT then ip.addrs[s]
    else if ip.addrs[NDIRECT] == 0 then 0
    else GetWord(v.blocks[ip.addrs[NDIRECT]], s - NDIRECT - 1)
  }

  /** Some slot of the inode refers to block `a`. */
  ghost predicate Refers(sb: Super, v: Vol, ip: Inode, a: nat)
    requires VolOk(sb, v) && InodeOk(sb, ip)
  {
    a != 0 && exists s :: 0 <= s < SLOTS && Slot(sb, v, ip, s) == a
  }

  /** The slot of file block `bn`. */
  function SlotOf(bn: nat): nat { if bn < NDIRECT then bn else bn + 1 }

  function Addr(sb: Super, v: Vol, ip: Inode, bn: nat): nat
    requires VolOk(sb, v) && InodeOk(sb, ip) && bn < MAXFILE
  {
    Slot(sb, v, ip, SlotOf(bn))
  }

  /**
   File block `bn` lies in block `a`: address `bn` of the inode, or from the
   twelfth on four bytes of its indirect block, the lowest first.
   */
  predicate FileBlock(sb: Super, v: Vol, ip: Inode, bn: nat, a: nat)
    requires VolOk(sb, v) && InodeOk(sb, ip)
  {
    if bn < 12 then ip.addrs[bn] == a
    else
      var k := 4 * (bn - 12);
      && k + 4 <= BSIZE && ip.addrs[12] != 0
      && var b := v.blocks[ip.addrs[12]];
         a == (b[k] as int) + 256 * ((b[k + 1] as int) + 256 * ((b[k + 2] as int) + 256 * (b[k + 3] as int)))
  }

  lemma {:induction false} AddrLayout(sb: Super, v: Vol, ip: Inode, bn: nat, a: nat)
    requires VolOk(sb, v) && InodeOk(sb, ip) && bn < MAXFILE && a != 0
    ensures Addr(sb, v, ip, bn) == a <==> FileBlock(sb, v, ip, bn, a)
  {
  }

  /**
   Every allocated data block has exactly one owner, the slot of the one inode
   that refers to it, and every slot in use owns its block.
   */
  ghost predicate Owned(sb: Super, v: Vol, inodes: map<nat, Inode>, owner: map<nat, (nat, nat)>) {
    && sb.Valid() && VolOk(sb, v)
    && (forall i :: i in inodes ==> InodeOk(sb, inodes[i]))
    && (forall a :: 0 <= a < sb.data ==> v.bits[a])
    && (forall a :: a in owner ==> sb.data <= a < sb.size && v.bits[a])
    && (forall a :: sb.data <= a < sb.size && v.bits[a] ==> a in owner)
    && (forall a :: a in owner ==> Owns(sb, v, inodes, owner[a], a))
    && (forall i :: i in inodes ==> SlotsOwned(sb, v, inodes[i], i, owner))
  }

  predicate Owns(sb: Super, v: Vol, inodes: map<nat, Inode>, who: (nat, nat), a: nat)
    requires VolOk(sb, v)
  {
    who.0 in inodes && InodeOk(sb, inodes[who.0]) && who.1 < SLOTS && Slot(sb, v, inodes[who.0], who.1) == a
  }

  ghost predicate SlotsOwned(sb: Super, v: Vol, ip: Inode, i: nat, owner: map<nat, (nat, nat)>)
    requires VolOk(sb, v) && InodeOk(sb, ip)
  {
    forall s :: 0 <= s < SLOTS && Slot(sb, v, ip, s) != 0 ==>
      Slot(sb, v, ip, s) in owner && owner[Slot(sb, v, ip, s)] == (i, s)
  }

  /** No block is referenced twice, and the bitmap marks exactly the referenced data blocks. */
  lemma {:induction false} OwnershipExclusive(sb: Super, v: Vol, inodes: map<nat, Inode>, owner: map<nat, (nat, nat)>)
    requires Owned(sb, v, inodes, owner)
    ensures forall i, j, s, t :: i in inodes && j in inodes && 0 <= s < SLOTS && 0 <= t < SLOTS ==>
              var a := Slot(sb, v, inodes[i], s);
              a != 0 && a == Slot(sb, v, inodes[j], t) ==> i == j && s == t
    ensures forall a :: sb.data <= a < sb.size ==>
              (v.bits[a] <==> exists i, s :: i in inodes && 0 <= s < SLOTS && Slot(sb, v, inodes[i], s) == a)
  {
    forall i, j, s, t | i in inodes && j in inodes && 0 <= s < SLOTS && 0 <= t < SLOTS
      ensures var a := Slot(sb, v, inodes[i], s);
              a != 0 && a == Slot(sb, v, inodes[j], t) ==> i == j && s == t
    {
      assert SlotsOwned(sb, v, inodes[i], i, owner) && SlotsOwned(sb, v, inodes[j], j, owner);
    }
    forall a | sb.data <= a < sb.size
      ensures v.bits[a] <==> exists i, s :: i in inodes && 0 <= s < SLOTS && Slot(sb, v, inodes[i], s) == a
    {
      if v.bits[a] {
        assert owner[a].0 in inodes && Slot(sb, v, inodes[owner[a].0], owner[a].1) == a;
      }
      if i, s :| i in inodes && 0 <= s < SLOTS && Slot(sb, v, inodes[i], s) == a {
        assert SlotsOwned(sb, v, inodes[i], i, owner);
      }
    }
  }

  // File contents

  /** Every block below the file's size is mapped. */
  ghost predicate NoHoles(sb: Super, v: Vol, ip: Inode)
    requires VolOk(sb, v) && InodeOk(sb, ip)
  {
    ip.size <= MAXFILE * BSIZE && forall bn :: 0 <= bn < MAXFILE && bn * BSIZE < ip.size ==> Addr(sb, v, ip, bn) != 0
  }

  /** Slots of live inodes stay inside the device. */
  ghost predicate InRange(sb: Super, v: Vol, ip: Inode)
    requires VolOk(sb, v) && InodeOk(sb, ip)
  {
    forall s :: 0 <= s < SLOTS ==> Slot(sb, v, ip, s) < sb.size
  }

  lemma OwnedInRange(sb: Super, v: Vol, inodes: map<nat, Inode>, owner: map<nat, (nat, nat)>, i: nat)
    requires Owned(sb, v, inodes, owner) && i in inodes
    ensures InRange(sb, v, inodes[i])
  {
    assert SlotsOwned(sb, v, inodes[i], i, owner);
  }

  // Giving a free block to a slot

  function GiveVol(sb: Super, v: Vol, ip: Inode, s: nat, a: nat): Vol
    requires VolOk(sb, v) && InodeOk(sb, ip) && s < SLOTS && a < sb.size < WORD
  {
    if s <= NDIRECT then Vol(v.bits[a := true], v.blocks[a := Zero()])
    else Vol(v.bits[a := true], SetEntry(v.blocks[a := Zero()], ip.addrs[NDIRECT], s - NDIRECT - 1, a))
  }

  /** Store `a` as entry `e` of indirect block `ind`. */
  function SetEntry(blocks: seq<Block>, ind: nat, e: nat, a: nat): seq<Block>
    requires ind < |blocks| && e < NINDIRECT && a < WORD
  {
    blocks[ind := PutEntry(blocks[ind], e, a)]
  }

  function PutEntry(b: Block, e: nat, a: nat): (r: Block)
    requires e < NINDIRECT && a < WORD
  {
    PutWord(b, e, a)
  }

  function GiveInode(ip: Inode, s: nat, a: nat): Inode
    requires |ip.addrs| == NDIRECT + 1
  {
    if s <= NDIRECT then ip.(addrs := ip.addrs[s := a]) else ip
  }

  /** A slot of a live inode can take free block `a`. */
  ghost predicate CanGive(sb: Super, v: Vol, inodes: map<nat, Inode>, owner: map<nat, (nat, nat)>, i: nat, s: nat,
                          a: nat) {
    && Owned(sb, v, inodes, owner) && i in inodes && s < SLOTS && a < sb.size && !v.bits[a]
    && Slot(sb, v, inodes[i], s) == 0
    && (s > NDIRECT ==> inodes[i].addrs[NDIRECT] != 0)
  }

  lemma ZeroWord(i: nat)
    requires i < NINDIRECT
    ensures GetWord(Zero(), i) == 0
  {
  }

  /** Only the slot given the block changes, for every inode. */
  lemma {:induction false} GiveSlots(sb: Super, v: Vol, inodes: map<nat, Inode>, owner: map<nat, (nat, nat)>,
                                     i: nat, s: nat, a: nat, j: nat, t: nat)
    requires CanGive(sb, v, inodes, owner, i, s, a) && j in inodes && t < SLOTS
    ensures var v' := GiveVol(sb, v, inodes[i], s, a);
            var ip' := if j == i then GiveInode(inodes[i], s, a) else inodes[j];
            VolOk(sb, v') && InodeOk(sb, ip')
            && Slot(sb, v', ip', t) == if j == i && s == t then a else Slot(sb, v, inodes[j], t)
  {
    var ind, indj := inodes[i].addrs[NDIRECT], inodes[j].addrs[NDIRECT];
    assert SlotsOwned(sb, v, inodes[j], j, owner) && SlotsOwned(sb, v, inodes[i], i, owner);
    assert Slot(sb, v, inodes[j], NDIRECT) == indj && Slot(sb, v, inodes[i], NDIRECT) == ind;
    assert indj != 0 ==> indj in owner && owner[indj] == (j, NDIRECT) && indj != a;
    if t > NDIRECT {
      ZeroWord(t - NDIRECT - 1);
      if s > NDIRECT && j == i {
        WordUpdate(v.blocks[ind], s - NDIRECT - 1, a, t - NDIRECT - 1);
      }
    }
  }

  /** Ownership after slot `s` of inode `i` took block `a`. */
  lemma {:induction false} GiveOwned(sb: Super, v: Vol, inodes: map<nat, Inode>, owner: map<nat, (nat, nat)>, i: nat,
                                     s: nat, a: nat)
    requires CanGive(sb, v, inodes, owner, i, s, a)
    ensures Owned(sb, GiveVol(sb, v, inodes[i], s, a), inodes[i := GiveInode(inodes[i], s, a)], owner[a := (i, s)])
  {
    var v', inodes', owner' := GiveVol(sb, v, inodes[i], s, a), inodes[i := GiveInode(inodes[i], s, a)],
        owner[a := (i, s)];
    forall j | j in inodes' ensures InodeOk(sb, inodes'[j]) && SlotsOwned(sb, v', inodes'[j], j, owner') {
      GiveSlots(sb, v, inodes, owner, i, s, a, j, 0);
      assert SlotsOwned(sb, v, inodes[j], j, owner);
      forall t | 0 <= t < SLOTS && Slot(sb, v', inodes'[j], t) != 0
        ensures Slot(sb, v', inodes'[j], t) in owner' && owner'[Slot(sb, v', inodes'[j], t)] == (j, t)
      {
        GiveSlots(sb, v, inodes, owner, i, s, a, j, t);
      }
    }
    forall b | b in owner' ensures Owns(sb, v', inodes', owner'[b], b) {
      if b == a {
        GiveSlots(sb, v, inodes, owner, i, s, a, i, s);
      } else {
        assert Owns(sb, v, inodes, owner[b], b);
        GiveSlots(sb, v, inodes, owner, i, s, a, owner[b].0, owner[b].1);
      }
    }
  }

  /** Mapped file blocks keep their address and their bytes; inodes change in nothing but addresses. */
  ghost predicate Keeps(sb: Super, v: Vol, inodes: map<nat, Inode>, v': Vol, inodes': map<nat, Inode>)
    requires VolOk(sb, v) && VolOk(sb, v')
    requires forall j :: j in inodes ==> InodeOk(sb, inodes[j])
    requires forall j :: j in inodes' ==> InodeOk(sb, inodes'[j])
  {
    && inodes'.Keys == inodes.Keys
    && (forall j :: j in inodes ==> inodes'[j] == inodes[j].(addrs := inodes'[j].addrs))
    && (forall j :: j in inodes ==> KeepsFile(sb, v, inodes[j], v', inodes'[j]))
  }

  ghost predicate KeepsFile(sb: Super, v: Vol, ip: Inode, v': Vol, ip': Inode)
    requires VolOk(sb, v) && VolOk(sb, v') && InodeOk(sb, ip) && InodeOk(sb, ip')
  {
    forall bn :: 0 <= bn < MAXFILE && Addr(sb, v, ip, bn) != 0 ==>
      && Addr(sb, v', ip', bn) == Addr(sb, v, ip, bn)
      && (Addr(sb, v, ip, bn) < sb.size ==> v'.blocks[Addr(sb, v, ip, bn)] == v.blocks[Addr(sb, v, ip, bn)])
  }

  lemma {:induction false} GiveKeeps(sb: Super, v: Vol, inodes: map<nat, Inode>, owner: map<nat, (nat, nat)>, i: nat,
                                     s: nat, a: nat)
    requires CanGive(sb, v, inodes, owner, i, s, a)
    ensures var v', inodes' := GiveVol(sb, v, inodes[i], s, a), inodes[i := GiveInode(inodes[i], s, a)];
            && VolOk(sb, v') && (forall j :: j in inodes' ==> InodeOk(sb, inodes'[j]))
            && Keeps(sb, v, inodes, v', inodes')
  {
    var v', inodes' := GiveVol(sb, v, inodes[i], s, a), inodes[i := GiveInode(inodes[i], s, a)];
    GiveOwned(sb, v, inodes, owner, i, s, a);
    forall j | j in inodes ensures KeepsFile(sb, v, inodes[j], v', inodes'[j]) {
      GiveKeepsFile(sb, v, inodes, owner, i, s, a, j);
    }
  }

  lemma {:induction false} GiveKeepsFile(sb: Super, v: Vol, inodes: map<nat, Inode>, owner: map<nat, (nat, nat)>,
                                         i: nat, s: nat, a: nat, j: nat)
    requires CanGive(sb, v, inodes, owner, i, s, a) && j in inodes
    ensures var v' := GiveVol(sb, v, inodes[i], s, a);
            var ip' := if j == i then GiveInode(inodes[i], s, a) else inodes[j];
            VolOk(sb, v') && InodeOk(sb, ip') && KeepsFile(sb, v, inodes[j], v', ip')
  {
    GiveSlots(sb, v, inodes, owner, i, s, a, j, 0);
    var v' := GiveVol(sb, v, inodes[i], s, a);
    var ip' := if j == i then GiveInode(inodes[i], s, a) else inodes[j];
    var ind := inodes[i].addrs[NDIRECT];
    assert SlotsOwned(sb, v, inodes[j], j, owner) && SlotsOwned(sb, v, inodes[i], i, owner);
    assert Slot(sb, v, inodes[i], NDIRECT) == ind;
    forall bn | 0 <= bn < MAXFILE && Addr(sb, v, inodes[j], bn) != 0
      ensures Addr(sb, v', ip', bn) == Addr(sb, v, inodes[j], bn)
      ensures Addr(sb, v, inodes[j], bn) < sb.size ==>
                v'.blocks[Addr(sb, v, inodes[j], bn)] == v.blocks[Addr(sb, v, inodes[j], bn)]
    {
      GiveSlots(sb, v, inodes, owner, i, s, a, j, SlotOf(bn));
      var b := Addr(sb, v, inodes[j], bn);
      assert b in owner && owner[b] == (j, SlotOf(bn));
      assert b != a;
      if s > NDIRECT {
        assert ind in owner && owner[ind] == (i, NDIRECT);
        assert b != ind;
      }
    }
  }

  lemma {:induction false} KeepsTrans(sb: Super, v: Vol, inodes: map<nat, Inode>, v1: Vol, inodes1: map<nat, Inode>,
                                      v2: Vol, inodes2: map<nat, Inode>)
    requires VolOk(sb, v) && VolOk(sb, v1) && VolOk(sb, v2)
    requires forall j :: j in inodes ==> InodeOk(sb, inodes[j])
    requires forall j :: j in inodes1 ==> InodeOk(sb, inodes1[j])
    requires forall j :: j in inodes2 ==> InodeOk(sb, inodes2[j])
    requires Keeps(sb, v, inodes, v1, inodes1) && Keeps(sb, v1, inodes1, v2, inodes2)
    ensures Keeps(sb, v, inodes, v2, inodes2)
  {
    forall j | j in inodes ensures KeepsFile(sb, v, inodes[j], v2, inodes2[j]) {
      assert KeepsFile(sb, v, inodes[j], v1, inodes1[j]) && KeepsFile(sb, v1, inodes1[j], v2, inodes2[j]);
    }
  }

  /** No slot but `s` has changed. */
  ghost predicate OtherSlots(sb: Super, v: Vol, ip: Inode, v': Vol, ip': Inode, s: nat)
    requires VolOk(sb, v) && InodeOk(sb, ip) && VolOk(sb, v') && InodeOk(sb, ip')
  {
    forall t :: 0 <= t < SLOTS && t != s ==> Slot(sb, v', ip', t) == Slot(sb, v, ip, t)
  }

  lemma {:induction false} GiveOthers(sb: Super, v: Vol, inodes: map<nat, Inode>, owner: map<nat, (nat, nat)>, i: nat,
                                      s: nat, a: nat)
    requires CanGive(sb, v, inodes, owner, i, s, a)
    ensures VolOk(sb, GiveVol(sb, v, inodes[i], s, a)) && InodeOk(sb, GiveInode(inodes[i], s, a))
    ensures OtherSlots(sb, v, inodes[i], GiveVol(sb, v, inodes[i], s, a), GiveInode(inodes[i], s, a), s)
  {
    hide GiveVol, GiveInode, Slot, SlotsOwned, Owns;
    GiveSlots(sb, v, inodes, owner, i, s, a, i, 0);
    forall t | 0 <= t < SLOTS && t != s
      ensures Slot(sb, GiveVol(sb, v, inodes[i], s, a), GiveInode(inodes[i], s, a), t) == Slot(sb, v, inodes[i], t)
    {
      GiveSlots(sb, v, inodes, owner, i, s, a, i, t);
    }
  }

  /** No file block but `bn` has been mapped. */
  ghost predicate OnlyMaps(sb: Super, v: Vol, ip: Inode, v': Vol, ip': Inode, bn: nat)
    requires VolOk(sb, v) && InodeOk(sb, ip) && VolOk(sb, v') && InodeOk(sb, ip')
  {
    forall b :: 0 <= b < MAXFILE && b != bn ==> Addr(sb, v', ip', b) == Addr(sb, v, ip, b)
  }

  lemma {:induction false} SlotsMap(sb: Super, v: Vol, ip: Inode, v1: Vol, ip1: Inode, v': Vol, ip': Inode, bn: nat)
    requires VolOk(sb, v) && InodeOk(sb, ip) && VolOk(sb, v1) && InodeOk(sb, ip1) && VolOk(sb, v') && InodeOk(sb, ip')
    requires OtherSlots(sb, v, ip, v1, ip1, NDIRECT) && OtherSlots(sb, v1, ip1, v', ip', SlotOf(bn))
    ensures OnlyMaps(sb, v, ip, v', ip', bn)
  {
    hide Slot;
    forall b | 0 <= b < MAXFILE && b != bn ensures Addr(sb, v', ip', b) == Addr(sb, v, ip, b) {
      assert SlotOf(b) != NDIRECT && SlotOf(b) != SlotOf(bn);
    }
  }

  lemma {:induction false} SameSlots(sb: Super, v: Vol, ip: Inode, s: nat)
    requires VolOk(sb, v) && InodeOk(sb, ip)
    ensures OtherSlots(sb, v, ip, v, ip, s)
  {
  }

  /** Everything bmap's callers need to know about giving block `a` to a slot. */
  lemma {:induction false} GiveFacts(sb: Super, v: Vol, inodes: map<nat, Inode>, owner: map<nat, (nat, nat)>, i: nat,
                                     s: nat, a: nat)
    requires CanGive(sb, v, inodes, owner, i, s, a)
    ensures var v', inodes' := GiveVol(sb, v, inodes[i], s, a), inodes[i := GiveInode(inodes[i], s, a)];
            && Owned(sb, v', inodes', owner[a := (i, s)])
            && Keeps(sb, v, inodes, v', inodes')
            && sb.data <= a && Slot(sb, v', inodes'[i], s) == a && v'.blocks[a] == Zero()
            && OtherSlots(sb, v, inodes[i], v', inodes'[i], s)
  {
    hide Keeps, OtherSlots;
    GiveOwned(sb, v, inodes, owner, i, s, a);
    GiveOthers(sb, v, inodes, owner, i, s, a);
    GiveKeeps(sb, v, inodes, owner, i, s, a);
    GiveSlots(sb, v, inodes, owner, i, s, a, i, s);
    assert SlotsOwned(sb, v, inodes[i], i, owner);
    assert Slot(sb, v, inodes[i], NDIRECT) == inodes[i].addrs[NDIRECT];
  }
}
