/** Files as byte sequences: what reading and patching blocks does to them. */
module FileBytes {
  import opened Basics
  import opened Volume

  datatype Cell = Hole | Held(b: Byte)

  const MAXBYTES: nat := MAXFILE * BSIZE

  /** The byte at offset `p`, or a hole. */
  function CellAt(sb: Super, v: Vol, ip: Inode, p: nat): Cell
    requires VolOk(sb, v) && InodeOk(sb, ip) && p < MAXBYTES
  {
    var a := Addr(sb, v, ip, p / BSIZE);
    if a == 0 || a >= sb.size then Hole else Held(v.blocks[a][p % BSIZE])
  }

  /** Offsets inside one block. */
  lemma InBlock(off: nat, k: nat)
    requires off % BSIZE + k < BSIZE
    ensures (off + k) / BSIZE == off / BSIZE && (off + k) % BSIZE == off % BSIZE + k
  {
  }

  /** `src` has been written at `off`, as far as `tot` bytes; everything else that was there is still there. */
  ghost predicate Wrote(sb: Super, v0: Vol, ip0: Inode, v: Vol, ip: Inode, src: seq<Byte>, off: nat, tot: nat)
    requires VolOk(sb, v0) && InodeOk(sb, ip0) && VolOk(sb, v) && InodeOk(sb, ip)
    requires tot <= |src| && off + |src| <= MAXBYTES
  {
    forall p :: 0 <= p < MAXBYTES ==>
      && (off <= p < off + tot ==> CellAt(sb, v, ip, p) == Held(src[p - off]))
      && (!(off <= p < off + tot) && CellAt(sb, v0, ip0, p).Held? ==> CellAt(sb, v, ip, p) == CellAt(sb, v0, ip0, p))
  }

  /** Mapping further blocks loses nothing. */
  lemma {:induction false} KeepsCells(sb: Super, v: Vol, ip: Inode, v': Vol, ip': Inode, p: nat)
    requires VolOk(sb, v) && InodeOk(sb, ip) && VolOk(sb, v') && InodeOk(sb, ip') && p < MAXBYTES
    requires KeepsFile(sb, v, ip, v', ip')
    ensures CellAt(sb, v, ip, p).Held? ==> CellAt(sb, v', ip', p) == CellAt(sb, v, ip, p)
  {
    assert p / BSIZE < MAXFILE;
  }

  lemma {:induction false} WroteKeeps(sb: Super, v0: Vol, ip0: Inode, v: Vol, ip: Inode, v': Vol, ip': Inode,
                                      src: seq<Byte>, off: nat, tot: nat)
    requires VolOk(sb, v0) && InodeOk(sb, ip0) && VolOk(sb, v) && InodeOk(sb, ip) && VolOk(sb, v') && InodeOk(sb, ip')
    requires tot <= |src| && off + |src| <= MAXBYTES
    requires Wrote(sb, v0, ip0, v, ip, src, off, tot) && KeepsFile(sb, v, ip, v', ip')
    ensures Wrote(sb, v0, ip0, v', ip', src, off, tot)
  {
    forall p: nat | p < MAXBYTES ensures CellAt(sb, v, ip, p).Held? ==> CellAt(sb, v', ip', p) == CellAt(sb, v, ip, p) {
      KeepsCells(sb, v, ip, v', ip', p);
    }
  }

  /** memmove into a block buffer. */
  function Patch(b: Block, at: nat, data: seq<Byte>): (r: Block)
    requires at + |data| <= BSIZE
    ensures forall k :: 0 <= k < BSIZE ==> r[k] == if at <= k < at + |data| then data[k - at] else b[k]
  {
    b[..at] + data + b[at + |data|..]
  }

  function SetBlock(v: Vol, a: nat, b: Block): Vol
    requires a < |v.blocks|
  {
    v.(blocks := v.blocks[a := b])
  }

  /** Overwriting a file block changes no slot of any inode. */
  lemma {:induction false} SetBlockSlots(sb: Super, v: Vol, inodes: map<nat, Inode>, owner: map<nat, (nat, nat)>,
                                         i: nat, bn: nat, b: Block, j: nat, t: nat)
    requires Owned(sb, v, inodes, owner) && i in inodes && bn < MAXFILE && j in inodes && t < SLOTS
    requires Addr(sb, v, inodes[i], bn) != 0
    ensures Addr(sb, v, inodes[i], bn) < sb.size
    ensures var v' := SetBlock(v, Addr(sb, v, inodes[i], bn), b);
            VolOk(sb, v') && Slot(sb, v', inodes[j], t) == Slot(sb, v, inodes[j], t)
  {
    assert SlotsOwned(sb, v, inodes[i], i, owner) && SlotsOwned(sb, v, inodes[j], j, owner);
    var a := Addr(sb, v, inodes[i], bn);
    assert a in owner && owner[a] == (i, SlotOf(bn));
    var ind := inodes[j].addrs[NDIRECT];
    assert Slot(sb, v, inodes[j], NDIRECT) == ind;
    assert ind != 0 ==> owner[ind] == (j, NDIRECT);
    assert ind != a || ind == 0;
  }

  lemma {:induction false} SetBlockOwned(sb: Super, v: Vol, inodes: map<nat, Inode>, owner: map<nat, (nat, nat)>,
                                         i: nat, bn: nat, b: Block)
    requires Owned(sb, v, inodes, owner) && i in inodes && bn < MAXFILE && Addr(sb, v, inodes[i], bn) != 0
    ensures Addr(sb, v, inodes[i], bn) < sb.size
    ensures Owned(sb, SetBlock(v, Addr(sb, v, inodes[i], bn), b), inodes, owner)
  {
    SetBlockSlots(sb, v, inodes, owner, i, bn, b, i, 0);
    var v' := SetBlock(v, Addr(sb, v, inodes[i], bn), b);
    forall j | j in inodes ensures SlotsOwned(sb, v', inodes[j], j, owner) {
      assert SlotsOwned(sb, v, inodes[j], j, owner);
      forall t | 0 <= t < SLOTS ensures Slot(sb, v', inodes[j], t) == Slot(sb, v, inodes[j], t) {
        SetBlockSlots(sb, v, inodes, owner, i, bn, b, j, t);
      }
    }
    forall a | a in owner ensures Owns(sb, v', inodes, owner[a], a) {
      assert Owns(sb, v, inodes, owner[a], a);
      SetBlockSlots(sb, v, inodes, owner, i, bn, b, owner[a].0, owner[a].1);
    }
  }

  /** Only the cells of that one block of that one file change. */
  lemma {:induction false} SetBlockCells(sb: Super, v: Vol, inodes: map<nat, Inode>, owner: map<nat, (nat, nat)>,
                                         i: nat, bn: nat, b: Block, j: nat, p: nat)
    requires Owned(sb, v, inodes, owner) && i in inodes && bn < MAXFILE && j in inodes && p < MAXBYTES
    requires Addr(sb, v, inodes[i], bn) != 0
    ensures Addr(sb, v, inodes[i], bn) < sb.size
    ensures var v' := SetBlock(v, Addr(sb, v, inodes[i], bn), b);
            VolOk(sb, v') && CellAt(sb, v', inodes[j], p)
              == if j == i && p / BSIZE == bn then Held(b[p % BSIZE]) else CellAt(sb, v, inodes[j], p)
  {
    SetBlockSlots(sb, v, inodes, owner, i, bn, b, j, SlotOf(p / BSIZE));
    assert SlotsOwned(sb, v, inodes[i], i, owner) && SlotsOwned(sb, v, inodes[j], j, owner);
    var a, c := Addr(sb, v, inodes[i], bn), Addr(sb, v, inodes[j], p / BSIZE);
    assert a in owner && owner[a] == (i, SlotOf(bn));
    assert c != 0 ==> c in owner && owner[c] == (j, SlotOf(p / BSIZE));
  }

  /** One iteration of writei's loop, after bmap has found the block. */
  lemma {:induction false} PatchWrote(sb: Super, v0: Vol, ip0: Inode, v: Vol, inodes: map<nat, Inode>,
                                      owner: map<nat, (nat, nat)>, i: nat, src: seq<Byte>, off: nat, tot: nat, m: nat)
    requires VolOk(sb, v0) && InodeOk(sb, ip0) && Owned(sb, v, inodes, owner) && i in inodes
    requires tot + m <= |src| && off + |src| <= MAXBYTES && (off + tot) % BSIZE + m <= BSIZE && off + tot < MAXBYTES
    requires Addr(sb, v, inodes[i], (off + tot) / BSIZE) != 0
    requires Wrote(sb, v0, ip0, v, inodes[i], src, off, tot)
    ensures var a := Addr(sb, v, inodes[i], (off + tot) / BSIZE);
            && a < sb.size
            && var v' := SetBlock(v, a, Patch(v.blocks[a], (off + tot) % BSIZE, src[tot..tot + m]));
               VolOk(sb, v') && Wrote(sb, v0, ip0, v', inodes[i], src, off, tot + m)
  {
    var bn, at := (off + tot) / BSIZE, (off + tot) % BSIZE;
    SetBlockSlots(sb, v, inodes, owner, i, bn, Zero(), i, 0);
    var a := Addr(sb, v, inodes[i], bn);
    var b := Patch(v.blocks[a], at, src[tot..tot + m]);
    var v' := SetBlock(v, a, b);
    forall p: nat | p < MAXBYTES
      ensures CellAt(sb, v', inodes[i], p)
                == if off + tot <= p < off + tot + m then Held(src[p - off]) else CellAt(sb, v, inodes[i], p)
    {
      SetBlockCells(sb, v, inodes, owner, i, bn, b, i, p);
      if off + tot <= p < off + tot + m {
        InBlock(off + tot, p - off - tot);
      } else if p / BSIZE == bn {
        assert p == bn * BSIZE + p % BSIZE && off + tot == bn * BSIZE + at;
      }
    }
  }

  /** The byte sequence an inode stands for. */
  ghost function Contents(sb: Super, v: Vol, ip: Inode): (c: seq<Byte>)
    requires VolOk(sb, v) && InodeOk(sb, ip) && ip.size <= MAXBYTES
    ensures |c| == ip.size
  {
    seq(ip.size, p requires 0 <= p < ip.size => match CellAt(sb, v, ip, p) case Hole => 0 case Held(b) => b)
  }

  /** Replace the bytes from `off` on by `src`, growing the sequence if needed. */
  function Splice(s: seq<Byte>, off: nat, src: seq<Byte>): seq<Byte>
    requires off <= |s|
  {
    s[..off] + src + (if off + |src| < |s| then s[off + |src|..] else [])
  }

  /** Below its size a file without holes holds bytes. */
  lemma NoHolesHeld(sb: Super, v: Vol, ip: Inode, p: nat)
    requires VolOk(sb, v) && InodeOk(sb, ip) && InRange(sb, v, ip) && NoHoles(sb, v, ip) && p < ip.size
    ensures p < MAXBYTES && CellAt(sb, v, ip, p).Held?
  {
    assert p / BSIZE * BSIZE <= p;
    assert Slot(sb, v, ip, SlotOf(p / BSIZE)) < sb.size;
  }

  lemma {:induction false} WroteNoHoles(sb: Super, v0: Vol, ip0: Inode, v: Vol, ip: Inode, src: seq<Byte>, off: nat)
    requires VolOk(sb, v0) && InodeOk(sb, ip0) && VolOk(sb, v) && InodeOk(sb, ip) && InRange(sb, v0, ip0)
    requires off + |src| <= MAXBYTES && off <= ip0.size && NoHoles(sb, v0, ip0)
    requires Wrote(sb, v0, ip0, v, ip, src, off, |src|)
    requires ip.size == if off + |src| > ip0.size then off + |src| else ip0.size
    ensures NoHoles(sb, v, ip)
  {
    forall bn | 0 <= bn < MAXFILE && bn * BSIZE < ip.size ensures Addr(sb, v, ip, bn) != 0 {
      var p := bn * BSIZE;
      assert p / BSIZE == bn;
      if !(off <= p < off + |src|) {
        NoHolesHeld(sb, v0, ip0, p);
      }
      assert CellAt(sb, v, ip, p).Held?;
    }
  }

  /** A finished write splices the source into the file. */
  lemma {:induction false} WroteContents(sb: Super, v0: Vol, ip0: Inode, v: Vol, ip: Inode, src: seq<Byte>, off: nat)
    requires VolOk(sb, v0) && InodeOk(sb, ip0) && VolOk(sb, v) && InodeOk(sb, ip) && InRange(sb, v0, ip0)
    requires off + |src| <= MAXBYTES && off <= ip0.size && NoHoles(sb, v0, ip0)
    requires Wrote(sb, v0, ip0, v, ip, src, off, |src|)
    requires ip.size == if off + |src| > ip0.size then off + |src| else ip0.size
    ensures Contents(sb, v, ip) == Splice(Contents(sb, v0, ip0), off, src)
  {
    var c, d := Contents(sb, v, ip), Splice(Contents(sb, v0, ip0), off, src);
    assert |c| == |d|;
    forall p | 0 <= p < |c| ensures c[p] == d[p] {
      if !(off <= p < off + |src|) {
        NoHolesHeld(sb, v0, ip0, p);
      }
    }
  }

  /** Every byte of one file, and the file's metadata apart from addresses, survive. */
  ghost predicate CellsKept(sb: Super, v: Vol, ip: Inode, v': Vol, ip': Inode)
    requires VolOk(sb, v) && InodeOk(sb, ip) && VolOk(sb, v') && InodeOk(sb, ip')
  {
    && ip' == ip.(addrs := ip'.addrs)
    && forall p: nat :: p < MAXBYTES && CellAt(sb, v, ip, p).Held? ==> CellAt(sb, v', ip', p) == CellAt(sb, v, ip, p)
  }

  /** The files other than `i` are untouched. */
  ghost predicate OthersKept(sb: Super, v: Vol, inodes: map<nat, Inode>, v': Vol, inodes': map<nat, Inode>, i: nat)
    requires VolOk(sb, v) && VolOk(sb, v')
    requires forall j :: j in inodes ==> InodeOk(sb, inodes[j])
  {
    && inodes'.Keys == inodes.Keys
    && (forall j :: j in inodes && j != i ==> inodes'[j] == inodes[j] && CellsKept(sb, v, inodes[j], v', inodes[j]))
  }

  lemma {:induction false} OthersTrans(sb: Super, v: Vol, inodes: map<nat, Inode>, v1: Vol, inodes1: map<nat, Inode>,
                                       v2: Vol, inodes2: map<nat, Inode>, i: nat)
    requires VolOk(sb, v) && VolOk(sb, v1) && VolOk(sb, v2)
    requires forall j :: j in inodes ==> InodeOk(sb, inodes[j])
    requires forall j :: j in inodes1 ==> InodeOk(sb, inodes1[j])
    requires OthersKept(sb, v, inodes, v1, inodes1, i) && OthersKept(sb, v1, inodes1, v2, inodes2, i)
    ensures OthersKept(sb, v, inodes, v2, inodes2, i)
  {
    forall j | j in inodes && j != i ensures inodes2[j] == inodes[j] && CellsKept(sb, v, inodes[j], v2, inodes[j]) {
      assert CellsKept(sb, v, inodes[j], v1, inodes[j]) && CellsKept(sb, v1, inodes1[j], v2, inodes1[j]);
    }
  }

  lemma {:induction false} KeepsOthers(sb: Super, v: Vol, inodes: map<nat, Inode>, v': Vol, inodes': map<nat, Inode>,
                                       i: nat)
    requires VolOk(sb, v) && VolOk(sb, v')
    requires forall j :: j in inodes ==> InodeOk(sb, inodes[j])
    requires forall j :: j in inodes' ==> InodeOk(sb, inodes'[j])
    requires Keeps(sb, v, inodes, v', inodes') && forall j :: j in inodes && j != i ==> inodes'[j] == inodes[j]
    ensures OthersKept(sb, v, inodes, v', inodes', i)
  {
    forall j | j in inodes && j != i ensures CellsKept(sb, v, inodes[j], v', inodes[j]) {
      assert KeepsFile(sb, v, inodes[j], v', inodes'[j]);
      forall p: nat | p < MAXBYTES && CellAt(sb, v, inodes[j], p).Held?
        ensures CellAt(sb, v', inodes[j], p) == CellAt(sb, v, inodes[j], p)
      {
        KeepsCells(sb, v, inodes[j], v', inodes[j], p);
      }
    }
  }

  lemma {:induction false} SetBlockOthers(sb: Super, v: Vol, inodes: map<nat, Inode>, owner: map<nat, (nat, nat)>,
                                          i: nat, bn: nat, b: Block)
    requires Owned(sb, v, inodes, owner) && i in inodes && bn < MAXFILE && Addr(sb, v, inodes[i], bn) != 0
    ensures Addr(sb, v, inodes[i], bn) < sb.size
    ensures var v' := SetBlock(v, Addr(sb, v, inodes[i], bn), b);
            VolOk(sb, v') && OthersKept(sb, v, inodes, v', inodes, i)
  {
    SetBlockSlots(sb, v, inodes, owner, i, bn, b, i, 0);
    var v' := SetBlock(v, Addr(sb, v, inodes[i], bn), b);
    forall j | j in inodes && j != i ensures CellsKept(sb, v, inodes[j], v', inodes[j]) {
      forall p: nat | p < MAXBYTES ensures CellAt(sb, v', inodes[j], p) == CellAt(sb, v, inodes[j], p) {
        SetBlockCells(sb, v, inodes, owner, i, bn, b, j, p);
      }
    }
  }

  /** A file whose mapped blocks are kept keeps its contents. */
  lemma {:induction false} KeepsContents(sb: Super, v: Vol, ip: Inode, v': Vol, ip': Inode)
    requires VolOk(sb, v) && InodeOk(sb, ip) && VolOk(sb, v') && InodeOk(sb, ip') && InRange(sb, v, ip)
    requires NoHoles(sb, v, ip) && ip'.size == ip.size
    requires CellsKept(sb, v, ip, v', ip')
    ensures NoHoles(sb, v', ip') && Contents(sb, v', ip') == Contents(sb, v, ip)
  {
    forall p | 0 <= p < ip.size ensures CellAt(sb, v', ip', p) == CellAt(sb, v, ip, p) && CellAt(sb, v, ip, p).Held? {
      NoHolesHeld(sb, v, ip, p);
    }
    forall bn | 0 <= bn < MAXFILE && bn * BSIZE < ip.size ensures Addr(sb, v', ip', bn) != 0 {
      assert bn * BSIZE / BSIZE == bn;
      assert CellAt(sb, v', ip', bn * BSIZE).Held?;
    }
  }

  /** The part of a file that lies in one block, after bmap has mapped that block; a hole becomes zeroes. */
  lemma {:induction false} ReadChunk(sb: Super, v: Vol, ip: Inode, v': Vol, ip': Inode, off: nat, m: nat)
    requires VolOk(sb, v) && InodeOk(sb, ip) && VolOk(sb, v') && InodeOk(sb, ip') && InRange(sb, v, ip)
    requires 0 < m && off + m <= ip.size <= MAXBYTES && off % BSIZE + m <= BSIZE && KeepsFile(sb, v, ip, v', ip')
    requires 0 < Addr(sb, v', ip', off / BSIZE) < sb.size
    requires Addr(sb, v, ip, off / BSIZE) == 0 ==> v'.blocks[Addr(sb, v', ip', off / BSIZE)] == Zero()
    ensures v'.blocks[Addr(sb, v', ip', off / BSIZE)][off % BSIZE..off % BSIZE + m] == Contents(sb, v, ip)[off..off + m]
  {
    var a := Addr(sb, v', ip', off / BSIZE);
    assert Slot(sb, v, ip, SlotOf(off / BSIZE)) < sb.size;
    var part, want := v'.blocks[a][off % BSIZE..off % BSIZE + m], Contents(sb, v, ip)[off..off + m];
    forall k | 0 <= k < m ensures part[k] == want[k] {
      InBlock(off, k);
    }
  }

  /** Mapping a block of zeroes does not change what a file reads as. */
  lemma {:induction false} MapReadsSame(sb: Super, v: Vol, ip: Inode, v': Vol, ip': Inode, bn: nat)
    requires VolOk(sb, v) && InodeOk(sb, ip) && VolOk(sb, v') && InodeOk(sb, ip') && InRange(sb, v, ip) && bn < MAXFILE
    requires ip'.size == ip.size <= MAXBYTES && KeepsFile(sb, v, ip, v', ip') && OnlyMaps(sb, v, ip, v', ip', bn)
    requires 0 < Addr(sb, v', ip', bn) < sb.size
    requires Addr(sb, v, ip, bn) == 0 ==> v'.blocks[Addr(sb, v', ip', bn)] == Zero()
    ensures Contents(sb, v', ip') == Contents(sb, v, ip)
  {
    forall p: nat | p < ip.size ensures Contents(sb, v', ip')[p] == Contents(sb, v, ip)[p] {
      var b := p / BSIZE;
      assert Slot(sb, v, ip, SlotOf(b)) < sb.size;
      assert b != bn ==> Addr(sb, v', ip', b) == Addr(sb, v, ip, b);
    }
  }

  /** Blocks below the old size are still mapped in the middle of a write. */
  lemma {:induction false} WroteMapped(sb: Super, v0: Vol, ip0: Inode, v: Vol, ip: Inode, src: seq<Byte>, off: nat,
                                       tot: nat, bn: nat)
    requires VolOk(sb, v0) && InodeOk(sb, ip0) && VolOk(sb, v) && InodeOk(sb, ip) && InRange(sb, v0, ip0)
    requires tot <= |src| && off + |src| <= MAXBYTES && NoHoles(sb, v0, ip0)
    requires Wrote(sb, v0, ip0, v, ip, src, off, tot) && bn * BSIZE < ip0.size
    ensures bn < MAXFILE && Addr(sb, v, ip, bn) != 0
  {
    var p := bn * BSIZE;
    assert p / BSIZE == bn;
    NoHolesHeld(sb, v0, ip0, p);
    assert CellAt(sb, v, ip, p).Held?;
  }
}
