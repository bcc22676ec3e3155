/**
 The inode layer of fs.c: balloc, bfree, bmap, itrunc, iupdate, readi and
 writei over a volume. A panic of the source is the result `false`, `None` or
 `Panic`; it is promised to happen only when every block is in use, and nothing
 is promised about the state it leaves.
 */
module InodeLayer {
  import opened Basics
  import opened Words
  import opened Volume
  import opened FileBytes
  import opened InodeSteps
  import opened InodeLog

  class FileSystem {
    const sb: Super
    /** The devices whose drivers can read and write. */
    const readers: set<int>
    const writers: set<int>
    /** The bitmap and the blocks, as seen through the buffer cache. */
    var vol: Vol
    /** In-memory copies of the inodes in use, and the inodes on disk. */
    var inodes: map<nat, Inode>
    var dinodes: map<nat, Inode>
    /** Who refers to each allocated data block. */
    ghost var owner: map<nat, (nat, nat)>
    /** Block numbers passed to log_write. */
    ghost var logged: set<nat>

    ghost predicate Valid()
      reads this
    {
      Owned(sb, vol, inodes, owner)
    }

    /** An empty volume as mkfs starts from: metadata blocks in use, inodes `inums` without blocks. */
    constructor (sb: Super, inums: set<nat>, readers: set<int>, writers: set<int>)
      requires sb.Valid()
      ensures Settled() && this.sb == sb && logged == {} && inodes.Keys == inums
      ensures this.readers == readers && this.writers == writers
      ensures forall i :: i in inodes ==> Bytes()[i] == []
      ensures forall a :: 0 <= a < sb.size ==> (vol.bits[a] <==> a < sb.data)
    {
      this.sb, this.readers, this.writers := sb, readers, writers;
      vol := Vol(seq(sb.size, a => a < sb.data), seq(sb.size, _ => Zero()));
      var ip := Inode(0, 0, 0, 0, 0, seq(NDIRECT + 1, _ => 0));
      inodes := map i | i in inums :: ip;
      dinodes := map i | i in inums :: ip;
      owner, logged := map[], {};
    }

    /** begin_op: a new transaction has logged nothing. */
    method BeginOp()
      modifies this`logged
      ensures logged == {}
    {
      logged := {};
    }

    /** balloc: marks and zeroes the first free block. */
    method Balloc() returns (r: Option<nat>)
      requires VolOk(sb, vol)
      modifies this`vol, this`logged
      ensures VolOk(sb, vol)
      ensures r.None? ==> vol == old(vol) && Full(vol)
      ensures r.Some? ==>
                && r.value < sb.size && !old(vol).bits[r.value]
                && (forall c :: 0 <= c < r.value ==> old(vol).bits[c])
                && vol == Vol(old(vol).bits[r.value := true], old(vol).blocks[r.value := Zero()])
                && logged == old(logged) + {sb.BBlock(r.value), r.value}
    {
      var b := 0;
      while b < sb.size
        invariant 0 <= b && vol == old(vol) && logged == old(logged) && b % BPB == 0
        invariant forall c :: 0 <= c < b && c < sb.size ==> vol.bits[c]
      {
        var bi := 0;
        while bi < BPB && b + bi < sb.size
          invariant 0 <= bi <= BPB && vol == old(vol) && logged == old(logged)
          invariant forall c :: 0 <= c < b + bi && c < sb.size ==> vol.bits[c]
        {
          if !vol.bits[b + bi] {
            vol := vol.(bits := vol.bits[b + bi := true]);
            logged := logged + {sb.BBlock(b)};
            assert sb.BBlock(b) == sb.BBlock(b + bi);
            Bzero(b + bi);
            return Some(b + bi);
          }
          bi := bi + 1;
        }
        b := b + BPB;
      }
      r := None;
    }

    /** bzero. */
    method Bzero(b: nat)
      requires VolOk(sb, vol) && b < sb.size
      modifies this`vol, this`logged
      ensures vol == old(vol).(blocks := old(vol).blocks[b := Zero()]) && logged == old(logged) + {b}
    {
      vol := vol.(blocks := vol.blocks[b := Zero()]);
      logged := logged + {b};
    }

    /** bfree: clears the bit of an allocated block; freeing a free block panics. */
    method Bfree(b: nat) returns (ok: bool)
      requires VolOk(sb, vol) && b < sb.size
      modifies this`vol, this`logged
      ensures ok == old(vol).bits[b]
      ensures ok ==> vol == old(vol).(bits := old(vol).bits[b := false]) && logged == old(logged) + {sb.BBlock(b)}
      ensures !ok ==> vol == old(vol) && logged == old(logged)
    {
      if !vol.bits[b] {
        return false;
      }
      vol := vol.(bits := vol.bits[b := false]);
      logged := logged + {sb.BBlock(b)};
      ok := true;
    }

    /** balloc, and the assignment that makes the new block the contents of an empty slot. */
    method GiveRaw(inum: nat, s: nat) returns (r: Option<nat>)
      requires Valid() && inum in inodes && s < SLOTS && Slot(sb, vol, inodes[inum], s) == 0
      requires s > NDIRECT ==> inodes[inum].addrs[NDIRECT] != 0
      modifies this`vol, this`inodes, this`owner, this`logged
      ensures r.None? ==> Full(vol)
      ensures r.Some? ==>
                && CanGive(sb, old(vol), old(inodes), old(owner), inum, s, r.value)
                && vol == GiveVol(sb, old(vol), old(inodes[inum]), s, r.value)
                && inodes == old(inodes)[inum := GiveInode(old(inodes[inum]), s, r.value)]
                && owner == old(owner)[r.value := (inum, s)]
                && logged == old(logged) + {sb.BBlock(r.value), r.value}
                + (if s > NDIRECT then {old(inodes[inum]).addrs[NDIRECT]} else {})
    {
      r := Balloc();
      if r.Some? {
        var a := r.value;
        owner := owner[a := (inum, s)];
        if s <= NDIRECT {
          inodes := inodes[inum := inodes[inum].(addrs := inodes[inum].addrs[s := a])];
        } else {
          var ind := inodes[inum].addrs[NDIRECT];
          vol := vol.(blocks := SetEntry(vol.blocks, ind, s - NDIRECT - 1, a));
          logged := logged + {ind};
          assert inodes == inodes[inum := inodes[inum]];
        }
      }
    }

    /** The same, in terms of what other slots and files keep. */
    method Give(inum: nat, s: nat) returns (r: Option<nat>)
      requires Valid() && inum in inodes && s < SLOTS && Slot(sb, vol, inodes[inum], s) == 0
      requires s > NDIRECT ==> inodes[inum].addrs[NDIRECT] != 0
      modifies this`vol, this`inodes, this`owner, this`logged
      ensures r.None? ==> Full(vol)
      ensures r.Some? ==>
                && Valid() && inum in inodes && Keeps(sb, old(vol), old(inodes), vol, inodes)
                && sb.data <= r.value < sb.size && Slot(sb, vol, inodes[inum], s) == r.value
                && vol.blocks[r.value] == Zero()
                && inodes[inum].addrs[NDIRECT] == (if s == NDIRECT then r.value else old(inodes[inum]).addrs[NDIRECT])
                && r.value !in old(owner) && owner == old(owner)[r.value := (inum, s)]
                && OtherSlots(sb, old(vol), old(inodes[inum]), vol, inodes[inum], s)
                && (forall j :: j in inodes && j != inum ==> inodes[j] == old(inodes[j]))
                && logged == old(logged) + {sb.BBlock(r.value), r.value}
                + (if s > NDIRECT then {inodes[inum].addrs[NDIRECT]} else {})
    {
      hide Keeps, Full, Slot, GiveVol, CanGive, GetWord, SlotsOwned, Owns, OtherSlots;
      r := GiveRaw(inum, s);
      if r.Some? {
        GiveFacts(sb, old(vol), old(inodes), old(owner), inum, s, r.value);
      }
    }

    /** bmap: the address of file block `bn`, allocating it (and the indirect block) if there is none. */
    method Bmap(inum: nat, bn: nat) returns (r: Option<nat>)
      requires Valid() && inum in inodes
      modifies this`vol, this`inodes, this`owner, this`logged
      ensures r.None? ==> bn >= MAXFILE || Full(vol)
      ensures bn >= MAXFILE ==> r.None?
      ensures bn < MAXFILE && Addr(sb, old(vol), old(inodes[inum]), bn) != 0 ==> r.Some?
      ensures r.Some? ==>
                && Valid() && inum in inodes && Keeps(sb, old(vol), old(inodes), vol, inodes)
                && sb.data <= r.value < sb.size && Addr(sb, vol, inodes[inum], bn) == r.value
                && OnlyMaps(sb, old(vol), old(inodes[inum]), vol, inodes[inum], bn)
                && (forall j :: j in inodes && j != inum ==> inodes[j] == old(inodes[j]))
                && FileBlock(sb, vol, inodes[inum], bn, r.value)
      ensures r.Some? && Addr(sb, old(vol), old(inodes[inum]), bn) != 0 ==>
                vol == old(vol) && inodes == old(inodes) && owner == old(owner) && logged == old(logged)
      ensures r.Some? && Addr(sb, old(vol), old(inodes[inum]), bn) == 0 ==>
                && vol.blocks[r.value] == Zero()
                && r.value !in old(owner)
                && Charged(sb, old(owner), old(logged), owner, logged, inum, bn, r.value, inodes[inum].addrs[NDIRECT])
    {
      hide Full, SlotsOwned, Owns, GetWord, Charged, OtherSlots;
      if bn < NDIRECT {
        var addr := inodes[inum].addrs[bn];
        if addr == 0 {
          r := Give(inum, bn);
          if r.Some? {
            ChargeEntry(sb, old(owner), old(logged), inum, bn, r.value, inodes[inum].addrs[NDIRECT]);
            SameSlots(sb, old(vol), old(inodes[inum]), NDIRECT);
            SlotsMap(sb, old(vol), old(inodes[inum]), old(vol), old(inodes[inum]), vol, inodes[inum], bn);
          }
        } else {
          Mapped(inum, bn);
          r := Some(addr);
        }
        return;
      }
      if bn - NDIRECT < NINDIRECT {
        r := BmapIndirect(inum, bn);
        if r.Some? { AddrLayout(sb, vol, inodes[inum], bn, r.value); }
        return;
      }
      r := None;
    }

    /** A mapped slot refers to an allocated data block. */
    lemma Mapped(inum: nat, s: nat)
      requires Valid() && inum in inodes && s < SLOTS && Slot(sb, vol, inodes[inum], s) != 0
      ensures sb.data <= Slot(sb, vol, inodes[inum], s) < sb.size
      ensures Slot(sb, vol, inodes[inum], s) in owner && owner[Slot(sb, vol, inodes[inum], s)] == (inum, s)
    {
      assert SlotsOwned(sb, vol, inodes[inum], inum, owner);
    }

    /** The second half of bmap: load or allocate the indirect block, then the entry. */
    method BmapIndirect(inum: nat, bn: nat) returns (r: Option<nat>)
      requires Valid() && inum in inodes && NDIRECT <= bn < MAXFILE
      modifies this`vol, this`inodes, this`owner, this`logged
      ensures r.None? ==> Full(vol)
      ensures Addr(sb, old(vol), old(inodes[inum]), bn) != 0 ==> r.Some?
      ensures r.Some? ==>
                && Valid() && inum in inodes && Keeps(sb, old(vol), old(inodes), vol, inodes)
                && sb.data <= r.value < sb.size && Addr(sb, vol, inodes[inum], bn) == r.value
                && OnlyMaps(sb, old(vol), old(inodes[inum]), vol, inodes[inum], bn)
                && (forall j :: j in inodes && j != inum ==> inodes[j] == old(inodes[j]))
      ensures r.Some? && Addr(sb, old(vol), old(inodes[inum]), bn) != 0 ==>
                vol == old(vol) && inodes == old(inodes) && owner == old(owner) && logged == old(logged)
      ensures r.Some? && Addr(sb, old(vol), old(inodes[inum]), bn) == 0 ==>
                && vol.blocks[r.value] == Zero()
                && r.value !in old(owner)
                && Charged(sb, old(owner), old(logged), owner, logged, inum, bn, r.value, inodes[inum].addrs[NDIRECT])
    {
      hide Full, SlotsOwned, Owns, GetWord, Charged, OtherSlots;
      if inodes[inum].addrs[NDIRECT] == 0 {
        r := BmapFresh(inum, bn);
        return;
      }
      Mapped(inum, NDIRECT);
      var addr := GetWord(vol.blocks[inodes[inum].addrs[NDIRECT]], bn - NDIRECT);
      if addr == 0 {
        r := Give(inum, bn + 1);
        if r.Some? {
          ChargeEntry(sb, old(owner), old(logged), inum, bn, r.value, inodes[inum].addrs[NDIRECT]);
          SameSlots(sb, old(vol), old(inodes[inum]), NDIRECT);
          SlotsMap(sb, old(vol), old(inodes[inum]), old(vol), old(inodes[inum]), vol, inodes[inum], bn);
        }
      } else {
        Mapped(inum, bn + 1);
        r := Some(addr);
      }
    }

    /** bmap when both the indirect block and the entry have to be allocated. */
    method BmapFresh(inum: nat, bn: nat) returns (r: Option<nat>)
      requires Valid() && inum in inodes && NDIRECT <= bn < MAXFILE && inodes[inum].addrs[NDIRECT] == 0
      modifies this`vol, this`inodes, this`owner, this`logged
      ensures r.None? ==> Full(vol)
      ensures r.Some? ==>
                && Valid() && inum in inodes && Keeps(sb, old(vol), old(inodes), vol, inodes)
                && sb.data <= r.value < sb.size && Addr(sb, vol, inodes[inum], bn) == r.value
                && OnlyMaps(sb, old(vol), old(inodes[inum]), vol, inodes[inum], bn)
                && (forall j :: j in inodes && j != inum ==> inodes[j] == old(inodes[j]))
                && vol.blocks[r.value] == Zero()
                && r.value !in old(owner)
                && Charged(sb, old(owner), old(logged), owner, logged, inum, bn, r.value, inodes[inum].addrs[NDIRECT])
    {
      hide Keeps, Full, SlotsOwned, Owns, GetWord, Charged, OtherSlots, OnlyMaps;
      r := GiveIndirect(inum);
      if r.None? { return; }
      ghost var ind := r.value;
      ghost var v1, inodes1 := vol, inodes;
      r := Give(inum, bn + 1);
      if r.Some? {
        KeepsTrans(sb, old(vol), old(inodes), v1, inodes1, vol, inodes);
        ChargeBoth(sb, old(owner), old(logged), inum, bn, r.value, ind);
        SlotsMap(sb, old(vol), old(inodes[inum]), v1, inodes1[inum], vol, inodes[inum], bn);
      }
    }

    /** Allocate the indirect block: all of its entries are empty. */
    method GiveIndirect(inum: nat) returns (r: Option<nat>)
      requires Valid() && inum in inodes && inodes[inum].addrs[NDIRECT] == 0
      modifies this`vol, this`inodes, this`owner, this`logged
      ensures r.None? ==> Full(vol)
      ensures r.Some? ==>
                && Valid() && inum in inodes && Keeps(sb, old(vol), old(inodes), vol, inodes)
                && r.value != 0 && inodes[inum].addrs[NDIRECT] == r.value
                && r.value !in old(owner) && owner == old(owner)[r.value := (inum, NDIRECT)]
                && OtherSlots(sb, old(vol), old(inodes[inum]), vol, inodes[inum], NDIRECT)
                && (forall t :: NDIRECT < t < SLOTS ==> Slot(sb, vol, inodes[inum], t) == 0)
                && (forall j :: j in inodes && j != inum ==> inodes[j] == old(inodes[j]))
                && logged == old(logged) + {sb.BBlock(r.value), r.value}
    {
      r := Give(inum, NDIRECT);
      if r.Some? {
        forall t | NDIRECT < t < SLOTS ensures Slot(sb, vol, inodes[inum], t) == 0 {
          ZeroWord(t - NDIRECT - 1);
        }
      }
    }

    /**
     Between operations: ownership, no holes, no blocks beyond the end of a file,
     and the inodes on disk are the ones in memory.
     */
    ghost predicate Settled()
      reads this
    {
      Valid() && Solid(sb, vol, inodes) && dinodes == inodes && Snug(owner, inodes)
    }

    /** The bytes of every file. */
    ghost function Bytes(): map<nat, seq<Byte>>
      reads this
      requires Settled()
      ensures Bytes().Keys == inodes.Keys && forall i :: i in inodes ==> |Bytes()[i]| == inodes[i].size
    {
      Files(sb, vol, inodes)
    }

    /**
     readi: the clamped slice of the file. Holes are read as zeroes and mapped on
     the way; a file without holes is read without any change.
     */
    method Readi(inum: nat, off: nat, n: nat) returns (r: Io, dst: seq<Byte>)
      requires Valid() && inum in inodes && off < WORD && n < WORD
      modifies this`vol, this`inodes, this`owner, this`logged
      ensures r == Device <==> Driven(readers, old(inodes[inum]))
      ensures r == Fail <==>
                if old(inodes[inum]).typ == T_DEV then !Driven(readers, old(inodes[inum]))
                else off > old(inodes[inum]).size || off + n >= WORD
      ensures r == Panic ==> Full(vol) || old(inodes[inum]).size > MAXBYTES
      ensures r == Device || r == Fail || NoHoles(sb, old(vol), old(inodes[inum])) ==>
                r != Panic && vol == old(vol) && inodes == old(inodes) && owner == old(owner) && logged == old(logged)
      ensures r.Done? ==> r.n == Min(n, old(inodes[inum]).size - off)
      ensures r.Done? ==> Valid() && inum in inodes && ReadKeeps(sb, old(vol), old(inodes), vol, inodes, inum)
      ensures r.Done? && old(inodes[inum]).size <= MAXBYTES ==>
                dst == Contents(sb, old(vol), old(inodes[inum]))[off..off + r.n]
    {
      hide Owned, Full, NoHoles, Contents, ReadKeeps;
      dst := [];
      var ip := inodes[inum];
      if ip.typ == T_DEV {
        if ip.major < 0 || ip.major >= NDEV || ip.major !in readers { return Fail, []; }
        return Device, [];
      }
      if off > ip.size || Add32(off, n) < off { return Fail, []; }
      var n' := if off + n > ip.size then ip.size - off else n;
      var ok;
      ok, dst := ReadLoop(inum, off, n');
      r := if ok then Done(n') else Panic;
    }

    /** readi's loop, for a range inside the file. */
    method ReadLoop(inum: nat, off: nat, n: nat) returns (ok: bool, dst: seq<Byte>)
      requires Valid() && inum in inodes && off + n <= inodes[inum].size
      modifies this`vol, this`inodes, this`owner, this`logged
      ensures !ok ==> Full(vol) || old(inodes[inum]).size > MAXBYTES
      ensures NoHoles(sb, old(vol), old(inodes[inum])) ==>
                ok && vol == old(vol) && inodes == old(inodes) && owner == old(owner) && logged == old(logged)
      ensures ok ==> Valid() && inum in inodes && ReadKeeps(sb, old(vol), old(inodes), vol, inodes, inum)
      ensures ok && old(inodes[inum]).size <= MAXBYTES ==>
                dst == Contents(sb, old(vol), old(inodes[inum]))[off..off + n]
    {
      hide Full, NoHoles, Contents, SlotsOwned, Owns, ReadKeeps;
      ghost var small := inodes[inum].size <= MAXBYTES;
      ghost var c := if small then Contents(sb, vol, inodes[inum]) else [];
      ReadNothing(sb, vol, inodes, inum);
      dst := [];
      var tot := 0;
      while tot < n
        invariant tot <= n && Valid() && inum in inodes && ReadKeeps(sb, old(vol), old(inodes), vol, inodes, inum)
        invariant NoHoles(sb, old(vol), old(inodes[inum])) ==>
                    vol == old(vol) && inodes == old(inodes) && owner == old(owner) && logged == old(logged)
        invariant inodes[inum].size == old(inodes[inum]).size
        invariant small ==> Contents(sb, vol, inodes[inum]) == c && dst == c[off..off + tot]
      {
        var m := Min(n - tot, BSIZE - (off + tot) % BSIZE);
        ghost var v1, inodes1 := vol, inodes;
        var part;
        ok, part := ReadBlock(inum, off + tot, m);
        if !ok { return; }
        ReadTwice(sb, old(vol), old(inodes), v1, inodes1, vol, inodes, inum);
        ReadSame(sb, old(vol), old(inodes), vol, inodes, inum);
        assert small ==> part == c[off + tot..off + tot + m];
        dst := dst + part;
        tot := tot + m;
      }
      ok := true;
    }

    /** One iteration of readi's loop. */
    method ReadBlock(inum: nat, off: nat, m: nat) returns (ok: bool, part: seq<Byte>)
      requires Valid() && inum in inodes && 0 < m && off + m <= inodes[inum].size && off % BSIZE + m <= BSIZE
      modifies this`vol, this`inodes, this`owner, this`logged
      ensures !ok ==> Full(vol) || old(inodes[inum]).size > MAXBYTES
      ensures NoHoles(sb, old(vol), old(inodes[inum])) ==>
                ok && vol == old(vol) && inodes == old(inodes) && owner == old(owner) && logged == old(logged)
      ensures ok ==> Valid() && inum in inodes && ReadKeeps(sb, old(vol), old(inodes), vol, inodes, inum)
      ensures ok && old(inodes[inum]).size <= MAXBYTES ==>
                part == Contents(sb, old(vol), old(inodes[inum]))[off..off + m]
    {
      hide Full, Contents, Keeps, Charged, OnlyMaps, SlotsOwned, Owns, Addr;
      OwnedInRange(sb, vol, inodes, owner, inum);
      ghost var holes := !NoHoles(sb, vol, inodes[inum]);
      if !holes {
        MappedAt(sb, vol, inodes[inum], off);
      }
      var a := Bmap(inum, off / BSIZE);
      if a == None { return false, []; }
      part := vol.blocks[a.value][off % BSIZE..off % BSIZE + m];
      ok := true;
      KeepsOne(sb, old(vol), old(inodes), vol, inodes, inum);
      if old(inodes[inum]).size <= MAXBYTES {
        ReadChunk(sb, old(vol), old(inodes[inum]), vol, inodes[inum], off, m);
        MapReadsSame(sb, old(vol), old(inodes[inum]), vol, inodes[inum], off / BSIZE);
      }
    }

    /** memmove into the buffer of file block `bn`, and log_write. */
    method PatchBlock(inum: nat, bn: nat, at: nat, data: seq<Byte>)
      requires Valid() && inum in inodes && bn < MAXFILE && at + |data| <= BSIZE && Addr(sb, vol, inodes[inum], bn) != 0
      modifies this`vol, this`logged
      ensures Valid() && Addr(sb, old(vol), inodes[inum], bn) < sb.size
      ensures vol == SetBlock(old(vol), Addr(sb, old(vol), inodes[inum], bn),
                              Patch(old(vol).blocks[Addr(sb, old(vol), inodes[inum], bn)], at, data))
      ensures Addr(sb, vol, inodes[inum], bn) == Addr(sb, old(vol), inodes[inum], bn)
      ensures OthersKept(sb, old(vol), inodes, vol, inodes, inum)
      ensures logged == old(logged) + {Addr(sb, vol, inodes[inum], bn)}
    {
      Mapped(inum, SlotOf(bn));
      var a := Addr(sb, vol, inodes[inum], bn);
      var b := Patch(vol.blocks[a], at, data);
      SetBlockOwned(sb, vol, inodes, owner, inum, bn, b);
      SetBlockOthers(sb, vol, inodes, owner, inum, bn, b);
      SetBlockSlots(sb, vol, inodes, owner, inum, bn, b, inum, SlotOf(bn));
      vol := SetBlock(vol, a, b);
      logged := logged + {a};
    }

    /** bmap as writei's loop uses it: nothing written so far is lost. */
    method MapBlock(inum: nat, bn: nat) returns (ok: bool)
      requires Valid() && inum in inodes && bn < MAXFILE
      modifies this`vol, this`inodes, this`owner, this`logged
      ensures !ok ==> Full(vol)
      ensures ok ==>
                && Valid() && inum in inodes && KeepsFile(sb, old(vol), old(inodes[inum]), vol, inodes[inum])
                && OthersKept(sb, old(vol), old(inodes), vol, inodes, inum)
                && inodes[inum] == old(inodes[inum]).(addrs := inodes[inum].addrs)
                && Addr(sb, vol, inodes[inum], bn) != 0
                && (Addr(sb, old(vol), old(inodes[inum]), bn) != 0 ==>
                      && inodes == old(inodes) && owner == old(owner) && logged == old(logged)
                      && Addr(sb, vol, inodes[inum], bn) == Addr(sb, old(vol), old(inodes[inum]), bn))
                && (Addr(sb, old(vol), old(inodes[inum]), bn) == 0 ==>
                      && Addr(sb, vol, inodes[inum], bn) !in old(owner)
                      && Charged(sb, old(owner), old(logged), owner, logged, inum, bn, Addr(sb, vol, inodes[inum], bn),
                                 inodes[inum].addrs[NDIRECT]))
    {
      var r := Bmap(inum, bn);
      ok := r.Some?;
      if ok {
        KeepsOthers(sb, old(vol), old(inodes), vol, inodes, inum);
      }
    }

    /** One iteration of writei's loop. */
    method WriteBlock(inum: nat, src: seq<Byte>, off: nat, tot: nat, m: nat, ghost v0: Vol, ghost ip0: Inode)
      returns (ok: bool)
      requires Valid() && inum in inodes && VolOk(sb, v0) && InodeOk(sb, ip0)
      requires 0 < m && tot + m <= |src| && off + |src| <= MAXBYTES && (off + tot) % BSIZE + m <= BSIZE
      requires Wrote(sb, v0, ip0, vol, inodes[inum], src, off, tot)
      modifies this`vol, this`inodes, this`owner, this`logged
      ensures !ok ==> Full(vol)
      ensures ok ==>
                && Valid() && inum in inodes && Wrote(sb, v0, ip0, vol, inodes[inum], src, off, tot + m)
                && OthersKept(sb, old(vol), old(inodes), vol, inodes, inum)
                && inodes[inum] == old(inodes[inum]).(addrs := inodes[inum].addrs)
                && (Addr(sb, old(vol), old(inodes[inum]), (off + tot) / BSIZE) != 0 ==>
                    inodes[inum] == old(inodes[inum]))
                && Charged(sb, old(owner), old(logged), owner, logged, inum, (off + tot) / BSIZE,
                           Addr(sb, vol, inodes[inum], (off + tot) / BSIZE), inodes[inum].addrs[NDIRECT])
    {
      hide SlotsOwned, Owns, Charged, Wrote, OthersKept, KeepsFile, Addr, Full;
      var bn := (off + tot) / BSIZE;
      if Addr(sb, vol, inodes[inum], bn) != 0 {
        AddrMapped(inum, bn);
      }
      ok := MapBlock(inum, bn);
      if !ok { return; }
      ghost var v1, inodes1, logged1 := vol, inodes, logged;
      WroteKeeps(sb, v0, ip0, old(vol), old(inodes[inum]), v1, inodes1[inum], src, off, tot);
      PatchWrote(sb, v0, ip0, v1, inodes1, owner, inum, src, off, tot, m);
      AddrMapped(inum, bn);
      PatchBlock(inum, bn, (off + tot) % BSIZE, src[tot..tot + m]);
      OthersTrans(sb, old(vol), old(inodes), v1, inodes1, vol, inodes, inum);
      ChargeWrite(sb, old(owner), old(logged), owner, logged1, inum, bn, Addr(sb, vol, inodes[inum], bn),
                  inodes[inum].addrs[NDIRECT]);
    }

    lemma AddrMapped(inum: nat, bn: nat)
      requires Valid() && inum in inodes && bn < MAXFILE && Addr(sb, vol, inodes[inum], bn) != 0
      ensures Addr(sb, vol, inodes[inum], bn) in owner && owner[Addr(sb, vol, inodes[inum], bn)] == (inum, SlotOf(bn))
    {
      Mapped(inum, SlotOf(bn));
    }

    /** One iteration of writei's loop, with the accounting of what it logs. */
    method WriteNext(inum: nat, src: seq<Byte>, off: nat, tot: nat, m: nat, ghost v0: Vol,
                     ghost inodes0: map<nat, Inode>, ghost before: set<nat>, ghost o0: Owner, ghost data: seq<nat>)
      returns (ok: bool, ghost data': seq<nat>)
      requires Valid() && Progress(sb, v0, inodes0, vol, inodes, inum, src, off, tot) && tot < |src|
      requires Account(sb, before, logged, o0, owner, inum, off / BSIZE, data)
      requires |data| == Touched(off, tot) && (tot > 0 ==> (off + tot) % BSIZE == 0)
      requires m == Min(|src| - tot, BSIZE - (off + tot) % BSIZE)
      requires InRange(sb, v0, inodes0[inum]) && NoHoles(sb, v0, inodes0[inum]) && off <= inodes0[inum].size
      modifies this`vol, this`inodes, this`owner, this`logged
      ensures !ok ==> Full(vol)
      ensures ok ==> Valid() && Progress(sb, v0, inodes0, vol, inodes, inum, src, off, tot + m)
      ensures ok ==>
                && Account(sb, before, logged, o0, owner, inum, off / BSIZE, data') && |data'| == Touched(off, tot + m)
      ensures tot + m < |src| ==> (off + tot + m) % BSIZE == 0
    {
      hide SlotsOwned, Owns, Progress, Account, Charged, Wrote, OthersKept, NoHoles, InRange, Addr, Touched, Full;
      ProgressWrote(sb, v0, inodes0, vol, inodes, inum, src, off, tot, m);
      NextBlock(off, tot, m, |src|);
      ok := WriteBlock(inum, src, off, tot, m, v0, inodes0[inum]);
      data' := data;
      if ok {
        var a := Addr(sb, vol, inodes[inum], (off + tot) / BSIZE);
        ProgressStep(sb, v0, inodes0, old(vol), old(inodes), vol, inodes, inum, src, off, tot, m);
        OwnedOneEach(sb, vol, inodes, owner);
        AccountNext(sb, before, o0, old(owner), old(logged), owner, logged, inum, off / BSIZE, data, a,
                    inodes[inum].addrs[NDIRECT]);
        data' := data + [a];
      }
    }

    /** writei's loop, after its checks. */
    method WriteLoop(inum: nat, src: seq<Byte>, off: nat) returns (ok: bool, ghost data: seq<nat>)
      requires Valid() && inum in inodes && NoHoles(sb, vol, inodes[inum])
      requires off <= inodes[inum].size && off + |src| <= MAXBYTES
      modifies this`vol, this`inodes, this`owner, this`logged
      ensures !ok ==> Full(vol)
      ensures ok ==> Valid() && Progress(sb, old(vol), old(inodes), vol, inodes, inum, src, off, |src|)
      ensures ok ==>
                && Account(sb, old(logged), logged, old(owner), owner, inum, off / BSIZE, data)
                && |data| == Touched(off, |src|)
    {
      hide NoHoles, InRange, Full, Wrote, OthersKept, Account, SlotsOwned, Owns, Touched;
      OwnedInRange(sb, vol, inodes, owner, inum);
      data := [];
      var tot := 0;
      ProgressStart(sb, vol, inodes, inum, src, off);
      AccountStart(sb, logged, owner, inum, off / BSIZE);
      assert Touched(off, 0) == 0 by { NothingTouched(off); }
      while tot < |src|
        invariant tot <= |src| && Valid() && Progress(sb, old(vol), old(inodes), vol, inodes, inum, src, off, tot)
        invariant Account(sb, old(logged), logged, old(owner), owner, inum, off / BSIZE, data)
        invariant |data| == Touched(off, tot)
        invariant 0 < tot < |src| ==> (off + tot) % BSIZE == 0
      {
        var m := Min(|src| - tot, BSIZE - (off + tot) % BSIZE);
        ok, data := WriteNext(inum, src, off, tot, m, old(vol), old(inodes), old(logged), old(owner), data);
        if !ok { return; }
        tot := tot + m;
      }
      ok := true;
    }

    /** iupdate: copies the inode to disk. */
    method Iupdate(inum: nat)
      requires inum in inodes
      modifies this`dinodes, this`logged
      ensures dinodes == old(dinodes)[inum := inodes[inum]] && logged == old(logged) + {sb.IBlock(inum)}
    {
      dinodes := dinodes[inum := inodes[inum]];
      logged := logged + {sb.IBlock(inum)};
    }

    /**
     writei: the source is spliced into the file at `off`; no other file
     changes; memory and disk still agree on every inode.
     */
    method Writei(inum: nat, src: seq<Byte>, off: nat) returns (r: Io)
      requires Settled() && inum in inodes && off < WORD && |src| < WORD
      modifies this
      ensures r == Device <==> Driven(writers, old(inodes[inum]))
      ensures r == Fail <==>
                if old(inodes[inum]).typ == T_DEV then !Driven(writers, old(inodes[inum]))
                else off > old(inodes[inum]).size || off + |src| > MAXBYTES
      ensures r == Device || r == Fail ==>
                && vol == old(vol) && inodes == old(inodes) && logged == old(logged) && Settled()
      ensures r == Panic ==> Full(vol)
      ensures r.Done? ==>
                && r.n == |src| && Settled() && off <= old(inodes[inum]).size
                && Bytes() == old(Bytes())[inum := Splice(old(Bytes())[inum], off, src)]
                && |logged - old(logged)| <= WriteCost(off, |src|)
                && (old(logged) == {} && OneMap(sb, inum) ==> |logged| == LogCount(old(inodes[inum]).size, off, |src|))
                && inum in inodes && inodes == old(inodes)[inum := inodes[inum]]
                && inodes[inum] == old(inodes[inum]).(size := Max(old(inodes[inum]).size, off + |src|),
                                                      addrs := inodes[inum].addrs)
    {
      var ip := inodes[inum];
      if ip.typ == T_DEV {
        if ip.major < 0 || ip.major >= NDEV || ip.major !in writers { return Fail; }
        return Device;
      }
      if off > ip.size || Add32(off, |src|) < off { return Fail; }
      if off + |src| > MAXFILE * BSIZE { return Fail; }
      r := WriteChecked(inum, src, off);
    }

    /** The end of writei: only growth changes the size and the inode on disk. */
    method SetSize(inum: nat, n: nat, end: nat)
      requires Valid() && inum in inodes
      modifies this`inodes, this`dinodes, this`logged
      ensures Valid() && inum in inodes
      ensures n > 0 && end > old(inodes[inum]).size ==>
                && inodes == old(inodes)[inum := old(inodes[inum]).(size := end)]
                && dinodes == old(dinodes)[inum := inodes[inum]] && logged == old(logged) + {sb.IBlock(inum)}
      ensures !(n > 0 && end > old(inodes[inum]).size) ==>
                && inodes == old(inodes) && dinodes == old(dinodes) && logged == old(logged)
    {
      hide Owned;
      if n > 0 && end > inodes[inum].size {
        ResizeOwned(sb, vol, inodes, owner, inum, end);
        inodes := inodes[inum := inodes[inum].(size := end)];
        Iupdate(inum);
      }
    }

    /** The rest of writei, once it has accepted the request. */
    method WriteChecked(inum: nat, src: seq<Byte>, off: nat) returns (r: Io)
      requires Settled() && inum in inodes && off <= inodes[inum].size && off + |src| <= MAXBYTES
      modifies this
      ensures r == Panic || r == Done(|src|)
      ensures r == Panic ==> Full(vol)
      ensures r.Done? ==>
                && Settled()
                && Bytes() == old(Bytes())[inum := Splice(old(Bytes())[inum], off, src)]
                && |logged - old(logged)| <= WriteCost(off, |src|)
                && (old(logged) == {} && OneMap(sb, inum) ==> |logged| == LogCount(old(inodes[inum]).size, off, |src|))
                && inum in inodes && inodes == old(inodes)[inum := inodes[inum]]
                && inodes[inum] == old(inodes[inum]).(size := Max(old(inodes[inum]).size, off + |src|),
                                                      addrs := inodes[inum].addrs)
    {
      hide Wrote, OthersKept, Full, NoHoles, InRange, Account, Files, WriteCost, Touched, SlotsOwned, Owns, Snug,
          LogCount;
      AllInRange(sb, vol, inodes, owner);
      var ok, data := WriteLoop(inum, src, off);
      if !ok { return Panic; }
      ghost var inodes1, logged1 := inodes, logged;
      SetSize(inum, |src|, off + |src|);
      WriteDone(sb, old(vol), old(inodes), vol, inodes1, inodes, inum, src, off);
      LogDone(sb, old(vol), old(inodes), vol, inodes1, old(logged), logged1, old(owner), owner, inum, off, |src|, data);
      SnugAfter(sb, old(logged), logged1, old(owner), owner, old(inodes), inodes, inum, off, |src|, data);
      r := Done(|src|);
    }

    /** bfree for a slot that is in use: never a free block. */
    method FreeSlot(inum: nat, s: nat, a: nat, ghost v0: Vol, ghost inodes0: map<nat, Inode>, ghost done: Freed,
                    ghost done': Freed)
      requires Owned(sb, v0, inodes0, owner) && inum in inodes0 && Cleared(sb, v0, vol, owner, inum, done)
      requires s < SLOTS && !done.Has(s) && (forall t: nat :: done'.Has(t) <==> done.Has(t) || t == s)
      requires a == Slot(sb, v0, inodes0[inum], s)
      modifies this`vol, this`logged
      ensures Cleared(sb, v0, vol, owner, inum, done')
    {
      ClearOne(sb, v0, vol, inodes0, owner, inum, done, done', s, a);
      if a != 0 {
        var ok := Bfree(a);
        assert ok;
      }
    }

    /** itrunc: frees exactly the blocks the inode owns and empties the file. */
    method Itrunc(inum: nat)
      requires Settled() && inum in inodes
      modifies this
      ensures Settled() && inodes == old(inodes)[inum := Truncated(old(inodes[inum]))]
      ensures Bytes() == old(Bytes())[inum := []]
      ensures var (ip, was) := (inodes[inum], old(inodes[inum]));
              && ip.size == 0 && (forall k :: 0 <= k < |ip.addrs| ==> ip.addrs[k] == 0)
              && ip.typ == was.typ && ip.nlink == was.nlink && ip.major == was.major && ip.minor == was.minor
      ensures vol.blocks == old(vol).blocks
      ensures forall a :: 0 <= a < sb.size ==>
                (vol.bits[a] <==> old(vol).bits[a] && !Refers(sb, old(vol), old(inodes[inum]), a))
    {
      hide Owned, Solid, Cleared, Slot, Files;
      FreeDirect(inum);
      FreeIndirect(inum, old(vol), old(inodes));
      TruncDone(sb, old(vol), vol, old(inodes), owner, inum);
      owner := map a | a in owner && owner[a].0 != inum :: owner[a];
      inodes := inodes[inum := inodes[inum].(size := 0)];
      assert inodes == old(inodes)[inum := Truncated(old(inodes[inum]))];
      Iupdate(inum);
    }

    /** The first loop of itrunc. */
    method FreeDirect(inum: nat)
      requires Valid() && inum in inodes
      modifies this`vol, this`inodes, this`logged
      ensures Cleared(sb, old(vol), vol, owner, inum, Freed(NDIRECT, 0, false))
      ensures inum in inodes && DirectZero(old(inodes[inum]), inodes[inum])
      ensures inodes == old(inodes)[inum := inodes[inum]]
    {
      hide SlotsOwned, Owns, Cleared;
      var i := 0;
      ghost var ip0 := inodes[inum];
      ClearedNone(sb, vol, owner, inum);
      while i < NDIRECT
        invariant 0 <= i <= NDIRECT && Cleared(sb, old(vol), vol, owner, inum, Freed(i, 0, false))
        invariant inum in inodes && |inodes[inum].addrs| == NDIRECT + 1
        invariant inodes[inum] == ip0.(addrs := inodes[inum].addrs)
        invariant forall k :: 0 <= k <= NDIRECT ==> inodes[inum].addrs[k] == if k < i then 0 else ip0.addrs[k]
        invariant inodes == old(inodes)[inum := inodes[inum]]
      {
        FreeSlot(inum, i, inodes[inum].addrs[i], old(vol), old(inodes), Freed(i, 0, false), Freed(i + 1, 0, false));
        inodes := inodes[inum := inodes[inum].(addrs := inodes[inum].addrs[i := 0])];
        i := i + 1;
      }
    }

    /** The rest of itrunc's freeing: the entries of the indirect block, and the block itself. */
    method FreeIndirect(inum: nat, ghost v0: Vol, ghost inodes0: map<nat, Inode>)
      requires Owned(sb, v0, inodes0, owner) && inum in inodes0 && inum in inodes
      requires DirectZero(inodes0[inum], inodes[inum])
      requires Cleared(sb, v0, vol, owner, inum, Freed(NDIRECT, 0, false))
      modifies this`vol, this`inodes, this`logged
      ensures Cleared(sb, v0, vol, owner, inum, ALL)
      ensures inodes == old(inodes)[inum := Truncated(inodes0[inum]).(size := inodes0[inum].size)]
    {
      hide Cleared, SlotsOwned, Owns, GetWord;
      var ind := inodes[inum].addrs[NDIRECT];
      if ind != 0 {
        FreeEntries(inum, ind, v0, inodes0);
        inodes := inodes[inum := inodes[inum].(addrs := inodes[inum].addrs[NDIRECT := 0])];
      } else {
        NoIndirect(sb, v0, vol, inodes0, owner, inum);
      }
      assert inodes[inum] == Truncated(inodes0[inum]).(size := inodes0[inum].size);
      assert inodes == old(inodes)[inum := inodes[inum]];
    }

    /** The inner loop of itrunc, and the free of the indirect block. */
    method FreeEntries(inum: nat, ind: nat, ghost v0: Vol, ghost inodes0: map<nat, Inode>)
      requires Owned(sb, v0, inodes0, owner) && inum in inodes0 && ind == inodes0[inum].addrs[NDIRECT] && ind != 0
      requires Cleared(sb, v0, vol, owner, inum, Freed(NDIRECT, 0, false))
      modifies this`vol, this`logged
      ensures Cleared(sb, v0, vol, owner, inum, ALL)
    {
      var a := vol.blocks[ind];
      var j := 0;
      while j < NINDIRECT
        invariant 0 <= j <= NINDIRECT && Cleared(sb, v0, vol, owner, inum, Freed(NDIRECT, j, false))
      {
        FreeSlot(inum, NDIRECT + 1 + j, GetWord(a, j), v0, inodes0, Freed(NDIRECT, j, false),
                 Freed(NDIRECT, j + 1, false));
        j := j + 1;
      }
      FreeSlot(inum, NDIRECT, ind, v0, inodes0, Freed(NDIRECT, NINDIRECT, false), ALL);
    }
  }
}
