/**
 Exactly which blocks one writei passes to log_write, in terms of who owns which
 block before and after: the data blocks, the bitmap blocks of what it
 allocates, the indirect block if one of its entries is set, and the inode block
 if the file grows.
 */
module InodeLog {
  import opened Basics
  import opened Counting
  import opened Volume
  import opened InodeSteps

  type Owner = map<nat, (nat, nat)>

  // Owners

  /** No two blocks have the same owner. */
  ghost predicate OneEach(o: Owner) {
    forall a, b :: a in o && b in o && o[a] == o[b] ==> a == b
  }

  lemma {:induction false} OwnedOneEach(sb: Super, v: Vol, inodes: map<nat, Inode>, o: Owner)
    requires Owned(sb, v, inodes, o)
    ensures OneEach(o)
  {
    forall a, b | a in o && b in o && o[a] == o[b] ensures a == b {
      assert Owns(sb, v, inodes, o[a], a) && Owns(sb, v, inodes, o[b], b);
    }
  }

  /** Slot `s` is one that a file of `size` bytes needs. */
  predicate SlotBelow(s: nat, size: nat) {
    (if s <= NDIRECT then s else s - 1) * BSIZE < size
  }

  /** No file owns a block it does not need for its size. */
  ghost predicate Snug(o: Owner, inodes: map<nat, Inode>) {
    forall a :: a in o ==> o[a].0 in inodes && SlotBelow(o[a].1, inodes[o[a].0].size)
  }

  // What one iteration logs

  /**
   Mapping and writing file block `bn`, now at `a`: what is allocated, and what
   is logged. `ind` is the indirect block afterwards.
   */
  ghost predicate Charged(sb: Super, o: Owner, was: set<nat>, o': Owner, logged: set<nat>, inum: nat, bn: nat, a: nat,
                          ind: nat) {
    && a in o' && o'[a] == (inum, SlotOf(bn))
    && (a in o ==> o' == o && logged == was + {a})
    && (a !in o && bn < NDIRECT ==> o' == o[a := (inum, bn)] && logged == was + {a, sb.BBlock(a)})
    && (a !in o && bn >= NDIRECT ==>
          && ind in o' && o'[ind] == (inum, NDIRECT)
          && o' == (if ind in o then o else o[ind := (inum, NDIRECT)])[a := (inum, SlotOf(bn))]
          && logged == was + {a, sb.BBlock(a), ind} + (if ind in o then {} else {sb.BBlock(ind)}))
  }

  /** A block given to the slot of `bn`, with the indirect block in place if it is needed. */
  lemma {:induction false} ChargeEntry(sb: Super, o: Owner, was: set<nat>, inum: nat, bn: nat, a: nat, ind: nat)
    requires a !in o && (bn >= NDIRECT ==> ind in o && o[ind] == (inum, NDIRECT))
    ensures Charged(sb, o, was, o[a := (inum, SlotOf(bn))], was + {sb.BBlock(a), a}
                    + (if bn >= NDIRECT then {ind} else {}),
                    inum, bn, a, ind)
  {
  }

  /** The indirect block first, then the entry. */
  lemma {:induction false} ChargeBoth(sb: Super, o: Owner, was: set<nat>, inum: nat, bn: nat, a: nat, ind: nat)
    requires ind !in o && a !in o[ind := (inum, NDIRECT)] && bn >= NDIRECT
    ensures Charged(sb, o, was, o[ind := (inum, NDIRECT)][a := (inum, SlotOf(bn))],
                    was + {sb.BBlock(ind), ind} + {sb.BBlock(a), a} + {ind}, inum, bn, a, ind)
  {
  }

  /** The write of the data logs the block once more. */
  lemma {:induction false} ChargeWrite(sb: Super, o: Owner, was: set<nat>, o': Owner, logged: set<nat>, inum: nat,
                                       bn: nat, a: nat, ind: nat)
    requires a in o' && o'[a] == (inum, SlotOf(bn))
    requires if a in o then o' == o && logged == was else Charged(sb, o, was, o', logged, inum, bn, a, ind)
    ensures Charged(sb, o, was, o', logged + {a}, inum, bn, a, ind)
  {
    if a !in o {
      assert logged + {a} == logged;
    }
  }

  // What the loop logs

  /** Some block written is new and past the direct ones. */
  ghost predicate NewEntry(o0: Owner, first: nat, data: seq<nat>) {
    exists k :: 0 <= k < |data| && data[k] !in o0 && first + k >= NDIRECT
  }

  ghost predicate IsNew(o0: Owner, o: Owner, a: nat) { a in o && a !in o0 }

  /** `x` is the bitmap block of something allocated. */
  ghost predicate IsMap(sb: Super, o0: Owner, o: Owner, x: nat) {
    exists a :: IsNew(o0, o, a) && sb.BBlock(a) == x
  }

  ghost predicate IsInd(o: Owner, inum: nat, x: nat) { x in o && o[x] == (inum, NDIRECT) }

  /** File blocks `first`, `first + 1`, ... are at `data`. */
  ghost predicate At(o: Owner, inum: nat, first: nat, data: seq<nat>) {
    forall k :: 0 <= k < |data| ==> data[k] in o && o[data[k]] == (inum, SlotOf(first + k))
  }

  /** Only the blocks written, and the indirect block for an entry, are new. */
  ghost predicate NewOk(o0: Owner, o: Owner, inum: nat, first: nat, data: seq<nat>) {
    forall a :: IsNew(o0, o, a) ==> a in data || (o[a] == (inum, NDIRECT) && NewEntry(o0, first, data))
  }

  ghost predicate LogIs(sb: Super, before: set<nat>, logged: set<nat>, o0: Owner, o: Owner, inum: nat, first: nat,
                        data: seq<nat>) {
    forall x :: x in logged <==>
      x in before || x in data || IsMap(sb, o0, o, x) || (IsInd(o, inum, x) && NewEntry(o0, first, data))
  }

  /** Everything the write has allocated and logged so far. */
  ghost predicate Account(sb: Super, before: set<nat>, logged: set<nat>, o0: Owner, o: Owner, inum: nat, first: nat,
                          data: seq<nat>) {
    Grows(o0, o) && At(o, inum, first, data) && NewOk(o0, o, inum, first, data)
        && LogIs(sb, before, logged, o0, o, inum, first, data)
  }

  lemma {:induction false} AccountStart(sb: Super, logged: set<nat>, o: Owner, inum: nat, first: nat)
    ensures Account(sb, logged, logged, o, o, inum, first, [])
  {
  }

  lemma {:induction false} EntryNext(o0: Owner, first: nat, data: seq<nat>, a: nat)
    ensures NewEntry(o0, first, data + [a]) <==> NewEntry(o0, first, data) || (a !in o0 && first + |data| >= NDIRECT)
  {
    var data' := data + [a];
    if NewEntry(o0, first, data) {
      var k :| 0 <= k < |data| && data[k] !in o0 && first + k >= NDIRECT;
      assert data'[k] == data[k];
    }
    if a !in o0 && first + |data| >= NDIRECT {
      assert data'[|data|] == a;
    }
  }

  /** The block of an iteration, if it was owned before it, was owned from the start. */
  lemma {:induction false} NotNewTwice(o0: Owner, o: Owner, inum: nat, first: nat, data: seq<nat>, a: nat)
    requires At(o, inum, first, data) && NewOk(o0, o, inum, first, data)
    requires a in o && o[a] == (inum, SlotOf(first + |data|))
    ensures a in o0
  {
    assert a !in o0 ==> IsNew(o0, o, a);
  }

  lemma {:induction false} NewNext(sb: Super, o0: Owner, o: Owner, was: set<nat>, o': Owner, logged: set<nat>,
                                   inum: nat, first: nat, data: seq<nat>, a: nat, ind: nat)
    requires Grows(o0, o) && At(o, inum, first, data) && NewOk(o0, o, inum, first, data)
    requires Charged(sb, o, was, o', logged, inum, first + |data|, a, ind)
    ensures Grows(o0, o') && At(o', inum, first, data + [a]) && NewOk(o0, o', inum, first, data + [a])
  {
    hide NewEntry;
    EntryNext(o0, first, data, a);
    forall x | IsNew(o0, o', x)
      ensures x in data + [a] || (o'[x] == (inum, NDIRECT) && NewEntry(o0, first, data + [a]))
    {
      if x in o {
        assert IsNew(o0, o, x);
      }
    }
  }

  lemma {:induction false} LogNext(sb: Super, before: set<nat>, o0: Owner, o: Owner, was: set<nat>, o': Owner,
                                   logged: set<nat>, inum: nat, first: nat, data: seq<nat>, a: nat, ind: nat, x: nat)
    requires Account(sb, before, was, o0, o, inum, first, data) && OneEach(o')
    requires Charged(sb, o, was, o', logged, inum, first + |data|, a, ind)
    ensures x in logged <==>
            x in before || x in data + [a] || IsMap(sb, o0, o', x)
                || (IsInd(o', inum, x) && NewEntry(o0, first, data + [a]))
  {
    hide NewEntry, NewOk, At;
    EntryNext(o0, first, data, a);
    if a in o {
      NotNewTwice(o0, o, inum, first, data, a);
    } else {
      assert IsNew(o0, o', a);
      if IsMap(sb, o0, o, x) {
        var b :| IsNew(o0, o, b) && sb.BBlock(b) == x;
        assert IsNew(o0, o', b);
      }
      if first + |data| >= NDIRECT && ind !in o {
        assert IsNew(o0, o', ind);
      }
      if IsMap(sb, o0, o', x) {
        var b :| IsNew(o0, o', b) && sb.BBlock(b) == x;
        assert b in o ==> IsNew(o0, o, b);
      }
    }
  }

  /** One more iteration. */
  lemma {:induction false} AccountNext(sb: Super, before: set<nat>, o0: Owner, o: Owner, was: set<nat>, o': Owner,
                                       logged: set<nat>, inum: nat, first: nat, data: seq<nat>, a: nat, ind: nat)
    requires Account(sb, before, was, o0, o, inum, first, data) && OneEach(o')
    requires Charged(sb, o, was, o', logged, inum, first + |data|, a, ind)
    ensures Account(sb, before, logged, o0, o', inum, first, data + [a])
  {
    NewNext(sb, o0, o, was, o', logged, inum, first, data, a, ind);
    forall x ensures x in logged <==>
                     x in before || x in data + [a] || IsMap(sb, o0, o', x)
                         || (IsInd(o', inum, x) && NewEntry(o0, first, data + [a]))
    {
      LogNext(sb, before, o0, o, was, o', logged, inum, first, data, a, ind, x);
    }
  }

  // Counting

  /** Number of blocks of a file of `size` bytes. */
  function Blocks(size: nat): nat { (size + BSIZE - 1) / BSIZE }

  /**
   The number of distinct blocks a write of `n` bytes at `off` to a file of
   `size` bytes logs, if there is one bitmap block: the data blocks, the bitmap
   block if it allocates, the indirect block if it sets an entry, and the inode
   block if the file grows.
   */
  function LogCount(size: nat, off: nat, n: nat): nat {
    Touched(off, n)
    + (if Blocks(off + n) > Blocks(size) then 1 else 0)
    + (if Blocks(off + n) > Max(Blocks(size), NDIRECT) then 1 else 0)
    + (if off + n > size then 1 else 0)
  }

  /** A bound for any number of bitmap blocks: one for each block allocated, the indirect block included. */
  function WriteCost(off: nat, n: nat): nat {
    2 * Touched(off, n) + 3 - (if off % BSIZE != 0 && n > 0 then 1 else 0)
  }

  /** Where a write to a file of `size` bytes begins to allocate. */
  lemma {:induction false} OldBlocks(sb: Super, v0: Vol, inodes0: map<nat, Inode>, o0: Owner, o: Owner, inum: nat,
                                     first: nat, data: seq<nat>, k: nat)
    requires Owned(sb, v0, inodes0, o0) && Snug(o0, inodes0) && inum in inodes0 && NoHoles(sb, v0, inodes0[inum])
    requires Grows(o0, o) && OneEach(o) && At(o, inum, first, data) && k < |data| && first + k < MAXFILE
    ensures data[k] in o0 <==> (first + k) * BSIZE < inodes0[inum].size
  {
    hide SlotBelow, NoHoles, Slot;
    var b := first + k;
    if data[k] in o0 {
      assert o0[data[k]] == (inum, SlotOf(b));
      BelowOf(b, inodes0[inum].size);
    } else if b * BSIZE < inodes0[inum].size {
      MappedOwned(sb, v0, inodes0, o0, inum, b);
    }
  }

  lemma BelowOf(b: nat, size: nat)
    ensures SlotBelow(SlotOf(b), size) <==> b * BSIZE < size
  {
  }

  lemma {:induction false} MappedOwned(sb: Super, v: Vol, inodes: map<nat, Inode>, o: Owner, inum: nat, b: nat)
    requires Owned(sb, v, inodes, o) && inum in inodes && NoHoles(sb, v, inodes[inum])
    requires b < MAXFILE && b * BSIZE < inodes[inum].size
    ensures Addr(sb, v, inodes[inum], b) in o && o[Addr(sb, v, inodes[inum], b)] == (inum, SlotOf(b))
  {
    assert Addr(sb, v, inodes[inum], b) != 0;
    assert SlotsOwned(sb, v, inodes[inum], inum, o);
  }

  /** All of the above about a finished loop over the blocks of `off` to `off + n`. */
  ghost predicate Finished(sb: Super, before: set<nat>, logged: set<nat>, o0: Owner, o: Owner, inum: nat, size: nat,
                           off: nat, n: nat, data: seq<nat>)
  {
    && Account(sb, before, logged, o0, o, inum, off / BSIZE, data) && OneEach(o)
    && |data| == Touched(off, n) && off <= size
    && (forall k :: 0 <= k < |data| ==> (data[k] in o0 <==> (off / BSIZE + k) * BSIZE < size))
    && (forall a :: a in o ==> sb.data <= a)
  }

  lemma {:induction false} FinishedIs(sb: Super, v0: Vol, inodes0: map<nat, Inode>, v: Vol, inodes: map<nat, Inode>,
                                      before: set<nat>, logged: set<nat>, o0: Owner, o: Owner, inum: nat,
                                      off: nat, n: nat, data: seq<nat>)
    requires Owned(sb, v0, inodes0, o0) && Snug(o0, inodes0) && inum in inodes0 && NoHoles(sb, v0, inodes0[inum])
    requires Owned(sb, v, inodes, o) && Account(sb, before, logged, o0, o, inum, off / BSIZE, data)
    requires |data| == Touched(off, n) && off <= inodes0[inum].size && off + n <= MAXFILE * BSIZE
    ensures Finished(sb, before, logged, o0, o, inum, inodes0[inum].size, off, n, data)
  {
    hide NoHoles, NewOk, LogIs, SlotsOwned, Owns;
    OwnedOneEach(sb, v, inodes, o);
    forall k | 0 <= k < |data| ensures data[k] in o0 <==> (off / BSIZE + k) * BSIZE < inodes0[inum].size {
      OldBlocks(sb, v0, inodes0, o0, o, inum, off / BSIZE, data, k);
    }
  }

  /** The write allocates exactly if it ends in a block the file does not have; likewise for entries. */
  lemma {:induction false} Allocates(sb: Super, before: set<nat>, logged: set<nat>, o0: Owner, o: Owner, inum: nat,
                                     size: nat, off: nat, n: nat, data: seq<nat>)
    requires Finished(sb, before, logged, o0, o, inum, size, off, n, data)
    ensures (exists a :: IsNew(o0, o, a)) <==> Blocks(off + n) > Blocks(size)
    ensures NewEntry(o0, off / BSIZE, data) <==> Blocks(off + n) > Max(Blocks(size), NDIRECT)
  {
    hide LogIs, Grows, OneEach;
    var last := |data| - 1;
    if Blocks(off + n) > Blocks(size) {
      LastBlock(size, off, n);
      assert IsNew(o0, o, data[last]);
    }
    if a :| IsNew(o0, o, a) {
      NewHasData(o0, o, inum, off / BSIZE, data, a);
      var k :| 0 <= k < |data| && data[k] !in o0;
      EarlierBlock(size, off, n, k);
    }
    if NewEntry(o0, off / BSIZE, data) {
      var k :| 0 <= k < |data| && data[k] !in o0 && off / BSIZE + k >= NDIRECT;
      EarlierBlock(size, off, n, k);
    }
  }

  lemma {:induction false} NewHasData(o0: Owner, o: Owner, inum: nat, first: nat, data: seq<nat>, a: nat)
    requires NewOk(o0, o, inum, first, data) && IsNew(o0, o, a)
    ensures exists k :: 0 <= k < |data| && data[k] !in o0
  {
  }

  lemma LastBlock(size: nat, off: nat, n: nat)
    requires off <= size && Blocks(off + n) > Blocks(size)
    ensures n > 0 && Touched(off, n) > 0 && off / BSIZE + Touched(off, n) == Blocks(off + n)
    ensures (off / BSIZE + Touched(off, n) - 1) * BSIZE >= size
  {
  }

  lemma EarlierBlock(size: nat, off: nat, n: nat, k: nat)
    requires k < Touched(off, n) && (off / BSIZE + k) * BSIZE >= size
    ensures Blocks(off + n) > off / BSIZE + k >= Blocks(size)
  {
  }

  /** The device has one bitmap block, and inodes, bitmap and data follow each other as mkfs lays them out. */
  predicate OneMap(sb: Super, inum: nat) {
    sb.size <= BPB && sb.IBlock(inum) < sb.bmapstart < sb.data
  }

  /** The exact set of blocks a finished loop has logged, on a device with one bitmap block. */
  lemma {:induction false} LoggedSet(sb: Super, logged: set<nat>, o0: Owner, o: Owner, inum: nat, size: nat,
                                     off: nat, n: nat, data: seq<nat>, ind: nat)
    requires Finished(sb, {}, logged, o0, o, inum, size, off, n, data) && sb.size <= BPB
    requires (forall a :: a in o ==> a < sb.size)
    requires NewEntry(o0, off / BSIZE, data) ==> IsInd(o, inum, ind)
    ensures logged == Elems(data) + (if Blocks(off + n) > Blocks(size) then {sb.bmapstart} else {})
                      + (if Blocks(off + n) > Max(Blocks(size), NDIRECT) then {ind} else {})
  {
    hide Finished, NewEntry;
    Allocates(sb, {}, logged, o0, o, inum, size, off, n, data);
    assert LogIs(sb, {}, logged, o0, o, inum, off / BSIZE, data)
           && OneEach(o) by { LogOf(sb, {}, logged, o0, o, inum, size, off, n, data); }
    forall x ensures IsMap(sb, o0, o, x) <==> Blocks(off + n) > Blocks(size) && x == sb.bmapstart {
      if a :| IsNew(o0, o, a) {
        assert sb.BBlock(a) == sb.bmapstart;
      }
    }
  }

  lemma LogOf(sb: Super, before: set<nat>, logged: set<nat>, o0: Owner, o: Owner, inum: nat, size: nat, off: nat,
              n: nat, data: seq<nat>)
    requires Finished(sb, before, logged, o0, o, inum, size, off, n, data)
    ensures LogIs(sb, before, logged, o0, o, inum, off / BSIZE, data) && OneEach(o)
    ensures NewOk(o0, o, inum, off / BSIZE, data)
    ensures At(o, inum, off / BSIZE, data) && Grows(o0, o) && |data| == Touched(off, n)
  {
  }

  /** An entry of the indirect block needs the indirect block. */
  lemma {:induction false} IndOwned(sb: Super, v: Vol, inodes: map<nat, Inode>, o0: Owner, o: Owner, inum: nat,
                                    first: nat, data: seq<nat>)
    requires Owned(sb, v, inodes, o) && inum in inodes && At(o, inum, first, data) && NewEntry(o0, first, data)
    ensures IsInd(o, inum, inodes[inum].addrs[NDIRECT])
  {
    var k :| 0 <= k < |data| && data[k] !in o0 && first + k >= NDIRECT;
    assert Owns(sb, v, inodes, o[data[k]], data[k]);
    assert SlotsOwned(sb, v, inodes[inum], inum, o);
    assert Slot(sb, v, inodes[inum], NDIRECT) == inodes[inum].addrs[NDIRECT];
  }

  lemma {:induction false} DataDistinct(o: Owner, inum: nat, first: nat, data: seq<nat>)
    requires At(o, inum, first, data)
    ensures Distinct(data)
  {
    forall i, j | 0 <= i < j < |data| ensures data[i] != data[j] {
      assert SlotOf(first + i) != SlotOf(first + j);
    }
  }

  /** The number of blocks logged, exactly, on a device with one bitmap block; the inode block comes last. */
  lemma {:induction false} Counted(sb: Super, logged: set<nat>, o0: Owner, o: Owner, inum: nat, size: nat,
                                   off: nat, n: nat, data: seq<nat>, ind: nat)
    requires Finished(sb, {}, logged, o0, o, inum, size, off, n, data) && OneMap(sb, inum)
    requires (forall a :: a in o ==> a < sb.size)
    requires NewEntry(o0, off / BSIZE, data) ==> IsInd(o, inum, ind)
    ensures |if off + n > size then logged + {sb.IBlock(inum)} else logged| == LogCount(size, off, n)
  {
    hide Finished, NewEntry, IsInd, Touched, Blocks, OneMap;
    var alloc, entry := Blocks(off + n) > Blocks(size), Blocks(off + n) > Max(Blocks(size), NDIRECT);
    Apart(sb, logged, o0, o, inum, size, off, n, data, ind);
    LoggedSet(sb, logged, o0, o, inum, size, off, n, data, ind);
    CardFour(Elems(data), alloc, sb.bmapstart, entry, ind, off + n > size, sb.IBlock(inum));
  }

  /** Data blocks, indirect block, bitmap and inode block are different blocks. */
  lemma {:induction false} Apart(sb: Super, logged: set<nat>, o0: Owner, o: Owner, inum: nat, size: nat,
                                 off: nat, n: nat, data: seq<nat>, ind: nat)
    requires Finished(sb, {}, logged, o0, o, inum, size, off, n, data) && OneMap(sb, inum)
    requires NewEntry(o0, off / BSIZE, data) ==> IsInd(o, inum, ind)
    ensures sb.size <= BPB && |Elems(data)| == |data| == Touched(off, n)
    ensures sb.bmapstart !in Elems(data) && sb.IBlock(inum) !in Elems(data) && sb.IBlock(inum) != sb.bmapstart
    ensures Blocks(off + n) > Max(Blocks(size), NDIRECT) ==>
              && ind !in Elems(data) && ind != sb.bmapstart && ind != sb.IBlock(inum)
  {
    hide NewEntry, NewOk, LogIs, Grows, Touched, Blocks, OneEach;
    Allocates(sb, {}, logged, o0, o, inum, size, off, n, data);
    DataDistinct(o, inum, off / BSIZE, data);
    CardElems(data);
    forall k | 0 <= k < |data| ensures o[data[k]] != (inum, NDIRECT) && data[k] >= sb.data {
    }
  }

  lemma {:induction false} CardFour(d: set<nat>, p: bool, x: nat, q: bool, y: nat, r: bool, z: nat)
    requires x !in d && (q ==> y !in d && y != x && y != z) && z !in d && z != x
    ensures var s := d + (if p then {x} else {}) + (if q then {y} else {});
            |if r then s + {z} else s| == |d| + (if p then 1 else 0) + (if q then 1 else 0) + (if r then 1 else 0)
  {
    var s1 := d + if p then {x} else {};
    assert |s1| == |d| + if p then 1 else 0;
    var s2 := s1 + if q then {y} else {};
    assert |s2| == |s1| + if q then 1 else 0;
  }

  /** A bound on the number of blocks logged, whatever the number of bitmap blocks and the blocks logged before. */
  lemma {:induction false} Bounded(sb: Super, before: set<nat>, logged: set<nat>, o0: Owner, o: Owner, inum: nat,
                                   size: nat, off: nat, n: nat, data: seq<nat>, ind: nat, x: nat)
    requires Finished(sb, before, logged, o0, o, inum, size, off, n, data)
    requires NewEntry(o0, off / BSIZE, data) ==> IsInd(o, inum, ind)
    ensures |logged - before| <= |logged + {x} - before| <= WriteCost(off, n)
  {
    hide Finished, NewEntry, Touched;
    var rest := data;
    if off % BSIZE != 0 && n > 0 {
      FirstOld(sb, before, logged, o0, o, inum, size, off, n, data);
      rest := data[1..];
    }
    LogOf(sb, before, logged, o0, o, inum, size, off, n, data);
    var maps := Maps(sb, rest + [ind]);
    var all := data + maps + [ind, x];
    forall y | y in logged + {x} - before ensures y in Elems(all) {
      if IsMap(sb, o0, o, y) {
        var a :| IsNew(o0, o, a) && sb.BBlock(a) == y;
        NewListed(o0, o, inum, off / BSIZE, data, rest, a, ind);
        MapsHas(sb, rest + [ind], a);
      }
    }
    CardElems(all);
    CardSubset(logged + {x} - before, Elems(all));
    CardSubset(logged - before, logged + {x} - before);
  }

  /** The bitmap blocks of `s`. */
  function Maps(sb: Super, s: seq<nat>): (r: seq<nat>)
    ensures |r| == |s|
  {
    if s == [] then [] else [sb.BBlock(s[0])] + Maps(sb, s[1..])
  }

  lemma {:induction false} MapsHas(sb: Super, s: seq<nat>, a: nat)
    requires a in s
    ensures sb.BBlock(a) in Maps(sb, s)
  {
    if s[0] != a {
      MapsHas(sb, s[1..], a);
    }
  }

  lemma {:induction false} FirstOld(sb: Super, before: set<nat>, logged: set<nat>, o0: Owner, o: Owner, inum: nat,
                                    size: nat, off: nat, n: nat, data: seq<nat>)
    requires Finished(sb, before, logged, o0, o, inum, size, off, n, data) && off % BSIZE != 0 && n > 0
    ensures |data| > 0 && data[0] in o0
  {
    hide Account, OneEach;
    assert (off / BSIZE + 0) * BSIZE < size;
  }

  lemma {:induction false} NewListed(o0: Owner, o: Owner, inum: nat, first: nat, data: seq<nat>, rest: seq<nat>, a: nat,
                                     ind: nat)
    requires NewOk(o0, o, inum, first, data) && IsNew(o0, o, a) && OneEach(o)
    requires rest == data || (|data| > 0 && data[0] in o0 && rest == data[1..])
    requires NewEntry(o0, first, data) ==> IsInd(o, inum, ind)
    ensures a in rest || a == ind
  {
    hide NewEntry;
    if a in data && rest != data {
      assert data == [data[0]] + rest;
    }
  }

  /** The new blocks are needed for the new size. */
  lemma {:induction false} SnugAfter(sb: Super, before: set<nat>, logged: set<nat>, o0: Owner, o: Owner,
                                     inodes0: map<nat, Inode>, inodes: map<nat, Inode>, inum: nat, off: nat, n: nat,
                                     data: seq<nat>)
    requires Account(sb, before, logged, o0, o, inum, off / BSIZE, data) && Snug(o0, inodes0)
    requires |data| == Touched(off, n)
    requires inodes.Keys == inodes0.Keys && inum in inodes && inodes[inum].size >= off + n
    requires forall j :: j in inodes ==> inodes[j].size >= inodes0[j].size
    ensures Snug(o, inodes)
  {
    hide LogIs, Touched, SlotBelow;
    forall a | a in o ensures o[a].0 in inodes && SlotBelow(o[a].1, inodes[o[a].0].size) {
      if a in o0 {
        BelowMore(o[a].1, inodes0[o[a].0].size, inodes[o[a].0].size);
      } else {
        assert IsNew(o0, o, a);
        if a in data {
          var k :| 0 <= k < |data| && data[k] == a;
          TouchedBelow(off, n, k, inodes[inum].size);
        } else {
          var k :| 0 <= k < |data| && data[k] !in o0 && off / BSIZE + k >= NDIRECT;
          TouchedBelow(off, n, k, inodes[inum].size);
        }
      }
    }
  }

  lemma BelowMore(s: nat, size: nat, size': nat)
    requires SlotBelow(s, size) && size <= size'
    ensures SlotBelow(s, size')
  {
  }

  lemma TouchedBelow(off: nat, n: nat, k: nat, size: nat)
    requires k < Touched(off, n) && off + n <= size
    ensures SlotBelow(SlotOf(off / BSIZE + k), size) && (off / BSIZE + k >= NDIRECT ==> SlotBelow(NDIRECT, size))
  {
  }

  lemma NothingTouched(off: nat)
    ensures Touched(off, 0) == 0
  {
  }

  /** What a finished writei has logged, the inode block included. */
  lemma {:induction false} LogDone(sb: Super, v0: Vol, inodes0: map<nat, Inode>, v: Vol, inodes: map<nat, Inode>,
                                   before: set<nat>, logged: set<nat>, o0: Owner, o: Owner, inum: nat, off: nat, n: nat,
                                   data: seq<nat>)
    requires Owned(sb, v0, inodes0, o0) && Snug(o0, inodes0) && inum in inodes0 && NoHoles(sb, v0, inodes0[inum])
    requires Owned(sb, v, inodes, o) && inum in inodes && Account(sb, before, logged, o0, o, inum, off / BSIZE, data)
    requires |data| == Touched(off, n) && off <= inodes0[inum].size && off + n <= MAXFILE * BSIZE
    ensures var all := if off + n > inodes0[inum].size then logged + {sb.IBlock(inum)} else logged;
            |all - before| <= WriteCost(off, n)
                && (before == {} && OneMap(sb, inum) ==> |all| == LogCount(inodes0[inum].size, off, n))
  {
    hide NoHoles, Touched, Account, Finished, NewEntry, SlotsOwned, Owns, WriteCost, LogCount, OneMap, Snug;
    var size, ind := inodes0[inum].size, inodes[inum].addrs[NDIRECT];
    FinishedIs(sb, v0, inodes0, v, inodes, before, logged, o0, o, inum, off, n, data);
    if NewEntry(o0, off / BSIZE, data) {
      LogOf(sb, before, logged, o0, o, inum, size, off, n, data);
      IndOwned(sb, v, inodes, o0, o, inum, off / BSIZE, data);
    }
    Bounded(sb, before, logged, o0, o, inum, size, off, n, data, ind, sb.IBlock(inum));
    if before == {} && OneMap(sb, inum) {
      Counted(sb, logged, o0, o, inum, size, off, n, data, ind);
    }
  }
}
