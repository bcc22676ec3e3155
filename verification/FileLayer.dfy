/** filewrite of file.c: a long write cut into transactions that fit the log. */
module FileLayer {
  import opened Basics
  import opened Volume
  import opened FileBytes
  import opened InodeSteps
  import opened InodeLog
  import opened InodeLayer

  /** Bytes per transaction: half of the log less inode, indirect block and two of slop. */
  const CHUNK: nat := (LOGSIZE - 1 - 1 - 2) / 2 * 512

  /** The files after writing `src` at `off` of inode `inum`. */
  ghost function Spliced(fs: map<nat, seq<Byte>>, inum: nat, off: nat, src: seq<Byte>): map<nat, seq<Byte>>
    requires inum in fs && (src != [] ==> off <= |fs[inum]|)
  {
    if src == [] then fs else fs[inum := Splice(fs[inum], off, src)]
  }

  lemma {:induction false} SplicedTwice(fs: map<nat, seq<Byte>>, inum: nat, off: nat, src: seq<Byte>, i: nat, m: nat)
    requires inum in fs && off <= |fs[inum]| && 0 < m && i + m <= |src|
    ensures off + i <= |Spliced(fs, inum, off, src[..i])[inum]|
    ensures Spliced(Spliced(fs, inum, off, src[..i]), inum, off + i, src[i..i + m]) == Spliced(fs, inum, off,
              src[..i + m])
  {
    var s := fs[inum];
    assert src[..i] + src[i..i + m] == src[..i + m];
    assert Splice(Splice(s, off, src[..i]), off + i, src[i..i + m]) == Splice(s, off, src[..i + m]);
    assert Splice(s, off, []) == s;
  }

  /** One chunk never logs more than the log holds, given that files have no holes. */
  lemma ChunkFits(off: nat, n: nat)
    requires n <= CHUNK
    ensures WriteCost(off, n) <= LOGSIZE
  {
  }

  /**
   How many file blocks a write may touch and still stay within what begin_op
   reserves: one block of the reservation goes to the inode if the file grows,
   one to the bitmap if it gets a new block, and one to the indirect block if
   that block is past the direct ones.
   */
  function Allowance(size: nat, end: nat): nat {
    if end <= size then MAXOPBLOCKS
    else if Blocks(end) <= Blocks(size) then MAXOPBLOCKS - 1
    else if Blocks(end) <= NDIRECT then MAXOPBLOCKS - 2
    else MAXOPBLOCKS - 3
  }

  /** The exact condition for a write to stay within its reservation, on a device with one bitmap block. */
  lemma {:induction false} WithinReservation(size: nat, off: nat, n: nat)
    requires off <= size
    ensures LogCount(size, off, n) <= MAXOPBLOCKS <==> Touched(off, n) <= Allowance(size, off + n)
  {
    hide Touched;
    assert off + n <= size ==> Blocks(off + n) <= Blocks(size);
  }

  /** Nine blocks appended to an empty file are two more than the reservation allows for. */
  lemma NineBlocks()
    ensures LogCount(0, 0, 9 * BSIZE) == 11 > MAXOPBLOCKS
  {
  }

  /** A full chunk never fits the reservation. */
  lemma ChunkOverBudget(size: nat, off: nat)
    requires off <= size
    ensures LogCount(size, off, CHUNK) > MAXOPBLOCKS
  {
  }

  /** The file system of mkfs has one bitmap block: 1000 blocks, 30 of log, 26 of inodes, 200 inodes. */
  lemma MkfsOneMap(inum: nat)
    requires inum < 200
    ensures OneMap(Super(1000, 32, 58, 59), inum)
  {
  }

  /** A transaction of a write: the size of the file before it, the range written and the distinct blocks logged. */
  datatype Txn = Txn(size: nat, off: nat, n: nat, blocks: set<nat>)

  /** What a transaction logs fits the log; with one bitmap block its number is known. */
  ghost predicate TxnOk(t: Txn, one: bool) {
    && 0 < t.n <= CHUNK && t.off <= t.size && |t.blocks| <= LOGSIZE && |t.blocks| <= WriteCost(t.off, t.n)
    && (one ==> |t.blocks| == LogCount(t.size, t.off, t.n))
  }

  /**
   The transactions are within their bounds and cover `done` bytes from `off` on
   of a file of `size` bytes, one after the other.
   */
  ghost predicate Covered(txns: seq<Txn>, one: bool, size: nat, off: nat, done: nat)
    decreases |txns|
  {
    if txns == [] then done == 0
    else
      var t := txns[|txns| - 1];
      && TxnOk(t, one) && t.n <= done && t.off + t.n == off + done && t.size == Max(size, t.off)
      && Covered(txns[..|txns| - 1], one, size, off, done - t.n)
  }

  lemma {:induction false} CoveredMore(txns: seq<Txn>, one: bool, size: nat, off: nat, done: nat, n: nat,
                                       blocks: set<nat>)
    requires Covered(txns, one, size, off, done) && TxnOk(Txn(Max(size, off + done), off + done, n, blocks), one)
    ensures Covered(txns + [Txn(Max(size, off + done), off + done, n, blocks)], one, size, off, done + n)
  {
    var more := txns + [Txn(Max(size, off + done), off + done, n, blocks)];
    assert more[..|more| - 1] == txns;
  }

  /** The transactions that exceed the reservation are exactly those that touch more blocks than their allowance. */
  lemma {:induction false} CoveredReservation(txns: seq<Txn>, size: nat, off: nat, done: nat, k: nat)
    requires Covered(txns, true, size, off, done) && k < |txns|
    ensures var t := txns[k];
            && t.size == Max(size, t.off)
            && (|t.blocks| <= MAXOPBLOCKS <==> Touched(t.off, t.n) <= Allowance(t.size, t.off + t.n))
    decreases |txns|
  {
    hide Touched, Allowance, LogCount, WriteCost;
    var last := |txns| - 1;
    if k == last {
      WithinReservation(txns[k].size, txns[k].off, txns[k].n);
    } else {
      CoveredReservation(txns[..last], size, off, done - txns[last].n, k);
    }
  }

  lemma NextChunk(i: nat, n: nat)
    requires i % CHUNK == 0
    ensures n == CHUNK ==> (i + n) % CHUNK == 0
  {
  }

  /** The first `i` bytes of `src` have been written at `off0`, in whole chunks unless that is all of it. */
  ghost predicate Partway(bytes0: map<nat, seq<Byte>>, ip0: Inode, off0: nat, bytes: map<nat, seq<Byte>>, ip: Inode,
                          off: nat, inum: nat, src: seq<Byte>, i: nat, txns: seq<Txn>, one: bool)
  {
    && i <= |src| && off == off0 + i && inum in bytes0 && |bytes0[inum]| == ip0.size && ip.typ == ip0.typ
    && ip.major == ip0.major
    && (i > 0 ==> ip0.typ != T_DEV && off0 <= ip0.size && off0 + i <= MAXBYTES)
    && ip.size == (if i == 0 then ip0.size else Max(ip0.size, off0 + i))
    && (i < |src| ==> i % CHUNK == 0)
    && bytes == Spliced(bytes0, inum, off0, src[..i])
    && Covered(txns, one, ip0.size, off0, i)
  }

  lemma {:induction false} NothingYet(bytes: map<nat, seq<Byte>>, ip: Inode, off: nat, inum: nat, src: seq<Byte>,
                                      one: bool)
    requires inum in bytes && |bytes[inum]| == ip.size
    ensures Partway(bytes, ip, off, bytes, ip, off, inum, src, 0, [], one)
  {
  }

  /** writei refuses the request: a device without a driver, an offset past the end, or too large a file. */
  predicate Refused(drivers: set<int>, ip: Inode, off: nat, n: nat) {
    if ip.typ == T_DEV then !Driven(drivers, ip) else off > ip.size || off + n > MAXBYTES
  }

  class OpenFile {
    const fs: FileSystem
    const inum: nat
    const writable: bool
    var off: nat

    constructor (fs: FileSystem, inum: nat, writable: bool)
      ensures this.fs == fs && this.inum == inum && this.writable == writable && off == 0
    {
      this.fs, this.inum, this.writable, off := fs, inum, writable, 0;
    }

    /** One transaction of filewrite: begin_op, writei, advance the offset, end_op. */
    method WriteTxn(src: seq<Byte>) returns (r: Io)
      requires fs.Settled() && inum in fs.inodes && off < WORD && 0 < |src| <= CHUNK
      modifies this, fs
      ensures r == Device <==> Driven(fs.writers, old(fs.inodes[inum]))
      ensures r == Fail <==> Refused(fs.writers, old(fs.inodes[inum]), old(off), |src|)
      ensures r == Panic ==> Full(fs.vol)
      ensures r == Device || r == Fail ==>
                off == old(off) && fs.Settled() && fs.vol == old(fs.vol) && fs.inodes == old(fs.inodes)
      ensures r.Done? ==>
                && fs.Settled() && off == old(off) + |src| && inum in fs.inodes
                && fs.inodes[inum].typ == old(fs.inodes[inum]).typ
                && fs.inodes[inum].major == old(fs.inodes[inum]).major
                && fs.inodes[inum].size == Max(old(fs.inodes[inum]).size, old(off) + |src|)
                && fs.Bytes() == Spliced(old(fs.Bytes()), inum, old(off), src)
                && TxnOk(Txn(old(fs.inodes[inum]).size, old(off), |src|, fs.logged), OneMap(fs.sb, inum))
    {
      fs.BeginOp();
      r := fs.Writei(inum, src, off);
      if r.Done? {
        off := off + r.n;
        ChunkFits(old(off), |src|);
        assert fs.logged - {} == fs.logged;
      }
    }

    /**
     filewrite on an inode. `done` bytes are written, in whole chunks if it
     fails; `txns` are the blocks that each successful transaction logged.
     */
    method Write(src: seq<Byte>) returns (r: Io, ghost done: nat, ghost txns: seq<Txn>)
      requires fs.Settled() && inum in fs.inodes && off < WORD && |src| < 0x8000_0000
      modifies this, fs
      ensures r == Device <==> writable && src != [] && Driven(fs.writers, old(fs.inodes[inum]))
      ensures r == Fail ==> !writable || (src != [] && Refused(fs.writers, old(fs.inodes[inum]), old(off), |src|))
      ensures r.Done? ==>
                && writable && r.n == |src|
                && (src != [] ==> !Refused(fs.writers, old(fs.inodes[inum]), old(off), |src|))
      ensures r == Panic ==> Full(fs.vol)
      ensures r.Done? ==> done == |src|
      ensures r == Device ==> done == 0
      ensures r == Fail && done > 0 ==> done < |src| && done % CHUNK == 0
      ensures r != Panic ==>
                && fs.Settled() && off == old(off) + done && done <= |src|
                && (done > 0 ==> old(off) <= old(fs.inodes[inum]).size)
                && fs.Bytes() == Spliced(old(fs.Bytes()), inum, old(off), src[..done])
                && Covered(txns, OneMap(fs.sb, inum), old(fs.inodes[inum]).size, old(off), done)
    {
      if !writable {
        return Fail, 0, [];
      }
      r, done, txns := WriteChunks(src);
    }

    /** The loop of filewrite. */
    method WriteChunks(src: seq<Byte>) returns (r: Io, ghost done: nat, ghost txns: seq<Txn>)
      requires fs.Settled() && inum in fs.inodes && off < WORD
      modifies this, fs
      ensures r == Device ==> src != [] && Driven(fs.writers, old(fs.inodes[inum]))
      ensures r == Fail ==> Refused(fs.writers, old(fs.inodes[inum]), old(off), |src|)
      ensures r == Panic ==> Full(fs.vol) && old(fs.inodes[inum]).typ != T_DEV
      ensures r == Device || r == Fail ==> done < |src|
      ensures r.Done? ==> r.n == done == |src|
      ensures r != Panic ==>
                && fs.Settled() && inum in fs.inodes
                && Partway(old(fs.Bytes()), old(fs.inodes[inum]), old(off), fs.Bytes(), fs.inodes[inum], off, inum, src,
                           done, txns, OneMap(fs.sb, inum))
    {
      hide Partway, FileSystem.Settled, FileSystem.Bytes, Full, OneMap;
      done, txns := 0, [];
      var i := 0;
      NothingYet(fs.Bytes(), fs.inodes[inum], off, inum, src, OneMap(fs.sb, inum));
      while i < |src|
        invariant done == i <= |src| && off < WORD && fs.Settled() && inum in fs.inodes
        invariant Partway(old(fs.Bytes()), old(fs.inodes[inum]), old(off), fs.Bytes(), fs.inodes[inum], off, inum, src,
                          i, txns, OneMap(fs.sb, inum))
      {
        var n1 := |src| - i;
        if n1 > CHUNK {
          n1 := CHUNK;
        }
        r, txns := WriteNext(src, i, n1, old(fs.Bytes()), old(fs.inodes[inum]), old(off), txns);
        if !r.Done? { return; }
        i := i + n1;
        done := i;
      }
      r := Done(|src|);
    }

    /** One iteration of filewrite's loop. */
    method WriteNext(src: seq<Byte>, i: nat, n1: nat, ghost bytes0: map<nat, seq<Byte>>, ghost ip0: Inode,
                     ghost off0: nat, ghost txns: seq<Txn>) returns (r: Io, ghost txns': seq<Txn>)
      requires fs.Settled() && inum in fs.inodes && off < WORD && i < |src| && n1 == Min(|src| - i, CHUNK)
      requires Partway(bytes0, ip0, off0, fs.Bytes(), fs.inodes[inum], off, inum, src, i, txns, OneMap(fs.sb, inum))
      modifies this, fs
      ensures r == Device <==> Driven(fs.writers, ip0)
      ensures r == Fail ==> Refused(fs.writers, ip0, off0, |src|)
      ensures r == Panic ==> Full(fs.vol) && ip0.typ != T_DEV
      ensures r.Done? ==> off < WORD
      ensures !r.Done? ==> txns' == txns
      ensures r == Device || r == Fail ==>
                && off == old(off) && fs.Settled() && inum in fs.inodes
                && Partway(bytes0, ip0, off0, fs.Bytes(), fs.inodes[inum], off, inum, src, i, txns, OneMap(fs.sb, inum))
      ensures r.Done? ==>
                && fs.Settled() && inum in fs.inodes
                && Partway(bytes0, ip0, off0, fs.Bytes(), fs.inodes[inum], off, inum, src, i + n1, txns',
                           OneMap(fs.sb, inum))
    {
      hide Spliced, Covered, Full, TxnOk, OneMap;
      r := WriteTxn(src[i..i + n1]);
      txns' := txns;
      if r.Done? {
        CoveredMore(txns, OneMap(fs.sb, inum), ip0.size, off0, i, n1, fs.logged);
        txns' := txns + [Txn(Max(ip0.size, off0 + i), off0 + i, n1, fs.logged)];
        NextChunk(i, n1);
        SplicedTwice(bytes0, inum, off0, src, i, n1);
      }
    }
  }
}
