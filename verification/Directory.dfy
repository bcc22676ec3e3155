/** dirlookup and dirlink of fs.c: a directory is a map from names of at most 14 bytes to inode numbers. */
module Directory {
  import opened Basics
  import opened Volume
  import opened FileBytes
  import opened InodeSteps
  import opened InodeLayer
  import opened DirNames

  /** Where dirlookup found the name, and the inode it is bound to. */
  datatype Found = Missing | At(k: nat, inum: nat)

  datatype LinkResult = Exists | Linked | Stopped

  /** A directory: whole entries and no name twice. */
  ghost predicate IsDir(fs: FileSystem, dp: nat)
    reads fs
  {
    fs.Settled() && dp in fs.inodes && fs.inodes[dp].typ == T_DIR && DirOk(fs.Bytes()[dp])
  }

  /** readi of one entry. */
  method ReadEntry(fs: FileSystem, dp: nat, off: nat) returns (e: seq<Byte>)
    requires IsDir(fs, dp) && off % DIRENT == 0 && off < fs.inodes[dp].size
    modifies fs`vol, fs`inodes, fs`owner, fs`logged
    ensures fs.vol == old(fs.vol) && fs.inodes == old(fs.inodes) && fs.owner == old(fs.owner)
    ensures fs.logged == old(fs.logged)
    ensures IsDir(fs, dp) && fs.Bytes() == old(fs.Bytes())
    ensures off / DIRENT < Count(fs.Bytes()[dp]) && e == Entry(fs.Bytes()[dp], off / DIRENT)
  {
    hide Owned, Contents, Addr;
    var r, dst := fs.Readi(dp, off, DIRENT);
    e := dst;
  }

  /** dirlookup: the first entry in use with this name. */
  method Dirlookup(fs: FileSystem, dp: nat, name: seq<Byte>) returns (r: Found)
    requires IsDir(fs, dp)
    modifies fs`vol, fs`inodes, fs`owner, fs`logged
    ensures fs.vol == old(fs.vol) && fs.inodes == old(fs.inodes) && fs.owner == old(fs.owner)
    ensures fs.logged == old(fs.logged)
    ensures IsDir(fs, dp) && fs.Bytes() == old(fs.Bytes())
    ensures r.At? ==> r.k < Count(fs.Bytes()[dp]) && BindsAt(fs.Bytes()[dp], r.k, Cut(name, DIRSIZ), r.inum)
    ensures r == Missing ==> forall i :: !Binds(fs.Bytes()[dp], Cut(name, DIRSIZ), i)
  {
    hide FileSystem.Settled, FileSystem.Bytes, Cut, Inum;
    ghost var d := fs.Bytes()[dp];
    var off := 0;
    while off < fs.inodes[dp].size
      invariant fs.vol == old(fs.vol) && fs.inodes == old(fs.inodes) && fs.owner == old(fs.owner)
      invariant fs.logged == old(fs.logged)
      invariant IsDir(fs, dp) && fs.Bytes() == old(fs.Bytes()) && off % DIRENT == 0 && off <= |d|
      invariant forall k :: 0 <= k < off / DIRENT ==> Inum(Entry(d, k)) == 0 || Name(Entry(d, k)) != Cut(name, DIRSIZ)
    {
      var e := ReadEntry(fs, dp, off);
      if Inum(e) != 0 {
        var c := Strncmp(name, e[2..], DIRSIZ);
        if c == 0 {
          return At(off / DIRENT, Inum(e));
        }
      }
      off := off + DIRENT;
    }
    r := Missing;
  }

  /** The search of dirlink for an unused entry, or the end of the directory. */
  method FindSlot(fs: FileSystem, dp: nat) returns (off: nat)
    requires IsDir(fs, dp)
    modifies fs`vol, fs`inodes, fs`owner, fs`logged
    ensures fs.vol == old(fs.vol) && fs.inodes == old(fs.inodes) && fs.owner == old(fs.owner)
    ensures fs.logged == old(fs.logged)
    ensures IsDir(fs, dp) && fs.Bytes() == old(fs.Bytes())
    ensures off % DIRENT == 0 && off <= |fs.Bytes()[dp]|
    ensures off < |fs.Bytes()[dp]| ==>
              && off / DIRENT < Count(fs.Bytes()[dp]) && Inum(Entry(fs.Bytes()[dp], off / DIRENT)) == 0
    ensures off == |fs.Bytes()[dp]| ==>
              forall k :: 0 <= k < Count(fs.Bytes()[dp]) ==> Inum(Entry(fs.Bytes()[dp], k)) != 0
  {
    hide FileSystem.Settled, FileSystem.Bytes, Inum;
    ghost var d := fs.Bytes()[dp];
    off := 0;
    while off < fs.inodes[dp].size
      invariant fs.vol == old(fs.vol) && fs.inodes == old(fs.inodes) && fs.owner == old(fs.owner)
      invariant fs.logged == old(fs.logged)
      invariant IsDir(fs, dp) && fs.Bytes() == old(fs.Bytes()) && off % DIRENT == 0 && off <= |d|
      invariant forall k :: 0 <= k < off / DIRENT ==> Inum(Entry(d, k)) != 0
    {
      var e := ReadEntry(fs, dp, off);
      if Inum(e) == 0 {
        return;
      }
      off := off + DIRENT;
    }
  }

  /** Writing one entry at a multiple of its size places it. */
  lemma {:induction false} SplicePlaced(d: seq<Byte>, off: nat, e: seq<Byte>)
    requires DirOk(d) && IsEntry(e) && off % DIRENT == 0 && off <= |d|
    ensures Placed(d, Splice(d, off, e), off / DIRENT, e)
  {
    var d', k := Splice(d, off, e), off / DIRENT;
    assert off == k * DIRENT && |d| == Count(d) * DIRENT;
    assert Entry(d', k) == e;
    forall j | 0 <= j < Count(d) && j != k ensures Entry(d', j) == Entry(d, j) {
      SpliceOther(d, off, e, j * DIRENT);
    }
  }

  lemma SpliceOther(d: seq<Byte>, off: nat, e: seq<Byte>, a: nat)
    requires IsEntry(e) && off <= |d| && a + DIRENT <= |d| && (a + DIRENT <= off || off + DIRENT <= a)
    ensures Splice(d, off, e)[a..a + DIRENT] == d[a..a + DIRENT]
  {
  }

  /** dirlink: a name that is not there yet gets one new binding, and nothing else changes. */
  method Dirlink(fs: FileSystem, dp: nat, name: seq<Byte>, inum: nat) returns (r: LinkResult)
    requires IsDir(fs, dp)
    modifies fs
    ensures r == Exists <==> exists i :: old(Binds(fs.Bytes()[dp], Cut(name, DIRSIZ), i))
    ensures r == Exists ==> IsDir(fs, dp) && fs.Bytes() == old(fs.Bytes())
    ensures r == Stopped ==> Full(fs.vol) || old(|fs.Bytes()[dp]|) + DIRENT > MAXBYTES
    ensures r == Linked ==>
              && IsDir(fs, dp) && fs.Bytes() == old(fs.Bytes())[dp := fs.Bytes()[dp]]
              && (old(Unique(fs.Bytes()[dp])) ==> Unique(fs.Bytes()[dp]))
              && forall n, i :: Binds(fs.Bytes()[dp], n, i) <==>
                                old(Binds(fs.Bytes()[dp], n, i))
                                    || (n == Cut(name, DIRSIZ) && i == inum % 0x1_0000 && i != 0)
  {
    hide FileSystem.Settled, FileSystem.Bytes, Cut, Inum, Unique, Binds, Full;
    ghost var d := fs.Bytes()[dp];
    var found := Dirlookup(fs, dp, name);
    if found.At? {
      BoundAt(d, found.k, Cut(name, DIRSIZ), found.inum);
      return Exists;
    }
    var off := FindSlot(fs, dp);
    var padded := Strncpy(name, DIRSIZ);
    var e := MakeEntry(inum, padded);
    r := PutEntryAt(fs, dp, e, off);
    if r == Linked {
      SplicePlaced(d, off, e);
      NotBound(d, Cut(name, DIRSIZ));
      LinkDone(d, Splice(d, off, e), off / DIRENT, e);
    }
  }

  lemma BoundAt(d: seq<Byte>, k: nat, name: seq<Byte>, inum: nat)
    requires DirOk(d) && k < Count(d) && BindsAt(d, k, name, inum)
    ensures Binds(d, name, inum)
  {
  }

  lemma {:induction false} NotBound(d: seq<Byte>, name: seq<Byte>)
    requires DirOk(d) && forall i :: !Binds(d, name, i)
    ensures forall j :: 0 <= j < Count(d) && Inum(Entry(d, j)) != 0 ==> Name(Entry(d, j)) != name
  {
    hide Binds;
    forall j | 0 <= j < Count(d) && Inum(Entry(d, j)) != 0 ensures Name(Entry(d, j)) != name {
      if Name(Entry(d, j)) == name {
        BoundAt(d, j, name, Inum(Entry(d, j)));
      }
    }
  }

  lemma {:induction false} LinkDone(d: seq<Byte>, d': seq<Byte>, k: nat, e: seq<Byte>)
    requires DirOk(d) && IsEntry(e) && Placed(d, d', k, e) && (k < Count(d) ==> Inum(Entry(d, k)) == 0)
    requires forall j :: 0 <= j < Count(d) && Inum(Entry(d, j)) != 0 ==> Name(Entry(d, j)) != Name(e)
    ensures Unique(d) ==> Unique(d')
    ensures forall n, i :: Binds(d', n, i) <==> Binds(d, n, i) || (i != 0 && Inum(e) == i && Name(e) == n)
  {
    hide Unique, Binds;
    if Unique(d) { PlacedUnique(d, d', k, e); }
    forall n, i: nat ensures Binds(d', n, i) <==> Binds(d, n, i) || (i != 0 && Inum(e) == i && Name(e) == n) {
      PlacedBinds(d, d', k, e, n, i);
    }
  }

  /** The write of dirlink. */
  method PutEntryAt(fs: FileSystem, dp: nat, e: seq<Byte>, off: nat) returns (r: LinkResult)
    requires IsDir(fs, dp) && IsEntry(e) && off % DIRENT == 0 && off <= |fs.Bytes()[dp]|
    modifies fs
    ensures r == Linked || r == Stopped
    ensures r == Stopped ==> Full(fs.vol) || off + DIRENT > MAXBYTES
    ensures r == Linked ==> IsDir(fs, dp) && fs.Bytes() == old(fs.Bytes())[dp := Splice(old(fs.Bytes())[dp], off, e)]
  {
    hide Owned, Contents, Addr, Full, Files;
    var w := fs.Writei(dp, e, off);
    if w.Done? {
      SplicePlaced(old(fs.Bytes())[dp], off, e);
      r := Linked;
    } else {
      r := Stopped;
    }
  }
}
