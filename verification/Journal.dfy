/**
 log.c as it is written: the loops of write_log, write_head, install_trans,
 commit and recover_from_log over a cache in front of a disk. `trace` records
 the disk image after every disk write, so that a crash is a member of `trace`.
 */
module Journal {
  import opened Basics
  import opened BlockLog
  import LogSystem

  lemma NoneInstalled(l: Layout, d: Disk, lh: seq<int>)
    requires l.Valid() && |d| == l.blocks && LhOk(l, lh)
    ensures Installed(l, d, lh, 0) == d
  {
  }

  class Journal {
    const l: Layout
    var disk: Disk
    var cache: map<int, Block>
    var dirty: set<int>
    var lh: seq<int>
    var outstanding: int
    var committing: bool
    ghost var trace: seq<Disk>

    /** Clean cached blocks agree with the disk; exactly the logged blocks are dirty, and they are cached. */
    ghost predicate Valid()
      reads this
    {
      && l.Valid() && |disk| == l.blocks && LhOk(l, lh)
      && dirty <= cache.Keys
      && (forall b :: b in dirty ==> b in lh)
      && (forall b :: b in cache && b !in dirty ==> 0 <= b < l.blocks && cache[b] == disk[b])
    }

    /** All disk images since position `n` of the trace replay to the home blocks of `v`. */
    ghost predicate Survives(n: nat, v: Disk)
      reads this
    {
      forall k :: n <= k < |trace| ==> Recovers(l, trace[k], v)
    }

    constructor (l: Layout, disk: Disk)
      requires l.Valid() && |disk| == l.blocks
      ensures Valid() && this.l == l && this.disk == disk && lh == [] && trace == [] && dirty == {}
      ensures outstanding == 0 && !committing
    {
      this.l, this.disk := l, disk;
      cache, dirty, lh := map[], {}, [];
      outstanding, committing, trace := 0, false, [];
    }

    /** bread: the cached contents, read from the disk on a miss. */
    method Bread(b: int) returns (data: Block)
      requires Valid() && 0 <= b < l.blocks
      modifies this`cache
      ensures Valid() && b in cache && cache[b] == data
      ensures old(cache).Keys <= cache.Keys && forall x :: x in old(cache) ==> cache[x] == old(cache[x])
      ensures data == if b in old(cache) then old(cache[b]) else disk[b]
    {
      if b !in cache {
        cache := cache[b := disk[b]];
      }
      data := cache[b];
    }

    /** bwrite: one atomic disk write, after which the block is clean. */
    method Bwrite(b: int, data: Block)
      requires Valid() && 0 <= b < l.blocks
      modifies this`cache, this`dirty, this`disk, this`trace
      ensures Valid() && disk == old(disk)[b := data] && trace == old(trace) + [disk]
      ensures cache == old(cache)[b := data] && dirty == old(dirty) - {b}
    {
      cache := cache[b := data];
      dirty := dirty - {b};
      disk := disk[b := data];
      trace := trace + [disk];
    }

    /** log_write: search with absorption; the two panics are reported as `false`. */
    method LogWrite(b: int, data: Block) returns (ok: bool)
      requires Valid() && l.Home(b)
      modifies this`cache, this`dirty, this`lh
      ensures Valid()
      ensures ok <==> old(|lh|) < LOGSIZE && old(|lh|) < l.size - 1 && outstanding >= 1
      ensures ok ==> lh == LogSystem.Absorb(old(lh), b) && cache == old(cache)[b := data] && dirty == old(dirty) + {b}
      ensures !ok ==> lh == old(lh) && cache == old(cache) && dirty == old(dirty)
    {
      if |lh| >= LOGSIZE || |lh| >= l.size - 1 || outstanding < 1 {
        return false;
      }
      var i := 0;
      while i < |lh| && lh[i] != b
        invariant 0 <= i <= |lh|
        invariant b !in lh[..i]
      {
        i := i + 1;
      }
      if i == |lh| {
        assert lh[..i] == lh;
        lh := lh + [b];
      } else {
        lh := lh[i := b];
        assert lh == old(lh);
      }
      cache := cache[b := data];
      dirty := dirty + {b};
      ok := true;
    }

    /** One iteration of write_log. */
    method CopyBlock(tail: nat, ghost v: Disk)
      requires Valid() && tail < |lh| && lh[tail] in dirty && Recovers(l, disk, v) && Header(disk[l.start]) == []
      modifies this`cache, this`dirty, this`disk, this`trace
      ensures Valid() && dirty == old(dirty) && (forall b :: b in dirty ==> cache[b] == old(cache[b]))
      ensures disk == old(disk)[l.start + 1 + tail := cache[lh[tail]]] && Recovers(l, disk, v)
      ensures trace == old(trace) + [disk]
    {
      var to := Bread(l.start + 1 + tail);
      var from := Bread(lh[tail]);
      LogAreaInvisible(l, disk, v, l.start + 1 + tail, from);
      Bwrite(l.start + 1 + tail, from);
    }

    /** write_log: copies the cached blocks into the log area; nothing a recovery would see changes. */
    method WriteLog(ghost v: Disk)
      requires Valid() && dirty == (set b | b in lh) && Recovers(l, disk, v) && Header(disk[l.start]) == []
      modifies this`cache, this`dirty, this`disk, this`trace
      ensures Valid() && dirty == old(dirty) && (forall b :: b in dirty ==> cache[b] == old(cache[b]))
      ensures SameHome(l, disk, old(disk)) && disk[l.start] == old(disk[l.start])
      ensures forall i :: 0 <= i < |lh| ==> disk[l.start + 1 + i] == cache[lh[i]]
      ensures old(trace) <= trace && Survives(old(|trace|), v)
    {
      var tail := 0;
      while tail < |lh|
        invariant 0 <= tail <= |lh|
        invariant Valid() && dirty == old(dirty) && (forall b :: b in dirty ==> cache[b] == old(cache[b]))
        invariant SameHome(l, disk, old(disk)) && disk[l.start] == old(disk[l.start]) && Recovers(l, disk, v)
        invariant forall i :: 0 <= i < tail ==> disk[l.start + 1 + i] == cache[lh[i]]
        invariant old(trace) <= trace && Survives(old(|trace|), v)
      {
        CopyBlock(tail, v);
        tail := tail + 1;
      }
    }

    /** write_head: the header block gets the in-memory header. */
    method WriteHead()
      requires Valid()
      modifies this`cache, this`dirty, this`disk, this`trace
      ensures Valid() && dirty == old(dirty) && (forall b :: b in dirty ==> cache[b] == old(cache[b]))
      ensures disk == old(disk)[l.start := PutHeader(old(disk[l.start]), lh)]
      ensures disk[l.start][0] == |lh| && disk[l.start][1..1 + |lh|] == lh
      ensures forall k :: |lh| < k < |disk[l.start]| ==> disk[l.start][k] == old(disk[l.start])[k]
      ensures trace == old(trace) + [disk]
    {
      var hb := Bread(l.start);
      Bwrite(l.start, PutHeader(hb, lh));
    }

    /** One iteration of install_trans. */
    method InstallBlock(tail: nat, ghost d: Disk)
      requires Valid() && tail < |lh| && |d| == l.blocks && disk == Installed(l, d, lh, tail)
      modifies this`cache, this`dirty, this`disk, this`trace
      ensures Valid() && disk == Installed(l, d, lh, tail + 1)
      ensures dirty == old(dirty) - {lh[tail]} && trace == old(trace) + [disk]
    {
      var b := l.start + 1 + tail;
      assert b !in dirty;
      var lbuf := Bread(b);
      var dbuf := Bread(lh[tail]);
      Bwrite(lh[tail], lbuf);
    }

    /** install_trans: the disk image after each of its writes is that of a partial installation. */
    method InstallTrans()
      requires Valid()
      modifies this`cache, this`dirty, this`disk, this`trace
      ensures Valid() && disk == Installed(l, old(disk), lh, |lh|) && dirty == {}
      ensures |trace| == old(|trace|) + |lh| && old(trace) <= trace
      ensures forall k :: old(|trace|) <= k < |trace| ==> trace[k] == Installed(l, old(disk), lh, k - old(|trace|) + 1)
    {
      hide Installed, Distinct;
      assert Installed(l, disk, lh, 0) == disk by { NoneInstalled(l, disk, lh); }
      var tail := 0;
      while tail < |lh|
        invariant 0 <= tail <= |lh|
        invariant Valid() && disk == Installed(l, old(disk), lh, tail)
        invariant forall i :: 0 <= i < tail ==> lh[i] !in dirty
        invariant |trace| == old(|trace|) + tail && old(trace) <= trace
        invariant forall k :: old(|trace|) <= k < |trace| ==>
                    trace[k] == Installed(l, old(disk), lh, k - old(|trace|) + 1)
      {
        InstallBlock(tail, old(disk));
        tail := tail + 1;
      }
      assert forall b :: b !in dirty;
    }

    /**
     commit: at every disk write the disk replays either to the contents before
     the transaction or to the contents after it, and never goes back.
     */
    method Commit(ghost pre: Disk, ghost post: Disk) returns (ghost point: nat)
      requires Valid() && dirty == (set b | b in lh) && committing && outstanding == 0
      requires SameHome(l, disk, pre) && HeaderOk(disk[l.start]) && Header(disk[l.start]) == []
      requires |post| == l.blocks && forall b :: l.Home(b) ==> post[b] == if b in lh then cache[b] else pre[b]
      modifies this
      ensures Valid() && lh == [] && dirty == {} && committing == old(committing) && outstanding == old(outstanding)
      ensures SameHome(l, disk, post) && HeaderOk(disk[l.start]) && Header(disk[l.start]) == []
      ensures old(trace) <= trace && old(|trace|) <= point <= |trace|
      ensures forall k :: old(|trace|) <= k < point ==> Recovers(l, trace[k], pre)
      ensures forall k :: point <= k < |trace| ==> Recovers(l, trace[k], post)
    {
      point := |trace|;
      if |lh| > 0 {
        WriteTransaction(pre, post);
        point := |trace| - 1;
        RecoveredRecovers(l, disk, post);
        Finish(post);
      }
    }

    /** The first half of commit: the last of its disk writes is the commit point. */
    method WriteTransaction(ghost pre: Disk, ghost post: Disk)
      requires Valid() && dirty == (set b | b in lh)
      requires SameHome(l, disk, pre) && HeaderOk(disk[l.start]) && Header(disk[l.start]) == []
      requires |post| == l.blocks && forall b :: l.Home(b) ==> post[b] == if b in lh then cache[b] else pre[b]
      modifies this`cache, this`dirty, this`disk, this`trace
      ensures Valid() && Recovers(l, disk, post) && Header(disk[l.start]) == lh
      ensures old(trace) < trace && trace[|trace| - 1] == disk
      ensures forall k :: old(|trace|) <= k < |trace| - 1 ==> Recovers(l, trace[k], pre)
    {
      hide Recovers, PutHeader, Header, Distinct;
      EmptyRecovers(l, disk, pre);
      WriteLog(pre);
      HeaderCommits(l, disk, post, lh);
      WriteHead();
    }

    /** The common end of commit and recover_from_log: install, then erase the header. */
    method Finish(ghost v: Disk)
      requires Valid() && Recovers(l, disk, v) && Header(disk[l.start]) == lh
      modifies this`cache, this`dirty, this`disk, this`trace, this`lh
      ensures Valid() && lh == [] && dirty == {} && disk == Recovered(l, old(disk))
      ensures old(trace) <= trace && Survives(old(|trace|), v)
    {
      hide Installed, PutHeader, Header;
      InstallTrans();
      assert Survives(old(|trace|), v) by {
        forall k | old(|trace|) <= k < |trace| ensures Recovers(l, trace[k], v) {
          InstalledRecovers(l, old(disk), v, k - old(|trace|) + 1);
        }
      }
      lh := [];
      WriteHead();
      RecoveredRecovers(l, old(disk), v);
    }

    /** read_head. */
    method ReadHead()
      requires l.Valid() && DiskOk(l, disk) && Valid() && dirty == {} && lh == []
      modifies this`cache, this`lh
      ensures Valid() && lh == Header(disk[l.start])
    {
      var buf := Bread(l.start);
      var n := buf[0];
      var i, blocks := 0, [];
      while i < n
        invariant 0 <= i <= n && blocks == buf[1..1 + i]
      {
        blocks := blocks + [buf[1 + i]];
        i := i + 1;
      }
      lh := blocks;
    }

    /**
     recover_from_log: every disk image on the way replays to the same contents,
     so crashes during recovery, however many, change nothing.
     */
    method RecoverFromLog(ghost v: Disk)
      requires Valid() && dirty == {} && lh == [] && Recovers(l, disk, v)
      modifies this`cache, this`dirty, this`disk, this`trace, this`lh
      ensures Valid() && lh == [] && disk == Recovered(l, old(disk)) && SameHome(l, disk, v)
      ensures old(trace) <= trace && Survives(old(|trace|), v)
    {
      ReadHead();
      RecoveredRecovers(l, disk, v);
      Finish(v);
    }
  }
}
