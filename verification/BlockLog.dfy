/**
 The on-disk redo log of Assignment1/log.c: a header block holding the home
 block numbers of a transaction, followed by the new contents of those blocks.
 A disk is a sequence of blocks, a block a sequence of 32-bit words.
 */
module BlockLog {
  import opened Basics

  const WORDS: nat := BSIZE / 4

  type Block = b: seq<int> | |b| == WORDS witness ZERO_BLOCK
  const ZERO_BLOCK: seq<int> := seq(WORDS, _ => 0)
  type Disk = seq<Block>

  /** `log.start` and `log.size`, and the number of blocks of the device. */
  datatype Layout = Layout(start: nat, size: nat, blocks: nat) {
    ghost predicate Valid() {
      1 <= size && start + size <= blocks
    }

    predicate InLog(b: int) {
      start <= b < start + size
    }

    predicate Home(b: int) {
      0 <= b < blocks && !InLog(b)
    }
  }

  // Log header (struct logheader: n, then block[LOGSIZE])

  predicate HeaderOk(b: Block) {
    0 <= b[0] <= LOGSIZE
  }

  function Header(b: Block): seq<int>
    requires HeaderOk(b)
  {
    b[1..1 + b[0]]
  }

  /** What `write_head` leaves in the header buffer: only `n` and the first `n` entries change. */
  function PutHeader(b: Block, lh: seq<int>): (r: Block)
    requires |lh| <= LOGSIZE
    ensures HeaderOk(r) && Header(r) == lh
  {
    [|lh|] + lh + b[1 + |lh|..]
  }

  /** A header `log.c` can have produced: distinct home blocks that fit the log area. */
  ghost predicate LhOk(l: Layout, lh: seq<int>) {
    && |lh| <= LOGSIZE
    && |lh| <= l.size - 1
    && Distinct(lh)
    && (forall i :: 0 <= i < |lh| ==> l.Home(lh[i]))
  }

  ghost predicate DiskOk(l: Layout, d: Disk) {
    && l.Valid()
    && |d| == l.blocks
    && HeaderOk(d[l.start])
    && LhOk(l, Header(d[l.start]))
  }

  ghost predicate SameHome(l: Layout, d: Disk, v: Disk) {
    && |d| == |v| == l.blocks
    && forall b :: l.Home(b) ==> d[b] == v[b]
  }

  /** Replaying the log found on `d` yields the home blocks of `v`. */
  ghost predicate Recovers(l: Layout, d: Disk, v: Disk) {
    && DiskOk(l, d)
    && |v| == l.blocks
    && var h := Header(d[l.start]);
       && (forall b :: l.Home(b) && b !in h ==> d[b] == v[b])
       && (forall i :: 0 <= i < |h| ==> d[l.start + 1 + i] == v[h[i]])
  }

  /** The first `k` iterations of `install_trans` for the in-memory header `lh`. */
  function Installed(l: Layout, d: Disk, lh: seq<int>, k: nat): (r: Disk)
    requires l.Valid() && |d| == l.blocks && LhOk(l, lh) && k <= |lh|
    ensures |r| == |d|
  {
    if k == 0 then d
    else
      var d' := Installed(l, d, lh, k - 1);
      d'[lh[k - 1] := d'[l.start + k]]
  }

  /** The disk `recover_from_log` leaves behind. */
  function Recovered(l: Layout, d: Disk): (r: Disk)
    requires DiskOk(l, d)
    ensures |r| == |d|
  {
    var h := Header(d[l.start]);
    var d' := Installed(l, d, h, |h|);
    d'[l.start := PutHeader(d'[l.start], [])]
  }

  /** Installing touches exactly the first `k` logged home blocks. */
  lemma {:induction false} InstalledAt(l: Layout, d: Disk, lh: seq<int>, k: nat)
    requires l.Valid() && |d| == l.blocks && LhOk(l, lh) && k <= |lh|
    ensures forall b :: 0 <= b < |d| && b !in lh[..k] ==> Installed(l, d, lh, k)[b] == d[b]
    ensures forall i :: 0 <= i < k ==> Installed(l, d, lh, k)[lh[i]] == d[l.start + 1 + i]
  {
    if k > 0 {
      InstalledAt(l, d, lh, k - 1);
      assert lh[..k] == lh[..k - 1] + [lh[k - 1]];
      assert l.start + k !in lh[..k - 1];
    }
  }

  /** Recovery turns the recoverable contents into the actual ones and empties the log. */
  lemma RecoveredRecovers(l: Layout, d: Disk, v: Disk)
    requires Recovers(l, d, v)
    ensures SameHome(l, Recovered(l, d), v)
    ensures Header(Recovered(l, d)[l.start]) == []
    ensures Recovers(l, Recovered(l, d), v)
  {
    var h := Header(d[l.start]);
    InstalledAt(l, d, h, |h|);
    assert h[..|h|] == h;
    forall b | l.Home(b) ensures Recovered(l, d)[b] == v[b] {
      if b in h {
        var i :| 0 <= i < |h| && h[i] == b;
      }
    }
  }

  /** Recovering an already recovered disk changes no home block. */
  lemma RecoveryIdempotent(l: Layout, d: Disk)
    requires DiskOk(l, d)
    ensures DiskOk(l, Recovered(l, d))
    ensures Recovered(l, Recovered(l, d)) == Recovered(l, d)
  {
    var r := Recovered(l, d);
    var h := Header(d[l.start]);
    InstalledAt(l, d, h, |h|);
    assert Header(r[l.start]) == [];
    assert PutHeader(r[l.start], []) == r[l.start];
    assert Recovered(l, r) == r[l.start := PutHeader(r[l.start], [])];
  }

  /** With an empty log the home blocks are what a recovery yields. */
  lemma EmptyRecovers(l: Layout, d: Disk, v: Disk)
    requires l.Valid() && SameHome(l, d, v) && HeaderOk(d[l.start]) && Header(d[l.start]) == []
    ensures Recovers(l, d, v)
  {
  }

  /** Before the commit point, writes to the log area are invisible to recovery. */
  lemma LogAreaInvisible(l: Layout, d: Disk, v: Disk, b: int, data: Block)
    requires Recovers(l, d, v) && Header(d[l.start]) == [] && l.InLog(b) && b != l.start
    ensures Recovers(l, d[b := data], v)
  {
  }

  /** Writing a header over a complete log area switches from the old contents to the new ones. */
  lemma HeaderCommits(l: Layout, d: Disk, post: Disk, lh: seq<int>)
    requires l.Valid() && |d| == |post| == l.blocks && LhOk(l, lh)
    requires forall b :: l.Home(b) && b !in lh ==> d[b] == post[b]
    requires forall i :: 0 <= i < |lh| ==> d[l.start + 1 + i] == post[lh[i]]
    ensures Recovers(l, d[l.start := PutHeader(d[l.start], lh)], post)
  {
    var d' := d[l.start := PutHeader(d[l.start], lh)];
    assert Header(d'[l.start]) == lh;
  }

  /** Stopping install_trans after any number of iterations leaves what the disk replays to. */
  lemma {:induction false} InstalledRecovers(l: Layout, d: Disk, v: Disk, k: nat)
    requires Recovers(l, d, v) && k <= |Header(d[l.start])|
    ensures var d' := Installed(l, d, Header(d[l.start]), k); Recovers(l, d', v) && d'[l.start] == d[l.start]
  {
    var h := Header(d[l.start]);
    InstalledAt(l, d, h, k);
    assert forall b :: b in h[..k] ==> b in h;
    forall b | 0 <= b < |d| && b !in h ensures Installed(l, d, h, k)[b] == d[b] {
    }
    forall i | 0 <= i < |h| ensures Installed(l, d, h, k)[l.start + 1 + i] == v[h[i]] {
      assert l.start + 1 + i !in h;
    }
  }
}
