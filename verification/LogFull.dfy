/**
 What system calls can do to a log that is too short or a header that is full,
 and exactly when. The header takes one of the log's blocks, so a log of LOGSIZE
 blocks, the size that mkfs gives it, is one short: log_write can panic, or, as
 it tests for room before it takes the lock, two calls can pass the test together
 and append one block too many. And a full header makes even a log_write panic
 that would only be absorbed.
 */
module LogFull {
  import opened Basics
  import opened BlockLog
  import opened LogSystem
  import opened LogInvariant
  import opened LogTheorems
  import opened LogSpace

  lemma {:induction false} ReachesMore(c: Config, h: Habit, s: State, xs: seq<Step>, s': State, x: Step)
    requires Reaches(c, h, s, xs, s') && CanStep(c, h, s', x)
    ensures Reaches(c, h, s, xs + [x], Next(c, s', x))
    decreases |xs|
  {
    hide Next, May, Panics, Within;
    if xs == [] {
      assert ([] + [x])[1..] == [];
      assert Reaches(c, h, Next(c, s, x), [], Next(c, s, x));
    } else {
      assert (xs + [x])[1..] == xs[1..] + [x];
      ReachesMore(c, h, Next(c, s, xs[0]), xs[1..], s', x);
    }
  }

  lemma {:induction false} ReachableMore(c: Config, h: Habit, s: State, x: Step)
    requires ReachableBy(c, h, s) && CanStep(c, h, s, x)
    ensures ReachableBy(c, h, Next(c, s, x))
  {
    hide Next, Reaches, May, Panics, Within;
    var s0, xs :| Init(c, s0) && Reaches(c, h, s0, xs, s);
    ReachesMore(c, h, s0, xs, s, x);
  }

  // What one thread does with one buffer

  /** Runs of which only possible steps are asked, or sparing ones. */
  predicate Plain(h: Habit) { h == Any || h == Sparing }

  ghost predicate Shaped(c: Config, s: State) {
    c.l.Valid() && |s.disk| == c.l.blocks && BufShape(c, s.bufs)
  }

  /** A buffer bget may recycle. */
  predicate Unused(b: Buf) { b.refcnt == 0 && !b.dirty && b.holder == None && !b.changed }

  /** `s'` is `s` but for buffer `i` and the references of thread `t`. */
  ghost predicate Changed(s: State, s': State, t: nat, i: nat, nb: Buf, refs: map<nat, Use>) {
    i < |s.bufs| && t < |s.thr| && s' == s.(bufs := s.bufs[i := nb], thr := s.thr[t := s.thr[t].(refs := refs)])
  }

  /** bread: bget of a block that is not cached, the buffer's lock, and the read. */
  lemma {:induction false} Fetch(c: Config, h: Habit, s: State, t: nat, i: nat, b: int) returns (s': State)
    requires ReachableBy(c, h, s) && Shaped(c, s) && Plain(h)
    requires Ready(s, t) && i < |s.bufs| && Unused(s.bufs[i]) && 0 <= b < c.l.blocks && !Cached(s, b)
    ensures ReachableBy(c, h, s')
    ensures Changed(s, s', t, i, Buf(ROOTDEV, b, true, false, 1, Some(t), s.disk[b], false),
                    s.thr[t].refs[i := Holding])
  {
    hide ReachableBy, Reaches, Panics;
    var s2 := Grab(c, h, s, t, i, b);
    var x := Fill(t, i);
    assert May(c, s2, x) && !Panics(c, s2, x) by { NoPanicOn(c, s2, x); }
    ReachableMore(c, h, s2, x);
    s' := Next(c, s2, x);
    assert s'.bufs == s.bufs[i := s'.bufs[i]] && s'.thr == s.thr[t := s'.thr[t]];
  }

  lemma NoPanicOn(c: Config, s: State, x: Step)
    requires !x.LogTest? && !x.EndOp?
    ensures !Panics(c, s, x)
  {
  }

  /** bget of a block that is not cached, and the buffer's lock. */
  lemma {:induction false} Grab(c: Config, h: Habit, s: State, t: nat, i: nat, b: int) returns (s': State)
    requires ReachableBy(c, h, s) && Shaped(c, s) && Plain(h)
    requires Ready(s, t) && i < |s.bufs| && Unused(s.bufs[i]) && 0 <= b < c.l.blocks && !Cached(s, b)
    ensures ReachableBy(c, h, s')
    ensures Changed(s, s', t, i, s.bufs[i].(dev := ROOTDEV, bno := b, valid := false, refcnt := 1, holder := Some(t)),
                    s.thr[t].refs[i := Holding])
  {
    hide ReachableBy;
    var x1, x2 := BgetRecycle(t, i, b), Lock(t, i);
    ReachableMore(c, h, s, x1);
    var s1 := Next(c, s, x1);
    ReachableMore(c, h, s1, x2);
    s' := Next(c, s1, x2);
    assert s'.thr[t].refs == s.thr[t].refs[i := Holding];
    assert s'.bufs == s.bufs[i := s'.bufs[i]] && s'.thr == s.thr[t := s'.thr[t]];
  }

  /** bget of a cached block that nobody uses, and the buffer's lock. */
  lemma {:induction false} Take(c: Config, h: Habit, s: State, t: nat, i: nat) returns (s': State)
    requires ReachableBy(c, h, s) && Shaped(c, s) && Plain(h)
    requires Ready(s, t) && i < |s.bufs| && i !in s.thr[t].refs
    requires s.bufs[i].dev == ROOTDEV && s.bufs[i].refcnt == 0 && s.bufs[i].holder == None
    ensures ReachableBy(c, h, s')
    ensures Changed(s, s', t, i, s.bufs[i].(refcnt := 1, holder := Some(t)), s.thr[t].refs[i := Holding])
  {
    hide ReachableBy;
    var x1, x2 := BgetHit(t, i), Lock(t, i);
    ReachableMore(c, h, s, x1);
    var s1 := Next(c, s, x1);
    ReachableMore(c, h, s1, x2);
    s' := Next(c, s1, x2);
    assert s'.thr[t].refs == s.thr[t].refs[i := Holding];
    assert s'.bufs == s.bufs[i := s'.bufs[i]] && s'.thr == s.thr[t := s'.thr[t]];
  }

  /** brelse by the only user. */
  lemma {:induction false} Drop(c: Config, h: Habit, s: State, t: nat, i: nat) returns (s': State)
    requires ReachableBy(c, h, s) && Shaped(c, s) && Plain(h)
    requires Ready(s, t) && Holds(s, t, i) && s.bufs[i].refcnt == 1 && !s.bufs[i].changed
    ensures ReachableBy(c, h, s')
    ensures Changed(s, s', t, i, s.bufs[i].(refcnt := 0, holder := None), s.thr[t].refs - {i})
  {
    hide ReachableBy, Next, Within;
    var s1 := Unhold(c, h, s, t, i);
    s' := Forget(c, h, s1, t, i);
    assert s.thr[t].refs[i := Leaving] - {i} == s.thr[t].refs - {i};
    assert s'.bufs == s.bufs[i := s'.bufs[i]] && s'.thr == s.thr[t := s'.thr[t]];
  }

  lemma {:induction false} Unhold(c: Config, h: Habit, s: State, t: nat, i: nat) returns (s': State)
    requires ReachableBy(c, h, s) && Shaped(c, s) && Plain(h) && Ready(s, t) && Holds(s, t, i) && !s.bufs[i].changed
    ensures ReachableBy(c, h, s') && Shaped(c, s')
    ensures Changed(s, s', t, i, s.bufs[i].(holder := None), s.thr[t].refs[i := Leaving])
  {
    hide ReachableBy;
    ReachableMore(c, h, s, Unlock(t, i));
    s' := Next(c, s, Unlock(t, i));
  }

  lemma {:induction false} Forget(c: Config, h: Habit, s: State, t: nat, i: nat) returns (s': State)
    requires ReachableBy(c, h, s) && Shaped(c, s) && Plain(h) && Ready(s, t) && i < |s.bufs|
    requires i in s.thr[t].refs && s.thr[t].refs[i] == Leaving && s.bufs[i].refcnt == 1
    ensures ReachableBy(c, h, s')
    ensures Changed(s, s', t, i, s.bufs[i].(refcnt := 0), s.thr[t].refs - {i})
  {
    hide ReachableBy;
    ReachableMore(c, h, s, Unref(t, i));
    s' := Next(c, s, Unref(t, i));
  }

  /** A home block in a buffer of its own, with new contents that are not logged yet. */
  lemma {:induction false} Prepare(c: Config, h: Habit, s: State, t: nat, i: nat, b: int, data: Block)
    returns (s': State)
    requires ReachableBy(c, h, s) && Shaped(c, s) && Plain(h) && c.l.Home(b)
    requires Ready(s, t) && s.thr[t].op.Some? && i < |s.bufs| && Unused(s.bufs[i]) && !Cached(s, b)
    ensures ReachableBy(c, h, s') && Shaped(c, s')
    ensures Changed(s, s', t, i, Buf(ROOTDEV, b, true, false, 1, Some(t), data, true), s.thr[t].refs[i := Holding])
  {
    hide ReachableBy;
    var s1 := Fetch(c, h, s, t, i, b);
    ReachableMore(c, h, s1, Modify(t, i, data));
    s' := Next(c, s1, Modify(t, i, data));
    assert s'.bufs == s.bufs[i := s'.bufs[i]] && s'.thr == s.thr[t := s'.thr[t]];
  }

  /** log_write by itself: the test, then the append. */
  lemma {:induction false} LogOne(c: Config, h: Habit, s: State, t: nat, i: nat) returns (s': State)
    requires ReachableBy(c, h, s) && Shaped(c, s) && Plain(h)
    requires Ready(s, t) && Loggable(c, s, t, i) && |s.lh| < Capacity(c.l) && s.outstanding >= 1
    requires h == Sparing ==> |s.thr[t].mine| < MAXOPBLOCKS
    ensures ReachableBy(c, h, s') && s' == Logged(Passed(s, t, i), t, i)
  {
    hide ReachableBy, Absorb;
    ReachableMore(c, h, s, LogTest(t, i));
    var s1 := Next(c, s, LogTest(t, i));
    ReachableMore(c, h, s1, LogWrite(t, i));
    s' := Next(c, s1, LogWrite(t, i));
  }

  // Three system calls that log many blocks

  /** Who logs block `k`: three sparing calls ten blocks each, the last two taking turns at the end; or one call all. */
  function Who(h: Habit, k: nat): nat {
    if h != Sparing || k < 10 then 0 else if k < 19 || k == 28 then 1 else 2
  }

  /** How many of the first `k` blocks sparing thread `t` logs. */
  function Share(k: nat, t: nat): nat {
    if t == 0 then Min(k, 10)
    else if t == 1 then if k <= 10 then 0 else if k <= 19 then k - 10 else if k <= 28 then 9 else 10
    else if k <= 19 then 0 else if k <= 28 then k - 19 else if k <= 29 then 9 else 10
  }

  lemma ShareNext(k: nat, t: nat)
    requires k < LOGSIZE && t < 3
    ensures Share(k + 1, t) == Share(k, t) + if t == Who(Sparing, k) then 1 else 0
    ensures Share(k, Who(Sparing, k)) < MAXOPBLOCKS && Who(Sparing, k) < 3
  {
  }

  lemma WhoBelow(h: Habit, k: nat)
    ensures Who(h, k) < 3
  {
  }

  /** In a sparing run each call has logged its share of the first `k` blocks. */
  ghost predicate Shares(h: Habit, thr: seq<Thread>, k: nat) {
    |thr| == 3 && (h == Sparing ==> forall t :: 0 <= t < 3 ==> |thr[t].mine| == Share(k, t))
  }

  /** The calls use no buffer and are not in log_write. */
  ghost predicate Resting(thr: seq<Thread>, lh: seq<int>) {
    && |thr| == 3
    && (forall t :: 0 <= t < 3 ==> thr[t].op.Some? && thr[t].passed == None && thr[t].refs == map[])
    && (forall t, b :: 0 <= t < 3 && b in thr[t].mine ==> b in lh)
  }

  /** A logged block that nobody uses. */
  predicate Pinned(b: Buf, bno: int) {
    b.dirty && b.valid && b.dev == ROOTDEV && b.bno == bno && b.refcnt == 0 && b.holder == None && !b.changed
  }

  /** The first `k` of `homes` are pinned in the first `k` buffers; the others are unused and hold no home block. */
  ghost predicate Buffers(c: Config, bufs: seq<Buf>, homes: seq<int>, k: nat) {
    && k <= |homes| && k <= |bufs| == c.nbuf
    && (forall j :: 0 <= j < k ==> Pinned(bufs[j], homes[j]))
    && (forall i :: k <= i < |bufs| ==> Unused(bufs[i]) && (bufs[i].dev == ROOTDEV ==> bufs[i].bno == c.l.start))
  }

  /** Nothing has been committed. */
  ghost predicate Pristine(c: Config, s: State) {
    DiskShape(c, s.disk) && s.durable == 0 && Uncommitted(c, s.disk, c.base)
  }

  /** Three calls are in progress and have logged the first `k` of `homes`, each in a buffer of its own. */
  ghost predicate Busy(c: Config, h: Habit, s: State, homes: seq<int>, k: nat) {
    && ReachableBy(c, h, s) && Shaped(c, s) && Pristine(c, s)
    && s.phase == Quiet && !s.boot && !s.committing && s.outstanding == 3
    && k <= |homes| && s.lh == homes[..k] && Resting(s.thr, s.lh) && Buffers(c, s.bufs, homes, k)
  }

  ghost predicate Homes(c: Config, homes: seq<int>) {
    Distinct(homes) && forall k :: 0 <= k < |homes| ==> c.l.Home(homes[k])
  }

  /** A block not logged yet is not in the cache. */
  lemma {:induction false} NotCached(c: Config, s: State, homes: seq<int>, k: nat, b: int)
    requires c.l.Valid() && Buffers(c, s.bufs, homes, k) && b !in homes[..k] && b != c.l.start
    ensures !Cached(s, b)
  {
    forall i | 0 <= i < |s.bufs| ensures !(s.bufs[i].dev == ROOTDEV && s.bufs[i].bno == b) {
      if i < k {
        assert homes[..k][i] == homes[i] && Pinned(s.bufs[i], homes[i]);
      }
    }
  }

  lemma {:induction false} NotYet(c: Config, homes: seq<int>, k: nat, j: nat)
    requires c.l.Valid() && Homes(c, homes) && k <= j < |homes|
    ensures homes[j] !in homes[..k] && homes[j] != c.l.start && c.l.Home(homes[j])
  {
  }

  /** The calls after thread `t` has logged one more block. */
  lemma {:induction false} RestingNext(thr: seq<Thread>, homes: seq<int>, k: nat, t: nat)
    requires k < |homes| && t < 3 && Resting(thr, homes[..k])
    ensures Resting(thr[t := Thread(thr[t].op, thr[t].mine + {homes[k]}, None, map[])], homes[..k + 1])
  {
    assert homes[..k + 1] == homes[..k] + [homes[k]];
  }

  lemma {:induction false} SharesNext(h: Habit, thr: seq<Thread>, homes: seq<int>, k: nat)
    requires k < |homes| && k < LOGSIZE && Distinct(homes) && Resting(thr, homes[..k]) && Shares(h, thr, k)
    ensures Who(h, k) < 3 && (h == Sparing ==> |thr[Who(h, k)].mine| < MAXOPBLOCKS)
    ensures var t := Who(h, k);
            Shares(h, thr[t := Thread(thr[t].op, thr[t].mine + {homes[k]}, None, map[])], k + 1)
  {
    hide Share, Who;
    var t, b, lh := Who(h, k), homes[k], homes[..k];
    WhoBelow(h, k);
    assert b !in lh && (b in thr[t].mine ==> b in lh);
    assert |thr[t].mine + {b}| == |thr[t].mine| + 1;
    if h == Sparing {
      forall u | 0 <= u < 3
        ensures Share(k + 1, u) == Share(k, u) + (if u == t then 1 else 0) && Share(k, t) < MAXOPBLOCKS
      {
        ShareNext(k, u);
      }
    }
  }

  lemma {:induction false} BuffersNext(c: Config, bufs: seq<Buf>, homes: seq<int>, k: nat, nb: Buf)
    requires Buffers(c, bufs, homes, k) && k < |homes| && k < |bufs| && Pinned(nb, homes[k])
    ensures Buffers(c, bufs[k := nb], homes, k + 1)
  {
  }

  /** Thread `t` fetches, changes, logs and releases the next block. */
  lemma {:induction false} BusyNext(c: Config, h: Habit, s: State, homes: seq<int>, k: nat, t: nat, data: Block)
    returns (s': State)
    requires Busy(c, h, s, homes, k) && Homes(c, homes) && Plain(h) && t < 3
    requires k < Capacity(c.l) && k < c.nbuf && k < |homes| && (h == Sparing ==> |s.thr[t].mine| < MAXOPBLOCKS)
    ensures Busy(c, h, s', homes, k + 1)
    ensures s'.thr == s.thr[t := Thread(s.thr[t].op, s.thr[t].mine + {homes[k]}, None, map[])]
  {
    hide ReachableBy, Absorb;
    NotYet(c, homes, k, k);
    NotCached(c, s, homes, k, homes[k]);
    var s1 := Prepare(c, h, s, t, k, homes[k], data);
    var s2 := LogOne(c, h, s1, t, k);
    s' := Drop(c, h, s2, t, k);
    BusyAfter(c, h, s, homes, k, t, s1, s2, s', data);
  }

  lemma {:induction false} BusyAfter(c: Config, h: Habit, s: State, homes: seq<int>, k: nat, t: nat,
                                     s1: State, s2: State, s': State, data: Block)
    requires Busy(c, h, s, homes, k) && Homes(c, homes) && k < |homes| && t < 3 && k < |s.bufs|
    requires Changed(s, s1, t, k, Buf(ROOTDEV, homes[k], true, false, 1, Some(t), data, true),
                     s.thr[t].refs[k := Holding])
    requires s1.thr[t].op.Some? && s2 == Logged(Passed(s1, t, k), t, k)
    requires Changed(s2, s', t, k, s2.bufs[k].(refcnt := 0, holder := None), s2.thr[t].refs - {k})
    requires ReachableBy(c, h, s')
    ensures Busy(c, h, s', homes, k + 1)
    ensures s'.thr == s.thr[t := Thread(s.thr[t].op, s.thr[t].mine + {homes[k]}, None, map[])]
    ensures s'.bufs == s.bufs[k := Buf(ROOTDEV, homes[k], true, true, 0, None, data, false)]
  {
    hide ReachableBy, Pinned, Unused, Resting, Buffers;
    NotYet(c, homes, k, k);
    assert homes[..k + 1] == homes[..k] + [homes[k]];
    assert s.thr[t].refs[k := Holding] - {k} == map[] by { RestingRefs(s.thr, s.lh, t); }
    var nb := Buf(ROOTDEV, homes[k], true, true, 0, None, data, false);
    assert s'.bufs == s.bufs[k := nb];
    assert Pinned(nb, homes[k]) by { PinnedIs(nb, homes[k]); }
    BuffersNext(c, s.bufs, homes, k, nb);
    RestingNext(s.thr, homes, k, t);
    assert s'.thr == s.thr[t := Thread(s.thr[t].op, s.thr[t].mine + {homes[k]}, None, map[])];
  }

  lemma RestingRefs(thr: seq<Thread>, lh: seq<int>, t: nat)
    requires Resting(thr, lh) && t < 3
    ensures |thr| == 3 && thr[t].refs == map[] && thr[t].op.Some? && thr[t].passed == None
  {
  }

  lemma PinnedIs(b: Buf, bno: int)
    requires b.dirty && b.valid && b.dev == ROOTDEV && b.bno == bno && b.refcnt == 0 && b.holder == None && !b.changed
    ensures Pinned(b, bno)
  {
  }

  /** From `k` blocks logged to `n`. */
  lemma {:induction false} BusyUntil(c: Config, h: Habit, s: State, homes: seq<int>, k: nat, n: nat) returns (s': State)
    requires Busy(c, h, s, homes, k) && Shares(h, s.thr, k) && Homes(c, homes) && Plain(h)
    requires k <= n <= Capacity(c.l) && n <= c.nbuf && n <= |homes|
    ensures Busy(c, h, s', homes, n) && Shares(h, s'.thr, n)
    decreases n - k
  {
    hide ReachableBy, Share, Who, Buffers, Pristine, Shares;
    if k == n {
      s' := s;
    } else {
      SharesNext(h, s.thr, homes, k);
      var s1 := BusyNext(c, h, s, homes, k, Who(h, k), ZERO_BLOCK);
      s' := BusyUntil(c, h, s1, homes, k + 1, n);
    }
  }

  // From power-on to three calls in progress

  lemma {:induction false} BootReachable(c: Config, h: Habit, disk: Disk)
    requires Recovers(c.l, disk, c.base)
    ensures ReachableBy(c, h, PowerOn(disk, c.nbuf, 3, 0, []))
  {
    hide Recovers;
    var s0 := PowerOn(disk, c.nbuf, 3, 0, []);
    assert InitFrom(c, s0, disk, 3);
    assert Reaches(c, h, s0, [], s0);
  }

  lemma {:induction false} EmptyLog(c: Config)
    requires c.l.Valid() && |c.base| == c.l.blocks
    ensures Recovers(c.l, c.base[c.l.start := PutHeader(c.base[c.l.start], [])], c.base)
  {
  }

  /** Recovery of an empty log with the header in buffer 0. */
  lemma {:induction false} Recovery(c: Config, h: Habit, s: State) returns (s': State)
    requires ReachableBy(c, h, s) && Shaped(c, s) && Plain(h)
    requires s.phase == ReadHead && s.boot && Has(s, 0, c.l.start) && HeaderOk(s.bufs[0].data)
    requires Header(s.bufs[0].data) == []
    ensures ReachableBy(c, h, s')
    ensures s' == Bwrite(s, 0, PutHeader(s.bufs[0].data, []), Quiet).(lh := [], boot := false)
  {
    hide ReachableBy, PutHeader, Header, HeaderOk;
    ReachableMore(c, h, s, LoadHead(0));
    var s1 := Next(c, s, LoadHead(0));
    ReachableMore(c, h, s1, ClearHead(0));
    s' := Next(c, s1, ClearHead(0));
  }

  /** Three calls of begin_op on an empty log fit. */
  lemma {:induction false} ThreeCalls(c: Config, h: Habit, s: State) returns (s': State)
    requires ReachableBy(c, h, s) && Shaped(c, s) && Plain(h)
    requires |s.thr| == 3 && !s.boot && !s.committing && s.lh == [] && s.outstanding == 0
    requires forall t :: 0 <= t < 3 ==> s.thr[t].op == None && s.thr[t].passed == None
    ensures ReachableBy(c, h, s') && s' == Began(Began(Began(s, 0), 1), 2)
  {
    hide ReachableBy;
    ReachableMore(c, h, s, BeginOp(0));
    var s1 := Next(c, s, BeginOp(0));
    ReachableMore(c, h, s1, BeginOp(1));
    var s2 := Next(c, s1, BeginOp(1));
    ReachableMore(c, h, s2, BeginOp(2));
    s' := Next(c, s2, BeginOp(2));
  }

  /** Booting on an empty log and starting three system calls. */
  lemma {:induction false} BusyStart(c: Config, h: Habit, homes: seq<int>) returns (s: State)
    requires c.l.Valid() && |c.base| == c.l.blocks && c.nbuf > 0 && Plain(h)
    ensures Busy(c, h, s, homes, 0) && Shares(h, s.thr, 0)
  {
    hide ReachableBy, Recovers, PutHeader, Header;
    EmptyLog(c);
    var disk := c.base[c.l.start := PutHeader(c.base[c.l.start], [])];
    var s0 := PowerOn(disk, c.nbuf, 3, 0, []);
    BootReachable(c, h, disk);
    var s1 := Fetch(c, h, s0, 0, 0, c.l.start);
    var s2 := Recovery(c, h, s1);
    var s3 := Drop(c, h, s2, 0, 0);
    s := ThreeCalls(c, h, s3);
    assert homes[..0] == [];
    assert s.thr[0].refs == map[];
    StartPristine(c, disk, s);
  }

  lemma {:induction false} StartPristine(c: Config, disk: Disk, s: State)
    requires c.l.Valid() && |c.base| == c.l.blocks && disk == c.base[c.l.start := PutHeader(c.base[c.l.start], [])]
    requires s.disk == disk[c.l.start := PutHeader(disk[c.l.start], [])] && s.durable == 0
    ensures Pristine(c, s)
  {
    hide PutHeader, Header;
  }

  // Panics

  /** A log_write within the habit panics in a sparing run. */
  ghost predicate CanPanic(c: Config, h: Habit) {
    exists s, x :: ReachableBy(c, Sparing, s) && May(c, s, x) && Within(c, h, s, x) && Panics(c, s, x)
  }

  /**
   In a log of at most LOGSIZE blocks a log_write panics in some run of calls
   that stop at their reservation, if the device has LOGSIZE home blocks.
   */
  lemma {:induction false} PanicReachable(c: Config, homes: seq<int>)
    requires c.l.Valid() && |c.base| == c.l.blocks && c.l.size <= LOGSIZE <= c.nbuf
    requires Homes(c, homes) && |homes| == LOGSIZE
    ensures CanPanic(c, Sparing)
  {
    hide ReachableBy, Share, Who, Pristine;
    var k := c.l.size - 1;
    var t := Who(Sparing, k);
    WhoBelow(Sparing, k);
    var s0 := BusyStart(c, Sparing, homes);
    var s1 := BusyUntil(c, Sparing, s0, homes, 0, k);
    NotYet(c, homes, k, k);
    NotCached(c, s1, homes, k, homes[k]);
    var s := Prepare(c, Sparing, s1, t, k, homes[k], ZERO_BLOCK);
    var x := LogTest(t, k);
    ShareNext(k, t);
    assert May(c, s, x) && Within(c, Sparing, s, x) && Panics(c, s, x);
  }

  /**
   However long the log, a call that has logged its MAXOPBLOCKS blocks can panic
   when it logs one of them again: the test for a full header comes before the
   search for the block in it.
   */
  lemma {:induction false} AbsorbedPanics(c: Config, homes: seq<int>)
    requires c.l.Valid() && |c.base| == c.l.blocks && LOGSIZE <= c.nbuf && c.l.size > LOGSIZE
    requires Homes(c, homes) && |homes| == LOGSIZE
    ensures exists s, x :: ReachableBy(c, Sparing, s) && May(c, s, x) && Within(c, Frugal, s, x) && Panics(c, s, x)
                           && x.LogTest? && s.bufs[x.i].bno in s.lh
  {
    hide ReachableBy, Pristine;
    var k := LOGSIZE - 1;
    var s0 := BusyStart(c, Sparing, homes);
    var s1 := BusyUntil(c, Sparing, s0, homes, 0, k);
    ShareNext(k, 2);
    var s2 := BusyNext(c, Sparing, s1, homes, k, 2, ZERO_BLOCK);
    assert Pinned(s2.bufs[k], homes[k]);
    var s := Take(c, Sparing, s2, 2, k);
    var x := LogTest(2, k);
    var mine := s.thr[2].mine;
    assert mine + {homes[k]} == mine && |mine| <= |s1.thr[2].mine| + 1;
    assert homes[..k + 1][k] == homes[k];
    assert May(c, s, x) && Within(c, Frugal, s, x) && Panics(c, s, x);
    assert s.bufs[x.i].bno in s.lh;
  }

  lemma {:induction false} SparingReachable(c: Config, s: State)
    requires ReachableBy(c, Sparing, s)
    ensures ReachableBy(c, Frugal, s)
  {
    hide Reaches;
    var s0, xs :| Init(c, s0) && Reaches(c, Sparing, s0, xs, s);
    SparingIsFrugal(c, s0, xs, s);
  }

  /**
   On a device with LOGSIZE home blocks and a cache that holds them: no run of
   calls that stop at their reservation panics exactly when the log has more
   than LOGSIZE blocks.
   */
  lemma {:induction false} ExactLogSize(c: Config, homes: seq<int>)
    requires c.l.Valid() && |c.base| == c.l.blocks && LOGSIZE <= c.nbuf && Homes(c, homes) && |homes| == LOGSIZE
    ensures !CanPanic(c, Sparing) <==> c.l.size > LOGSIZE
  {
    hide ReachableBy, May, Panics, Within;
    if c.l.size > LOGSIZE {
      forall s, x | ReachableBy(c, Sparing, s) && May(c, s, x) && Within(c, Sparing, s, x) ensures !Panics(c, s, x) {
        SparingReachable(c, s);
        NoPanic(c, s, x);
      }
    } else {
      PanicReachable(c, homes);
    }
  }

  // Overflows

  /** In some run log_write appends a block to a header that has no room for it, and nothing stops it. */
  ghost predicate CanOverflow(c: Config, h: Habit) {
    exists s, x :: ReachableBy(c, h, s) && May(c, s, x) && Within(c, h, s, x) && !Room(c, s, x)
  }

  /** Threads 1 and 2 have each changed a block that is not logged yet. */
  ghost predicate TwoReady(c: Config, h: Habit, s: State, s': State, homes: seq<int>, k: nat, d1: Block, d2: Block) {
    && Busy(c, h, s, homes, k) && ReachableBy(c, h, s') && Shaped(c, s') && k + 1 < |homes| && k + 1 < |s.bufs|
    && s' == s.(bufs := s.bufs[k := Buf(ROOTDEV, homes[k], true, false, 1, Some(1), d1, true)]
                        [k + 1 := Buf(ROOTDEV, homes[k + 1], true, false, 1, Some(2), d2, true)],
                thr := s.thr[1 := s.thr[1].(refs := map[k := Holding])][2 := s.thr[2].(refs := map[k + 1 := Holding])])
  }

  lemma {:induction false} TwoPrepare(c: Config, h: Habit, s: State, homes: seq<int>, k: nat, d1: Block, d2: Block)
    returns (s': State)
    requires Busy(c, h, s, homes, k) && Homes(c, homes) && Plain(h) && k + 1 < |homes| && k + 1 < c.nbuf
    ensures TwoReady(c, h, s, s', homes, k, d1, d2)
  {
    hide ReachableBy, Pristine;
    NotYet(c, homes, k, k);
    NotYet(c, homes, k, k + 1);
    NotCached(c, s, homes, k, homes[k]);
    NotCached(c, s, homes, k, homes[k + 1]);
    var s1 := Prepare(c, h, s, 1, k, homes[k], d1);
    assert !Cached(s1, homes[k + 1]) by {
      assert homes[k] != homes[k + 1];
      forall i | 0 <= i < |s1.bufs| ensures !(s1.bufs[i].dev == ROOTDEV && s1.bufs[i].bno == homes[k + 1]) {
        assert i != k ==> s1.bufs[i] == s.bufs[i];
      }
    }
    s' := Prepare(c, h, s1, 2, k + 1, homes[k + 1], d2);
  }

  lemma {:induction false} TwoParts(c: Config, h: Habit, s0: State, s: State, homes: seq<int>, k: nat, d1: Block,
                                    d2: Block)
    requires TwoReady(c, h, s0, s, homes, k, d1, d2)
    ensures |s.thr| == 3 && s.thr[1].op.Some? && k + 1 < |homes| && k + 1 < |s.bufs|
  {
    hide ReachableBy, Pristine, Buffers;
  }

  /** Both are in log_write, past the test. */
  lemma {:induction false} BothTest(c: Config, h: Habit, s0: State, s: State, homes: seq<int>, k: nat, d1: Block,
                                    d2: Block)
    returns (s': State)
    requires TwoReady(c, h, s0, s, homes, k, d1, d2) && Homes(c, homes) && Plain(h) && k + 1 == Capacity(c.l)
    requires h == Sparing ==> |s0.thr[1].mine| < MAXOPBLOCKS && |s0.thr[2].mine| < MAXOPBLOCKS
    ensures ReachableBy(c, h, s') && Shaped(c, s') && s' == Passed(Passed(s, 1, k), 2, k + 1)
    ensures Loggable(c, s', 1, k) && Loggable(c, s', 2, k + 1)
    ensures s'.thr[1].passed == Some(k) && s'.thr[2].passed == Some(k + 1)
    ensures s'.thr[1].mine == s0.thr[1].mine && s'.thr[2].mine == s0.thr[2].mine
    ensures s'.lh == homes[..k] && s'.bufs[k].bno == homes[k] && s'.bufs[k + 1].bno == homes[k + 1]
  {
    hide ReachableBy, Pristine, Buffers;
    ReachableMore(c, h, s, LogTest(1, k));
    var s1 := Next(c, s, LogTest(1, k));
    ReachableMore(c, h, s1, LogTest(2, k + 1));
    s' := Next(c, s1, LogTest(2, k + 1));
  }

  /** The first of them appends its block. */
  lemma {:induction false} OneAppends(c: Config, h: Habit, s: State, k: nat) returns (s': State)
    requires ReachableBy(c, h, s) && Shaped(c, s) && Plain(h)
    requires Loggable(c, s, 1, k) && Loggable(c, s, 2, k + 1) && s.thr[1].passed == Some(k)
    requires h == Sparing ==> |s.thr[1].mine| < MAXOPBLOCKS
    ensures ReachableBy(c, h, s') && Shaped(c, s') && s' == Logged(s, 1, k) && Loggable(c, s', 2, k + 1)
    ensures s'.thr[2] == s.thr[2] && s'.bufs[k + 1] == s.bufs[k + 1]
  {
    hide ReachableBy, Absorb;
    ReachableMore(c, h, s, LogWrite(1, k));
    s' := Next(c, s, LogWrite(1, k));
  }

  /** Both pass the test, and the first appends: now the second append is one too many. */
  lemma {:induction false} BothAppend(c: Config, h: Habit, s0: State, s: State, homes: seq<int>, k: nat, d1: Block,
                                      d2: Block)
    returns (s': State)
    requires TwoReady(c, h, s0, s, homes, k, d1, d2) && Homes(c, homes) && Plain(h) && k + 1 == Capacity(c.l)
    requires h == Sparing ==> |s0.thr[1].mine| < MAXOPBLOCKS && |s0.thr[2].mine| < MAXOPBLOCKS
    ensures ReachableBy(c, h, s') && Shaped(c, s') && Overfull(c, h, s', k) && Appended(s, s', k)
  {
    hide ReachableBy, Pristine, Buffers, Resting, Busy, TwoReady, Loggable;
    TwoParts(c, h, s0, s, homes, k, d1, d2);
    var s1 := BothTest(c, h, s0, s, homes, k, d1, d2);
    s' := OneAppends(c, h, s1, k);
    NotYet(c, homes, k, k);
    NotYet(c, homes, k, k + 1);
    assert homes[k + 1] != homes[k];
    assert s'.lh == homes[..k] + [homes[k]];
  }

  /** Thread 2 can append a block for which there is no room. */
  predicate Overfull(c: Config, h: Habit, s: State, k: nat) {
    var x := LogWrite(2, k + 1); May(c, s, x) && Within(c, h, s, x) && !Room(c, s, x)
  }

  /** The two tests and the first append. */
  predicate Appended(s: State, s': State, k: nat) {
    |s.thr| == 3 && s.thr[1].op.Some? && k < |s.bufs| && s' == Logged(Passed(Passed(s, 1, k), 2, k + 1), 1, k)
  }

  /** Two calls that log their blocks together overflow the header, or the log behind it. */
  lemma {:induction false} OverflowReachable(c: Config, h: Habit, homes: seq<int>)
    requires c.l.Valid() && |c.base| == c.l.blocks && 1 <= Capacity(c.l) < c.nbuf && Plain(h)
    requires Homes(c, homes) && |homes| > Capacity(c.l) && (h == Sparing ==> c.l.size <= LOGSIZE)
    ensures CanOverflow(c, h)
  {
    hide ReachableBy, Busy, TwoReady, Within, May, Room;
    var k := Capacity(c.l) - 1;
    var s0 := BusyStart(c, h, homes);
    var s1 := BusyUntil(c, h, s0, homes, 0, k);
    var s2 := TwoPrepare(c, h, s1, homes, k, ZERO_BLOCK, ZERO_BLOCK);
    var s := BothAppend(c, h, s1, s2, homes, k, ZERO_BLOCK, ZERO_BLOCK);
    assert Overfull(c, h, s, k);
  }

  /** After it the header has an entry too many; write_log will put its block outside the log or outside the header. */
  lemma {:induction false} OverflowMeans(c: Config, s: State, x: Step)
    requires c.l.Valid() && |s.disk| == c.l.blocks && BufShape(c, s.bufs)
    requires May(c, s, x) && !Room(c, s, x) && !Panics(c, s, x)
    ensures var n := |Next(c, s, x).lh|;
            n > Capacity(c.l) && (c.l.size <= LOGSIZE ==> !c.l.InLog(c.l.start + n))
                && (c.l.size > LOGSIZE ==> n > LOGSIZE)
  {
  }

  /** write_log then overwrites the block behind the log, before anything is committed. */
  lemma {:induction false} OverflowWrites(c: Config, s: State, to: nat, from: nat)
    requires c.l.Valid() && |s.disk| == c.l.blocks && BufShape(c, s.bufs)
    requires May(c, s, CopyBlock(to, from)) && s.phase.tail == c.l.size - 1
    ensures c.l.Home(c.l.start + c.l.size)
    ensures var s' := Next(c, s, CopyBlock(to, from));
            s'.disk[c.l.start + c.l.size] == s.bufs[from].data && s'.durable == s.durable
  {
  }

  // Exactly when it cannot happen

  /** In a log of one block no log_write passes its test. */
  lemma {:induction false} NoTests(c: Config, h: Habit, s: State, xs: seq<Step>, s': State)
    requires Reaches(c, h, s, xs, s') && c.l.size == 1 && forall t :: 0 <= t < |s.thr| ==> s.thr[t].passed == None
    ensures forall t :: 0 <= t < |s'.thr| ==> s'.thr[t].passed == None
    decreases |xs|
  {
    hide Next, May, Within, Panics;
    if xs != [] {
      NoTest(c, s, xs[0]);
      NoTests(c, h, Next(c, s, xs[0]), xs[1..], s');
    }
  }

  lemma {:induction false} NoTest(c: Config, s: State, x: Step)
    requires c.l.Valid() && |s.disk| == c.l.blocks && BufShape(c, s.bufs) && May(c, s, x) && !Panics(c, s, x)
    requires c.l.size == 1 && forall t :: 0 <= t < |s.thr| ==> s.thr[t].passed == None
    ensures var s' := Next(c, s, x); forall t :: 0 <= t < |s'.thr| ==> s'.thr[t].passed == None
  {
    hide NewBuf, NewRefs, Absorb, Header, PutHeader;
  }

  lemma {:induction false} ShortLogSafe(c: Config, h: Habit, s: State, x: Step)
    requires ReachableBy(c, h, s) && c.l.size == 1 && May(c, s, x)
    ensures Room(c, s, x)
  {
    hide Reaches, Light, SpaceOk;
    var s0, xs :| Init(c, s0) && Reaches(c, h, s0, xs, s);
    InitLight(c, s0);
    NoTests(c, h, s0, xs, s);
  }

  /**
   On a device with LOGSIZE home blocks and a cache that holds them: no run of
   calls that stop at their reservation overflows the header or the log exactly
   when the log has more than LOGSIZE blocks, or only its header.
   */
  lemma {:induction false} ExactRoom(c: Config, homes: seq<int>)
    requires c.l.Valid() && |c.base| == c.l.blocks && LOGSIZE <= c.nbuf && Homes(c, homes) && |homes| == LOGSIZE
    ensures !CanOverflow(c, Sparing) <==> c.l.size > LOGSIZE || c.l.size == 1
  {
    hide ReachableBy, May, Within, Room;
    if c.l.size > LOGSIZE || c.l.size == 1 {
      forall s, x | ReachableBy(c, Sparing, s) && May(c, s, x) && Within(c, Sparing, s, x) ensures Room(c, s, x) {
        if c.l.size == 1 {
          ShortLogSafe(c, Sparing, s, x);
        } else {
          SparingReachable(c, s);
          Reserved(c, s);
          SparingStep(c, s, x);
          FrugalRoom(c, s, x);
        }
      }
    } else {
      OverflowReachable(c, Sparing, homes);
    }
  }

  lemma {:induction false} RunBuffers(c: Config, h: Habit, s: State, xs: seq<Step>, s': State)
    requires Reaches(c, h, s, xs, s')
    ensures |s'.bufs| == |s.bufs|
    decreases |xs|
  {
    hide Next, May, Panics, Within;
    if xs != [] {
      StepBuffers(c, s, xs[0]);
      RunBuffers(c, h, Next(c, s, xs[0]), xs[1..], s');
    }
  }

  lemma {:induction false} SmallCacheSafe(c: Config, s: State, x: Step)
    requires ReachableBy(c, Any, s) && c.nbuf <= Capacity(c.l) && May(c, s, x)
    ensures Room(c, s, x)
  {
    hide Reaches, Light, SpaceOk, Inv, May, Room;
    CacheReachable(c, s);
    ReachableInv(c, s);
    var s0, xs :| Init(c, s0) && Reaches(c, Any, s0, xs, s);
    InitLight(c, s0);
    RunBuffers(c, Any, s0, xs, s);
    CacheRoom(c, s, x);
  }

  /**
   On a device with enough home blocks: no run whatever overflows the header or
   the log exactly when the cache has no more buffers than they have room, or the
   log has only its header. With the NBUF = LOGSIZE buffers of param.h that is
   when the log has more than LOGSIZE blocks.
   */
  lemma {:induction false} ExactCacheRoom(c: Config, homes: seq<int>)
    requires c.l.Valid() && |c.base| == c.l.blocks && Homes(c, homes) && |homes| > Capacity(c.l)
    ensures !CanOverflow(c, Any) <==> c.nbuf <= Capacity(c.l) || c.l.size == 1
    ensures c.nbuf == NBUF ==> (c.nbuf <= Capacity(c.l) <==> c.l.size > LOGSIZE)
  {
    hide ReachableBy, May, Room;
    if c.nbuf <= Capacity(c.l) || c.l.size == 1 {
      forall s, x | ReachableBy(c, Any, s) && May(c, s, x) ensures Room(c, s, x) {
        if c.l.size == 1 {
          ShortLogSafe(c, Any, s, x);
        } else {
          SmallCacheSafe(c, s, x);
        }
      }
    } else {
      OverflowReachable(c, Any, homes);
    }
  }
}
