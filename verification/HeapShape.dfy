/**
 The heap of umalloc.c: free and live blocks tile the memory obtained from
 sbrk, and the headers of the free blocks are linked in address order. What
 freeing a block, cutting one off and adding new memory do to all of that.
 */
module HeapShape {
  import opened Basics
  import opened FreeList

  /** Unit `u` belongs to a live block. */
  ghost predicate InLive(live: map<nat, nat>, u: nat) {
    exists b :: b in live && Seg(b, live[b]).Has(u)
  }

  ghost predicate LiveOk(base: nat, live: map<nat, nat>, brk: nat) {
    && (forall b :: b in live ==> 0 < live[b] && base < b && b + live[b] <= brk)
    && Separate(live)
  }

  ghost predicate FreeOk(base: nat, free: seq<Seg>, brk: nat) {
    && free != [] && free[0] == Seg(base, 0) && Gapped(free) && base < brk
    && (forall i :: 1 <= i < |free| ==> 0 < free[i].size && free[i].End() <= brk)
  }

  ghost predicate Apart(free: seq<Seg>, live: map<nat, nat>) {
    forall b, u :: b in live && Seg(b, live[b]).Has(u) ==> !Covers(free, u)
  }

  /** Free and live blocks together are exactly the units obtained from sbrk. */
  ghost predicate Tiled(free: seq<Seg>, live: map<nat, nat>, heap: set<nat>) {
    forall u :: u in heap <==> Covers(free, u) || InLive(live, u)
  }

  ghost predicate Shape(base: nat, free: seq<Seg>, live: map<nat, nat>, heap: set<nat>, brk: nat) {
    FreeOk(base, free, brk) && LiveOk(base, live, brk) && Apart(free, live) && Tiled(free, live, heap)
  }

  /** The index after `i` on the circular list. */
  function After(free: seq<Seg>, i: nat): nat { if i + 1 < |free| then i + 1 else 0 }

  /** The header of free block `i`: its size and the pointer to the next block. */
  predicate Link(free: seq<Seg>, next: map<nat, nat>, size: map<nat, nat>, i: nat)
    requires i < |free|
  {
    && free[i].addr in next && next[free[i].addr] == free[After(free, i)].addr
    && free[i].addr in size && size[free[i].addr] == free[i].size
  }

  /** The headers of the free blocks form the circular list. */
  ghost predicate Linked(free: seq<Seg>, next: map<nat, nat>, size: map<nat, nat>) {
    forall i :: 0 <= i < |free| ==> Link(free, next, size, i)
  }

  ghost predicate LiveHeaders(live: map<nat, nat>, size: map<nat, nat>) {
    forall b :: b in live ==> b in size && size[b] == live[b]
  }

  // Giving a block back

  /** The place of a live block among the free ones. */
  lemma {:induction false} PlaceOf(base: nat, free: seq<Seg>, live: map<nat, nat>, brk: nat, b: nat) returns (t: nat)
    requires FreeOk(base, free, brk) && LiveOk(base, live, brk) && Apart(free, live) && b in live
    ensures Between(free, Seg(b, live[b]), t) && (t + 1 < |free| ==> b < free[t + 1].addr)
  {
    t := 0;
    while t + 1 < |free| && free[t + 1].addr < b
      invariant t < |free| && free[t].addr < b
    {
      t := t + 1;
    }
    var s := Seg(b, live[b]);
    assert s.Has(b) && !Covers(free, b);
    assert !free[t].Has(b);
    if t + 1 < |free| {
      assert free[t + 1].Has(free[t + 1].addr) && Covers(free, free[t + 1].addr);
      assert !s.Has(free[t + 1].addr);
    }
  }

  /** Freeing a live block keeps the shape of the heap. */
  lemma {:induction false} PutShape(base: nat, free: seq<Seg>, live: map<nat, nat>, heap: set<nat>, brk: nat, b: nat,
                                    t: nat)
    requires Shape(base, free, live, heap, brk) && b in live && Between(free, Seg(b, live[b]), t)
    ensures Shape(base, Put(free, Seg(b, live[b]), t), live - {b}, heap, brk)
  {
    var s, rest := Seg(b, live[b]), live - {b};
    var put := Put(free, s, t);
    PutGapped(free, s, t);
    forall u: nat ensures Covers(put, u) <==> Covers(free, u) || s.Has(u) {
      PutCovers(free, s, t, u);
    }
    forall u: nat ensures InLive(rest, u) <==> InLive(live, u) && !s.Has(u) {
      LiveElsewhere(live, b, u);
    }
    assert Apart(put, rest) by {
      forall c, u | c in rest && Seg(c, rest[c]).Has(u) ensures !Covers(put, u) {
        assert Seg(c, live[c]).Has(u) && !s.Has(u);
      }
    }
    assert Tiled(put, rest, heap) by {
      assert forall u :: s.Has(u) ==> InLive(live, u);
    }
  }

  // Taking a block

  lemma {:induction false} AddLive(live: map<nat, nat>, s: Seg, u: nat)
    requires s.addr !in live
    ensures InLive(live[s.addr := s.size], u) <==> InLive(live, u) || s.Has(u)
  {
    var more := live[s.addr := s.size];
    if InLive(more, u) {
      var c :| c in more && Seg(c, more[c]).Has(u);
      assert c != s.addr ==> c in live && Seg(c, live[c]).Has(u);
    }
    if InLive(live, u) {
      var c :| c in live && Seg(c, live[c]).Has(u);
      assert c in more && Seg(c, more[c]).Has(u);
    }
    if s.Has(u) {
      assert s.addr in more && Seg(s.addr, more[s.addr]).Has(u);
    }
  }

  /** A block that overlaps no live block may become live. */
  lemma {:induction false} AddLiveOk(base: nat, live: map<nat, nat>, brk: nat, s: Seg)
    requires LiveOk(base, live, brk) && 0 < s.size && base < s.addr && s.End() <= brk
    requires forall u :: s.Has(u) ==> !InLive(live, u)
    ensures s.addr !in live && LiveOk(base, live[s.addr := s.size], brk)
  {
    assert s.Has(s.addr);
    forall c | c in live
      ensures c != s.addr && (c < s.addr ==> c + live[c] <= s.addr) && (s.addr < c ==> s.End() <= c)
    {
      assert Seg(c, live[c]).Has(c) && InLive(live, c) && !s.Has(c);
      assert !InLive(live, s.addr) && !Seg(c, live[c]).Has(s.addr);
    }
  }

  lemma {:induction false} TakeShape(base: nat, free: seq<Seg>, live: map<nat, nat>, heap: set<nat>, brk: nat, k: nat,
                                     n: nat)
    requires Shape(base, free, live, heap, brk) && k < |free| && 0 < n <= free[k].size
    ensures var s := Taken(free, k, n);
            s.addr !in live && Shape(base, Take(free, k, n), live[s.addr := n], heap, brk)
  {
    var s, took := Taken(free, k, n), Take(free, k, n);
    TakeGapped(free, k, n);
    forall u: nat ensures Covers(took, u) <==> Covers(free, u) && !s.Has(u) {
      TakeCovers(free, k, n, u);
    }
    forall u: nat | s.Has(u) ensures Covers(free, u) && !InLive(live, u) {
      assert free[k].Has(u);
      assert Covers(free, u);
    }
    AddLiveOk(base, live, brk, s);
    forall u: nat ensures InLive(live[s.addr := n], u) <==> InLive(live, u) || s.Has(u) {
      AddLive(live, s, u);
    }
  }

  // Memory from sbrk

  /** The units of a segment. */
  ghost function Units(s: Seg): (r: set<nat>)
    ensures forall u :: u in r <==> s.Has(u)
    ensures |r| == s.size
    decreases s.size
  {
    if s.size == 0 then {} else Units(Seg(s.addr, s.size - 1)) + {s.addr + s.size - 1}
  }

  /** New core above everything so far is first of all a live block. */
  lemma {:induction false} CoreShape(base: nat, free: seq<Seg>, live: map<nat, nat>, heap: set<nat>, brk: nat, s: Seg)
    requires Shape(base, free, live, heap, brk) && 0 < s.size && brk <= s.addr
    ensures s.addr !in live && Shape(base, free, live[s.addr := s.size], heap + Units(s), s.End())
    ensures heap !! Units(s)
  {
    hide Covers, InLive, Gapped;
    forall u: nat | brk <= u ensures !Covers(free, u) && !InLive(live, u) {
      BelowBreak(base, free, live, brk, u);
    }
    assert LiveOk(base, live, s.End());
    AddLiveOk(base, live, s.End(), s);
    forall u: nat ensures InLive(live[s.addr := s.size], u) <==> InLive(live, u) || s.Has(u) {
      AddLive(live, s, u);
    }
    assert Apart(free, live[s.addr := s.size]);
    assert Tiled(free, live[s.addr := s.size], heap + Units(s));
  }

  lemma {:induction false} BelowBreak(base: nat, free: seq<Seg>, live: map<nat, nat>, brk: nat, u: nat)
    requires FreeOk(base, free, brk) && LiveOk(base, live, brk) && brk <= u
    ensures !Covers(free, u) && !InLive(live, u)
  {
  }

  // The links

  /** The links and sizes after free has put block `b` behind `p`. */
  function Relinked(next: map<nat, nat>, size: map<nat, nat>, p: nat, b: nat): (map<nat, nat>, map<nat, nat>)
    requires p in next && p in size && b in size && next[p] in next && next[p] in size
  {
    var join := b + size[b] == next[p];
    var size1 := if join then size[b := size[b] + size[next[p]]] else size;
    var next1 := next[b := if join then next[next[p]] else next[p]];
    if p + size1[p] == b then (next1[p := next1[b]], size1[p := size1[p] + size1[b]]) else (next1[p := b], size1)
  }

  lemma {:induction false} AddrsDistinct(free: seq<Seg>)
    requires Gapped(free)
    ensures forall i, j :: 0 <= i < |free| && 0 <= j < |free| && free[i].addr == free[j].addr ==> i == j
  {
    forall i, j | 0 <= i < j < |free| ensures free[i].addr != free[j].addr {
      assert free[i].End() < free[j].addr;
    }
  }

  /** Everything free knows when it has found the place of block `s`. */
  ghost predicate CanPut(base: nat, free: seq<Seg>, brk: nat, next: map<nat, nat>, size: map<nat, nat>, s: Seg,
                         t: nat) {
    && FreeOk(base, free, brk) && Linked(free, next, size) && Between(free, s, t)
    && (t + 1 < |free| ==> s.addr < free[t + 1].addr)
    && base < s.addr && s.addr in size && size[s.addr] == s.size
    && Link(free, next, size, t) && Link(free, next, size, After(free, t))
  }

  lemma {:induction false} PutLinked(base: nat, free: seq<Seg>, brk: nat, next: map<nat, nat>, size: map<nat, nat>,
                                     s: Seg, t: nat)
    requires CanPut(base, free, brk, next, size, s, t)
    ensures var (next', size') := Relinked(next, size, free[t].addr, s.addr);
            Linked(Put(free, s, t), next', size')
  {
    var (next', size') := Relinked(next, size, free[t].addr, s.addr);
    forall k | 0 <= k < |Put(free, s, t)| ensures Link(Put(free, s, t), next', size', k) {
      PutLink(base, free, brk, next, size, s, t, k);
    }
  }

  /** Relinked, address by address. */
  lemma {:induction false} RelinkedAt(next: map<nat, nat>, size: map<nat, nat>, p: nat, b: nat)
    requires p in next && p in size && b in size && next[p] in next && next[p] in size && p != b
    ensures var (next', size') := Relinked(next, size, p, b);
            var join, back := b + size[b] == next[p], p + size[p] == b;
            && p in next' && b in next' && p in size' && b in size'
            && (forall x :: x in next && x != p && x != b ==> x in next' && next'[x] == next[x])
            && (forall x :: x in size && x != p && x != b ==> x in size' && size'[x] == size[x])
            && next'[b] == (if join then next[next[p]] else next[p])
            && next'[p] == (if back then next'[b] else b)
            && size'[b] == size[b] + (if join then size[next[p]] else 0)
            && size'[p] == size[p] + (if back then size'[b] else 0)
  {
  }

  /** Put, index by index. */
  lemma {:induction false} PutAt(free: seq<Seg>, s: Seg, t: nat, k: nat)
    requires Between(free, s, t) && k < |Put(free, s, t)|
    ensures |Put(free, s, t)| == Lo(free, s, t) + 1 + |free| - Hi(free, s, t)
    ensures k < Lo(free, s, t) ==> Put(free, s, t)[k] == free[k]
    ensures k == Lo(free, s, t) ==> Put(free, s, t)[k] == Merged(free, s, t)
    ensures k > Lo(free, s, t) ==> Put(free, s, t)[k] == free[k - Lo(free, s, t) - 1 + Hi(free, s, t)]
  {
  }

  lemma {:induction false} PutLink(base: nat, free: seq<Seg>, brk: nat, next: map<nat, nat>, size: map<nat, nat>,
                                   s: Seg, t: nat, k: nat)
    requires CanPut(base, free, brk, next, size, s, t) && k < |Put(free, s, t)|
    ensures var (next', size') := Relinked(next, size, free[t].addr, s.addr);
            Link(Put(free, s, t), next', size', k)
  {
    if k < Lo(free, s, t) {
      PutLinkBefore(base, free, brk, next, size, s, t, k);
    } else if k == Lo(free, s, t) {
      PutLinkMerged(base, free, brk, next, size, s, t);
    } else {
      PutLinkAfter(base, free, brk, next, size, s, t, k);
    }
  }

  lemma {:induction false} PutLinkBefore(base: nat, free: seq<Seg>, brk: nat, next: map<nat, nat>, size: map<nat, nat>,
                                         s: Seg, t: nat, k: nat)
    requires CanPut(base, free, brk, next, size, s, t) && k < Lo(free, s, t)
    ensures var (next', size') := Relinked(next, size, free[t].addr, s.addr);
            Link(Put(free, s, t), next', size', k)
  {
    RelinkedAt(next, size, free[t].addr, s.addr);
    PutAt(free, s, t, k);
    PutAt(free, s, t, k + 1);
    assert Link(free, next, size, k);
    if k < t { Ordered(free, k, t); }
  }

  lemma {:induction false} PutLinkAfter(base: nat, free: seq<Seg>, brk: nat, next: map<nat, nat>, size: map<nat, nat>,
                                        s: Seg, t: nat, k: nat)
    requires CanPut(base, free, brk, next, size, s, t) && Lo(free, s, t) < k < |Put(free, s, t)|
    ensures var (next', size') := Relinked(next, size, free[t].addr, s.addr);
            Link(Put(free, s, t), next', size', k)
  {
    hide Put, Relinked, Gapped, Merged, Linked;
    var lo, hi := Lo(free, s, t), Hi(free, s, t);
    var i := k - lo - 1 + hi;
    PutAt(free, s, t, k);
    Beyond(base, free, brk, next, size, s, t, i);
    if i + 1 < |free| {
      PutAt(free, s, t, k + 1);
    } else {
      PutAt(free, s, t, 0);
    }
    RelinkedAt(next, size, free[t].addr, s.addr);
  }

  lemma {:induction false} Beyond(base: nat, free: seq<Seg>, brk: nat, next: map<nat, nat>, size: map<nat, nat>, s: Seg,
                                  t: nat, i: nat)
    requires CanPut(base, free, brk, next, size, s, t) && Hi(free, s, t) <= i < |free|
    ensures Link(free, next, size, i) && free[i].addr != s.addr && free[i].addr != free[t].addr && 0 < Lo(free, s, t)
  {
    Ordered(free, t, i);
    if t + 1 < i { Ordered(free, t + 1, i); }
  }

  lemma {:induction false} PutLinkMerged(base: nat, free: seq<Seg>, brk: nat, next: map<nat, nat>, size: map<nat, nat>,
                                         s: Seg, t: nat)
    requires CanPut(base, free, brk, next, size, s, t)
    ensures var (next', size') := Relinked(next, size, free[t].addr, s.addr);
            Link(Put(free, s, t), next', size', Lo(free, s, t))
  {
    var put, lo := Put(free, s, t), Lo(free, s, t);
    RelinkedAt(next, size, free[t].addr, s.addr);
    PutAt(free, s, t, lo);
    PutAt(free, s, t, After(put, lo));
    assert Link(free, next, size, t) && Link(free, next, size, After(free, t));
  }

  lemma Ordered(free: seq<Seg>, i: nat, j: nat)
    requires Gapped(free) && i < j < |free|
    ensures free[i].End() < free[j].addr
  {
  }

  /** Unlinking a block of exactly the right size. */
  lemma {:induction false} TakeAllLinked(free: seq<Seg>, next: map<nat, nat>, size: map<nat, nat>, k: nat)
    requires Gapped(free) && Linked(free, next, size) && 1 <= k < |free| && free[k].addr in next
    ensures Linked(Take(free, k, free[k].size), next[free[k - 1].addr := next[free[k].addr]], size)
  {
    var took, next' := Take(free, k, free[k].size), next[free[k - 1].addr := next[free[k].addr]];
    forall i | 0 <= i < |took| ensures Link(took, next', size, i) {
      hide Gapped, Linked;
      var j := if i < k then i else i + 1;
      assert Link(free, next, size, j) && Link(free, next, size, k) by {
        assert Linked(free, next, size);
      }
      if j < k - 1 { Ordered(free, j, k - 1); }
      if j > k { Ordered(free, k - 1, j); }
    }
  }

  /** Shrinking a block and turning its tail into a new one. */
  lemma {:induction false} TakeTailLinked(free: seq<Seg>, next: map<nat, nat>, size: map<nat, nat>, k: nat, n: nat)
    requires Gapped(free) && Linked(free, next, size) && 1 <= k < |free| && 0 < n < free[k].size
    ensures Linked(Take(free, k, n), next, size[free[k].addr := free[k].size - n][Taken(free, k, n).addr := n])
  {
    var took, size' := Take(free, k, n), size[free[k].addr := free[k].size - n][Taken(free, k, n).addr := n];
    forall i | 0 <= i < |took| ensures Link(took, next, size', i) {
      assert Link(free, next, size, i);
      if i < k { Ordered(free, i, k); }
      if i > k { Ordered(free, k, i); }
    }
  }

  lemma {:induction false} FreeNotLive(base: nat, free: seq<Seg>, live: map<nat, nat>, brk: nat, i: nat)
    requires FreeOk(base, free, brk) && LiveOk(base, live, brk) && Apart(free, live) && i < |free|
    ensures free[i].addr !in live
  {
    if i > 0 {
      assert free[i].Has(free[i].addr);
      assert Covers(free, free[i].addr);
    }
    assert free[i].addr in live ==> Seg(free[i].addr, live[free[i].addr]).Has(free[i].addr);
  }

  /** Block `k` has room for `n` units. */
  predicate FitsAt(free: seq<Seg>, k: nat, n: nat) { k < |free| && free[k].size >= n }

  ghost predicate HasRoom(free: seq<Seg>, n: nat) { exists k :: FitsAt(free, k, n) }

  /** Number of units for `nbytes` bytes: the header, and enough units of eight bytes. */
  function UnitsFor(nbytes: nat): (n: nat)
    ensures (n - 1) * 8 >= nbytes > (n - 2) * 8
  {
    (nbytes + 8 - 1) / 8 + 1
  }

  /** Units that morecore asks sbrk for. */
  function CoreUnits(n: nat): (m: nat)
    ensures n <= m && 4096 <= m && (m == n || m == 4096)
  {
    if n < 4096 then 4096 else n
  }

  /** The index `j` places after `f` on the circular list. */
  function Along(free: seq<Seg>, f: nat, j: nat): (i: nat)
    requires f < |free| && j <= |free|
    ensures i < |free|
  {
    if f + j < |free| then f + j else f + j - |free|
  }

  /** What free leaves behind. */
  lemma {:induction false} FreeDone(base: nat, free: seq<Seg>, live: map<nat, nat>, heap: set<nat>, brk: nat,
                                    next: map<nat, nat>, size: map<nat, nat>, b: nat, t: nat)
    requires Shape(base, free, live, heap, brk) && LiveHeaders(live, size) && b in live
    requires CanPut(base, free, brk, next, size, Seg(b, live[b]), t)
    ensures var (next', size') := Relinked(next, size, free[t].addr, b);
            var put := Put(free, Seg(b, live[b]), t);
            && Shape(base, put, live - {b}, heap, brk) && LiveHeaders(live - {b}, size') && Linked(put, next', size')
            && t < |put| && put[t].addr == free[t].addr
    ensures HasRoom(Put(free, Seg(b, live[b]), t), live[b])
  {
    hide Gapped, Apart, Tiled, Linked, Put, Relinked;
    var s := Seg(b, live[b]);
    PutShape(base, free, live, heap, brk, b, t);
    PutLinked(base, free, brk, next, size, s, t);
    FreeNotLive(base, free, live, brk, t);
    RelinkedAt(next, size, free[t].addr, b);
    PutSize(free, s, t);
    PutAt(free, s, t, t);
    PutAt(free, s, t, Lo(free, s, t));
    assert FitsAt(Put(free, s, t), Lo(free, s, t), s.size);
  }

  lemma PutSize(free: seq<Seg>, s: Seg, t: nat)
    requires Between(free, s, t)
    ensures |Put(free, s, t)| > t && |Put(free, s, t)| > Lo(free, s, t)
  {
  }

  /** malloc's loop has gone `j` places round the list without finding room. */
  ghost predicate Scan(free: seq<Seg>, f: nat, j: nat, prevp: nat, p: nat, n: nat) {
    && f < |free| && 1 <= j <= |free|
    && prevp == free[Along(free, f, j - 1)].addr && p == free[Along(free, f, j)].addr
    && forall m :: 1 <= m < j ==> !FitsAt(free, Along(free, f, m), n)
  }

  lemma {:induction false} ScanStart(base: nat, free: seq<Seg>, live: map<nat, nat>, heap: set<nat>, brk: nat,
                                     next: map<nat, nat>, size: map<nat, nat>, f: nat, n: nat)
    requires Shape(base, free, live, heap, brk) && Linked(free, next, size) && f < |free|
    ensures free[f].addr in next && Scan(free, f, 1, free[f].addr, next[free[f].addr], n)
  {
    assert Link(free, next, size, f);
  }

  /** One turn of the loop: either there is room here, or the list is exhausted, or the scan goes on. */
  lemma {:induction false} ScanAt(base: nat, free: seq<Seg>, live: map<nat, nat>, heap: set<nat>, brk: nat,
                                  next: map<nat, nat>, size: map<nat, nat>, f: nat, j: nat, prevp: nat, p: nat, n: nat)
    requires Shape(base, free, live, heap, brk) && Linked(free, next, size) && Scan(free, f, j, prevp, p, n) && 0 < n
    ensures p in size && p in next
    ensures size[p] >= n ==>
              var k := Along(free, f, j);
              1 <= k && FitsAt(free, k, n) && p == free[k].addr && prevp == free[k - 1].addr
    ensures size[p] < n ==> (p == free[f].addr ==> !HasRoom(free, n))
    ensures size[p] < n && p != free[f].addr ==> j < |free| && Scan(free, f, j + 1, p, next[p], n)
  {
    var k := Along(free, f, j);
    assert Link(free, next, size, k);
    AddrsDistinct(free);
    if size[p] < n && j == |free| {
      NoRoom(free, f, n);
    }
  }

  /**
   What has happened since malloc was called: nothing, or one successful request
   to sbrk because there was no room.
   */
  ghost predicate Since(asked: bool, free0: seq<Seg>, heap0: set<nat>, brk0: nat, free: seq<Seg>, heap: set<nat>,
                        brk: nat, n: nat, sbrk: (nat, nat) -> Option<nat>)
  {
    if !asked then free == free0 && heap == heap0 && brk == brk0
    else
      && HasRoom(free, n) && !HasRoom(free0, n) && sbrk(brk0, CoreUnits(n)).Some?
      && brk == sbrk(brk0, CoreUnits(n)).value + CoreUnits(n)
      && heap == heap0 + Units(Seg(brk - CoreUnits(n), CoreUnits(n)))
  }

  lemma {:induction false} SinceStart(free: seq<Seg>, heap: set<nat>, brk: nat, n: nat, sbrk: (nat, nat) -> Option<nat>)
    ensures Since(false, free, heap, brk, free, heap, brk, n, sbrk)
  {
  }

  /** Block `k` is the first one after block `f`, going round, that has `n` units. */
  ghost predicate FirstFit(free: seq<Seg>, f: nat, k: nat, n: nat) {
    && f < |free| && FitsAt(free, k, n)
    && exists j: nat :: 1 <= j <= |free| && k == Along(free, f, j) && forall m :: 1 <= m < j ==>
        !FitsAt(free, Along(free, f, m), n)
  }

  lemma {:induction false} FirstFound(asked: bool, free0: seq<Seg>, heap0: set<nat>, brk0: nat, free: seq<Seg>,
                                      heap: set<nat>, brk: nat, n: nat, sbrk: (nat, nat) -> Option<nat>, f: nat, j: nat,
                                      prevp: nat, p: nat)
    requires Since(asked, free0, heap0, brk0, free, heap, brk, n, sbrk) && Scan(free, f, j, prevp, p, n) && j <= |free|
    requires FitsAt(free, Along(free, f, j), n)
    ensures HasRoom(free0, n) ==> !asked && free == free0 && FirstFit(free, f, Along(free, f, j), n)
  {
    hide HasRoom, Along;
  }

  /** Before the first malloc there is no room for anything. */
  lemma BaseFull(base: nat, n: nat)
    requires 0 < n
    ensures !HasRoom([Seg(base, 0)], n)
  {
  }

  lemma {:induction false} SinceFound(asked: bool, free0: seq<Seg>, heap0: set<nat>, brk0: nat, free: seq<Seg>,
                                      heap: set<nat>, brk: nat, n: nat, sbrk: (nat, nat) -> Option<nat>, k: nat)
    requires Since(asked, free0, heap0, brk0, free, heap, brk, n, sbrk) && FitsAt(free, k, n)
    ensures HasRoom(free0, n) ==> heap == heap0 && brk == brk0
    ensures !HasRoom(free0, n) ==>
              && sbrk(brk0, CoreUnits(n)).Some? && brk == sbrk(brk0, CoreUnits(n)).value + CoreUnits(n)
              && heap == heap0 + Units(Seg(brk - CoreUnits(n), CoreUnits(n)))
  {
    assert HasRoom(free, n);
  }

  /** The list is exhausted only before sbrk has been asked. */
  lemma {:induction false} SinceFull(asked: bool, free0: seq<Seg>, heap0: set<nat>, brk0: nat, free: seq<Seg>,
                                     heap: set<nat>, brk: nat, n: nat, sbrk: (nat, nat) -> Option<nat>)
    requires Since(asked, free0, heap0, brk0, free, heap, brk, n, sbrk) && !HasRoom(free, n)
    ensures !asked && free == free0 && heap == heap0 && brk == brk0
  {
  }

  lemma {:induction false} SinceMore(free0: seq<Seg>, heap0: set<nat>, brk0: nat, free: seq<Seg>, heap: set<nat>,
                                     brk: nat, n: nat, sbrk: (nat, nat) -> Option<nat>)
    requires !HasRoom(free0, n) && HasRoom(free, n) && sbrk(brk0, CoreUnits(n)).Some?
    requires brk == sbrk(brk0, CoreUnits(n)).value + CoreUnits(n)
    requires heap == heap0 + Units(Seg(brk - CoreUnits(n), CoreUnits(n)))
    ensures Since(true, free0, heap0, brk0, free, heap, brk, n, sbrk)
  {
  }

  /** What malloc leaves behind when it has found room in block `k`. */
  lemma {:induction false} CutDone(base: nat, free: seq<Seg>, live: map<nat, nat>, heap: set<nat>, brk: nat,
                                   next: map<nat, nat>, size: map<nat, nat>, k: nat, n: nat)
    requires Shape(base, free, live, heap, brk) && Linked(free, next, size) && LiveHeaders(live, size) && 1 <= k
    requires FitsAt(free, k, n) && 0 < n
    ensures Link(free, next, size, k) && Taken(free, k, n).addr == free[k].addr + (free[k].size - n)
    ensures Taken(free, k, n).addr !in live
    ensures Shape(base, Take(free, k, n), live[Taken(free, k, n).addr := n], heap, brk)
    ensures base <= free[k - 1].addr && k - 1 < |Take(free, k, n)| && Take(free, k, n)[k - 1] == free[k - 1]
    ensures free[k].size == n ==>
              Linked(Take(free, k, n), next[free[k - 1].addr := next[free[k].addr]], size)
              && LiveHeaders(live[free[k].addr := n], size)
    ensures free[k].size > n ==>
              var size' := size[free[k].addr := free[k].size - n][Taken(free, k, n).addr := n];
              Linked(Take(free, k, n), next, size') && LiveHeaders(live[Taken(free, k, n).addr := n], size')
  {
    hide Gapped, Apart, Tiled;
    TakeShape(base, free, live, heap, brk, k, n);
    FreeNotLive(base, free, live, brk, k);
    if 0 < k - 1 { Ordered(free, 0, k - 1); }
    assert Link(free, next, size, k);
    if free[k].size == n {
      TakeAllLinked(free, next, size, k);
    } else {
      TakeTailLinked(free, next, size, k, n);
    }
  }

  /** A full turn without a fit is a list without room. */
  lemma {:induction false} NoRoom(free: seq<Seg>, f: nat, n: nat)
    requires f < |free| && forall m :: 1 <= m <= |free| ==> !FitsAt(free, Along(free, f, m), n)
    ensures !HasRoom(free, n)
  {
    forall k: nat ensures !FitsAt(free, k, n) {
      if k < |free| {
        var m := if k > f then k - f else k + |free| - f;
        assert Along(free, f, m) == k;
      }
    }
  }

  /** sbrk never returns memory it has handed out. */
  ghost predicate Grows(sbrk: (nat, nat) -> Option<nat>) {
    forall b: nat, n: nat :: sbrk(b, n).Some? ==> b <= sbrk(b, n).value
  }

  lemma LessRoom(free: seq<Seg>, n: nat, m: nat)
    requires HasRoom(free, n) && m <= n
    ensures HasRoom(free, m)
  {
    var k :| FitsAt(free, k, n);
    assert FitsAt(free, k, m);
  }

  /** The header of new core is not one of the headers in use. */
  lemma {:induction false} HeaderElsewhere(base: nat, free: seq<Seg>, live: map<nat, nat>, heap: set<nat>, brk: nat,
                                           next: map<nat, nat>, size: map<nat, nat>, hp: nat, n: nat)
    requires Shape(base, free, live, heap, brk) && Linked(free, next, size) && LiveHeaders(live, size) && brk <= hp
    ensures Linked(free, next, size[hp := n]) && LiveHeaders(live[hp := n], size[hp := n]) && hp !in live
  {
    var size' := size[hp := n];
    forall i | 0 <= i < |free| ensures Link(free, next, size', i) {
      assert Link(free, next, size, i);
      assert free[i].addr < brk;
    }
  }

  /** Where the test of free's loop holds. */
  lemma {:induction false} Position(base: nat, free: seq<Seg>, brk: nat, next: map<nat, nat>, size: map<nat, nat>,
                                    bp: nat, i: nat, goal: nat)
    requires FreeOk(base, free, brk) && i < |free| && goal < |free| && Link(free, next, size, i) && base < bp
    requires free[goal].addr < bp && (goal + 1 < |free| ==> bp < free[goal + 1].addr)
    ensures bp > free[i].addr && bp < next[free[i].addr] ==> i == goal
    ensures free[i].addr >= next[free[i].addr] && (bp > free[i].addr || bp < next[free[i].addr]) ==> i == goal
    ensures i == goal ==> bp > free[i].addr && (bp < next[free[i].addr] || free[i].addr >= next[free[i].addr])
  {
    if i < goal { Ordered(free, i, goal); }
    if i + 1 < goal { Ordered(free, i + 1, goal); }
    if goal < i { Ordered(free, goal, i); }
    if goal + 1 < i { Ordered(free, goal + 1, i); }
    if i + 1 < |free| { Ordered(free, i, i + 1); }
  }

  // Conservation

  function FreeUnits(free: seq<Seg>): nat {
    if free == [] then 0 else FreeUnits(free[..|free| - 1]) + free[|free| - 1].size
  }

  ghost function LiveUnits(live: map<nat, nat>): nat {
    if live == map[] then 0 else var b :| b in live; live[b] + LiveUnits(live - {b})
  }

  /** The sum over the live blocks does not depend on the order. */
  lemma {:induction false} LiveUnitsOf(live: map<nat, nat>, b: nat)
    requires b in live
    ensures LiveUnits(live) == live[b] + LiveUnits(live - {b})
    decreases |live|
  {
    var c :| c in live && LiveUnits(live) == live[c] + LiveUnits(live - {c});
    if c != b {
      LiveUnitsOf(live - {c}, b);
      LiveUnitsOf(live - {b}, c);
      assert live - {c} - {b} == live - {b} - {c};
    }
  }

  lemma {:induction false} LiveCount(live: map<nat, nat>, heap: set<nat>)
    requires Separate(live) && forall u :: u in heap <==> InLive(live, u)
    ensures |heap| == LiveUnits(live)
    decreases |live|
  {
    hide InLive, Separate, Units;
    if live == map[] {
      assert heap == {} by {
        assert forall u :: !InLive(live, u) by { NoneLive(); }
      }
    } else {
      var b :| b in live;
      LiveUnitsOf(live, b);
      var s := Units(Seg(b, live[b]));
      forall u: nat ensures InLive(live - {b}, u) <==> u in heap - s {
        LiveElsewhere(live, b, u);
      }
      SeparateLess(live, b);
      LiveCount(live - {b}, heap - s);
      forall u | u in s ensures u in heap {
        LiveElsewhere(live, b, u);
        LiveHas(live, b, u);
      }
      SplitCard(heap, s);
    }
  }

  lemma NoneLive()
    ensures forall u :: !InLive(map[], u)
  {
  }

  lemma LiveHas(live: map<nat, nat>, b: nat, u: nat)
    requires b in live && Seg(b, live[b]).Has(u)
    ensures InLive(live, u)
  {
  }

  lemma SeparateLess(live: map<nat, nat>, b: nat)
    requires Separate(live)
    ensures Separate(live - {b})
  {
  }

  lemma SplitCard(a: set<nat>, b: set<nat>)
    requires b <= a
    ensures |a| == |a - b| + |b|
  {
    assert a == (a - b) + b;
  }

  ghost predicate Separate(live: map<nat, nat>) {
    forall b, c :: b in live && c in live && b < c ==> b + live[b] <= c
  }

  lemma {:induction false} LiveElsewhere(live: map<nat, nat>, b: nat, u: nat)
    requires b in live && Separate(live)
    ensures InLive(live - {b}, u) <==> InLive(live, u) && !Seg(b, live[b]).Has(u)
  {
    var rest := live - {b};
    if InLive(rest, u) {
      var c :| c in rest && Seg(c, rest[c]).Has(u);
      assert Seg(c, live[c]).Has(u);
    }
    if InLive(live, u) && !Seg(b, live[b]).Has(u) {
      var c :| c in live && Seg(c, live[c]).Has(u);
      assert c in rest && Seg(c, rest[c]).Has(u);
    }
  }

  lemma {:induction false} AllCount(free: seq<Seg>, live: map<nat, nat>, heap: set<nat>)
    requires Gapped(free) && Apart(free, live) && Tiled(free, live, heap) && Separate(live)
    ensures |heap| == FreeUnits(free) + LiveUnits(live)
    decreases |free|
  {
    hide Separate, LiveUnits, Units;
    if free == [] {
      assert forall u :: !Covers(free, u);
      LiveCount(live, heap);
    } else {
      var n := |free| - 1;
      var s := Units(free[n]);
      LastPiece(free, live, heap);
      AllCount(free[..n], live, heap - s);
      SplitCard(heap, s);
    }
  }

  /** Leaving out the last free block. */
  lemma {:induction false} LastPiece(free: seq<Seg>, live: map<nat, nat>, heap: set<nat>)
    requires Gapped(free) && Apart(free, live) && Tiled(free, live, heap) && free != []
    ensures var n := |free| - 1;
            Gapped(free[..n]) && Apart(free[..n], live) && Tiled(free[..n], live, heap - Units(free[n]))
                && Units(free[n]) <= heap
  {
    hide Covers, InLive, Gapped, Units;
    var n := |free| - 1;
    assert Gapped(free[..n]) by { GappedLess(free); }
    forall u: nat ensures Covers(free[..n], u) <==> Covers(free, u) && !free[n].Has(u) {
      LastCovers(free, u);
    }
    forall u: nat | free[n].Has(u) ensures Covers(free, u) && !InLive(live, u) {
      LastHas(free, live, u);
    }
  }

  lemma GappedLess(free: seq<Seg>)
    requires Gapped(free) && free != []
    ensures Gapped(free[..|free| - 1])
  {
  }

  lemma LastHas(free: seq<Seg>, live: map<nat, nat>, u: nat)
    requires Apart(free, live) && free != [] && free[|free| - 1].Has(u)
    ensures Covers(free, u) && !InLive(live, u)
  {
  }

  lemma {:induction false} LastCovers(free: seq<Seg>, u: nat)
    requires Gapped(free) && free != []
    ensures Covers(free[..|free| - 1], u) <==> Covers(free, u) && !free[|free| - 1].Has(u)
  {
    var n := |free| - 1;
    if i :| 0 <= i < |free| && free[i].Has(u) && !free[n].Has(u) {
      assert free[..n][i].Has(u);
    }
    if i :| 0 <= i < n && free[..n][i].Has(u) {
      assert free[i].Has(u) && free[i].End() < free[n].addr;
    }
  }

  /** Free and live units add up to the units obtained from sbrk, and every unit is in exactly one block. */
  lemma {:induction false} Conservation(base: nat, free: seq<Seg>, live: map<nat, nat>, heap: set<nat>, brk: nat)
    requires Shape(base, free, live, heap, brk)
    ensures |heap| == FreeUnits(free) + LiveUnits(live)
    ensures forall u :: u in heap ==> Covers(free, u) != InLive(live, u)
  {
    AllCount(free, live, heap);
  }
}
