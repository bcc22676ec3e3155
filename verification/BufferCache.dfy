/**
 bio.c's buffer list: the doubly linked list through prev and next, most
 recently used first, and the two searches of bget that follow it.
 */
module BufferCache {
  import opened Basics

  datatype Hdr = Hdr(dev: nat, bno: int, valid: bool, dirty: bool, refcnt: nat)

  predicate Holds(h: Hdr, dev: nat, bno: int) {
    h.dev == dev && h.bno == bno
  }

  predicate Recyclable(h: Hdr) {
    h.refcnt == 0 && !h.dirty
  }

  /** `ring`, starting at the list head, is what following `next` and, backwards, `prev` visits. */
  ghost predicate Linked(next: seq<nat>, prev: seq<nat>, ring: seq<nat>) {
    && |next| == |prev| && |ring| > 0 && Distinct(ring)
    && (forall i :: 0 <= i < |next| ==> next[i] < |next| && prev[i] < |next|)
    && (forall k :: 0 <= k < |ring| ==> ring[k] < |next|)
    && (forall k :: 0 <= k < |ring| - 1 ==> next[ring[k]] == ring[k + 1] && prev[ring[k + 1]] == ring[k])
    && next[ring[|ring| - 1]] == ring[0] && prev[ring[0]] == ring[|ring| - 1]
  }

  function Without(s: seq<nat>, p: nat): seq<nat>
    requires p < |s|
  {
    s[..p] + s[p + 1..]
  }

  function Front(s: seq<nat>, i: nat): seq<nat>
    requires |s| > 0
  {
    [s[0], i] + s[1..]
  }

  /** The two assignments that take buffer `ring[p]` out of the list. */
  lemma UnlinkRing(next: seq<nat>, prev: seq<nat>, ring: seq<nat>, p: nat)
    requires Linked(next, prev, ring) && 0 < p < |ring|
    ensures var i := ring[p];
            Linked(next[prev[i] := next[i]], prev[next[i] := prev[i]], Without(ring, p))
  {
    var i := ring[p];
    var next', prev', ring' := next[prev[i] := next[i]], prev[next[i] := prev[i]], Without(ring, p);
    assert prev[i] == ring[p - 1];
    assert next[i] == if p + 1 < |ring| then ring[p + 1] else ring[0];
    forall k | 0 <= k < |ring'| - 1 ensures next'[ring'[k]] == ring'[k + 1] && prev'[ring'[k + 1]] == ring'[k] {
      if k < p - 1 {
        assert ring'[k] == ring[k] && ring'[k + 1] == ring[k + 1];
      } else if k >= p {
        assert ring'[k] == ring[k + 1] && ring'[k + 1] == ring[k + 2];
      }
    }
  }

  /** The four assignments that put buffer `i` behind the list head. */
  lemma InsertRing(next: seq<nat>, prev: seq<nat>, ring: seq<nat>, i: nat)
    requires Linked(next, prev, ring) && i < |next| && i !in ring
    ensures var h := ring[0];
            var prev' := prev[i := h];
            Linked(next[i := next[h]][h := i], prev'[next[h] := i], Front(ring, i))
  {
    var h := ring[0];
    var next', prev', ring' := next[i := next[h]][h := i], prev[i := h][next[h] := i], Front(ring, i);
    assert next[h] == if |ring| > 1 then ring[1] else h;
    forall k | 0 <= k < |ring'| - 1 ensures next'[ring'[k]] == ring'[k + 1] && prev'[ring'[k + 1]] == ring'[k] {
      if k >= 2 {
        assert ring'[k] == ring[k - 1] && ring'[k + 1] == ring[k];
      }
    }
  }

  class Bcache {
    const n: nat
    const bufs: array<Hdr>
    const next: array<nat>
    const prev: array<nat>
    /** All buffers, most recently used first. */
    ghost var lru: seq<nat>

    ghost predicate Valid()
      reads this, bufs, next, prev
    {
      && bufs.Length == n && next.Length == prev.Length == n + 1 && next != prev
      && |lru| == n && n !in lru && Distinct(lru)
      && Linked(next[..], prev[..], [n] + lru)
      && (forall i :: 0 <= i < n ==> i in lru)
      && (forall k :: 0 <= k < n ==> lru[k] < n)
    }

    /** binit: every buffer is on the list, the last one in front. */
    constructor (n: nat)
      ensures Valid() && this.n == n && fresh(bufs) && fresh(next) && fresh(prev)
      ensures forall k :: 0 <= k < n ==> lru[k] == n - 1 - k
      ensures forall i :: 0 <= i < n ==> bufs[i] == Hdr(0, 0, false, false, 0)
    {
      this.n := n;
      bufs := new Hdr[n](_ => Hdr(0, 0, false, false, 0));
      next := new nat[n + 1](_ => n);
      prev := new nat[n + 1](_ => n);
      lru := [];
      new;
      var b := 0;
      while b < n
        invariant 0 <= b <= n && |lru| == b
        invariant forall k :: 0 <= k < b ==> lru[k] == b - 1 - k
        invariant Linked(next[..], prev[..], [n] + lru)
        invariant forall i :: 0 <= i < n ==> bufs[i] == Hdr(0, 0, false, false, 0)
      {
        InsertFront(b);
        b := b + 1;
      }
      forall i | 0 <= i < n ensures i in lru {
        assert lru[n - 1 - i] == i;
      }
    }

    /** Put buffer `i` behind the head. */
    method InsertFront(i: nat)
      requires next.Length == prev.Length == n + 1 && next != prev && i < n
      requires Linked(next[..], prev[..], [n] + lru) && i !in lru
      modifies next, prev, this`lru
      ensures lru == [i] + old(lru) && Linked(next[..], prev[..], [n] + lru)
    {
      InsertRing(next[..], prev[..], [n] + lru, i);
      assert Front([n] + lru, i) == [n] + ([i] + lru);
      next[i] := next[n];
      prev[i] := n;
      prev[next[n]] := i;
      next[n] := i;
      lru := [i] + lru;
    }

    /** Take the buffer at position `p` out of the list. */
    method Unlink(ghost p: nat, i: nat)
      requires next.Length == prev.Length == n + 1 && next != prev
      requires Linked(next[..], prev[..], [n] + lru) && p < |lru| && lru[p] == i
      modifies next, prev, this`lru
      ensures lru == Without(old(lru), p) && Linked(next[..], prev[..], [n] + lru)
    {
      UnlinkRing(next[..], prev[..], [n] + lru, p + 1);
      assert Without([n] + lru, p + 1) == [n] + Without(lru, p);
      assert ([n] + lru)[p + 1] == i;
      prev[next[i]] := prev[i];
      next[prev[i]] := next[i];
      lru := Without(lru, p);
    }

    /** Position of a listed buffer. */
    lemma Position(i: nat) returns (p: nat)
      requires Valid() && i < n
      ensures p < n && lru[p] == i
    {
      assert i in lru;
      p :| p < |lru| && lru[p] == i;
    }

    /** The first loop of bget: the buffer that holds the block, if there is one. */
    method FindCached(dev: nat, bno: int) returns (r: Option<nat>)
      requires Valid()
      ensures r.Some? ==> r.value < n && Holds(bufs[r.value], dev, bno)
      ensures r.None? ==> forall i :: 0 <= i < n ==> !Holds(bufs[i], dev, bno)
    {
      var b := next[n];
      ghost var k := 0;
      assert n > 0 ==> ([n] + lru)[1] == lru[0];
      while b != n
        invariant 0 <= k <= n && b == (if k < n then lru[k] else n)
        invariant forall j :: 0 <= j < k ==> !Holds(bufs[lru[j]], dev, bno)
        decreases n - k
      {
        assert ([n] + lru)[k + 1] == b;
        if bufs[b].dev == dev && bufs[b].bno == bno {
          return Some(b);
        }
        b := next[b];
        k := k + 1;
        assert k < n ==> ([n] + lru)[k + 1] == lru[k];
      }
      forall i | 0 <= i < n ensures !Holds(bufs[i], dev, bno) {
        var p := Position(i);
        assert !Holds(bufs[lru[p]], dev, bno);
      }
      r := None;
    }

    /** The second loop of bget: the least recently used buffer that nobody references and that is clean. */
    method FindVictim() returns (r: Option<nat>, ghost p: int)
      requires Valid()
      ensures -1 <= p < n && (r.Some? <==> p >= 0)
      ensures r.Some? ==> r.value == lru[p] && r.value < n && Recyclable(bufs[r.value])
      ensures forall q :: p < q < n ==> !Recyclable(bufs[lru[q]])
    {
      var b := prev[n];
      p := n - 1;
      assert n > 0 ==> ([n] + lru)[n] == lru[n - 1];
      while b != n
        invariant -1 <= p < n && b == (if p >= 0 then lru[p] else n)
        invariant forall q :: p < q < n ==> !Recyclable(bufs[lru[q]])
        decreases p
      {
        assert ([n] + lru)[p + 1] == b;
        if bufs[b].refcnt == 0 && !bufs[b].dirty {
          return Some(b), p;
        }
        b := prev[b];
        p := p - 1;
        assert p >= 0 ==> ([n] + lru)[p + 1] == lru[p];
      }
      r := None;
    }

    /**
     bget. A cached block is found whatever its state; otherwise the least
     recently used buffer that is unreferenced and clean is given to the block,
     and with no such buffer the source panics (`None`).
     */
    method Bget(dev: nat, bno: int) returns (r: Option<nat>)
      requires Valid()
      modifies bufs
      ensures Valid() && lru == old(lru)
      ensures r.Some? ==> r.value < n && forall i :: 0 <= i < n && i != r.value ==> bufs[i] == old(bufs[i])
      ensures r.Some? && Holds(old(bufs[r.value]), dev, bno) ==>
                bufs[r.value] == old(bufs[r.value]).(refcnt := old(bufs[r.value]).refcnt + 1)
      ensures r.Some? && !Holds(old(bufs[r.value]), dev, bno) ==>
                && (forall i :: 0 <= i < n ==> !Holds(old(bufs[i]), dev, bno))
                && Recyclable(old(bufs[r.value])) && bufs[r.value] == Hdr(dev, bno, false, false, 1)
                && (forall p, q :: 0 <= p < q < n && lru[p] == r.value ==> !Recyclable(old(bufs[lru[q]])))
      ensures r.None? <==> forall i :: 0 <= i < n ==> !Holds(old(bufs[i]), dev, bno) && !Recyclable(old(bufs[i]))
      ensures r.None? ==> forall i :: 0 <= i < n ==> bufs[i] == old(bufs[i])
    {
      r := FindCached(dev, bno);
      if r.Some? {
        bufs[r.value] := bufs[r.value].(refcnt := bufs[r.value].refcnt + 1);
        return;
      }
      ghost var p;
      r, p := FindVictim();
      if r.Some? {
        assert forall q :: 0 <= q < n && lru[q] == r.value ==> q == p by {
          assert forall q :: 0 <= q < n ==> ([n] + lru)[q + 1] == lru[q];
        }
        bufs[r.value] := Hdr(dev, bno, false, false, 1);
      } else {
        forall i | 0 <= i < n ensures !Recyclable(bufs[i]) {
          var q := Position(i);
        }
      }
    }

    /** brelse after the sleep lock: the last user moves the buffer to the front of the list. */
    method Brelse(b: nat)
      requires Valid() && b < n && bufs[b].refcnt > 0
      modifies this`lru, bufs, next, prev
      ensures Valid()
      ensures bufs[b] == old(bufs[b]).(refcnt := old(bufs[b]).refcnt - 1)
      ensures forall i :: 0 <= i < n && i != b ==> bufs[i] == old(bufs[i])
      ensures bufs[b].refcnt > 0 ==> lru == old(lru)
      ensures bufs[b].refcnt == 0 ==> exists p :: 0 <= p < n && old(lru)[p] == b && lru == [b] + Without(old(lru), p)
    {
      bufs[b] := bufs[b].(refcnt := bufs[b].refcnt - 1);
      if bufs[b].refcnt == 0 {
        ghost var p := Position(b);
        MoveToFront(lru, p);
        assert b !in Without(lru, p);
        Unlink(p, b);
        InsertFront(b);
      }
    }
  }

  lemma {:induction false} FrontDistinct(lru: seq<nat>, p: nat)
    requires Distinct(lru) && p < |lru|
    ensures Distinct([lru[p]] + Without(lru, p))
  {
    var s := [lru[p]] + Without(lru, p);
    assert forall k :: 0 < k < |s| ==> s[k] == lru[if k <= p then k - 1 else k];
    forall i, j | 0 <= i < j < |s| ensures s[i] != s[j] {
    }
  }

  /** Moving a listed buffer to the front keeps the list a permutation of all buffers. */
  lemma {:induction false} MoveToFront(lru: seq<nat>, p: nat)
    requires Distinct(lru) && p < |lru|
    ensures var s := [lru[p]] + Without(lru, p);
            Distinct(s) && multiset(s) == multiset(lru) && forall x :: x in lru <==> x in s
  {
    var s := [lru[p]] + Without(lru, p);
    FrontDistinct(lru, p);
    assert multiset(s) == multiset(lru) by {
      assert lru == lru[..p] + [lru[p]] + lru[p + 1..];
    }
    forall x ensures x in lru <==> x in s {
      assert x in multiset(lru) <==> x in multiset(s);
    }
  }
}
