/** The free list of kalloc.c: free pages linked through their first word. */
module FreePages {
  import opened PageTables

  const KERNBASE: nat := 0x8000_0000

  /** The kernel address of page `x` as stored in a `struct run`; page 0 stands for the null pointer. */
  function Pointer(x: nat): nat { if x == 0 then 0 else KERNBASE + x * 4096 }

  function PageOf(w: nat): nat { if w < KERNBASE then 0 else (w - KERNBASE) / 4096 }

  lemma PointerPage(x: nat)
    ensures PageOf(Pointer(x)) == x
  {
  }

  /** A page filled with ones, with the link to the next free page in front. */
  function Junk(next: nat): (p: Page)
    ensures p[0] == Pointer(next) && forall k :: 1 <= k < 1024 ==> p[k] == 0x0101_0101
  {
    seq(1024, k => if k == 0 then Pointer(next) else 0x0101_0101)
  }

  function Head(flist: seq<nat>): nat { if flist == [] then 0 else flist[0] }

  predicate Link(mem: seq<Page>, flist: seq<nat>, k: nat)
    requires k < |flist|
  {
    flist[k] < |mem| && mem[flist[k]][0] == Pointer(Head(flist[k + 1..]))
  }

  /** The free list holds exactly the managed pages without a role, each once. */
  ghost predicate FreeOk(mem: seq<Page>, flist: seq<nat>, head: nat, own: map<nat, Role>, lo: nat) {
    && 0 < lo && head == Head(flist)
    && (forall k :: 0 <= k < |flist| ==> Link(mem, flist, k))
    && (forall k :: 0 <= k < |flist| ==> lo <= flist[k] && flist[k] !in own)
    && (forall j, k :: 0 <= j < k < |flist| ==> flist[j] != flist[k])
    && (forall x :: lo <= x < |mem| && x !in own ==> x in flist)
    && (forall x :: x in own ==> lo <= x < |mem|)
  }

  /** kalloc takes the first page. */
  lemma {:induction false} PopOk(mem: seq<Page>, flist: seq<nat>, head: nat, own: map<nat, Role>, lo: nat, r: Role)
    requires FreeOk(mem, flist, head, own, lo) && flist != []
    ensures lo <= head < |mem| && head !in own
    ensures FreeOk(mem, flist[1..], PageOf(mem[head][0]), own[head := r], lo)
  {
    var rest := flist[1..];
    assert Link(mem, flist, 0);
    PointerPage(Head(rest));
    forall k | 0 <= k < |rest| ensures Link(mem, rest, k) && rest[k] !in own[head := r] {
      assert Link(mem, flist, k + 1) && rest[k + 1..] == flist[k + 2..];
      assert rest[k] == flist[k + 1] && flist[0] != flist[k + 1];
    }
    forall x | lo <= x < |mem| && x !in own[head := r] ensures x in rest {
      var k :| 0 <= k < |flist| && flist[k] == x;
      assert rest[k - 1] == x;
    }
  }

  /** kfree puts a page in front. */
  lemma {:induction false} PushOk(mem: seq<Page>, flist: seq<nat>, head: nat, own: map<nat, Role>, lo: nat, x: nat)
    requires FreeOk(mem, flist, head, own, lo) && x in own
    ensures FreeOk(mem[x := Junk(head)], [x] + flist, x, own - {x}, lo)
  {
    var more, mem' := [x] + flist, mem[x := Junk(head)];
    assert more[1..] == flist;
    forall k | 0 <= k < |more| ensures Link(mem', more, k) {
      if k > 0 {
        assert Link(mem, flist, k - 1) && more[k] == flist[k - 1] && more[k + 1..] == flist[k..];
        assert flist[k - 1] !in own;
      }
    }
    forall y | lo <= y < |mem| && y !in own - {x} ensures y in more {
      assert y != x ==> y in flist;
    }
  }

  /** Changing pages in use, or what they are used for, leaves the free list alone. */
  lemma {:induction false} FreeSame(mem: seq<Page>, flist: seq<nat>, head: nat, own: map<nat, Role>, lo: nat,
                                    mem': seq<Page>, own': map<nat, Role>)
    requires FreeOk(mem, flist, head, own, lo) && |mem'| == |mem| && own'.Keys == own.Keys
    requires forall x :: 0 <= x < |mem| && x !in own ==> mem'[x] == mem[x]
    ensures FreeOk(mem', flist, head, own', lo)
  {
    forall k | 0 <= k < |flist| ensures Link(mem', flist, k) {
      assert Link(mem, flist, k);
    }
  }

  lemma FreeHead(mem: seq<Page>, flist: seq<nat>, head: nat, own: map<nat, Role>, lo: nat)
    requires FreeOk(mem, flist, head, own, lo)
    ensures 0 < lo && (head == 0 <==> flist == [])
  {
  }

  /** Which pages are free depends on the roles alone. */
  lemma {:induction false} FreeSetDetermined(mem: seq<Page>, flist: seq<nat>, head: nat, mem': seq<Page>,
                                             flist': seq<nat>, head': nat, own: map<nat, Role>, own': map<nat, Role>,
                                             lo: nat)
    requires FreeOk(mem, flist, head, own, lo) && FreeOk(mem', flist', head', own', lo) && |mem| == |mem'|
    requires own.Keys == own'.Keys
    ensures multiset(flist) == multiset(flist')
  {
    forall x ensures multiset(flist)[x] == multiset(flist')[x] {
      Once(flist, x);
      Once(flist', x);
      assert x in flist ==> exists k :: 0 <= k < |flist| && flist[k] == x && Link(mem, flist, k);
      assert x in flist' ==> exists k :: 0 <= k < |flist'| && flist'[k] == x && Link(mem', flist', k);
    }
  }

  /** A list without repetitions holds each element once. */
  lemma {:induction false} Once(s: seq<nat>, x: nat)
    requires forall j, k :: 0 <= j < k < |s| ==> s[j] != s[k]
    ensures multiset(s)[x] == if x in s then 1 else 0
  {
    if s != [] {
      var n := |s| - 1;
      Once(s[..n], x);
      assert s == s[..n] + [s[n]];
      assert forall k :: 0 <= k < n ==> s[..n][k] == s[k] && s[k] != s[n];
    }
  }
}
