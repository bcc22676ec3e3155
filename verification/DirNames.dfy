/** Names and entries of directories: strncmp and strncpy of string.c, and the sixteen-byte entries of fs.h. */
module DirNames {
  import opened Basics

  const DIRSIZ: nat := 14
  const DIRENT: nat := 16

  /** The bytes of `s` before its first NUL, at most `n` of them. */
  function Cut(s: seq<Byte>, n: nat): (r: seq<Byte>)
    ensures |r| <= n && |r| <= |s| && r == s[..|r|] && (forall k :: 0 <= k < |r| ==> r[k] != 0)
    ensures |r| < n && |r| < |s| ==> s[|r|] == 0
    decreases n
  {
    if n == 0 || s == [] || s[0] == 0 then [] else [s[0]] + Cut(s[1..], n - 1)
  }

  /** Cut is the only prefix of that description. */
  lemma {:induction false} CutIs(s: seq<Byte>, n: nat, r: seq<Byte>)
    requires |r| <= n && |r| <= |s| && r == s[..|r|] && (forall k :: 0 <= k < |r| ==> r[k] != 0)
    requires |r| < n && |r| < |s| ==> s[|r|] == 0
    ensures Cut(s, n) == r
  {
    if r != [] {
      assert r[0] == s[0] && r == [s[0]] + r[1..];
      CutIs(s[1..], n - 1, r[1..]);
    }
  }

  /** Byte `i` of a string that ends in a NUL of its own. */
  function Char(s: seq<Byte>, i: nat): Byte { if i < |s| then s[i] else 0 }

  /** The strings agree up to position `i`, are not over before it, and differ there. */
  predicate FirstDifference(p: seq<Byte>, q: seq<Byte>, i: nat) {
    Char(p, i) != Char(q, i) && forall k :: 0 <= k < i ==> Char(p, k) == Char(q, k) != 0
  }

  /** strncmp: zero exactly when the strings agree up to their end or `n` bytes. */
  method Strncmp(p: seq<Byte>, q: seq<Byte>, n: nat) returns (r: int)
    ensures r == 0 <==> Cut(p, n) == Cut(q, n)
    ensures r != 0 ==> exists i :: 0 <= i < n && FirstDifference(p, q, i) && r == Char(p, i) as int - Char(q, i) as int
  {
    var i := 0;
    while i < n && Char(p, i) != 0 && Char(p, i) == Char(q, i)
      invariant 0 <= i <= n && i <= |p| && i <= |q| && p[..i] == q[..i]
      invariant forall k :: 0 <= k < i ==> p[k] != 0
    {
      i := i + 1;
    }
    Compared(p, q, n, i);
    if i == n { return 0; }
    assert forall k :: 0 <= k < i ==> q[k] == q[..i][k] == p[..i][k];
    assert Char(p, i) != Char(q, i) ==> FirstDifference(p, q, i);
    r := Char(p, i) - Char(q, i);
  }

  lemma {:induction false} Compared(p: seq<Byte>, q: seq<Byte>, n: nat, i: nat)
    requires i <= n && i <= |p| && i <= |q| && p[..i] == q[..i] && (forall k :: 0 <= k < i ==> p[k] != 0)
    requires i == n || Char(p, i) == 0 || Char(p, i) != Char(q, i)
    ensures Cut(p, n) == Cut(q, n) <==> i == n || Char(p, i) == Char(q, i)
  {
    var a, b := Cut(p, n), Cut(q, n);
    assert forall k :: 0 <= k < i ==> q[k] == q[..i][k] == p[k];
    if i == n {
      CutIs(p, n, p[..i]);
      CutIs(q, n, q[..i]);
    } else {
      if Char(p, i) == 0 { CutIs(p, n, p[..i]); }
      if Char(q, i) == 0 { CutIs(q, n, q[..i]); }
      assert |a| > i ==> a[i] == Char(p, i);
      assert |b| > i ==> b[i] == Char(q, i);
    }
  }

  /** strncpy: the string up to `n` bytes, padded with NULs. */
  method Strncpy(t: seq<Byte>, n: nat) returns (s: seq<Byte>)
    ensures |s| == n && Cut(s, n) == Cut(t, n) && forall k :: |Cut(t, n)| <= k < n ==> s[k] == 0
  {
    s := [];
    ghost var c := Cut(t, n);
    while |s| < n && Char(t, |s|) != 0
      invariant |s| <= n && |s| <= |t| && s == t[..|s|] && |s| <= |c|
      decreases n - |s|
    {
      assert |s| < |t|;
      s := s + [t[|s|]];
    }
    CutIs(t, n, s);
    ghost var m := |s|;
    while |s| < n
      invariant m <= |s| <= n && s[..m] == c && forall k :: m <= k < |s| ==> s[k] == 0
      decreases n - |s|
    {
      s := s + [0];
    }
    CutIs(s, n, c);
  }

  // Entries

  predicate IsEntry(e: seq<Byte>) { |e| == DIRENT }

  /** The first two bytes, the lower one first. */
  function Inum(e: seq<Byte>): (n: nat)
    requires IsEntry(e)
    ensures n % 256 == e[0] as int && n / 256 == e[1] as int
  {
    (e[0] as int) + 256 * (e[1] as int)
  }

  function Name(e: seq<Byte>): seq<Byte>
    requires IsEntry(e)
  {
    Cut(e[2..], DIRSIZ)
  }

  function MakeEntry(inum: nat, name: seq<Byte>): (e: seq<Byte>)
    requires |name| == DIRSIZ
    ensures IsEntry(e) && Inum(e) == inum % 0x1_0000 && e[2..] == name
    ensures e[0] as int == inum % 256 && e[1] as int == inum / 256 % 256
  {
    TwoBytes(inum);
    [inum % 256, inum / 256 % 256] + name
  }

  lemma TwoBytes(n: nat)
    ensures n % 256 + 256 * (n / 256 % 256) == n % 0x1_0000
  {
    assert n == n / 0x1_0000 * 0x1_0000 + n % 0x1_0000;
    assert n / 256 == n / 0x1_0000 * 256 + n % 0x1_0000 / 256;
    assert n / 256 % 256 == n % 0x1_0000 / 256;
  }

  /** Directories are whole entries. */
  predicate DirOk(d: seq<Byte>) { |d| % DIRENT == 0 }

  function Count(d: seq<Byte>): nat { |d| / DIRENT }

  function Entry(d: seq<Byte>, k: nat): (e: seq<Byte>)
    requires DirOk(d) && k < Count(d)
    ensures IsEntry(e)
  {
    d[k * DIRENT..k * DIRENT + DIRENT]
  }

  /** Entry `k` binds `name` to `inum`. */
  predicate BindsAt(d: seq<Byte>, k: nat, name: seq<Byte>, inum: nat)
    requires DirOk(d) && k < Count(d)
  {
    Inum(Entry(d, k)) == inum && inum != 0 && Name(Entry(d, k)) == name
  }

  ghost predicate Binds(d: seq<Byte>, name: seq<Byte>, inum: nat)
    requires DirOk(d)
  {
    exists k :: 0 <= k < Count(d) && BindsAt(d, k, name, inum)
  }

  /** No two entries in use have the same name, so a directory is a map. */
  ghost predicate Unique(d: seq<Byte>)
    requires DirOk(d)
  {
    forall j, k :: 0 <= j < k < Count(d) && Inum(Entry(d, j)) != 0 && Inum(Entry(d, k)) != 0 ==>
        Name(Entry(d, j)) != Name(Entry(d, k))
  }

  lemma {:induction false} UniqueMap(d: seq<Byte>, name: seq<Byte>, i: nat, j: nat)
    requires DirOk(d) && Unique(d) && Binds(d, name, i) && Binds(d, name, j)
    ensures i == j
  {
    var a :| 0 <= a < Count(d) && BindsAt(d, a, name, i);
    var b :| 0 <= b < Count(d) && BindsAt(d, b, name, j);
    assert a == b;
  }

  /** The directory with entry `k` replaced, or a new entry at the end. */
  ghost predicate Placed(d: seq<Byte>, d': seq<Byte>, k: nat, e: seq<Byte>)
    requires DirOk(d)
  {
    && DirOk(d') && k <= Count(d) && Count(d') == (if k < Count(d) then Count(d) else Count(d) + 1) && k < Count(d')
    && Entry(d', k) == e
    && forall j :: 0 <= j < Count(d) && j != k ==> Entry(d', j) == Entry(d, j)
  }

  /** Putting a new name in an unused place adds that one binding. */
  lemma {:induction false} PlacedBinds(d: seq<Byte>, d': seq<Byte>, k: nat, e: seq<Byte>, name: seq<Byte>, inum: nat)
    requires DirOk(d) && IsEntry(e) && Placed(d, d', k, e) && (k < Count(d) ==> Inum(Entry(d, k)) == 0)
    ensures Binds(d', name, inum) <==> Binds(d, name, inum) || (inum != 0 && Inum(e) == inum && Name(e) == name)
  {
    if Binds(d', name, inum) {
      var j :| 0 <= j < Count(d') && BindsAt(d', j, name, inum);
      assert j != k ==> BindsAt(d, j, name, inum);
    }
    if Binds(d, name, inum) {
      var j :| 0 <= j < Count(d) && BindsAt(d, j, name, inum);
      assert BindsAt(d', j, name, inum);
    }
    if inum != 0 && Inum(e) == inum && Name(e) == name {
      assert BindsAt(d', k, name, inum);
    }
  }

  lemma {:induction false} PlacedUnique(d: seq<Byte>, d': seq<Byte>, k: nat, e: seq<Byte>)
    requires DirOk(d) && IsEntry(e) && Placed(d, d', k, e) && Unique(d)
    requires forall j :: 0 <= j < Count(d) && Inum(Entry(d, j)) != 0 ==> Name(Entry(d, j)) != Name(e)
    ensures Unique(d')
  {
    forall i, j | 0 <= i < j < Count(d') && Inum(Entry(d', i)) != 0 && Inum(Entry(d', j)) != 0
      ensures Name(Entry(d', i)) != Name(Entry(d', j))
    {
      assert i != k ==> Entry(d', i) == Entry(d, i);
      assert j != k ==> Entry(d', j) == Entry(d, j);
    }
  }
}
