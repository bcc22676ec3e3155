/** skipelem and namex of fs.c: a path names what looking up its components one after the other finds. */
module Paths {
  import opened Basics
  import opened Volume
  import opened InodeLayer
  import opened DirNames
  import opened Directory

  const SLASH: Byte := 47
  const ROOTINO: nat := 1

  /** A string of C, without its final NUL. */
  predicate NoNul(s: seq<Byte>) { forall k :: 0 <= k < |s| ==> s[k] != 0 }

  // Components

  /** The pieces between slashes, empty ones included. */
  function Pieces(path: seq<Byte>): (r: seq<seq<Byte>>)
    ensures r != []
  {
    if path == [] then [[]]
    else if path[0] == SLASH then [[]] + Pieces(path[1..])
    else [[path[0]] + Pieces(path[1..])[0]] + Pieces(path[1..])[1..]
  }

  function NonEmpty(pieces: seq<seq<Byte>>): seq<seq<Byte>> {
    if pieces == [] then [] else (if pieces[0] == [] then [] else [pieces[0]]) + NonEmpty(pieces[1..])
  }

  /** The components of a path: the nonempty pieces between slashes. */
  function Elems(path: seq<Byte>): seq<seq<Byte>> { NonEmpty(Pieces(path)) }

  lemma {:induction false} ElemsSlash(path: seq<Byte>)
    requires path != [] && path[0] == SLASH
    ensures Elems(path) == Elems(path[1..])
  {
    assert Pieces(path)[1..] == Pieces(path[1..]);
  }

  predicate NoSlash(s: seq<Byte>) { forall k :: 0 <= k < |s| ==> s[k] != SLASH }

  /** A run of other characters up to a slash or the end is the first piece. */
  lemma {:induction false} PiecesRun(s: seq<Byte>, rest: seq<Byte>)
    requires NoSlash(s) && (rest == [] || rest[0] == SLASH)
    ensures Pieces(s + rest) == [s] + (if rest == [] then [] else Pieces(rest[1..]))
  {
    if s == [] {
      assert s + rest == rest;
    } else {
      assert (s + rest)[1..] == s[1..] + rest;
      PiecesRun(s[1..], rest);
      assert [s[0]] + s[1..] == s;
    }
  }

  lemma {:induction false} ElemsRun(s: seq<Byte>, rest: seq<Byte>)
    requires NoSlash(s) && s != [] && (rest == [] || rest[0] == SLASH)
    ensures Elems(s + rest) == [s] + Elems(rest)
  {
    PiecesRun(s, rest);
    if rest == [] {
      assert Elems(rest) == [] by {
        assert Pieces(rest) == [[]];
        assert NonEmpty([[]]) == [] + NonEmpty([[]][1..]);
      }
      assert Pieces(s + rest) == [s];
      assert NonEmpty([s]) == [s] + NonEmpty([s][1..]);
    } else {
      ElemsSlash(rest);
      assert ([s] + Pieces(rest[1..]))[1..] == Pieces(rest[1..]);
    }
  }

  lemma ElemsNone()
    ensures Elems([]) == []
  {
    assert Pieces([]) == [[]];
    assert NonEmpty([[]]) == [] + NonEmpty([[]][1..]);
  }

  /** Skip slashes. */
  method SkipSlashes(path: seq<Byte>) returns (rest: seq<Byte>)
    ensures |rest| <= |path| && rest == path[|path| - |rest|..] && Elems(rest) == Elems(path)
    ensures rest == [] || rest[0] != SLASH
  {
    rest := path;
    while rest != [] && rest[0] == SLASH
      invariant |rest| <= |path| && rest == path[|path| - |rest|..] && Elems(rest) == Elems(path)
      decreases |rest|
    {
      ElemsSlash(rest);
      rest := rest[1..];
    }
  }

  /** skipelem: the first component, cut to 14 bytes, and the path after it; the result has no leading slashes. */
  method Skipelem(path: seq<Byte>) returns (found: bool, rest: seq<Byte>, name: seq<Byte>)
    ensures found <==> Elems(path) != []
    ensures found ==>
              && |rest| < |path| && rest == path[|path| - |rest|..] && (rest == [] || rest[0] != SLASH)
              && name == First(path)[..Min(|First(path)|, DIRSIZ)] && Elems(path) == [First(path)] + Elems(rest)
  {
    rest, name := [], [];
    var p := SkipSlashes(path);
    if p == [] {
      ElemsNone();
      return false, [], [];
    }
    var len := 0;
    while len < |p| && p[len] != SLASH
      invariant 0 <= len <= |p| && NoSlash(p[..len]) && (len == 0 ==> p[0] != SLASH)
    {
      len := len + 1;
    }
    assert p == p[..len] + p[len..];
    ElemsRun(p[..len], p[len..]);
    if len >= DIRSIZ {
      name := p[..DIRSIZ];
    } else {
      name := p[..len];
    }
    rest := SkipSlashes(p[len..]);
    found := true;
  }

  /** The first component. */
  function First(path: seq<Byte>): seq<Byte> { if Elems(path) == [] then [] else Elems(path)[0] }

  // Resolution

  /** What the directories say, for one name. */
  ghost function Lookup(d: seq<Byte>, name: seq<Byte>): (r: Option<nat>)
    requires DirOk(d)
    ensures r.Some? ==> Binds(d, name, r.value)
    ensures r.None? ==> forall i :: !Binds(d, name, i)
  {
    if i :| Binds(d, name, i) then Some(i) else None
  }

  /** Every directory is a map, and leads to inodes that exist. */
  ghost predicate Tree(inodes: map<nat, Inode>, bytes: map<nat, seq<Byte>>) {
    && bytes.Keys == inodes.Keys
    && forall i :: i in inodes && inodes[i].typ == T_DIR ==>
        && DirOk(bytes[i]) && Unique(bytes[i]) && Leads(bytes[i], inodes)
  }

  ghost predicate Leads(d: seq<Byte>, inodes: map<nat, Inode>)
    requires DirOk(d)
  {
    forall n, j :: Binds(d, n, j) ==> j in inodes
  }

  /** Look up the components from inode `ip` on. */
  ghost function Walk(inodes: map<nat, Inode>, bytes: map<nat, seq<Byte>>, ip: nat,
                      elems: seq<seq<Byte>>): (r: Option<nat>)
    requires Tree(inodes, bytes) && ip in inodes
    ensures r.Some? ==> r.value in inodes
    decreases |elems|
  {
    if elems == [] then Some(ip)
    else if inodes[ip].typ != T_DIR then None
    else match Lookup(bytes[ip], Cut(elems[0], DIRSIZ))
         case None => None
         case Some(next) => Walk(inodes, bytes, next, elems[1..])
  }

  /** The directory that the last component is in, and that component. */
  ghost function WalkParent(inodes: map<nat, Inode>, bytes: map<nat, seq<Byte>>, ip: nat,
                            elems: seq<seq<Byte>>): Option<(nat, seq<Byte>)>
    requires Tree(inodes, bytes) && ip in inodes
    decreases |elems|
  {
    if elems == [] || inodes[ip].typ != T_DIR then None
    else if |elems| == 1 then Some((ip, Cut(elems[0], DIRSIZ)))
    else match Lookup(bytes[ip], Cut(elems[0], DIRSIZ))
         case None => None
         case Some(next) => WalkParent(inodes, bytes, next, elems[1..])
  }

  /** The inodes on the way: each is a directory that binds the next component, cut to 14 bytes, to the next inode. */
  ghost predicate Way(inodes: map<nat, Inode>, bytes: map<nat, seq<Byte>>, nodes: seq<nat>, elems: seq<seq<Byte>>)
    requires Tree(inodes, bytes)
  {
    |nodes| == |elems| + 1 && forall k :: 0 <= k < |elems| ==> Leg(inodes, bytes, nodes[k], elems[k], nodes[k + 1])
  }

  ghost predicate Leg(inodes: map<nat, Inode>, bytes: map<nat, seq<Byte>>, ip: nat, elem: seq<Byte>, next: nat)
    requires Tree(inodes, bytes)
  {
    ip in inodes && inodes[ip].typ == T_DIR && Binds(bytes[ip], Cut(elem, DIRSIZ), next)
  }

  ghost predicate WayTo(inodes: map<nat, Inode>, bytes: map<nat, seq<Byte>>, nodes: seq<nat>, elems: seq<seq<Byte>>,
                        ip: nat, x: nat)
    requires Tree(inodes, bytes)
  {
    Way(inodes, bytes, nodes, elems) && nodes[0] == ip && nodes[|elems|] == x
  }

  /** A directory binds a name to one inode at most, so there is one leg. */
  lemma {:induction false} OneLeg(inodes: map<nat, Inode>, bytes: map<nat, seq<Byte>>, ip: nat, elem: seq<Byte>,
                                  next: nat)
    requires Tree(inodes, bytes) && ip in inodes && inodes[ip].typ == T_DIR
    ensures Leg(inodes, bytes, ip, elem, next) <==> Lookup(bytes[ip], Cut(elem, DIRSIZ)) == Some(next)
  {
    hide Binds, Unique, Cut;
    var found := Lookup(bytes[ip], Cut(elem, DIRSIZ));
    if Leg(inodes, bytes, ip, elem, next) {
      UniqueMap(bytes[ip], Cut(elem, DIRSIZ), next, found.value);
    }
  }

  /** A walk arrives at an inode if and only if there is a way to it. */
  lemma {:induction false} WalkIs(inodes: map<nat, Inode>, bytes: map<nat, seq<Byte>>, ip: nat, elems: seq<seq<Byte>>,
                                  x: nat)
    requires Tree(inodes, bytes) && ip in inodes
    ensures Walk(inodes, bytes, ip, elems) == Some(x) <==> exists nodes :: WayTo(inodes, bytes, nodes, elems, ip, x)
    decreases |elems|
  {
    hide Binds, Unique, Leads, Cut, Leg, Lookup;
    if elems == [] {
      if x == ip { assert WayTo(inodes, bytes, [ip], elems, ip, x); }
    } else {
      if nodes :| WayTo(inodes, bytes, nodes, elems, ip, x) {
        assert Leg(inodes, bytes, ip, elems[0], nodes[1]);
        LegStep(inodes, bytes, ip, elems, nodes[1]);
        assert forall k :: 0 <= k < |elems| - 1 ==> nodes[1..][k] == nodes[k + 1] && elems[1..][k] == elems[k + 1];
        assert WayTo(inodes, bytes, nodes[1..], elems[1..], nodes[1], x);
        WalkIs(inodes, bytes, nodes[1], elems[1..], x);
      }
      if Walk(inodes, bytes, ip, elems) == Some(x) {
        var next := Lookup(bytes[ip], Cut(elems[0], DIRSIZ)).value;
        OneLeg(inodes, bytes, ip, elems[0], next);
        LegStep(inodes, bytes, ip, elems, next);
        WalkIs(inodes, bytes, next, elems[1..], x);
        var rest :| WayTo(inodes, bytes, rest, elems[1..], next, x);
        assert WayTo(inodes, bytes, [ip] + rest, elems, ip, x);
      }
    }
  }

  lemma {:induction false} LegStep(inodes: map<nat, Inode>, bytes: map<nat, seq<Byte>>, ip: nat, elems: seq<seq<Byte>>,
                                   next: nat)
    requires Tree(inodes, bytes) && elems != [] && Leg(inodes, bytes, ip, elems[0], next)
    ensures ip in inodes && next in inodes && Walk(inodes, bytes, ip, elems) == Walk(inodes, bytes, next, elems[1..])
    ensures |elems| > 1 ==>
              WalkParent(inodes, bytes, ip, elems) == WalkParent(inodes, bytes, next, elems[1..])
  {
    hide Binds, Cut;
    OneLeg(inodes, bytes, ip, elems[0], next);
  }

  /** The parent walk stops at the directory that the walk without the last component arrives at. */
  lemma {:induction false} ParentIs(inodes: map<nat, Inode>, bytes: map<nat, seq<Byte>>, ip: nat, elems: seq<seq<Byte>>)
    requires Tree(inodes, bytes) && ip in inodes
    ensures var r := WalkParent(inodes, bytes, ip, elems);
            if elems == [] then r == None
            else
              var n := |elems| - 1;
              match Walk(inodes, bytes, ip, elems[..n])
              case None => r == None
              case Some(p) => r == if inodes[p].typ == T_DIR then Some((p, Cut(elems[n], DIRSIZ))) else None
    decreases |elems|
  {
    hide Binds, Unique, Leads, Cut, Lookup;
    if |elems| > 1 && inodes[ip].typ == T_DIR {
      var n := |elems| - 1;
      var found := Lookup(bytes[ip], Cut(elems[0], DIRSIZ));
      assert elems[..n][0] == elems[0] && elems[..n][1..] == elems[1..][..n - 1];
      if found.Some? {
        OneLeg(inodes, bytes, ip, elems[0], found.value);
        LegStep(inodes, bytes, ip, elems, found.value);
        ParentIs(inodes, bytes, found.value, elems[1..]);
      }
    }
  }

  lemma {:induction false} CutNoNul(s: seq<Byte>, n: nat)
    requires NoNul(s)
    ensures Cut(s, n) == s[..Min(|s|, n)]
  {
    CutIs(s, n, s[..Min(|s|, n)]);
  }

  /** Components of a path without NULs have none. */
  lemma {:induction false} ElemsNoNul(path: seq<Byte>)
    requires NoNul(path)
    ensures forall k :: 0 <= k < |Elems(path)| ==> NoNul(Elems(path)[k])
  {
    PiecesNoNul(path);
    NonEmptyNoNul(Pieces(path));
  }

  lemma {:induction false} PiecesNoNul(path: seq<Byte>)
    requires NoNul(path)
    ensures forall k :: 0 <= k < |Pieces(path)| ==> NoNul(Pieces(path)[k])
  {
    if path != [] { PiecesNoNul(path[1..]); }
  }

  lemma {:induction false} NonEmptyNoNul(pieces: seq<seq<Byte>>)
    requires forall k :: 0 <= k < |pieces| ==> NoNul(pieces[k])
    ensures forall k :: 0 <= k < |NonEmpty(pieces)| ==> NoNul(NonEmpty(pieces)[k])
  {
    if pieces != [] { NonEmptyNoNul(pieces[1..]); }
  }

  /** dirlookup finds what the directory binds. */
  method Next(fs: FileSystem, ip: nat, name: seq<Byte>) returns (r: Option<nat>)
    requires fs.Settled() && Tree(fs.inodes, fs.Bytes()) && ip in fs.inodes && fs.inodes[ip].typ == T_DIR
    modifies fs`vol, fs`inodes, fs`owner, fs`logged
    ensures fs.Settled() && fs.inodes == old(fs.inodes) && fs.Bytes() == old(fs.Bytes())
    ensures r == Lookup(fs.Bytes()[ip], Cut(name, DIRSIZ)) && (r.Some? ==> r.value in fs.inodes)
  {
    hide FileSystem.Settled, FileSystem.Bytes, Cut, Binds, Unique;
    var f := Dirlookup(fs, ip, name);
    if f == Missing { return None; }
    ghost var d := fs.Bytes()[ip];
    BoundAt(d, f.k, Cut(name, DIRSIZ), f.inum);
    var found := Lookup(d, Cut(name, DIRSIZ));
    UniqueMap(d, Cut(name, DIRSIZ), f.inum, found.value);
    r := Some(f.inum);
  }

  /**
   namex: without `parent`, the inode the path names; with it, the directory of
   the last component and that component.
   */
  method Namex(fs: FileSystem, path: seq<Byte>, cwd: nat, parent: bool) returns (r: Option<nat>, name: seq<Byte>)
    requires fs.Settled() && Tree(fs.inodes, fs.Bytes()) && NoNul(path) && ROOTINO in fs.inodes && cwd in fs.inodes
    modifies fs`vol, fs`inodes, fs`owner, fs`logged
    ensures fs.Settled() && fs.inodes == old(fs.inodes) && fs.Bytes() == old(fs.Bytes())
    ensures var ip := if path != [] && path[0] == SLASH then ROOTINO else cwd;
            && (!parent ==> r == Walk(fs.inodes, fs.Bytes(), ip, Elems(path)))
            && (parent ==> match WalkParent(fs.inodes, fs.Bytes(), ip, Elems(path))
                           case None => r == None
                           case Some(x) => r == Some(x.0) && name == x.1)
  {
    hide FileSystem.Settled, FileSystem.Bytes, Tree, Elems, Cut, Lookup, Walk, WalkParent;
    var ip := if path != [] && path[0] == SLASH then ROOTINO else cwd;
    ghost var start := ip;
    var rest := path;
    name := [];
    while true
      invariant fs.Settled() && fs.inodes == old(fs.inodes) && fs.Bytes() == old(fs.Bytes()) && ip in fs.inodes
      invariant NoNul(rest)
      invariant !parent ==>
                  Walk(fs.inodes, fs.Bytes(), start, Elems(path)) == Walk(fs.inodes, fs.Bytes(), ip, Elems(rest))
      invariant parent ==>
                  WalkParent(fs.inodes, fs.Bytes(), start, Elems(path)) == WalkParent(fs.inodes, fs.Bytes(), ip,
                      Elems(rest))
      decreases |rest|
    {
      ghost var was := rest;
      var found, after, elem := Skipelem(rest);
      WalkStep(fs.inodes, fs.Bytes(), ip, Elems(was));
      if !found {
        return if parent then None else Some(ip), name;
      }
      ElemsNoNul(was);
      CutNoNul(First(was), DIRSIZ);
      assert Elems(was)[1..] == Elems(after)
             && Cut(elem, DIRSIZ) == Cut(First(was), DIRSIZ) by { CutTwice(First(was)); }
      name := elem;
      if fs.inodes[ip].typ != T_DIR {
        return None, name;
      }
      LastElem(after);
      if parent && after == [] {
        return Some(ip), name;
      }
      var next := Next(fs, ip, name);
      if next == None {
        return None, name;
      }
      ip := next.value;
      rest := after;
    }
  }

  /** Walk and WalkParent, one component at a time. */
  lemma {:induction false} WalkStep(inodes: map<nat, Inode>, bytes: map<nat, seq<Byte>>, ip: nat, elems: seq<seq<Byte>>)
    requires Tree(inodes, bytes) && ip in inodes
    ensures elems == [] ==> Walk(inodes, bytes, ip, elems) == Some(ip) && WalkParent(inodes, bytes, ip, elems) == None
    ensures elems != [] && inodes[ip].typ != T_DIR ==>
              && Walk(inodes, bytes, ip, elems) == None && WalkParent(inodes, bytes, ip, elems) == None
    ensures elems != [] && inodes[ip].typ == T_DIR ==>
              match Lookup(bytes[ip], Cut(elems[0], DIRSIZ))
              case None => Walk(inodes, bytes, ip, elems) == None
                  && (|elems| > 1 ==> WalkParent(inodes, bytes, ip, elems) == None)
              case Some(n) =>
                && n in inodes && Walk(inodes, bytes, ip, elems) == Walk(inodes, bytes, n, elems[1..])
                && (|elems| > 1 ==> WalkParent(inodes, bytes, ip, elems) == WalkParent(inodes, bytes, n, elems[1..]))
    ensures |elems| == 1 && inodes[ip].typ == T_DIR ==>
              WalkParent(inodes, bytes, ip, elems) == Some((ip, Cut(elems[0], DIRSIZ)))
  {
  }

  lemma {:induction false} CutTwice(s: seq<Byte>)
    requires NoNul(s)
    ensures Cut(s[..Min(|s|, DIRSIZ)], DIRSIZ) == Cut(s, DIRSIZ)
  {
    CutNoNul(s, DIRSIZ);
    CutNoNul(s[..Min(|s|, DIRSIZ)], DIRSIZ);
  }

  /** Without leading slashes, the path is empty exactly when nothing is left to look up. */
  lemma {:induction false} LastElem(path: seq<Byte>)
    requires path == [] || path[0] != SLASH
    ensures path == [] <==> Elems(path) == []
  {
    if path == [] {
      ElemsNone();
    }
  }
}
