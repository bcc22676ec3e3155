/** Bytes, and 32-bit little-endian words stored in byte blocks. */
module Words {
  import opened Basics

  function GetWord(b: seq<Byte>, i: nat): (w: nat)
    requires 4 * i + 4 <= |b|
    ensures w < WORD
  {
    (b[4 * i] as int) + 0x100 * (b[4 * i + 1] as int)
    + 0x1_0000 * (b[4 * i + 2] as int) + 0x100_0000 * (b[4 * i + 3] as int)
  }

  function PutWord(b: seq<Byte>, i: nat, w: nat): (r: seq<Byte>)
    requires 4 * i + 4 <= |b| && w < WORD
    ensures |r| == |b|
  {
    b[4 * i := w % 0x100]
     [4 * i + 1 := w / 0x100 % 0x100]
     [4 * i + 2 := w / 0x1_0000 % 0x100]
     [4 * i + 3 := w / 0x100_0000]
  }

  lemma SplitWord(w: nat)
    requires w < WORD
    ensures w == w % 0x100 + 0x100 * (w / 0x100 % 0x100)
                 + 0x1_0000 * (w / 0x1_0000 % 0x100) + 0x100_0000 * (w / 0x100_0000)
  {
    assert w / 0x100 / 0x100 == w / 0x1_0000;
    assert w / 0x1_0000 / 0x100 == w / 0x100_0000;
  }

  /** A word lies in four bytes, the lowest first. */
  lemma WordBytes(b: seq<Byte>, i: nat)
    requires 4 * i + 4 <= |b|
    ensures var w := GetWord(b, i);
            && b[4 * i] as int == w % 0x100 && b[4 * i + 1] as int == w / 0x100 % 0x100
            && b[4 * i + 2] as int == w / 0x1_0000 % 0x100 && b[4 * i + 3] as int == w / 0x100_0000
  {
    var w := GetWord(b, i);
    assert w / 0x100 == b[4 * i + 1] as int + 0x100 * (b[4 * i + 2] as int) + 0x1_0000 * (b[4 * i + 3] as int);
    assert w / 0x1_0000 == b[4 * i + 2] as int + 0x100 * (b[4 * i + 3] as int);
  }

  /** Storing a word changes that word and no other. */
  lemma WordUpdate(b: seq<Byte>, i: nat, w: nat, j: nat)
    requires 4 * i + 4 <= |b| && 4 * j + 4 <= |b| && w < WORD
    ensures GetWord(PutWord(b, i, w), j) == if i == j then w else GetWord(b, j)
  {
    SplitWord(w);
  }
}
