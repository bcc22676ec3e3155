/** Sizes of finite sets. */
module Counting {
  import opened Basics

  lemma {:induction false} CardSubset(a: set<nat>, b: set<nat>)
    requires a <= b
    ensures |a| <= |b|
  {
    if x :| x in a {
      CardSubset(a - {x}, b - {x});
    }
  }

  function Elems(s: seq<nat>): (r: set<nat>) { set x | x in s }

  lemma {:induction false} CardElems(s: seq<nat>)
    ensures |Elems(s)| <= |s| && (Distinct(s) ==> |Elems(s)| == |s|)
  {
    if s == [] {
      assert Elems(s) == {};
    } else {
      var n := |s| - 1;
      CardElems(s[..n]);
      assert s == s[..n] + [s[n]];
      assert Elems(s) == Elems(s[..n]) + {s[n]};
    }
  }

  /** The numbers from `a` up to `a + n`. */
  function Range(a: nat, n: nat): set<nat> {
    if n == 0 then {} else Range(a, n - 1) + {a + n - 1}
  }

  lemma {:induction false} CardRange(a: nat, n: nat)
    ensures |Range(a, n)| == n && forall i: nat :: i in Range(a, n) <==> a <= i < a + n
  {
    if n > 0 {
      CardRange(a, n - 1);
    }
  }
}
