/**
 The regular-expression matcher of grep.c, and the language its patterns denote.
 Strings are without their final NUL.
 */
module Grep {
  /** A character or '.', possibly starred. */
  datatype Item = Item(c: char, star: bool)

  predicate Fits(c: char, x: char) { c == '.' || c == x }

  /** The words a sequence of items denotes. */
  ghost predicate Lang(items: seq<Item>, w: string)
    decreases |items|
  {
    if items == [] then w == []
    else if items[0].star then exists k :: 0 <= k <= |w| && Stars(items[0].c, w, k) && Lang(items[1..], w[k..])
    else w != [] && Fits(items[0].c, w[0]) && Lang(items[1..], w[1..])
  }

  /** The first `k` characters all fit. */
  predicate Stars(c: char, w: string, k: nat)
    requires k <= |w|
  {
    forall j :: 0 <= j < k ==> Fits(c, w[j])
  }

  /** The items of a pattern, and whether it ends in '$'. */
  function Parse(re: string): (seq<Item>, bool)
    decreases |re|
  {
    if re == [] then ([], false)
    else if |re| >= 2 && re[1] == '*' then
      var (items, eol) := Parse(re[2..]);
      ([Item(re[0], true)] + items, eol)
    else if re == "$" then ([], true)
    else
      var (items, eol) := Parse(re[1..]);
      ([Item(re[0], false)] + items, eol)
  }

  /** Some prefix of the text is in the language, and is all of it if the pattern ends in '$'. */
  ghost predicate Here(re: string, text: string) {
    exists n :: 0 <= n <= |text| && HereAt(Parse(re).0, Parse(re).1, text, n)
  }

  ghost predicate HereAt(items: seq<Item>, eol: bool, text: string, n: nat)
    requires n <= |text|
  {
    Lang(items, text[..n]) && (eol ==> n == |text|)
  }

  /** What a pattern denotes: a match anywhere, or at the start after '^'. */
  ghost predicate Matches(re: string, text: string) {
    if re != [] && re[0] == '^' then Here(re[1..], text)
    else exists i :: 0 <= i <= |text| && Here(re, text[i..])
  }

  // The matcher, case by case

  lemma {:induction false} HereEmpty(text: string)
    ensures Here("", text)
  {
    assert Parse("") == ([], false);
    assert HereAt(Parse("").0, Parse("").1, text, 0);
  }

  lemma {:induction false} HereDollar(text: string)
    ensures Here("$", text) <==> text == []
  {
    assert Parse("$") == ([], true);
    if text == [] {
      assert HereAt(Parse("$").0, Parse("$").1, text, 0);
    }
  }

  lemma {:induction false} HereOne(re: string, text: string)
    requires re != [] && !(|re| >= 2 && re[1] == '*') && re != "$"
    ensures Here(re, text) <==> text != [] && Fits(re[0], text[0]) && Here(re[1..], text[1..])
  {
    var (items, eol) := Parse(re[1..]);
    var all := [Item(re[0], false)] + items;
    assert Parse(re) == (all, eol) && all[1..] == items;
    if text != [] {
      forall n | 1 <= n <= |text|
        ensures HereAt(all, eol, text, n) <==> Fits(re[0], text[0]) && HereAt(items, eol, text[1..], n - 1)
      {
        assert text[..n][1..] == text[1..][..n - 1];
      }
      assert !HereAt(all, eol, text, 0);
    }
    if Here(re, text) {
      var n :| 0 <= n <= |text| && HereAt(all, eol, text, n);
      assert n >= 1 && HereAt(items, eol, text[1..], n - 1);
    }
    if text != [] && Fits(re[0], text[0]) && Here(re[1..], text[1..]) {
      var m :| 0 <= m <= |text[1..]| && HereAt(items, eol, text[1..], m);
      assert HereAt(all, eol, text, m + 1);
    }
  }

  /** A starred character: some run of fitting characters, and then the rest. */
  lemma {:induction false} HereStar(re: string, text: string)
    requires |re| >= 2 && re[1] == '*'
    ensures Here(re, text) <==> exists k :: 0 <= k <= |text| && StarsThen(re[0], re[2..], text, k)
  {
    var (items, eol) := Parse(re[2..]);
    var all := [Item(re[0], true)] + items;
    assert Parse(re) == (all, eol) && all[1..] == items;
    if Here(re, text) {
      var n :| 0 <= n <= |text| && HereAt(all, eol, text, n);
      var k :| 0 <= k <= n && Stars(re[0], text[..n], k) && Lang(items, text[..n][k..]);
      assert text[..n][k..] == text[k..][..n - k];
      assert HereAt(items, eol, text[k..], n - k);
      assert StarsThen(re[0], re[2..], text, k);
    }
    if k :| 0 <= k <= |text| && StarsThen(re[0], re[2..], text, k) {
      var m :| 0 <= m <= |text[k..]| && HereAt(items, eol, text[k..], m);
      var w := text[..k + m];
      assert w[k..] == text[k..][..m] && Stars(re[0], w, k);
      assert HereAt(all, eol, text, k + m);
    }
  }

  ghost predicate StarsThen(c: char, re: string, text: string, k: nat)
    requires k <= |text|
  {
    Stars(c, text, k) && Here(re, text[k..])
  }

  /** matchhere. */
  method MatchHere(re: string, text: string) returns (r: bool)
    ensures r == Here(re, text)
    decreases |re|, 0
  {
    if re == [] {
      HereEmpty(text);
      return true;
    }
    if |re| >= 2 && re[1] == '*' {
      HereStar(re, text);
      r := MatchStar(re[0], re[2..], text);
      return;
    }
    if re[0] == '$' && |re| == 1 {
      assert re == "$";
      HereDollar(text);
      return text == [];
    }
    HereOne(re, text);
    if text != [] && (re[0] == '.' || re[0] == text[0]) {
      r := MatchHere(re[1..], text[1..]);
      return;
    }
    return false;
  }

  /** matchstar: shortest run first. */
  method MatchStar(c: char, re: string, text: string) returns (r: bool)
    ensures r == exists k :: 0 <= k <= |text| && StarsThen(c, re, text, k)
    decreases |re|, 1
  {
    var i := 0;
    while true
      invariant 0 <= i <= |text| && Stars(c, text, i)
      invariant forall k :: 0 <= k < i ==> !StarsThen(c, re, text, k)
      decreases |text| - i
    {
      var here := MatchHere(re, text[i..]);
      if here {
        assert StarsThen(c, re, text, i);
        return true;
      }
      if !(i < |text| && (text[i] == c || c == '.')) {
        return false;
      }
      i := i + 1;
    }
  }

  /** match: the pattern's language decides, for every pattern and text. */
  method Match(re: string, text: string) returns (r: bool)
    ensures r == Matches(re, text)
  {
    if re != [] && re[0] == '^' {
      r := MatchHere(re[1..], text);
      return;
    }
    var i := 0;
    while true
      invariant 0 <= i <= |text| && forall k :: 0 <= k < i ==> !Here(re, text[k..])
      decreases |text| - i
    {
      var here := MatchHere(re, text[i..]);
      if here { return true; }
      if i == |text| { return false; }
      i := i + 1;
    }
  }

  // What patterns mean, without the language

  /** A pattern of ordinary characters and dots. */
  predicate Ordinary(re: string) { forall k :: 0 <= k < |re| ==> re[k] != '*' && re[k] != '$' && re[k] != '^' }

  /** It stands at the start of the text. */
  predicate AtStart(re: string, text: string) {
    |re| <= |text| && forall k :: 0 <= k < |re| ==> re[k] == '.' || re[k] == text[k]
  }

  lemma {:induction false} HereOrdinary(re: string, text: string)
    requires Ordinary(re)
    ensures Here(re, text) <==> AtStart(re, text)
    decreases |re|
  {
    if re == [] {
      HereEmpty(text);
    } else {
      assert re[0] != '$' && "$"[0] == '$';
      HereOne(re, text);
      if text != [] {
        HereOrdinary(re[1..], text[1..]);
        StartTail(re, text);
      }
    }
  }

  lemma StartTail(re: string, text: string)
    requires re != [] && text != []
    ensures AtStart(re, text) <==> (re[0] == '.' || re[0] == text[0]) && AtStart(re[1..], text[1..])
  {
    if AtStart(re[1..], text[1..]) && (re[0] == '.' || re[0] == text[0]) {
      forall k | 0 <= k < |re| ensures re[k] == '.' || re[k] == text[k] {
        assert k > 0 ==> re[1..][k - 1] == re[k] && text[1..][k - 1] == text[k];
      }
    }
  }

  lemma {:induction false} HereOrdinaryEnd(re: string, text: string)
    requires Ordinary(re)
    ensures Here(re + "$", text) <==> |re| == |text| && AtStart(re, text)
    decreases |re|
  {
    if re == [] {
      assert re + "$" == "$";
      HereDollar(text);
    } else {
      assert (re + "$")[1..] == re[1..] + "$";
      HereOne(re + "$", text);
      if text != [] {
        HereOrdinaryEnd(re[1..], text[1..]);
        StartTail(re, text);
      }
    }
  }

  /**
   Ordinary characters and dots match where they stand in the text: anywhere, at
   the start after '^', at the end before '$', and as the whole text with both.
   */
  lemma {:induction false} OrdinaryMatches(re: string, text: string)
    requires Ordinary(re)
    ensures Matches(re, text) <==> exists i :: 0 <= i <= |text| && AtStart(re, text[i..])
    ensures Matches("^" + re, text) <==> AtStart(re, text)
    ensures Matches(re + "$", text) <==> |re| <= |text| && AtStart(re, text[|text| - |re|..])
    ensures Matches("^" + re + "$", text) <==> |re| == |text| && AtStart(re, text)
  {
    hide Here, AtStart, Parse;
    forall i | 0 <= i <= |text| ensures Here(re, text[i..]) <==> AtStart(re, text[i..]) {
      HereOrdinary(re, text[i..]);
    }
    forall i | 0 <= i <= |text|
      ensures Here(re + "$", text[i..]) <==> i == |text| - |re| && AtStart(re, text[i..])
    {
      HereOrdinaryEnd(re, text[i..]);
    }
    HereOrdinary(re, text);
    HereOrdinaryEnd(re, text);
    assert ("^" + re)[1..] == re && ("^" + re + "$")[1..] == re + "$";
    assert (re + "$")[0] != '^';
  }

  /** A starred character alone matches a text of that character, and a starred dot any text. */
  lemma {:induction false} StarMatches(c: char, text: string)
    ensures Matches("^" + [c, '*'] + "$", text) <==> c == '.' || forall k :: 0 <= k < |text| ==> text[k] == c
  {
    var re := [c, '*'] + "$";
    assert ("^" + [c, '*'] + "$")[1..] == re && re[2..] == "$";
    HereStar(re, text);
    forall k | 0 <= k <= |text| ensures StarsThen(c, "$", text, k) <==> k == |text| && Stars(c, text, k) {
      HereDollar(text[k..]);
    }
    assert Here(re, text) <==> Stars(c, text, |text|);
  }
}
