/**
 Which command a line of the shell denotes, said without the parser: how a line
 is spelled as tokens, and a grammar of commands as relations on token lists.
 The parser of sh.c accepts exactly the lines of the grammar, and gives each the
 command it denotes.
 */
module ShellMeaning {
  import opened ShellSyntax
  import opened ShellRoundTrip

  // Spelling

  /** Token `t` is written at the start of `r`, as long as it can be. */
  predicate Starts(t: Token, r: string) {
    match t
    case End => false
    case Append => ">>" <= r
    case Sym(c) => Symbol(c) && r != [] && r[0] == c && !(">>" <= r)
    case Word(w) => WordOk(w) && w <= r && (|w| == |r| || !Plain(r[|w|]))
  }

  function Width(t: Token): nat {
    match t
    case End => 0
    case Append => 2
    case Sym(_) => 1
    case Word(w) => |w|
  }

  predicate Blank(s: string) { forall k :: 0 <= k < |s| ==> Space(s[k]) }

  /** The line is these tokens, with white space before, between and after them. */
  ghost predicate Spells(r: string, toks: seq<Token>)
    decreases |toks|
  {
    exists k :: 0 <= k <= |r| && Blank(r[..k]) && SpellsAt(r, k, toks)
  }

  ghost predicate SpellsAt(r: string, k: nat, toks: seq<Token>)
    requires k <= |r|
    decreases |toks|, 0
  {
    if toks == [] then k == |r|
    else Starts(toks[0], r[k..]) && k + Width(toks[0]) <= |r| && Spells(r[k + Width(toks[0])..], toks[1..])
  }

  /** The tokens that gettoken finds in a line. */
  function Lex(r: string): seq<Token>
    decreases |r|
  {
    var (t, r1) := GetToken(r);
    if t == End then [] else [t] + Lex(r1)
  }

  // The grammar

  /** `<` is input, `>` and `>>` are output. */
  predicate IsRedir(op: Token, file: Token, rd: Redir) {
    && file == Word(rd.file)
    && (if rd.input then op == Sym('<') else op == Sym('>') || op == Append)
  }

  /** Words and redirections in any order; each kind keeps its order. */
  predicate IsItems(t: seq<Token>, argv: seq<string>, rs: seq<Redir>)
    decreases |t|
  {
    if t == [] then argv == [] && rs == []
    else if t[0].Word? then argv != [] && argv[0] == t[0].w && IsItems(t[1..], argv[1..], rs)
    else |t| > 1 && rs != [] && IsRedir(t[0], t[1], rs[0]) && IsItems(t[2..], argv, rs[1..])
  }

  ghost predicate IsSimple(t: seq<Token>, c: Cmd, argv: seq<string>, rs: seq<Redir>) {
    |argv| < MAXARGS && IsItems(t, argv, rs) && c == Wrap(Exec(argv), rs)
  }

  ghost predicate IsBlock(t: seq<Token>, c: Cmd, k: nat, d: Cmd, rs: seq<Redir>)
    decreases |t|, 0
  {
    && 1 <= k < |t| && t[0] == Sym('(') && t[k] == Sym(')') && IsLine(t[1..k], d) && IsItems(t[k + 1..], [], rs)
    && c == Wrap(d, rs)
  }

  /** A simple command, or a line in parentheses with redirections. */
  ghost predicate IsExec(t: seq<Token>, c: Cmd)
    decreases |t|, 1
  {
    || (exists argv, rs :: IsSimple(t, c, argv, rs))
    || (exists k, d, rs :: IsBlock(t, c, k, d, rs))
  }

  ghost predicate IsPipe(t: seq<Token>, c: Cmd)
    decreases |t|, 2
  {
    || IsExec(t, c)
    || (c.Pipe? && exists k ::
          0 <= k < |t| && t[k] == Sym('|') && IsExec(t[..k], c.left) && IsPipe(t[k + 1..], c.right))
  }

  ghost predicate IsBack(t: seq<Token>, c: Cmd)
    decreases |t|, 3
  {
    || IsPipe(t, c)
    || (c.Back? && t != [] && t[|t| - 1] == Sym('&') && IsBack(t[..|t| - 1], c.cmd))
  }

  ghost predicate IsLine(t: seq<Token>, c: Cmd)
    decreases |t|, 4
  {
    || IsBack(t, c)
    || (c.List? && exists k ::
          0 <= k < |t| && t[k] == Sym(';') && IsBack(t[..k], c.left) && IsLine(t[k + 1..], c.right))
  }

  // A line is spelled in one way only

  lemma {:induction false} LexSkip(r: string)
    ensures Lex(Skip(r)) == Lex(r)
  {
    TokenSkip(r);
  }

  /** gettoken takes the longest token at the start. */
  lemma {:induction false} TokenStarts(r: string)
    ensures var (s, t) := (Skip(r), GetToken(r).0);
            if t == End then s == [] && Width(t) == 0
            else Starts(t, s) && Width(t) <= |s| && GetToken(r).1 == Skip(s[Width(t)..])
    ensures GetToken(r).0 == End <==> Skip(r) == []
  {
    WordOfIs(Skip(r));
  }

  lemma {:induction false} LexSpells(r: string)
    ensures Spells(r, Lex(r))
    decreases |r|
  {
    hide GetToken, Skip, Starts, Width, Space;
    var s, t := Skip(r), GetToken(r).0;
    var k := |r| - |s|;
    SkipIs(r);
    TokenStarts(r);
    assert Blank(r[..k]) && r[k..] == s;
    if t != End {
      var after := r[k + Width(t)..];
      assert after == s[Width(t)..];
      LexSkip(after);
      WidthPositive(t, s);
      LexSpells(after);
      assert Lex(r)[1..] == Lex(after);
    }
    assert SpellsAt(r, k, Lex(r));
  }

  lemma WidthPositive(t: Token, s: string)
    requires Starts(t, s)
    ensures 0 < Width(t) <= |s| && !Space(s[0])
  {
  }

  /** White space before a token is skipped, and no more. */
  lemma {:induction false} SkipBlank(r: string, k: nat)
    requires k <= |r| && Blank(r[..k]) && (k == |r| || !Space(r[k]))
    ensures Skip(r) == r[k..]
    decreases k
  {
    if k == 0 {
      assert r[0..] == r;
    } else {
      assert r[..k][0] == r[0];
      assert r[1..][..k - 1] == r[1..k];
      assert forall i :: 0 <= i < k - 1 ==> r[1..k][i] == r[..k][i + 1];
      SkipBlank(r[1..], k - 1);
      assert r[1..][k - 1..] == r[k..];
    }
  }

  lemma {:induction false} StartsToken(t: Token, s: string)
    requires Starts(t, s)
    ensures t != End && Width(t) <= |s| && !Space(s[0]) && GetToken(s) == (t, Skip(s[Width(t)..]))
  {
    SkipNone(s);
    if t.Word? {
      assert s == t.w + s[|t.w|..];
      WordOfPrefix(t.w, s[|t.w|..]);
    } else if t.Append? {
      assert s[0] == '>' && s[1] == '>';
    } else {
      assert |s| > 1 && s[0] == '>' && s[1] == '>' ==> ">>" <= s;
    }
  }

  lemma {:induction false} SpellsLex(r: string, toks: seq<Token>)
    requires Spells(r, toks)
    ensures toks == Lex(r)
    decreases |toks|
  {
    hide GetToken, Skip, Starts, Width, Space;
    var k :| 0 <= k <= |r| && Blank(r[..k]) && SpellsAt(r, k, toks);
    if toks == [] {
      SkipBlank(r, k);
      TokenStarts(r);
    } else {
      var t := toks[0];
      StartsToken(t, r[k..]);
      SkipBlank(r, k);
      TokenSkip(r);
      var after := r[k + Width(t)..];
      assert r[k..][Width(t)..] == after;
      SpellsLex(after, toks[1..]);
      LexSkip(after);
      assert toks == [t] + toks[1..];
    }
  }

  /** The tokens of a line are exactly the ones it spells. */
  lemma {:induction false} LexIs(r: string, toks: seq<Token>)
    ensures toks == Lex(r) <==> Spells(r, toks)
  {
    LexSpells(r);
    if Spells(r, toks) {
      SpellsLex(r, toks);
    }
  }
}
