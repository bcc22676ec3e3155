/** The parser finds the command that a line denotes, and fails if there is none. */
module ShellCorrect {
  import opened Basics
  import opened ShellSyntax
  import opened ShellRoundTrip
  import opened ShellMeaning

  // Tokens ahead

  lemma {:induction false} LexToken(r: string)
    ensures Lex(r) == if GetToken(r).0 == End then [] else [GetToken(r).0] + Lex(GetToken(r).1)
    ensures GetToken(r).0 == End ==> Lex(GetToken(r).1) == []
  {
    assert GetToken([]) == (End, []);
  }

  /** peek sees the first character of the next token. */
  lemma {:induction false} AheadLex(r: string)
    ensures Ahead(r) == None <==> Lex(r) == []
    ensures forall c :: Symbol(c) && c != '>' ==> (Ahead(r) == Some(c) <==> Lex(r) != [] && Lex(r)[0] == Sym(c))
    ensures Ahead(r) == Some('>') <==> Lex(r) != [] && (Lex(r)[0] == Sym('>') || Lex(r)[0] == Append)
    ensures Lex(Skip(r)) == Lex(r)
  {
    LexSkip(r);
    var s := Skip(r);
    if s != [] && Plain(s[0]) {
      assert Lex(r)[0].Word?;
    }
  }

  predicate OpensRedir(t: seq<Token>) { t != [] && (t[0] == Sym('<') || t[0] == Sym('>') || t[0] == Append) }

  predicate Closes(t: seq<Token>) {
    t != [] && (t[0] == Sym('|') || t[0] == Sym(')') || t[0] == Sym('&') || t[0] == Sym(';'))
  }

  lemma {:induction false} AtTokens(r: string)
    ensures AtRedir(r) <==> OpensRedir(Lex(r))
    ensures AtStop(r) <==> Closes(Lex(r))
    ensures forall c :: c in "(|)&;" ==> (Ahead(r) == Some(c) <==> Lex(r) != [] && Lex(r)[0] == Sym(c))
    ensures Lex(Skip(r)) == Lex(r)
  {
    hide Skip, Lex, Ahead;
    AheadLex(r);
  }

  // Lists of items

  lemma {:induction false} ItemsMore(t: seq<Token>, argv: seq<string>, rs: seq<Redir>, t': seq<Token>,
                                     argv': seq<string>, rs': seq<Redir>)
    requires IsItems(t, argv, rs) && IsItems(t', argv', rs')
    ensures IsItems(t + t', argv + argv', rs + rs') && (argv == [] ==> argv + argv' == argv')
    decreases |t|
  {
    if t == [] {
      assert t + t' == t' && argv + argv' == argv' && rs + rs' == rs';
    } else if t[0].Word? {
      Tail(t, t', 1);
      Tail(argv, argv', 1);
      ItemsMore(t[1..], argv[1..], rs, t', argv', rs');
    } else {
      Tail(t, t', 2);
      Tail(rs, rs', 1);
      ItemsMore(t[2..], argv, rs[1..], t', argv', rs');
    }
  }

  lemma Tail<T>(a: seq<T>, b: seq<T>, k: nat)
    requires k <= |a|
    ensures (a + b)[k..] == a[k..] + b
  {
  }

  lemma Assoc<T>(a: seq<T>, b: seq<T>, c: seq<T>)
    ensures (a + b) + c == a + (b + c)
  {
  }

  lemma NoItems()
    ensures IsItems([], [], [])
  {
  }

  lemma OneRedir(op: Token, file: Token, rd: Redir)
    requires IsRedir(op, file, rd)
    ensures IsItems([op, file], [], [rd])
  {
    assert [op, file][2..] == [] && [rd][1..] == [];
  }

  lemma OneWord(w: string)
    ensures IsItems([Word(w)], [w], [])
  {
    assert [Word(w)][1..] == [] && [w][1..] == [];
  }

  // What the parser accepts is in the grammar

  /** What Redirs takes off the line. */
  lemma {:induction false} RedirsSound(rs: seq<Redir>, r: string) returns (t: seq<Token>, more: seq<Redir>)
    requires Redirs(rs, r).Some?
    ensures var (rs', r') := Redirs(rs, r).value;
            rs' == rs + more && Lex(r) == t + Lex(r') && IsItems(t, [], more)
    decreases |r|
  {
    hide Lex, GetToken, Skip, Ahead, IsItems;
    AtTokens(r);
    if !AtRedir(r) {
      t, more := [], [];
      NoItems();
      assert t + Lex(Skip(r)) == Lex(Skip(r)) && rs + [] == rs;
    } else {
      var (op, r1) := GetToken(r);
      var (file, r2) := GetToken(r1);
      LexToken(r);
      LexToken(r1);
      var rd := Redir(op == Sym('<'), file.w);
      var t1, more1 := RedirsSound(rs + [rd], r2);
      OneRedir(op, file, rd);
      ItemsMore([op, file], [], [rd], t1, [], more1);
      t, more := [op, file] + t1, [rd] + more1;
      Assoc(rs, [rd], more1);
      Assoc([op], [file], Lex(r2));
      Assoc([op, file], t1, Lex(Redirs(rs, r).value.1));
    }
  }

  lemma {:induction false} ArgsSound(argv: seq<string>, rs: seq<Redir>, r: string)
      returns (t: seq<Token>, av: seq<string>, more: seq<Redir>)
    requires Args(argv, rs, r).Some? && |argv| < MAXARGS
    ensures var (c, r') := Args(argv, rs, r).value;
            && Lex(r) == t + Lex(r') && IsItems(t, av, more) && |argv + av| < MAXARGS
            && c == Wrap(Exec(argv + av), rs + more)
    decreases |r|
  {
    hide Lex, GetToken, Skip, Ahead, Wrap, Redirs, IsItems;
    AtTokens(r);
    LexToken(r);
    var (tok, r1) := GetToken(r);
    if AtStop(r) || tok == End {
      t, av, more := [], [], [];
      NoItems();
      assert argv + [] == argv && rs + [] == rs && [] + Lex(r) == Lex(r);
    } else {
      var t0, more0 := RedirsSound(rs, r1);
      var (rs1, r2) := Redirs(rs, r1).value;
      var t1, av1, more1 := ArgsSound(argv + [tok.w], rs1, r2);
      OneWord(tok.w);
      ItemsMore([tok], [tok.w], [], t0, [], more0);
      ItemsMore([tok] + t0, [tok.w] + [], [] + more0, t1, av1, more1);
      t, av, more := [tok] + t0 + t1, [tok.w] + [] + av1, [] + more0 + more1;
      assert (argv + [tok.w]) + av1 == argv + av && (rs + more0) + more1 == rs + more;
      var r' := Args(argv, rs, r).value.1;
      assert Lex(r) == [tok] + (t0 + (t1 + Lex(r')));
      assert t + Lex(r') == [tok] + (t0 + (t1 + Lex(r')));
    }
  }

  lemma {:induction false} ExecSound(r: string) returns (t: seq<Token>)
    requires ParseExec(r).Some?
    ensures var (c, r') := ParseExec(r).value; Lex(r) == t + Lex(r') && IsExec(t, c)
    decreases |r|, 1
  {
    hide Lex, GetToken, Skip, Ahead, Wrap, Redirs, Args, ParseLine, IsLine, IsItems;
    AtTokens(r);
    if Ahead(r) == Some('(') {
      t := BlockSound(r);
    } else {
      var (rs, r1) := Redirs([], r).value;
      var t0, more0 := RedirsSound([], r);
      var t1, av, more := ArgsSound([], rs, r1);
      ItemsMore(t0, [], more0, t1, av, more);
      t := t0 + t1;
      assert [] + av == av && [] + more0 == more0;
      var (c, r') := ParseExec(r).value;
      assert IsSimple(t, c, av, more0 + more);
      assert t0 + (t1 + Lex(r')) == t + Lex(r');
    }
  }

  lemma {:induction false} BlockSound(r: string) returns (t: seq<Token>)
    requires ParseExec(r).Some? && Ahead(r) == Some('(')
    ensures var (c, r') := ParseExec(r).value; Lex(r) == t + Lex(r') && IsExec(t, c)
    decreases |r|, 0
  {
    hide Lex, GetToken, Skip, Ahead, Wrap, Redirs, Args, ParseLine, IsLine, IsItems;
    AtTokens(r);
    AheadToken(r);
    LexToken(r);
    var r1 := GetToken(r).1;
    var t1 := LineSound(r1);
    var (d, r2) := ParseLine(r1).value;
    AtTokens(r2);
    LexToken(r2);
    var t2, rs := RedirsSound([], GetToken(r2).1);
    assert [] + rs == rs;
    t := [Sym('(')] + t1 + [Sym(')')] + t2;
    var (c, r') := ParseExec(r).value;
    BlockText(t1, t2, Lex(r'));
    assert IsBlock(t, c, 1 + |t1|, d, rs);
  }

  lemma BlockText(t1: seq<Token>, t2: seq<Token>, u: seq<Token>)
    ensures var t := [Sym('(')] + t1 + [Sym(')')] + t2;
            && t[1..1 + |t1|] == t1 && t[1 + |t1|] == Sym(')') && t[2 + |t1|..] == t2
            && t + u == [Sym('(')] + (t1 + ([Sym(')')] + (t2 + u)))
  {
  }

  lemma {:induction false} PipeSound(r: string) returns (t: seq<Token>)
    requires ParsePipe(r).Some?
    ensures var (c, r') := ParsePipe(r).value; Lex(r) == t + Lex(r') && IsPipe(t, c)
    decreases |r|, 2
  {
    hide Lex, GetToken, Skip, Ahead, ParseExec, IsExec;
    t := ExecSound(r);
    var (l, r1) := ParseExec(r).value;
    AtTokens(r1);
    if Ahead(r1) == Some('|') {
      AheadToken(r1);
      LexToken(r1);
      var t1 := PipeSound(GetToken(r1).1);
      var (c, r') := ParsePipe(r).value;
      var k := |t|;
      var all := t + [Sym('|')] + t1;
      assert all[..k] == t && all[k] == Sym('|') && all[k + 1..] == t1;
      assert Lex(r) == t + ([Sym('|')] + (t1 + Lex(r')));
      assert all + Lex(r') == t + ([Sym('|')] + (t1 + Lex(r')));
      t := all;
    }
  }

  lemma OneBack(t: seq<Token>, c: Cmd)
    requires IsBack(t, c)
    ensures IsBack(t + [Sym('&')], Back(c))
  {
    hide IsPipe;
    assert (t + [Sym('&')])[..|t|] == t;
  }

  lemma {:induction false} BacksSound(t0: seq<Token>, c: Cmd, r: string) returns (t: seq<Token>)
    requires IsBack(t0, c)
    ensures var (c', r') := Backs(c, r); Lex(r) == t + Lex(r') && IsBack(t0 + t, c')
    decreases |r|
  {
    hide Lex, GetToken, Skip, Ahead, IsBack;
    AtTokens(r);
    if Ahead(r) == Some('&') {
      AheadToken(r);
      LexToken(r);
      OneBack(t0, c);
      var t2 := BacksSound(t0 + [Sym('&')], Back(c), GetToken(r).1);
      t := [Sym('&')] + t2;
      Assoc(t0, [Sym('&')], t2);
      Assoc([Sym('&')], t2, Lex(Backs(c, r).1));
    } else {
      t := [];
      assert t0 + t == t0 && t + Lex(r) == Lex(r);
    }
  }

  lemma {:induction false} LineSound(r: string) returns (t: seq<Token>)
    requires ParseLine(r).Some?
    ensures var (c, r') := ParseLine(r).value; Lex(r) == t + Lex(r') && IsLine(t, c)
    decreases |r|, 3
  {
    hide Lex, GetToken, Skip, Ahead, ParsePipe, Backs, IsBack;
    var t0 := PipeSound(r);
    var (d, r0) := ParsePipe(r).value;
    assert IsBack(t0, d) by {
      PipeIsBack(t0, d);
    }
    var t1 := BacksSound(t0, d, r0);
    var (l, r1) := Backs(d, r0);
    AtTokens(r1);
    t := t0 + t1;
    assert Lex(r) == t + Lex(r1);
    if Ahead(r1) == Some(';') {
      AheadToken(r1);
      LexToken(r1);
      var t2 := LineSound(GetToken(r1).1);
      var (c, r') := ParseLine(r).value;
      var k := |t|;
      var all := t + [Sym(';')] + t2;
      assert all[..k] == t && all[k] == Sym(';') && all[k + 1..] == t2;
      assert Lex(r) == t + ([Sym(';')] + (t2 + Lex(r')));
      assert all + Lex(r') == t + ([Sym(';')] + (t2 + Lex(r')));
      t := all;
    }
  }

  lemma PipeIsBack(t: seq<Token>, c: Cmd)
    requires IsPipe(t, c)
    ensures IsBack(t, c)
  {
  }

  // What is in the grammar the parser accepts

  /** What can follow a simple command, a pipeline and a line. */
  predicate ExecStop(u: seq<Token>) { u == [] || Closes(u) }

  predicate PipeStop(u: seq<Token>) { u == [] || u[0] == Sym(')') || u[0] == Sym('&') || u[0] == Sym(';') }

  predicate LineStop(u: seq<Token>) { u == [] || u[0] == Sym(')') }

  /** The first token of a line, and what is left. */
  lemma {:induction false} NextToken(r: string, t: Token, u: seq<Token>)
    requires Lex(r) == [t] + u
    ensures t != End && GetToken(r).0 == t && Lex(GetToken(r).1) == u && |GetToken(r).1| < |r|
  {
    hide GetToken;
    assert Lex(r)[0] == t && Lex(r)[1..] == u;
  }

  lemma {:induction false} RedirsComplete(rs: seq<Redir>, r: string, t: seq<Token>, more: seq<Redir>, u: seq<Token>)
    requires Lex(r) == t + u && IsItems(t, [], more) && !OpensRedir(u)
    ensures Redirs(rs, r).Some? && Redirs(rs, r).value.0 == rs + more && Lex(Redirs(rs, r).value.1) == u
    decreases |t|
  {
    hide Lex, GetToken, Skip, Ahead;
    AtTokens(r);
    if t == [] {
      assert t + u == u && rs + more == rs;
    } else {
      var rd := more[0];
      var r2 := RedirToken(rs, r, t, rd, u);
      RedirsComplete(rs + [rd], r2, t[2..], more[1..], u);
      assert (rs + [rd]) + more[1..] == rs + more;
    }
  }

  /** One redirection at the front. */
  lemma {:induction false} RedirToken(rs: seq<Redir>, r: string, t: seq<Token>, rd: Redir, u: seq<Token>)
    returns (r2: string)
    requires Lex(r) == t + u && |t| > 1 && IsRedir(t[0], t[1], rd)
    ensures |r2| < |r| && Lex(r2) == t[2..] + u && Redirs(rs, r) == Redirs(rs + [rd], r2)
  {
    hide Lex, GetToken, Skip, Ahead;
    AtTokens(r);
    assert t + u == [t[0]] + ([t[1]] + (t[2..] + u));
    NextToken(r, t[0], [t[1]] + (t[2..] + u));
    NextToken(GetToken(r).1, t[1], t[2..] + u);
    r2 := GetToken(GetToken(r).1).1;
  }

  /** The redirections at the front of the line, and then the arguments. */
  function Items(argv: seq<string>, rs: seq<Redir>, r: string): Option<(Cmd, string)> {
    match Redirs(rs, r)
    case None => None
    case Some(y) => Args(argv, y.0, y.1)
  }

  lemma {:induction false} ItemsComplete(argv: seq<string>, rs: seq<Redir>, r: string, t: seq<Token>, av: seq<string>,
                                         more: seq<Redir>, u: seq<Token>)
    requires Lex(r) == t + u && IsItems(t, av, more) && |argv + av| < MAXARGS && ExecStop(u)
    ensures var x := Items(argv, rs, r);
            x.Some? && x.value.0 == Wrap(Exec(argv + av), rs + more) && Lex(x.value.1) == u
    decreases |t|
  {
    hide Lex, GetToken, Skip, Ahead, Wrap, Redirs, Args;
    AtTokens(r);
    if t == [] {
      assert t + u == u && argv + av == argv && rs + more == rs;
      ItemsEnd(argv, rs, r);
    } else if t[0].Word? {
      assert t + u == [t[0]] + (t[1..] + u);
      NextToken(r, t[0], t[1..] + u);
      var r1 := GetToken(r).1;
      assert (argv + [av[0]]) + av[1..] == argv + av;
      ItemsWord(argv, rs, r, t[0].w);
      ItemsComplete(argv + [av[0]], rs, r1, t[1..], av[1..], more, u);
    } else {
      var rd := more[0];
      var r2 := RedirToken(rs, r, t, rd, u);
      ItemsComplete(argv, rs + [rd], r2, t[2..], av, more[1..], u);
      assert (rs + [rd]) + more[1..] == rs + more;
    }
  }

  lemma {:induction false} ItemsEnd(argv: seq<string>, rs: seq<Redir>, r: string)
    requires ExecStop(Lex(r))
    ensures var x := Items(argv, rs, r);
            x.Some? && x.value.0 == Wrap(Exec(argv), rs) && Lex(x.value.1) == Lex(r)
  {
    hide Lex, GetToken, Skip, Ahead, Wrap;
    AtTokens(r);
    AtTokens(Skip(r));
    LexToken(Skip(r));
  }

  lemma {:induction false} ItemsWord(argv: seq<string>, rs: seq<Redir>, r: string, w: string)
    requires GetToken(r).0 == Word(w) && |argv| + 1 < MAXARGS
    ensures Items(argv, rs, r) == Items(argv + [w], rs, GetToken(r).1)
  {
    hide Lex, GetToken, Skip, Ahead, Wrap;
    AtTokens(r);
    LexToken(r);
    TokenSkip(r);
  }

  lemma {:induction false} ExecComplete(t: seq<Token>, c: Cmd, r: string, u: seq<Token>)
    requires IsExec(t, c) && Lex(r) == t + u && ExecStop(u)
    ensures ParseExec(r).Some? && ParseExec(r).value.0 == c && Lex(ParseExec(r).value.1) == u
    decreases |t|, 1
  {
    hide Lex, GetToken, Skip, Ahead, Wrap, Redirs, Args, ParseLine, IsLine, IsItems, IsBlock;
    if argv, rs :| IsSimple(t, c, argv, rs) {
      SimpleStart(t, argv, rs, u);
      AtTokens(r);
      assert [] + argv == argv && [] + rs == rs;
      ItemsComplete([], [], r, t, argv, rs, u);
    } else {
      var k, d, rs :| IsBlock(t, c, k, d, rs);
      BlockComplete(t, c, k, d, rs, r, u);
    }
  }

  lemma SimpleStart(t: seq<Token>, argv: seq<string>, rs: seq<Redir>, u: seq<Token>)
    requires IsItems(t, argv, rs) && ExecStop(u)
    ensures t + u == [] || (t + u)[0] != Sym('(')
  {
  }

  lemma {:induction false} BlockComplete(t: seq<Token>, c: Cmd, k: nat, d: Cmd, rs: seq<Redir>, r: string,
                                         u: seq<Token>)
    requires IsBlock(t, c, k, d, rs) && Lex(r) == t + u && ExecStop(u)
    ensures ParseExec(r).Some? && ParseExec(r).value.0 == c && Lex(ParseExec(r).value.1) == u
    decreases |t|, 0
  {
    hide Lex, GetToken, Skip, Ahead, Wrap, Redirs, Args, ParseLine, IsLine, IsItems;
    AtTokens(r);
    var u1 := t[k..] + u;
    assert t + u == [t[0]] + (t[1..k] + u1);
    NextToken(r, t[0], t[1..k] + u1);
    var r1 := GetToken(r).1;
    LineComplete(t[1..k], d, r1, u1);
    var r2 := ParseLine(r1).value.1;
    AtTokens(r2);
    assert u1 == [t[k]] + (t[k + 1..] + u);
    NextToken(r2, t[k], t[k + 1..] + u);
    RedirsComplete([], GetToken(r2).1, t[k + 1..], rs, u);
    assert [] + rs == rs;
  }

  lemma {:induction false} PipeComplete(t: seq<Token>, c: Cmd, r: string, u: seq<Token>)
    requires IsPipe(t, c) && Lex(r) == t + u && PipeStop(u)
    ensures ParsePipe(r).Some? && ParsePipe(r).value.0 == c && Lex(ParsePipe(r).value.1) == u
    decreases |t|, 2
  {
    hide Lex, GetToken, Skip, Ahead, ParseExec, IsExec;
    if IsExec(t, c) {
      ExecComplete(t, c, r, u);
      AtTokens(ParseExec(r).value.1);
    } else {
      var k :| 0 <= k < |t| && t[k] == Sym('|') && IsExec(t[..k], c.left) && IsPipe(t[k + 1..], c.right);
      var u1 := t[k..] + u;
      assert t + u == t[..k] + u1;
      ExecComplete(t[..k], c.left, r, u1);
      var r1 := ParseExec(r).value.1;
      AtTokens(r1);
      assert u1 == [t[k]] + (t[k + 1..] + u);
      NextToken(r1, t[k], t[k + 1..] + u);
      PipeComplete(t[k + 1..], c.right, GetToken(r1).1, u);
    }
  }

  /** A pipeline with some of the '&' after it; Backs goes on from there. */
  lemma {:induction false} BackComplete(t: seq<Token>, c: Cmd, r: string, u: seq<Token>)
    returns (d: Cmd, r0: string, r1: string)
    requires IsBack(t, c) && Lex(r) == t + u && PipeStop(u)
    ensures ParsePipe(r) == Some((d, r0)) && Backs(d, r0) == Backs(c, r1) && Lex(r1) == u
    decreases |t|, 3
  {
    hide Lex, GetToken, Skip, Ahead, ParsePipe, IsPipe;
    if IsPipe(t, c) {
      PipeComplete(t, c, r, u);
      d, r0 := ParsePipe(r).value.0, ParsePipe(r).value.1;
      r1 := r0;
    } else {
      var n := |t| - 1;
      assert t + u == t[..n] + ([t[n]] + u);
      d, r0, r1 := BackComplete(t[..n], c.cmd, r, [t[n]] + u);
      AtTokens(r1);
      NextToken(r1, t[n], u);
      r1 := GetToken(r1).1;
    }
  }

  lemma {:induction false} LineComplete(t: seq<Token>, c: Cmd, r: string, u: seq<Token>)
    requires IsLine(t, c) && Lex(r) == t + u && LineStop(u)
    ensures ParseLine(r).Some? && ParseLine(r).value.0 == c && Lex(ParseLine(r).value.1) == u
    decreases |t|, 4
  {
    hide Lex, GetToken, Skip, Ahead, ParsePipe, IsBack;
    if IsBack(t, c) {
      var d, r0, r1 := BackComplete(t, c, r, u);
      AtTokens(r1);
      AtTokens(Backs(c, r1).1);
    } else {
      var k :| 0 <= k < |t| && t[k] == Sym(';') && IsBack(t[..k], c.left) && IsLine(t[k + 1..], c.right);
      var u1 := t[k..] + u;
      assert t + u == t[..k] + u1;
      var d, r0, r1 := BackComplete(t[..k], c.left, r, u1);
      AtTokens(r1);
      AtTokens(Skip(r1));
      assert u1 == [t[k]] + (t[k + 1..] + u);
      NextToken(Skip(r1), t[k], t[k + 1..] + u);
      LineComplete(t[k + 1..], c.right, GetToken(Skip(r1)).1, u);
    }
  }

  /** The parser gives a line the command that its tokens denote, and fails exactly if they denote none. */
  lemma {:induction false} ParseDenotes(line: string, c: Cmd)
    ensures ParseCmd(line) == Some(c) <==> IsLine(Lex(line), c)
  {
    hide Lex, GetToken, ParseLine, IsLine;
    if IsLine(Lex(line), c) {
      assert Lex(line) == Lex(line) + [];
      LineComplete(Lex(line), c, line, []);
      AheadLex(ParseLine(line).value.1);
    }
    if ParseCmd(line) == Some(c) {
      var t := LineSound(line);
      AheadLex(ParseLine(line).value.1);
      assert t + [] == t;
    }
  }

  /** So a panic means that the line denotes nothing. */
  lemma {:induction false} ParseFails(line: string)
    ensures ParseCmd(line).Some? ==> IsLine(Lex(line), ParseCmd(line).value)
    ensures ParseCmd(line) == None <==> forall c :: !IsLine(Lex(line), c)
  {
    hide Lex, ParseCmd, IsLine;
    if ParseCmd(line).Some? {
      ParseDenotes(line, ParseCmd(line).value);
    }
    forall c ensures IsLine(Lex(line), c) ==> ParseCmd(line) == Some(c) {
      ParseDenotes(line, c);
    }
  }

  /** The redirections `rs` stand between `r` and `r'`, and no other follows. */
  ghost predicate Between(r: string, rs: seq<Redir>, r': string) {
    !OpensRedir(Lex(r')) && exists t :: Lex(r) == t + Lex(r') && IsItems(t, [], rs)
  }

  lemma {:induction false} RedirsBetween(rs: seq<Redir>, r: string)
    requires Redirs(rs, r).Some?
    ensures rs <= Redirs(rs, r).value.0 && Between(r, Redirs(rs, r).value.0[|rs|..], Redirs(rs, r).value.1)
    decreases |r|
  {
    hide Lex, IsItems, GetToken, Skip, Ahead;
    var t, more := RedirsSound(rs, r);
    assert Redirs(rs, r).value.0[|rs|..] == more;
    RedirsDone(rs, r);
    AtTokens(Redirs(rs, r).value.1);
  }

  lemma {:induction false} RedirsDone(rs: seq<Redir>, r: string)
    requires Redirs(rs, r).Some?
    ensures !AtRedir(Redirs(rs, r).value.1)
    decreases |r|
  {
    hide Skip, Ahead, WordOf;
    TokenSkip(r);
    if AtRedir(r) {
      AheadToken(r);
      var (tok, r1) := GetToken(r);
      var (file, r2) := GetToken(r1);
      RedirsDone(rs + [Redir(tok == Sym('<'), file.w)], r2);
    }
  }
}
