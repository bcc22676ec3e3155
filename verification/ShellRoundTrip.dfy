/** Printing a command and parsing it gives the command back. */
module ShellRoundTrip {
  import opened Basics
  import opened ShellSyntax

  // Spaces do not matter

  lemma {:induction false} TokenSkip(r: string)
    ensures Skip(Skip(r)) == Skip(r) && GetToken(Skip(r)) == GetToken(r) && Ahead(Skip(r)) == Ahead(r)
  {
    hide WordOf, Symbol, Plain, Space;
    SkipNone(Skip(r));
  }

  lemma {:induction false} RedirsSkip(rs: seq<Redir>, r: string)
    ensures Redirs(rs, Skip(r)) == Redirs(rs, r)
  {
    hide Skip, GetToken, Ahead;
    TokenSkip(r);
  }

  lemma {:induction false} ArgsSkip(argv: seq<string>, rs: seq<Redir>, r: string)
    ensures Args(argv, rs, Skip(r)) == Args(argv, rs, r)
  {
    hide Skip, GetToken, Ahead, Redirs, Wrap;
    TokenSkip(r);
  }

  lemma {:induction false} ExecSkip(r: string)
    ensures ParseExec(Skip(r)) == ParseExec(r)
  {
    hide Skip, GetToken, Ahead, Redirs, Wrap, Args, ParseLine;
    TokenSkip(r);
    RedirsSkip([], r);
  }

  lemma {:induction false} PipeSkip(r: string)
    ensures ParsePipe(Skip(r)) == ParsePipe(r)
  {
    hide Skip, GetToken, Ahead, ParseExec;
    ExecSkip(r);
  }

  lemma {:induction false} LineSkip(r: string)
    ensures ParseLine(Skip(r)) == ParseLine(r)
  {
    hide Skip, GetToken, Ahead, ParsePipe, Backs;
    PipeSkip(r);
  }

  lemma {:induction false} BacksSkip(c: Cmd, r: string)
    ensures Backs(c, Skip(r)) == Backs(c, r)
  {
    hide Skip, GetToken, Ahead;
    TokenSkip(r);
  }

  // Single tokens

  lemma {:induction false} WordOfPrefix(w: string, rest: string)
    requires (forall k :: 0 <= k < |w| ==> Plain(w[k])) && (rest == [] || !Plain(rest[0]))
    ensures WordOf(w + rest) == w
  {
    hide Plain;
    if w == [] {
      assert w + rest == rest;
    } else {
      assert (w + rest)[1..] == w[1..] + rest;
      WordOfPrefix(w[1..], rest);
    }
  }

  lemma {:induction false} SkipNone(r: string)
    requires r == [] || !Space(r[0])
    ensures Skip(r) == r
  {
  }

  lemma {:induction false} SkipSpace(r: string)
    ensures Skip(" " + r) == Skip(r)
  {
    assert (" " + r)[1..] == r;
  }

  lemma {:induction false} TokenWord(w: string, rest: string)
    requires WordOk(w) && (rest == [] || !Plain(rest[0]))
    ensures GetToken(w + rest) == (Word(w), Skip(rest)) && Ahead(w + rest) == Some(w[0])
  {
    hide Skip, WordOf;
    WordOfPrefix(w, rest);
    SkipNone(w + rest);
    assert (w + rest)[0] == w[0] && (w + rest)[|w|..] == rest;
  }

  lemma {:induction false} TokenSym(c: char, rest: string)
    requires Symbol(c) && !(c == '>' && rest != [] && rest[0] == '>')
    ensures GetToken([c] + rest) == (Sym(c), Skip(rest)) && Skip([c] + rest) == [c] + rest
    ensures Ahead([c] + rest) == Some(c)
  {
    hide Skip, WordOf;
    SkipNone([c] + rest);
    assert ([c] + rest)[0] == c && ([c] + rest)[1..] == rest;
    assert |rest| > 0 ==> ([c] + rest)[1] == rest[0];
  }

  // Redirections

  function PrintRedirs(rs: seq<Redir>): string {
    if rs == [] then "" else PrintRedir(rs[0]) + PrintRedirs(rs[1..])
  }

  predicate FilesOk(rs: seq<Redir>) { forall k :: 0 <= k < |rs| ==> WordOk(rs[k].file) }

  lemma {:induction false} RedirOne(acc: seq<Redir>, rd: Redir, more: string)
    requires WordOk(rd.file)
    ensures Redirs(acc, PrintRedir(rd) + more) == Redirs(acc + [rd], more)
  {
    hide Skip, GetToken, Ahead;
    var c := if rd.input then '<' else '>';
    var tail := rd.file + (" " + more);
    assert PrintRedir(rd) + more == [c] + tail;
    assert tail[0] == rd.file[0];
    TokenWord(rd.file, " " + more);
    TokenSym(c, tail);
    TokenSkip(tail);
    SkipSpace(more);
    RedirsSkip(acc + [rd], more);
  }

  lemma {:induction false} RedirsPrinted(acc: seq<Redir>, rs: seq<Redir>, rest: string)
    requires FilesOk(rs) && !AtRedir(rest)
    ensures Redirs(acc, PrintRedirs(rs) + rest) == Some((acc + rs, Skip(rest)))
    decreases |rs|
  {
    hide Skip, GetToken, Ahead, PrintRedir, WordOk;
    if rs == [] {
      assert PrintRedirs(rs) + rest == rest && acc + rs == acc;
    } else {
      assert PrintRedirs(rs) + rest == PrintRedir(rs[0]) + (PrintRedirs(rs[1..]) + rest);
      RedirOne(acc, rs[0], PrintRedirs(rs[1..]) + rest);
      RedirsPrinted(acc + [rs[0]], rs[1..], rest);
      assert acc + [rs[0]] + rs[1..] == acc + rs;
    }
  }

  // Simple commands

  predicate ArgsOk(ws: seq<string>) { forall k :: 0 <= k < |ws| ==> WordOk(ws[k]) }

  /** Nothing is left, or what is left ends a simple command. */
  predicate ExecEnds(r: string) { Ahead(r) == None || AtStop(r) }

  lemma {:induction false} ArgsStop(argv: seq<string>, rs: seq<Redir>, rest: string)
    requires ExecEnds(rest)
    ensures Args(argv, rs, rest) == Some((Wrap(Exec(argv), rs), Skip(rest)))
  {
    hide Redirs, Wrap, WordOf;
  }

  lemma {:induction false} ArgsOne(argv: seq<string>, rs: seq<Redir>, w: string, more: string)
    requires WordOk(w) && |argv| + 1 < MAXARGS
    ensures Args(argv, rs, w + (" " + more)) ==
            match Redirs(rs, more)
            case None => None
            case Some(y) => Args(argv + [w], y.0, y.1)
  {
    hide Skip, GetToken, Ahead, Redirs, Wrap;
    TokenWord(w, " " + more);
    SkipSpace(more);
    RedirsSkip(rs, more);
  }

  lemma {:induction false} ArgsPrinted(argv: seq<string>, ws: seq<string>, rs: seq<Redir>, rest: string, tail: string)
    requires ArgsOk(ws) && FilesOk(rs) && ws != [] && |argv| + |ws| < MAXARGS && ExecEnds(rest)
    requires tail == PrintRedirs(rs) + rest
    ensures Args(argv, [], PrintArgs(ws) + tail) == Some((Wrap(Exec(argv + ws), rs), Skip(rest)))
    decreases |ws|
  {
    hide Skip, GetToken, Ahead, Redirs, Wrap, Args, PrintRedirs, WordOk, PrintArgs;
    var w, more := ws[0], PrintArgs(ws[1..]) + tail;
    ArgsText(ws, tail);
    ArgsOne(argv, [], w, more);
    assert argv + [w] + ws[1..] == argv + ws;
    if |ws| == 1 {
      assert argv + [w] == argv + ws && ws[1..] == [];
      ArgsNone(tail);
      RedirsPrinted([], rs, rest);
      assert [] + rs == rs;
      ArgsSkip(argv + [w], rs, rest);
      ArgsStop(argv + [w], rs, rest);
    } else {
      ArgsStart(ws[1..], tail, more);
      ArgsSkip(argv + [w], [], more);
      ArgsPrinted(argv + [w], ws[1..], rs, rest, tail);
    }
  }

  lemma ArgsText(ws: seq<string>, tail: string)
    requires ws != []
    ensures PrintArgs(ws) + tail == ws[0] + (" " + (PrintArgs(ws[1..]) + tail))
  {
  }

  lemma ArgsNone(tail: string)
    ensures PrintArgs([]) + tail == tail
  {
  }

  /** In front of a word there is no redirection. */
  lemma {:induction false} ArgsStart(ws: seq<string>, rest: string, all: string)
    requires ArgsOk(ws) && ws != [] && all == PrintArgs(ws) + rest
    ensures Redirs([], all) == Some(([], Skip(all))) && Ahead(all) != Some('(')
  {
    hide Skip, GetToken, Redirs;
    assert all == ws[0] + (" " + (PrintArgs(ws[1..]) + rest));
    TokenWord(ws[0], " " + (PrintArgs(ws[1..]) + rest));
    RedirsNone([], all);
  }

  lemma RedirsNone(rs: seq<Redir>, r: string)
    requires !AtRedir(r)
    ensures Redirs(rs, r) == Some((rs, Skip(r)))
  {
  }

  lemma {:induction false} SimplePrinted(ws: seq<string>, rs: seq<Redir>, rest: string)
    requires ArgsOk(ws) && FilesOk(rs) && |ws| < MAXARGS && ExecEnds(rest)
    ensures ParseExec(PrintArgs(ws) + PrintRedirs(rs) + rest) == Some((Wrap(Exec(ws), rs), Skip(rest)))
  {
    hide Skip, GetToken, Ahead, Redirs, Wrap, Args, PrintRedirs, ParseLine;
    var all := PrintArgs(ws) + PrintRedirs(rs) + rest;
    if ws != [] {
      assert all == PrintArgs(ws) + (PrintRedirs(rs) + rest);
      ArgsStart(ws, PrintRedirs(rs) + rest, all);
      ArgsSkip([], [], all);
      ArgsPrinted([], ws, rs, rest, PrintRedirs(rs) + rest);
      assert [] + ws == ws;
    } else {
      assert all == PrintRedirs(rs) + rest;
      NoParen(rs, rest);
      RedirsPrinted([], rs, rest);
      assert [] + rs == rs;
      ArgsSkip([], rs, rest);
      ArgsStop([], rs, rest);
    }
  }

  lemma {:induction false} NoParen(rs: seq<Redir>, rest: string)
    requires ExecEnds(rest)
    ensures Ahead(PrintRedirs(rs) + rest) != Some('(')
  {
    hide GetToken, WordOf;
    var all := PrintRedirs(rs) + rest;
    if rs == [] {
      assert all == rest;
    } else {
      assert all[0] == '<' || all[0] == '>';
      SkipNone(all);
    }
  }

  // All commands

  /** A command is its innermost part that is not a redirection, wrapped in redirections. */
  function Base(c: Cmd): Cmd { if c.Redirected? then Base(c.cmd) else c }

  function Rds(c: Cmd): seq<Redir> { if c.Redirected? then Rds(c.cmd) + [c.redir] else [] }

  lemma {:induction false} PrintRedirsLast(rs: seq<Redir>, rd: Redir)
    ensures PrintRedirs(rs + [rd]) == PrintRedirs(rs) + PrintRedir(rd)
  {
    hide PrintRedir;
    if rs == [] {
      assert rs + [rd] == [rd] && [rd][1..] == [];
    } else {
      assert (rs + [rd])[1..] == rs[1..] + [rd];
      PrintRedirsLast(rs[1..], rd);
    }
  }

  lemma {:induction false} Peeled(c: Cmd)
    requires WellFormed(c)
    ensures c == Wrap(Base(c), Rds(c)) && WellFormed(Base(c)) && FilesOk(Rds(c)) && !Base(c).Redirected?
    ensures PrintExec(c) == PrintExec(Base(c)) + PrintRedirs(Rds(c))
    ensures Base(c) == c || Base(c) < c
  {
    hide WordOk, PrintRedir;
    if c.Redirected? {
      Peeled(c.cmd);
      PrintRedirsLast(Rds(c.cmd), c.redir);
      var rs := Rds(c);
      assert rs[..|rs| - 1] == Rds(c.cmd);
    } else {
      assert PrintExec(c) == PrintExec(c) + "";
    }
  }

  /** A command in parentheses with redirections, given that its inside parses. */
  lemma {:induction false} ParenPrinted(c: Cmd, rs: seq<Redir>, rest: string, after: string)
    requires FilesOk(rs) && !AtRedir(rest) && after == PrintRedirs(rs) + rest
    requires ParseLine(PrintLine(c) + ([')'] + after)) == Some((c, [')'] + after))
    ensures ParseExec(['('] + (PrintLine(c) + ([')'] + after))) == Some((Wrap(c, rs), Skip(rest)))
  {
    hide Skip, GetToken, Ahead, Redirs, Wrap, Args, PrintRedirs, ParseLine, PrintLine;
    var inner := PrintLine(c) + ([')'] + after);
    TokenSym('(', inner);
    LineSkip(inner);
    TokenSym(')', after);
    RedirsSkip([], after);
    RedirsPrinted([], rs, rest);
    assert [] + rs == rs;
  }

  /** Nothing is left, or what is left ends a line. */
  predicate LineEnds(r: string) { Ahead(r) == None || Ahead(r) == Some(')') }

  predicate PipeEnds(r: string) { LineEnds(r) || Ahead(r) == Some('&') || Ahead(r) == Some(';') }

  /**
   The four levels of the grammar are tried in turn for the same command; where
   the turn ends depends on the command.
   */
  datatype Level = AtLine | AtBack | AtPipe | AtExec

  function Rank(l: Level, c: Cmd): nat {
    match c
    case List(_, _) => if l.AtBack? then 3 else if l.AtPipe? then 2 else if l.AtExec? then 1 else 0
    case Back(_) => if l.AtPipe? then 3 else if l.AtExec? then 2 else if l.AtLine? then 1 else 0
    case Pipe(_, _) => if l.AtExec? then 3 else if l.AtLine? then 2 else if l.AtBack? then 1 else 0
    case _ => if l.AtLine? then 3 else if l.AtBack? then 2 else if l.AtPipe? then 1 else 0
  }

  lemma {:induction false} ExecPrinted(c: Cmd, rest: string)
    requires WellFormed(c) && ExecEnds(rest)
    ensures ParseExec(PrintExec(c) + rest) == Some((c, Skip(rest)))
    decreases c, Rank(AtExec, c)
  {
    hide ParseExec, ParseLine, PrintLine, PrintExec, PrintRedirs, Wrap, Skip, Ahead, GetToken, WordOk;
    Peeled(c);
    var b, rs := Base(c), Rds(c);
    var after := PrintRedirs(rs) + rest;
    if b.Exec? {
      ExecOf(b);
      SimplePrinted(b.argv, rs, rest);
    } else {
      TokenSym(')', after);
      ParenOf(b);
      LinePrinted(b, [')'] + after);
      ParenPrinted(b, rs, rest, after);
      assert PrintExec(c) + rest == ['('] + (PrintLine(b) + ([')'] + after));
    }
  }

  lemma ExecOf(b: Cmd)
    requires b.Exec?
    ensures PrintExec(b) == PrintArgs(b.argv)
  {
  }

  lemma {:induction false} ParenOf(b: Cmd)
    requires b.Pipe? || b.List? || b.Back?
    ensures PrintExec(b) == ['('] + PrintLine(b) + [')']
  {
    assert b.Pipe? ==> PrintLine(b) == PrintBack(b) == PrintPipe(b);
    assert b.Back? ==> PrintLine(b) == PrintBack(b);
  }

  lemma {:induction false} PipePrinted(c: Cmd, rest: string)
    requires WellFormed(c) && PipeEnds(rest)
    ensures ParsePipe(PrintPipe(c) + rest) == Some((c, Skip(rest)))
    decreases c, Rank(AtPipe, c)
  {
    hide ParseExec, PrintExec, Skip, Ahead, GetToken, WordOk;
    if c.Pipe? {
      var more := PrintPipe(c.right) + rest;
      assert PrintPipe(c) + rest == PrintExec(c.left) + (['|'] + more);
      TokenSym('|', more);
      ExecPrinted(c.left, ['|'] + more);
      PipeSkip(more);
      PipePrinted(c.right, rest);
    } else {
      assert PrintPipe(c) == PrintExec(c);
      ExecPrinted(c, rest);
      TokenSkip(rest);
    }
  }

  /** parsepipe, and then the loop over '&' as far as `c` goes. */
  lemma {:induction false} BackPrinted(c: Cmd, rest: string) returns (d: Cmd, r: string)
    requires WellFormed(c) && PipeEnds(rest)
    ensures ParsePipe(PrintBack(c) + rest) == Some((d, r)) && Backs(d, r) == Backs(c, rest)
    decreases c, Rank(AtBack, c)
  {
    hide ParsePipe, PrintPipe, Skip, Ahead, GetToken, WordOk;
    if c.Back? {
      var more := ['&'] + rest;
      assert PrintBack(c) + rest == PrintBack(c.cmd) + more;
      TokenSym('&', rest);
      d, r := BackPrinted(c.cmd, more);
      BacksSkip(Back(c.cmd), rest);
    } else {
      assert PrintBack(c) == PrintPipe(c);
      PipePrinted(c, rest);
      BacksSkip(c, rest);
      d, r := c, Skip(rest);
    }
  }

  lemma {:induction false} LinePrinted(c: Cmd, rest: string)
    requires WellFormed(c) && LineEnds(rest)
    ensures ParseLine(PrintLine(c) + rest) == Some((c, Skip(rest)))
    decreases c, Rank(AtLine, c)
  {
    hide ParsePipe, PrintBack, Skip, Ahead, GetToken, WordOk;
    if c.List? {
      var more := PrintLine(c.right) + rest;
      assert PrintLine(c) + rest == PrintBack(c.left) + ([';'] + more);
      TokenSym(';', more);
      var d, r := BackPrinted(c.left, [';'] + more);
      LineSkip(more);
      LinePrinted(c.right, rest);
    } else {
      assert PrintLine(c) == PrintBack(c);
      var d, r := BackPrinted(c, rest);
      TokenSkip(rest);
    }
  }

  /** Round trip: parsing a printed command gives the command back, for every well-formed command. */
  lemma {:induction false} RoundTrip(c: Cmd)
    requires WellFormed(c)
    ensures ParseCmd(PrintLine(c)) == Some(c)
  {
    hide ParseLine, PrintLine;
    LinePrinted(c, "");
    assert PrintLine(c) + "" == PrintLine(c);
  }

  // Everything the parser accepts can be printed

  lemma {:induction false} TokenOk(r: string)
    ensures GetToken(r).0.Word? ==> WordOk(GetToken(r).0.w)
  {
    WordOfIs(Skip(r));
  }

  lemma {:induction false} RedirsOk(rs: seq<Redir>, r: string)
    requires FilesOk(rs)
    ensures Redirs(rs, r).Some? ==> FilesOk(Redirs(rs, r).value.0)
    decreases |r|
  {
    hide WordOk, Skip, GetToken, Ahead;
    if AtRedir(r) {
      var (tok, r1) := GetToken(r);
      var (file, r2) := GetToken(r1);
      TokenOk(r1);
      AheadToken(r);
      if file.Word? {
        RedirsOk(rs + [Redir(tok == Sym('<'), file.w)], r2);
      }
    }
  }

  lemma AheadToken(r: string)
    ensures Ahead(r) != None ==> |GetToken(r).1| < |r|
  {
  }

  lemma {:induction false} WrapOk(c: Cmd, rs: seq<Redir>)
    requires WellFormed(c) && FilesOk(rs)
    ensures WellFormed(Wrap(c, rs))
    decreases |rs|
  {
    hide WordOk;
    if rs != [] { WrapOk(c, rs[..|rs| - 1]); }
  }

  lemma {:induction false} ArgsWell(argv: seq<string>, rs: seq<Redir>, r: string)
    requires ArgsOk(argv) && |argv| < MAXARGS && FilesOk(rs)
    ensures Args(argv, rs, r).Some? ==> WellFormed(Args(argv, rs, r).value.0)
    decreases |r|
  {
    hide WordOk, Skip, GetToken, Ahead, Redirs, Wrap;
    WrapOk(Exec(argv), rs);
    var (tok, r1) := GetToken(r);
    TokenOk(r);
    RedirsOk(rs, r1);
    if !AtStop(r) && tok.Word? && |argv| + 1 < MAXARGS && Redirs(rs, r1).Some? {
      ArgsWell(argv + [tok.w], Redirs(rs, r1).value.0, Redirs(rs, r1).value.1);
    }
  }

  lemma {:induction false} ExecWell(r: string)
    ensures ParseExec(r).Some? ==> WellFormed(ParseExec(r).value.0)
    decreases |r|, 0
  {
    hide WordOk, Skip, GetToken, Ahead, Redirs, Wrap, ParseLine, Args, WellFormed;
    AheadToken(r);
    if Ahead(r) == Some('(') {
      LineWell(GetToken(r).1);
      if ParseLine(GetToken(r).1).Some? {
        var y := ParseLine(GetToken(r).1).value;
        RedirsOk([], GetToken(y.1).1);
        if Redirs([], GetToken(y.1).1).Some? {
          WrapOk(y.0, Redirs([], GetToken(y.1).1).value.0);
        }
      }
    } else {
      RedirsOk([], r);
      if Redirs([], r).Some? {
        ArgsWell([], Redirs([], r).value.0, Redirs([], r).value.1);
      }
    }
  }

  lemma {:induction false} PipeWell(r: string)
    ensures ParsePipe(r).Some? ==> WellFormed(ParsePipe(r).value.0)
    decreases |r|, 1
  {
    hide Skip, GetToken, Ahead, ParseExec;
    ExecWell(r);
    if ParseExec(r).Some? {
      var y := ParseExec(r).value;
      AheadToken(y.1);
      if Ahead(y.1) == Some('|') { PipeWell(GetToken(y.1).1); }
    }
  }

  lemma {:induction false} BacksWell(c: Cmd, r: string)
    requires WellFormed(c)
    ensures WellFormed(Backs(c, r).0)
    decreases |r|
  {
    hide Skip, GetToken, Ahead;
    AheadToken(r);
    if Ahead(r) == Some('&') { BacksWell(Back(c), GetToken(r).1); }
  }

  lemma {:induction false} LineWell(r: string)
    ensures ParseLine(r).Some? ==> WellFormed(ParseLine(r).value.0)
    decreases |r|, 2
  {
    hide Skip, GetToken, Ahead, ParsePipe, Backs;
    PipeWell(r);
    if ParsePipe(r).Some? {
      var y := ParsePipe(r).value;
      BacksWell(y.0, y.1);
      var r1 := Backs(y.0, y.1).1;
      AheadToken(r1);
      if Ahead(r1) == Some(';') { LineWell(GetToken(r1).1); }
    }
  }

  /** A line that parses means the same as its canonical form. */
  lemma {:induction false} Canonical(s: string)
    ensures ParseCmd(s).Some? ==> WellFormed(ParseCmd(s).value) && ParseCmd(PrintLine(ParseCmd(s).value)) == ParseCmd(s)
  {
    hide ParseLine, PrintLine;
    LineWell(s);
    if ParseCmd(s).Some? { RoundTrip(ParseCmd(s).value); }
  }
}
