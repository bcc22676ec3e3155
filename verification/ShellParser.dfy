/**
 The parser of sh.c as it works on its buffer: a position advanced in place,
 tokens as pairs of positions, and nulterminate's writes into the line.
 */
module ShellParser {
  import opened Basics
  import opened ShellSyntax
  import opened ShellRoundTrip
  import opened ShellMeaning
  import opened ShellCorrect

  /** The characters from `q` up to `eq`. */
  datatype Tok = Tok(q: nat, eq: nat)

  datatype Node =
    | ExecNode(argv: seq<Tok>) | RedirNode(cmd: Node, file: Tok, input: bool)
    | PipeNode(left: Node, right: Node) | ListNode(left: Node, right: Node) | BackNode(cmd: Node)

  /** A token is a whole word of the line: plain characters, and none after it. */
  predicate TokOk(s: string, t: Tok) {
    && t.q < t.eq <= |s| && (forall k :: t.q <= k < t.eq ==> Plain(s[k]))
    && (t.eq < |s| ==> !Plain(s[t.eq]))
  }

  predicate NodeOk(s: string, n: Node) {
    match n
    case ExecNode(argv) => ToksOk(s, argv)
    case RedirNode(c, file, _) => NodeOk(s, c) && TokOk(s, file)
    case PipeNode(l, r) => NodeOk(s, l) && NodeOk(s, r)
    case ListNode(l, r) => NodeOk(s, l) && NodeOk(s, r)
    case BackNode(c) => NodeOk(s, c)
  }

  function Text(s: string, t: Tok): string
    requires TokOk(s, t)
  {
    s[t.q..t.eq]
  }

  function Texts(s: string, ts: seq<Tok>): (r: seq<string>)
    requires ToksOk(s, ts)
    ensures |r| == |ts| && forall k :: 0 <= k < |ts| ==> r[k] == Text(s, ts[k])
  {
    seq(|ts|, k requires 0 <= k < |ts| => Text(s, ts[k]))
  }

  /** The command a node stands for. */
  function View(s: string, n: Node): Cmd
    requires NodeOk(s, n)
  {
    match n
    case ExecNode(argv) => Exec(Texts(s, argv))
    case RedirNode(c, file, input) => Redirected(View(s, c), Redir(input, Text(s, file)))
    case PipeNode(l, r) => Pipe(View(s, l), View(s, r))
    case ListNode(l, r) => List(View(s, l), View(s, r))
    case BackNode(c) => Back(View(s, c))
  }

  /** Redirections collected so far: file and direction. */
  datatype Rd = Rd(file: Tok, input: bool)

  predicate RdsOk(s: string, rds: seq<Rd>) { forall k :: 0 <= k < |rds| ==> TokOk(s, rds[k].file) }

  function ViewRds(s: string, rds: seq<Rd>): (r: seq<Redir>)
    requires RdsOk(s, rds)
    ensures |r| == |rds| && forall k :: 0 <= k < |rds| ==> r[k] == Redir(rds[k].input, Text(s, rds[k].file))
  {
    seq(|rds|, k requires 0 <= k < |rds| => Redir(rds[k].input, Text(s, rds[k].file)))
  }

  function WrapNode(n: Node, rds: seq<Rd>): Node {
    if rds == [] then n else RedirNode(WrapNode(n, rds[..|rds| - 1]), rds[|rds| - 1].file, rds[|rds| - 1].input)
  }

  lemma {:induction false} ViewWrap(s: string, n: Node, rds: seq<Rd>)
    requires NodeOk(s, n) && RdsOk(s, rds)
    ensures NodeOk(s, WrapNode(n, rds)) && View(s, WrapNode(n, rds)) == Wrap(View(s, n), ViewRds(s, rds))
    decreases |rds|
  {
    hide TokOk;
    if rds != [] {
      var k := |rds| - 1;
      ViewWrap(s, n, rds[..k]);
      assert ViewRds(s, rds)[..k] == ViewRds(s, rds[..k]);
    }
  }

  /** The parser panicked exactly where the grammar says so, or built the command it says and stopped where it says. */
  ghost predicate Agrees(s: string, spec: Option<(Cmd, string)>, r: Option<Node>, rest: string) {
    match spec
    case None => r == None
    case Some(y) => r.Some? && NodeOk(s, r.value) && View(s, r.value) == y.0 && rest == y.1
  }

  lemma {:induction false} ViewRdsMore(s: string, rds: seq<Rd>, rd: Rd)
    requires RdsOk(s, rds) && TokOk(s, rd.file)
    ensures RdsOk(s, rds + [rd]) && ViewRds(s, rds + [rd]) == ViewRds(s, rds) + [Redir(rd.input, Text(s, rd.file))]
  {
  }

  predicate ToksOk(s: string, ts: seq<Tok>) { forall k :: 0 <= k < |ts| ==> TokOk(s, ts[k]) }

  lemma {:induction false} TextsMore(s: string, ts: seq<Tok>, t: Tok)
    requires ToksOk(s, ts) && TokOk(s, t)
    ensures ToksOk(s, ts + [t]) && Texts(s, ts + [t]) == Texts(s, ts) + [Text(s, t)]
  {
  }

  predicate PlainRun(s: string, a: nat, b: nat)
    requires a <= b <= |s|
  {
    forall k :: a <= k < b ==> Plain(s[k])
  }

  lemma PlainIs(c: char)
    ensures Plain(c) <==> !Space(c) && !Symbol(c)
  {
  }

  /** A maximal run of plain characters is the word there. */
  lemma {:induction false} WholeWord(s: string, a: nat, b: nat)
    requires a < b <= |s| && PlainRun(s, a, b) && (b < |s| ==> !Plain(s[b]))
    ensures TokOk(s, Tok(a, b)) && s[a..b] == WordOf(s[a..]) && s[b..] == s[a..][|WordOf(s[a..])|..]
  {
    hide Plain, WordOf;
    assert s[a..] == s[a..b] + s[b..];
    WordOfPrefix(s[a..b], s[b..]);
  }

  class Parser {
    const s: string
    var ps: nat

    constructor (line: string)
      ensures s == line && ps == 0
    {
      s, ps := line, 0;
    }

    ghost predicate Valid()
      reads this
    {
      ps <= |s|
    }

    ghost function Rest(): string
      reads this
      requires Valid()
    {
      s[ps..]
    }

    /** The loops over white space in peek and gettoken. */
    method SkipSpaces()
      requires Valid()
      modifies this`ps
      ensures Valid() && ps >= old(ps) && Rest() == Skip(old(Rest()))
    {
      while ps < |s| && Space(s[ps])
        invariant Valid() && ps >= old(ps) && Skip(Rest()) == Skip(old(Rest()))
      {
        assert s[ps..][1..] == s[ps + 1..];
        ps := ps + 1;
      }
    }

    /** The loop of gettoken over the characters of a word. */
    method TakeWord()
      requires Valid() && ps < |s| && Plain(s[ps])
      modifies this`ps
      ensures Valid() && ps > old(ps) && TokOk(s, Tok(old(ps), ps)) && Text(s, Tok(old(ps), ps)) == WordOf(old(Rest()))
      ensures Rest() == old(Rest())[|WordOf(old(Rest()))|..]
    {
      hide Space, Symbol, WordOf, Plain;
      ghost var start := ps;
      while ps < |s| && !Space(s[ps]) && !Symbol(s[ps])
        invariant Valid() && start <= ps && PlainRun(s, start, ps)
        invariant ps == start ==> ps < |s| && Plain(s[ps])
      {
        PlainIs(s[ps]);
        ps := ps + 1;
      }
      if ps < |s| { PlainIs(s[ps]); }
      WholeWord(s, start, ps);
    }

    /** gettoken. */
    method Gettoken() returns (tok: Token, t: Tok)
      requires Valid()
      modifies this`ps
      ensures Valid() && ps >= old(ps) && GetToken(old(Rest())) == (tok, Rest())
      ensures (Ahead(old(Rest())) != None ==> ps > old(ps))
      ensures tok.Word? ==> TokOk(s, t) && tok.w == Text(s, t)
    {
      hide WordOf, TokOk;
      SkipSpaces();
      ghost var r := Rest();
      t := Tok(ps, ps);
      if ps == |s| { return End, t; }
      assert r[0] == s[ps] && (|r| > 1 ==> r[1] == s[ps + 1]);
      if s[ps] == '>' && ps + 1 < |s| && s[ps + 1] == '>' {
        assert r[2..] == s[ps + 2..];
        ps := ps + 2;
        tok := Append;
      } else if Symbol(s[ps]) {
        assert r[1..] == s[ps + 1..];
        tok := Sym(s[ps]);
        ps := ps + 1;
      } else {
        var q := ps;
        TakeWord();
        t := Tok(q, ps);
        tok := Word(s[q..ps]);
      }
      SkipSpaces();
    }

    /** peek: advances over white space and returns the character there. */
    method Peek() returns (c: Option<char>)
      requires Valid()
      modifies this`ps
      ensures Valid() && ps >= old(ps) && c == Ahead(old(Rest())) && Rest() == Skip(old(Rest()))
    {
      SkipSpaces();
      c := if ps < |s| then Some(s[ps]) else None;
    }

    /** parseredirs: the redirections found are added to `rds0`. */
    method ParseRedirs(rds0: seq<Rd>) returns (ok: bool, rds: seq<Rd>)
      requires Valid() && RdsOk(s, rds0)
      modifies this`ps
      ensures Valid() && ps >= old(ps) && ok == Redirs(ViewRds(s, rds0), old(Rest())).Some?
      ensures ok ==>
                && RdsOk(s, rds) && Redirs(ViewRds(s, rds0), old(Rest())) == Some((ViewRds(s, rds), Rest()))
                && |rds0| <= |rds| && Between(old(Rest()), ViewRds(s, rds)[|rds0|..], Rest())
    {
      hide Lex, Between, Skip, GetToken, Ahead, TokOk, RdsOk, ViewRds;
      rds := rds0;
      while true
        invariant Valid() && ps >= old(ps) && RdsOk(s, rds)
        invariant Redirs(ViewRds(s, rds), Rest()) == Redirs(ViewRds(s, rds0), old(Rest()))
        decreases |s| - ps
      {
        ghost var r := Rest();
        TokenSkip(r);
        RedirsSkip(ViewRds(s, rds), r);
        var c := Peek();
        if c != Some('<') && c != Some('>') {
          RedirsBetween(ViewRds(s, rds0), old(Rest()));
          return true, rds;
        }
        var tok, _ := Gettoken();
        var file, t := Gettoken();
        if !file.Word? { return false, rds; }
        ViewRdsMore(s, rds, Rd(t, tok == Sym('<')));
        rds := rds + [Rd(t, tok == Sym('<'))];
      }
    }

    /** The rest of parseexec, for a command without parentheses. */
    method ParseArgs(rds0: seq<Rd>) returns (r: Option<Node>)
      requires Valid() && RdsOk(s, rds0)
      modifies this`ps
      ensures Valid() && ps >= old(ps) && Agrees(s, Args([], ViewRds(s, rds0), old(Rest())), r, Rest())
    {
      hide Skip, GetToken, Ahead, TokOk, RdsOk, ViewRds, ToksOk, Texts, Redirs, Wrap;
      var rds, argv := rds0, [];
      NoTexts(s);
      while true
        invariant Valid() && ps >= old(ps) && RdsOk(s, rds) && ToksOk(s, argv)
        invariant Args(Texts(s, argv), ViewRds(s, rds), Rest()) == Args([], ViewRds(s, rds0), old(Rest()))
        decreases |s| - ps
      {
        ghost var rest := Rest();
        TokenSkip(rest);
        ArgsSkip(Texts(s, argv), ViewRds(s, rds), rest);
        ViewWrap(s, ExecNode(argv), rds);
        var c := Peek();
        if c == Some('|') || c == Some(')') || c == Some('&')
            || c == Some(';') { return Some(WrapNode(ExecNode(argv), rds)); }
        var tok, t := Gettoken();
        if tok == End { return Some(WrapNode(ExecNode(argv), rds)); }
        if !tok.Word? { return None; }
        TextsMore(s, argv, t);
        argv := argv + [t];
        if |argv| >= MAXARGS { return None; }
        var ok;
        ok, rds := ParseRedirs(rds);
        if !ok { return None; }
      }
    }

    /** parseexec and parseblock. */
    method ParseExecNode() returns (r: Option<Node>)
      requires Valid()
      modifies this`ps
      ensures Valid() && ps >= old(ps) && Agrees(s, ParseExec(old(Rest())), r, Rest())
      decreases |s| - ps, 0
    {
      hide Skip, GetToken, Ahead, RdsOk, ViewRds, Redirs, Wrap, Args, ParseLine, View, NodeOk;
      NoRds(s);
      TokenSkip(Rest());
      ExecSkip(Rest());
      var c := Peek();
      if c == Some('(') {
        var _, _ := Gettoken();
        r := ParseLineNode();
        if r == None { return; }
        TokenSkip(Rest());
        c := Peek();
        if c != Some(')') { return None; }
        var _, _ := Gettoken();
        var ok, rds := ParseRedirs([]);
        if !ok { return None; }
        ViewWrap(s, r.value, rds);
        return Some(WrapNode(r.value, rds));
      }
      var ok, rds := ParseRedirs([]);
      if !ok { return None; }
      r := ParseArgs(rds);
    }

    /** parsepipe. */
    method ParsePipeNode() returns (r: Option<Node>)
      requires Valid()
      modifies this`ps
      ensures Valid() && ps >= old(ps) && Agrees(s, ParsePipe(old(Rest())), r, Rest())
      decreases |s| - ps, 1
    {
      hide Skip, GetToken, Ahead, ParseExec;
      r := ParseExecNode();
      if r == None { return; }
      TokenSkip(Rest());
      var c := Peek();
      if c == Some('|') {
        var _, _ := Gettoken();
        var right := ParsePipeNode();
        r := if right == None then None else Some(PipeNode(r.value, right.value));
      }
    }

    /** parseline. */
    method ParseLineNode() returns (r: Option<Node>)
      requires Valid()
      modifies this`ps
      ensures Valid() && ps >= old(ps) && Agrees(s, ParseLine(old(Rest())), r, Rest())
      decreases |s| - ps, 2
    {
      hide Skip, GetToken, Ahead, ParsePipe, Backs;
      r := ParsePipeNode();
      if r == None { return; }
      var n := ParseBacks(r.value);
      r := Some(n);
      TokenSkip(Rest());
      var c := Peek();
      if c == Some(';') {
        var _, _ := Gettoken();
        var right := ParseLineNode();
        r := if right == None then None else Some(ListNode(n, right.value));
      }
    }

    /** The loop of parseline over '&'. */
    method ParseBacks(n0: Node) returns (n: Node)
      requires Valid() && NodeOk(s, n0)
      modifies this`ps
      ensures Valid() && ps >= old(ps) && NodeOk(s, n) && (View(s, n), Rest()) == Backs(View(s, n0), old(Rest()))
    {
      hide Skip, GetToken, Ahead;
      n := n0;
      while true
        invariant Valid() && ps >= old(ps) && NodeOk(s, n)
        invariant Backs(View(s, n), Rest()) == Backs(View(s, n0), old(Rest()))
        decreases |s| - ps
      {
        TokenSkip(Rest());
        BacksSkip(View(s, n), Rest());
        var c := Peek();
        if c != Some('&') { return; }
        var _, _ := Gettoken();
        n := BackNode(n);
      }
    }
  }

  lemma NoTexts(s: string)
    ensures ToksOk(s, []) && Texts(s, []) == []
  {
  }

  lemma NoRds(s: string)
    ensures RdsOk(s, []) && ViewRds(s, []) == []
  {
  }

  // nulterminate

  /** Position `i` is the end of a token of the command. */
  predicate IsEnd(n: Node, i: nat) {
    match n
    case ExecNode(argv) => exists k :: 0 <= k < |argv| && argv[k].eq == i
    case RedirNode(c, file, _) => IsEnd(c, i) || file.eq == i
    case PipeNode(l, r) => IsEnd(l, i) || IsEnd(r, i)
    case ListNode(l, r) => IsEnd(l, i) || IsEnd(r, i)
    case BackNode(c) => IsEnd(c, i)
  }

  /** The end of a token is not a character of any token. */
  lemma {:induction false} EndNotPlain(s: string, n: Node, i: nat)
    requires NodeOk(s, n) && IsEnd(n, i)
    ensures i <= |s| && (i < |s| ==> !Plain(s[i]))
  {
    hide Plain;
    match n
    case ExecNode(argv) =>
    case RedirNode(c, file, _) => if IsEnd(c, i) { EndNotPlain(s, c, i); }
    case PipeNode(l, r) => if IsEnd(l, i) { EndNotPlain(s, l, i); } else { EndNotPlain(s, r, i); }
    case ListNode(l, r) => if IsEnd(l, i) { EndNotPlain(s, l, i); } else { EndNotPlain(s, r, i); }
    case BackNode(c) => EndNotPlain(s, c, i);
  }

  /** The C string that starts where the token starts is exactly the token. */
  predicate Reads(s: string, buf: seq<char>, t: Tok) {
    && TokOk(s, t) && t.eq < |buf| && buf[t.q..t.eq] == s[t.q..t.eq]
    && buf[t.eq] == '\0' && forall k :: t.q <= k < t.eq ==> buf[k] != '\0'
  }

  /** Every argument and file name reads back as its token. */
  predicate AllRead(s: string, buf: seq<char>, n: Node) {
    match n
    case ExecNode(argv) => forall k :: 0 <= k < |argv| ==> Reads(s, buf, argv[k])
    case RedirNode(c, file, _) => AllRead(s, buf, c) && Reads(s, buf, file)
    case PipeNode(l, r) => AllRead(s, buf, l) && AllRead(s, buf, r)
    case ListNode(l, r) => AllRead(s, buf, l) && AllRead(s, buf, r)
    case BackNode(c) => AllRead(s, buf, c)
  }

  /** The line with a NUL at the end of every token of `n`. */
  ghost predicate Terminated(s: string, buf: seq<char>, n: Node) {
    |buf| == |s| + 1 && forall i :: 0 <= i < |buf| ==> buf[i] == if IsEnd(n, i) || i == |s| then '\0' else s[i]
  }

  /** So no NUL overwrites part of another token. */
  lemma {:induction false} TokenSurvives(s: string, buf: seq<char>, n: Node, t: Tok)
    requires NodeOk(s, n) && Terminated(s, buf, n) && TokOk(s, t) && IsEnd(n, t.eq) && '\0' !in s
    ensures Reads(s, buf, t)
  {
    hide Plain, IsEnd;
    forall k | t.q <= k < t.eq ensures buf[k] == s[k] {
      if IsEnd(n, k) { EndNotPlain(s, n, k); }
    }
  }

  /** What holds of a whole command holds of its part `m`. */
  lemma {:induction false} AllSurvive(s: string, buf: seq<char>, n: Node, m: Node)
    requires NodeOk(s, n) && Terminated(s, buf, n) && NodeOk(s, m) && '\0' !in s
    requires forall i :: IsEnd(m, i) ==> IsEnd(n, i)
    ensures AllRead(s, buf, m)
    decreases m
  {
    hide Terminated, TokOk, Reads;
    match m
    case ExecNode(argv) =>
      forall k | 0 <= k < |argv| ensures Reads(s, buf, argv[k]) {
        assert IsEnd(m, argv[k].eq);
        TokenSurvives(s, buf, n, argv[k]);
      }
    case RedirNode(c, file, _) =>
      assert IsEnd(m, file.eq);
      TokenSurvives(s, buf, n, file);
      AllSurvive(s, buf, n, c);
    case PipeNode(l, r) => AllSurvive(s, buf, n, l); AllSurvive(s, buf, n, r);
    case ListNode(l, r) => AllSurvive(s, buf, n, l); AllSurvive(s, buf, n, r);
    case BackNode(c) => AllSurvive(s, buf, n, c);
  }

  /** nulterminate: a NUL at the end of every token, and nowhere else. */
  method Nulterminate(buf: array<char>, n: Node, ghost s: string)
    requires NodeOk(s, n) && buf.Length == |s| + 1
    modifies buf
    ensures forall i :: 0 <= i < buf.Length ==> buf[i] == if IsEnd(n, i) then '\0' else old(buf[i])
    decreases n
  {
    match n
    case ExecNode(argv) =>
      var k := 0;
      while k < |argv|
        invariant 0 <= k <= |argv|
        invariant forall i :: 0 <= i < buf.Length ==>
                    buf[i] == if (exists j :: 0 <= j < k && argv[j].eq == i) then '\0' else old(buf[i])
      {
        assert TokOk(s, argv[k]);
        buf[argv[k].eq] := '\0';
        k := k + 1;
      }
    case RedirNode(c, file, _) =>
      Nulterminate(buf, c, s);
      buf[file.eq] := '\0';
    case PipeNode(l, r) =>
      Nulterminate(buf, l, s);
      Nulterminate(buf, r, s);
    case ListNode(l, r) =>
      Nulterminate(buf, l, s);
      Nulterminate(buf, r, s);
    case BackNode(c) =>
      Nulterminate(buf, c, s);
  }

  /** parsecmd: the command of the line, with every word readable in the buffer; or a panic. */
  method Parsecmd(buf: array<char>, line: string) returns (r: Option<Node>)
    requires buf.Length == |line| + 1 && buf[..] == line + ['\0'] && '\0' !in line
    modifies buf
    ensures ParseCmd(line) == None <==> r == None
    ensures r.Some? ==>
              && NodeOk(line, r.value) && ParseCmd(line) == Some(View(line, r.value)) && AllRead(line, buf[..], r.value)
              && IsLine(Lex(line), View(line, r.value))
    ensures r == None ==> forall c :: !IsLine(Lex(line), c)
  {
    hide Lex, IsLine, ParseLine, View, IsEnd, AllRead;
    ParseFails(line);
    var p := new Parser(line);
    assert line[0..] == line;
    r := p.ParseLineNode();
    if r == None { return; }
    p.SkipSpaces();
    if p.ps != |line| { return None; }
    assert forall i :: 0 <= i < buf.Length ==> buf[i] == buf[..][i];
    Nulterminate(buf, r.value, line);
    AllSurvive(line, buf[..], r.value, r.value);
  }
}
