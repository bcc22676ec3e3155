/**
 The command language of sh.c: its tokens, its recursive-descent parser as
 functions on the rest of the line, and a printer. `None` is a panic of the
 parser.
 */
module ShellSyntax {
  import opened Basics

  const MAXARGS: nat := 10

  predicate Space(c: char) { c == ' ' || c == '\t' || c == '\r' || c == '\n' || c == 11 as char }

  predicate Symbol(c: char) { c == '<' || c == '|' || c == '>' || c == '&' || c == ';' || c == '(' || c == ')' }

  /** A character of a word. */
  predicate Plain(c: char) { !Space(c) && !Symbol(c) }

  /** A redirection from a file (descriptor 0) or to a file (descriptor 1); `>>` is taken like `>`. */
  datatype Redir = Redir(input: bool, file: string)

  datatype Cmd =
    | Exec(argv: seq<string>)
    | Redirected(cmd: Cmd, redir: Redir)
    | Pipe(left: Cmd, right: Cmd)
    | List(left: Cmd, right: Cmd)
    | Back(cmd: Cmd)

  // Tokens

  datatype Token = End | Sym(c: char) | Append | Word(w: string)

  function Skip(r: string): (s: string)
    ensures |s| <= |r| && (s == [] || !Space(s[0]))
  {
    if r == [] || !Space(r[0]) then r else Skip(r[1..])
  }

  /** The longest word at the start. */
  function WordOf(r: string): (w: string)
    ensures |w| <= |r| && (r != [] && Plain(r[0]) ==> 0 < |w|)
  {
    if r == [] || !Plain(r[0]) then [] else [r[0]] + WordOf(r[1..])
  }

  /** Skip drops spaces only, and WordOf takes all the plain characters at the start. */
  lemma {:induction false} SkipIs(r: string)
    ensures Skip(r) == r[|r| - |Skip(r)|..] && (Skip(r) == [] || !Space(Skip(r)[0]))
    ensures forall k :: 0 <= k < |r| - |Skip(r)| ==> Space(r[k])
  {
    if r != [] && Space(r[0]) {
      SkipIs(r[1..]);
    }
  }

  lemma {:induction false} WordOfIs(r: string)
    ensures WordOf(r) == r[..|WordOf(r)|] && (forall k :: 0 <= k < |WordOf(r)| ==> Plain(r[k]))
    ensures (|WordOf(r)| == |r| || !Plain(r[|WordOf(r)|]))
  {
    if r != [] && Plain(r[0]) {
      WordOfIs(r[1..]);
    }
  }

  /** gettoken: the next token and the rest after the spaces that follow it. */
  function GetToken(r: string): (t: (Token, string))
    ensures |t.1| <= |r| && (t.0 != End ==> |t.1| < |r|)
  {
    var s := Skip(r);
    if s == [] then (End, [])
    else if s[0] == '>' && |s| > 1 && s[1] == '>' then (Append, Skip(s[2..]))
    else if Symbol(s[0]) then (Sym(s[0]), Skip(s[1..]))
    else (Word(WordOf(s)), Skip(s[|WordOf(s)|..]))
  }

  /** The character that peek looks at: the first after spaces. */
  function Ahead(r: string): Option<char> { if Skip(r) == [] then None else Some(Skip(r)[0]) }

  predicate AtRedir(r: string) { Ahead(r) == Some('<') || Ahead(r) == Some('>') }

  predicate AtStop(r: string) {
    Ahead(r) == Some('|') || Ahead(r) == Some(')') || Ahead(r) == Some('&') || Ahead(r) == Some(';')
  }

  // The parser

  function Wrap(c: Cmd, rs: seq<Redir>): Cmd {
    if rs == [] then c else Redirected(Wrap(c, rs[..|rs| - 1]), rs[|rs| - 1])
  }

  /** parseredirs. */
  function Redirs(rs: seq<Redir>, r: string): (x: Option<(seq<Redir>, string)>)
    ensures x.Some? ==> |x.value.1| <= |r|
    decreases |r|
  {
    if !AtRedir(r) then Some((rs, Skip(r)))
    else
      var (tok, r1) := GetToken(r);
      var (file, r2) := GetToken(r1);
      if !file.Word? then None else Redirs(rs + [Redir(tok == Sym('<'), file.w)], r2)
  }

  /** The loop of parseexec over arguments and redirections. */
  function Args(argv: seq<string>, rs: seq<Redir>, r: string): (x: Option<(Cmd, string)>)
    ensures x.Some? ==> |x.value.1| <= |r|
    decreases |r|
  {
    if AtStop(r) then Some((Wrap(Exec(argv), rs), Skip(r)))
    else
      var (tok, r1) := GetToken(r);
      if tok == End then Some((Wrap(Exec(argv), rs), r1))
      else if !tok.Word? || |argv| + 1 >= MAXARGS then None
      else match Redirs(rs, r1)
           case None => None
           case Some(y) => Args(argv + [tok.w], y.0, y.1)
  }

  /** parseexec and parseblock. */
  function ParseExec(r: string): (x: Option<(Cmd, string)>)
    ensures x.Some? ==> |x.value.1| <= |r|
    decreases |r|, 0
  {
    if Ahead(r) == Some('(') then
      match ParseLine(GetToken(r).1)
      case None => None
      case Some(y) =>
        if Ahead(y.1) != Some(')') then None
        else match Redirs([], GetToken(y.1).1)
             case None => None
             case Some(z) => Some((Wrap(y.0, z.0), z.1))
    else match Redirs([], r)
         case None => None
         case Some(y) => Args([], y.0, y.1)
  }

  function ParsePipe(r: string): (x: Option<(Cmd, string)>)
    ensures x.Some? ==> |x.value.1| <= |r|
    decreases |r|, 1
  {
    match ParseExec(r)
    case None => None
    case Some(y) =>
      if Ahead(y.1) != Some('|') then Some((y.0, Skip(y.1)))
      else match ParsePipe(GetToken(y.1).1)
           case None => None
           case Some(z) => Some((Pipe(y.0, z.0), z.1))
  }

  /** The loop of parseline over '&'. */
  function Backs(c: Cmd, r: string): (x: (Cmd, string))
    ensures |x.1| <= |r|
    decreases |r|
  {
    if Ahead(r) != Some('&') then (c, Skip(r)) else Backs(Back(c), GetToken(r).1)
  }

  function ParseLine(r: string): (x: Option<(Cmd, string)>)
    ensures x.Some? ==> |x.value.1| <= |r|
    decreases |r|, 2
  {
    match ParsePipe(r)
    case None => None
    case Some(y) =>
      var (c, r1) := Backs(y.0, y.1);
      if Ahead(r1) != Some(';') then Some((c, Skip(r1)))
      else match ParseLine(GetToken(r1).1)
           case None => None
           case Some(z) => Some((List(c, z.0), z.1))
  }

  /** parsecmd: the whole line must be used up. */
  function ParseCmd(s: string): Option<Cmd> {
    match ParseLine(s)
    case None => None
    case Some(y) => if Skip(y.1) == [] then Some(y.0) else None
  }

  // The printer

  predicate WordOk(w: string) { w != [] && forall k :: 0 <= k < |w| ==> Plain(w[k]) }

  /** Commands that can be written down: proper words, and no more arguments than fit. */
  predicate WellFormed(c: Cmd) {
    match c
    case Exec(argv) => |argv| < MAXARGS && forall k :: 0 <= k < |argv| ==> WordOk(argv[k])
    case Redirected(d, rd) => WellFormed(d) && WordOk(rd.file)
    case Pipe(l, r) => WellFormed(l) && WellFormed(r)
    case List(l, r) => WellFormed(l) && WellFormed(r)
    case Back(d) => WellFormed(d)
  }

  function PrintRedir(rd: Redir): string { (if rd.input then "<" else ">") + rd.file + " " }

  function PrintArgs(argv: seq<string>): string {
    if argv == [] then "" else argv[0] + " " + PrintArgs(argv[1..])
  }

  function PrintLine(c: Cmd): string
    decreases c, 3
  {
    match c
    case List(l, r) => PrintBack(l) + ";" + PrintLine(r)
    case _ => PrintBack(c)
  }

  function PrintBack(c: Cmd): string
    decreases c, 2
  {
    match c
    case Back(d) => PrintBack(d) + "&"
    case _ => PrintPipe(c)
  }

  function PrintPipe(c: Cmd): string
    decreases c, 1
  {
    match c
    case Pipe(l, r) => PrintExec(l) + "|" + PrintPipe(r)
    case _ => PrintExec(c)
  }

  /** A simple command with its redirections, or anything else in parentheses. */
  function PrintExec(c: Cmd): string
    decreases c, 0
  {
    match c
    case Exec(argv) => PrintArgs(argv)
    case Redirected(d, rd) => PrintExec(d) + PrintRedir(rd)
    case List(l, r) => "(" + PrintBack(l) + ";" + PrintLine(r) + ")"
    case Back(d) => "(" + PrintBack(d) + "&" + ")"
    case Pipe(l, r) => "(" + PrintExec(l) + "|" + PrintPipe(r) + ")"
  }
}
