/** The shell's language as sh.c takes it apart: the tokens of a line, and what the parser makes of a sequence of
    them. */
module ShellSyntax {
  const MAXARGS := 10
  const NUL: char := '\0'

  predicate IsSpace(c: char) {
    c == ' ' || c == '\t' || c == '\r' || c == '\n' || c == '\U{000B}'
  }

  predicate IsSymbol(c: char) {
    c == '<' || c == '|' || c == '>' || c == '&' || c == ';' || c == '(' || c == ')'
  }

  predicate IsWordChar(c: char) {
    c != NUL && !IsSpace(c) && !IsSymbol(c)
  }

  /** '+' stands for >>. */
  datatype Token = Sym(c: char) | Word(text: string)

  /** REDIR nodes only differ in their file and in whether it replaces standard input or output: >> is
      treated like >. */
  datatype Cmd<W> = Exec(argv: seq<W>) | Redir(cmd: Cmd<W>, file: W, out: bool) | Pipe(left: Cmd<W>, right: Cmd<W>)
                  | List(left: Cmd<W>, right: Cmd<W>) | Back(cmd: Cmd<W>)

  type Tree = Cmd<string>

  // ----- tokens -----

  /** The end of the whitespace at i. */
  function SkipSpace(s: string, i: nat): (j: nat)
    requires i <= |s|
    ensures i <= j <= |s| && (j < |s| ==> !IsSpace(s[j])) && forall k :: i <= k < j ==> IsSpace(s[k])
    decreases |s| - i
  {
    if i < |s| && IsSpace(s[i]) then SkipSpace(s, i + 1) else i
  }

  /** The end of the word at i. */
  function WordEnd(s: string, i: nat): (j: nat)
    requires i <= |s|
    ensures i <= j <= |s| && (j < |s| ==> IsSpace(s[j]) || IsSymbol(s[j]))
    ensures forall k :: i <= k < j ==> !IsSpace(s[k]) && !IsSymbol(s[k])
    decreases |s| - i
  {
    if i < |s| && !IsSpace(s[i]) && !IsSymbol(s[i]) then WordEnd(s, i + 1) else i
  }

  /** A line as sh.c gets it: no NUL before the end. */
  predicate IsLine(s: string) {
    forall k :: 0 <= k < |s| ==> s[k] != NUL
  }

  /** The token that starts at i, where there is no whitespace, and its end. */
  function TokenAt(s: string, i: nat): (r: (Token, nat))
    requires i < |s| && !IsSpace(s[i])
    ensures i < r.1 <= |s|
  {
    if s[i] == '>' && i + 1 < |s| && s[i + 1] == '>' then (Sym('+'), i + 2)
    else if IsSymbol(s[i]) then (Sym(s[i]), i + 1)
    else (Word(s[i..WordEnd(s, i)]), WordEnd(s, i))
  }

  /** The tokens from i on. */
  function Lex(s: string, i: nat): (ts: seq<Token>)
    requires i <= |s|
    decreases |s| - i
  {
    var j := SkipSpace(s, i);
    if j == |s| then [] else var (t, e) := TokenAt(s, j); [t] + Lex(s, e)
  }

  // ----- the parser on tokens -----

  datatype Parsed = Good(cmd: Tree, rest: seq<Token>) | Bad

  predicate Starts(ts: seq<Token>, c: char) {
    ts != [] && ts[0] == Sym(c)
  }

  predicate AtRedir(ts: seq<Token>) {
    Starts(ts, '<') || Starts(ts, '>') || Starts(ts, '+')
  }

  /** parseredirs */
  function Redirs(c: Tree, ts: seq<Token>): (r: Parsed)
    ensures r.Good? ==> |r.rest| <= |ts| && !AtRedir(r.rest)
    decreases |ts|
  {
    if !AtRedir(ts) then Good(c, ts)
    else if |ts| >= 2 && ts[1].Word? then Redirs(Redir(c, ts[1].text, ts[0].c != '<'), ts[2..])
    else Bad
  }

  /** Puts the words collected so far into the EXEC node under the redirections. */
  function WithArgs<W>(c: Cmd<W>, argv: seq<W>): (r: Cmd<W>) {
    match c
    case Redir(d, f, o) => Redir(WithArgs(d, argv), f, o)
    case _ => Exec(argv)
  }

  /** What ends a simple command. */
  predicate AtEnd(ts: seq<Token>) {
    ts == [] || Starts(ts, '|') || Starts(ts, ')') || Starts(ts, '&') || Starts(ts, ';')
  }

  /** parseexec's loop; c is the EXEC node, under redirections. */
  function Args(c: Tree, argv: seq<string>, ts: seq<Token>): (r: Parsed)
    ensures r.Good? ==> |r.rest| <= |ts|
    decreases |ts|
  {
    if AtEnd(ts) then Good(WithArgs(c, argv), ts)
    else if ts[0].Sym? || |argv| + 1 >= MAXARGS then Bad
    else match Redirs(c, ts[1..])
         case Bad => Bad
         case Good(d, rest) => Args(d, argv + [ts[0].text], rest)
  }

  /** parseexec */
  function Simple(ts: seq<Token>): (r: Parsed)
    ensures r.Good? ==> |r.rest| <= |ts|
    decreases |ts|, 0
  {
    if Starts(ts, '(') then Block(ts[1..])
    else match Redirs(Exec([]), ts)
         case Bad => Bad
         case Good(c, rest) => Args(c, [], rest)
  }

  /** parseblock, after the parenthesis */
  function Block(ts: seq<Token>): (r: Parsed)
    ensures r.Good? ==> |r.rest| <= |ts|
    decreases |ts|, 3
  {
    match Line(ts)
    case Bad => Bad
    case Good(c, rest) => if Starts(rest, ')') then Redirs(c, rest[1..]) else Bad
  }

  /** parsepipe */
  function Pipeline(ts: seq<Token>): (r: Parsed)
    ensures r.Good? ==> |r.rest| <= |ts|
    decreases |ts|, 1
  {
    match Simple(ts)
    case Bad => Bad
    case Good(c, rest) =>
      if !Starts(rest, '|') then Good(c, rest)
      else match Pipeline(rest[1..])
           case Bad => Bad
           case Good(d, rest') => Good(Pipe(c, d), rest')
  }

  /** The ampersands after a pipeline */
  function Backs(c: Tree, ts: seq<Token>): (r: (Tree, seq<Token>))
    ensures |r.1| <= |ts| && !Starts(r.1, '&')
    decreases |ts|
  {
    if Starts(ts, '&') then Backs(Back(c), ts[1..]) else (c, ts)
  }

  /** parseline */
  function Line(ts: seq<Token>): (r: Parsed)
    ensures r.Good? ==> |r.rest| <= |ts|
    decreases |ts|, 2
  {
    match Pipeline(ts)
    case Bad => Bad
    case Good(c, rest) =>
      var (d, rest') := Backs(c, rest);
      if !Starts(rest', ';') then Good(d, rest')
      else match Line(rest'[1..])
           case Bad => Bad
           case Good(e, rest'') => Good(List(d, e), rest'')
  }
}
