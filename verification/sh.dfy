/** sh.c's parser: a cursor moving over the line, tokens as places in it, and the NULs put in at the end. */
module Shell {
  import opened ShellSyntax
  import opened ShellText

  /** A word's place in the line, argv and eargv or file and efile. */
  datatype Span = Span(q: nat, eq: nat)

  /** A maximal run of word characters. */
  ghost predicate IsToken(s: string, w: Span) {
    && w.q < w.eq <= |s| && (forall k :: w.q <= k < w.eq ==> IsWordChar(s[k]))
    && (w.eq < |s| ==> !IsWordChar(s[w.eq]))
  }

  /** Every word of the tree is a token of the line. */
  ghost predicate Placed(s: string, c: Cmd<Span>) {
    match c
    case Exec(argv) => forall k :: 0 <= k < |argv| ==> IsToken(s, argv[k])
    case Redir(d, f, _) => Placed(s, d) && IsToken(s, f)
    case Pipe(l, r) => Placed(s, l) && Placed(s, r)
    case List(l, r) => Placed(s, l) && Placed(s, r)
    case Back(d) => Placed(s, d)
  }

  ghost function Texts(s: string, argv: seq<Span>): (r: seq<string>)
    requires forall k :: 0 <= k < |argv| ==> IsToken(s, argv[k])
    ensures |r| == |argv|
  {
    if argv == [] then []
    else
      var w := argv[|argv| - 1];
      assert IsToken(s, w);
      Texts(s, argv[..|argv| - 1]) + [s[w.q..w.eq]]
  }

  /** The tree with its words written out. */
  ghost function TreeOf(s: string, c: Cmd<Span>): (t: Tree)
    requires Placed(s, c)
  {
    match c
    case Exec(argv) => Exec(Texts(s, argv))
    case Redir(d, f, o) => Redir(TreeOf(s, d), s[f.q..f.eq], o)
    case Pipe(l, r) => Pipe(TreeOf(s, l), TreeOf(s, r))
    case List(l, r) => List(TreeOf(s, l), TreeOf(s, r))
    case Back(d) => Back(TreeOf(s, d))
  }

  // ----- gettoken and peek -----

  method Spaces(s: string, i: nat) returns (j: nat)
    requires i <= |s|
    ensures j == SkipSpace(s, i)
  {
    j := i;
    while j < |s| && s[j] in " \t\r\n\U{000B}"
      invariant i <= j <= |s| && SkipSpace(s, i) == SkipSpace(s, j)
    {
      j := j + 1;
    }
  }

  lemma {:induction false} LexSkips(s: string, i: nat)
    requires i <= |s|
    ensures Lex(s, SkipSpace(s, i)) == Lex(s, i)
  {
    assert SkipSpace(s, SkipSpace(s, i)) == SkipSpace(s, i);
  }

  /** What gettoken returns for a token. */
  function Code(t: Token): (c: char) {
    match t
    case Sym(c) => c
    case Word(_) => 'a'
  }

  /** The token that starts at q and where it ends. */
  method Token(s: string, q: nat) returns (tok: char, e: nat)
    requires IsLine(s) && q < |s| && !IsSpace(s[q])
    ensures e == TokenAt(s, q).1 && tok == Code(TokenAt(s, q).0) && tok != NUL && q < e <= |s|
    ensures tok == 'a' ==> IsToken(s, Span(q, e)) && TokenAt(s, q).0 == Word(s[q..e])
    ensures tok != 'a' ==> TokenAt(s, q).0.Sym?
  {
    tok, e := s[q], q;
    if tok == '>' {
      e := e + 1;
      if e < |s| && s[e] == '>' {
        tok := '+';
        e := e + 1;
      }
    } else if tok in "<|>&;()" {
      e := e + 1;
    } else {
      tok := 'a';
      while e < |s| && s[e] !in " \t\r\n\U{000B}" && s[e] !in "<|>&;()"
        invariant q <= e <= |s| && WordEnd(s, q) == WordEnd(s, e)
      {
        e := e + 1;
      }
    }
  }

  /** The next token, its place, and where the one after it starts; 0 at the end of the line. */
  method GetToken(s: string, i: nat) returns (tok: char, w: Span, j: nat)
    requires IsLine(s) && i <= |s|
    ensures i <= j <= |s| && (tok == NUL <==> Lex(s, i) == [])
    ensures tok == NUL ==> j == |s|
    ensures tok != NUL ==> i < j && Lex(s, i) == [Lex(s, i)[0]] + Lex(s, j) && tok == Code(Lex(s, i)[0])
    ensures tok == 'a' ==> IsToken(s, w) && Lex(s, i)[0] == Word(s[w.q..w.eq])
    ensures tok != NUL && tok != 'a' ==> Lex(s, i)[0].Sym?
  {
    var q := Spaces(s, i);
    var e := q;
    tok := NUL;
    if q < |s| {
      tok, e := Token(s, q);
    }
    w := Span(q, e);
    j := Spaces(s, e);
    LexSkips(s, e);
  }

  /** Whether the next character is one of toks; moves to it. */
  method Peek(s: string, i: nat, toks: string) returns (r: bool, j: nat)
    requires IsLine(s) && i <= |s|
    ensures j == SkipSpace(s, i) && i <= j <= |s| && Lex(s, j) == Lex(s, i) && (r <==> j < |s| && s[j] in toks)
  {
    j := Spaces(s, i);
    LexSkips(s, i);
    r := j < |s| && s[j] in toks;
  }

  /** A symbol other than > is ahead exactly if it is the next token. */
  lemma Ahead(s: string, i: nat, c: char)
    requires i <= |s| && IsSymbol(c) && c != '>'
    ensures var j := SkipSpace(s, i); j < |s| && s[j] == c <==> Starts(Lex(s, i), c)
  {
  }

  lemma RedirAhead(s: string, i: nat)
    requires i <= |s|
    ensures var j := SkipSpace(s, i); j < |s| && s[j] in "<>" <==> AtRedir(Lex(s, i))
  {
  }

  lemma EndAhead(s: string, i: nat)
    requires i <= |s|
    ensures var j := SkipSpace(s, i); (j < |s| && s[j] in "|)&;") || Lex(s, i) == [] <==> AtEnd(Lex(s, i))
  {
  }

  // ----- the parser -----

  /** One redirection more. */
  lemma RedirsStep(c: Tree, ts: seq<Token>, us: seq<Token>, vs: seq<Token>)
    requires AtRedir(ts) && ts == [ts[0]] + us
    requires us != [] ==> us == [us[0]] + vs
    ensures Redirs(c, ts) == if us != [] && us[0].Word? then Redirs(Redir(c, us[0].text, ts[0].c != '<'), vs) else Bad
  {
    assert us != [] ==> ts[2..] == vs && ts[1] == us[0];
  }

  method ParseRedirs(s: string, i: nat, cmd: Cmd<Span>) returns (ok: bool, c: Cmd<Span>, j: nat)
    requires IsLine(s) && i <= |s| && Placed(s, cmd)
    ensures i <= j <= |s| && Placed(s, c)
    ensures Redirs(TreeOf(s, cmd), Lex(s, i)) == if ok then Good(TreeOf(s, c), Lex(s, j)) else Bad
  {
    c := cmd;
    var more;
    RedirAhead(s, i);
    more, j := Peek(s, i, "<>");
    ok := true;
    while more
      invariant i <= j <= |s| && Placed(s, c) && more == AtRedir(Lex(s, j))
      invariant Redirs(TreeOf(s, cmd), Lex(s, i)) == Redirs(TreeOf(s, c), Lex(s, j))
      decreases |s| - j
    {
      var tok, w, k := GetToken(s, j);
      var tok2, w2, k2 := GetToken(s, k);
      RedirsStep(TreeOf(s, c), Lex(s, j), Lex(s, k), Lex(s, k2));
      if tok2 != 'a' {
        ok := false;
        return;
      }
      c := Redir(c, w2, tok != '<');
      RedirAhead(s, k2);
      more, j := Peek(s, k2, "<>");
    }
  }

  lemma WithArgsPlaced(s: string, c: Cmd<Span>, argv: seq<Span>)
    requires Placed(s, c) && forall k :: 0 <= k < |argv| ==> IsToken(s, argv[k])
    ensures Placed(s, WithArgs(c, argv)) && TreeOf(s, WithArgs(c, argv)) == WithArgs(TreeOf(s, c), Texts(s, argv))
  {
  }

  lemma TextsMore(s: string, argv: seq<Span>, w: Span)
    requires IsToken(s, w) && forall k :: 0 <= k < |argv| ==> IsToken(s, argv[k])
    ensures forall k :: 0 <= k < |argv + [w]| ==> IsToken(s, (argv + [w])[k])
    ensures Texts(s, argv + [w]) == Texts(s, argv) + [s[w.q..w.eq]]
  {
    assert (argv + [w])[..|argv|] == argv;
  }

  /** One word more. */
  lemma ArgsStep(c: Tree, argv: seq<string>, ts: seq<Token>, us: seq<Token>)
    requires ts != [] && ts == [ts[0]] + us && !AtEnd(ts)
    ensures Args(c, argv, ts) ==
      if ts[0].Sym? || |argv| + 1 >= MAXARGS then Bad
      else match Redirs(c, us) case Bad => Bad case Good(d, rest) => Args(d, argv + [ts[0].text], rest)
  {
    assert ts[1..] == us;
  }

  /** parseexec's loop: the words, with the redirections after each. */
  method ParseArgs(s: string, i: nat, cmd: Cmd<Span>) returns (ok: bool, c: Cmd<Span>, j: nat)
    requires IsLine(s) && i <= |s| && Placed(s, cmd)
    ensures i <= j <= |s| && (ok ==> Placed(s, c))
    ensures Args(TreeOf(s, cmd), [], Lex(s, i)) == if ok then Good(TreeOf(s, c), Lex(s, j)) else Bad
  {
    c := cmd;
    var argv: seq<Span> := [];
    var stop;
    EndAhead(s, i);
    stop, j := Peek(s, i, "|)&;");
    ok := true;
    while !stop
      invariant i <= j <= |s| && Placed(s, c) && (forall k :: 0 <= k < |argv| ==> IsToken(s, argv[k]))
      invariant (stop || Lex(s, j) == []) == AtEnd(Lex(s, j))
      invariant Args(TreeOf(s, cmd), [], Lex(s, i)) == Args(TreeOf(s, c), Texts(s, argv), Lex(s, j))
      decreases |s| - j, !stop
    {
      var tok, w, k := GetToken(s, j);
      if tok == NUL {
        break;
      }
      ArgsStep(TreeOf(s, c), Texts(s, argv), Lex(s, j), Lex(s, k));
      if tok != 'a' {
        ok := false;
        return;
      }
      TextsMore(s, argv, w);
      argv := argv + [w];
      if |argv| >= MAXARGS {
        ok := false;
        return;
      }
      ok, c, j := ParseRedirs(s, k, c);
      if !ok {
        return;
      }
      EndAhead(s, j);
      stop, j := Peek(s, j, "|)&;");
    }
    WithArgsPlaced(s, c, argv);
    c := WithArgs(c, argv);
  }

  lemma SimpleStep(ts: seq<Token>, us: seq<Token>)
    requires Starts(ts, '(') && ts == [ts[0]] + us
    ensures Simple(ts) == Block(us)
  {
    assert ts[1..] == us;
  }

  method ParseExec(s: string, i: nat) returns (ok: bool, c: Cmd<Span>, j: nat)
    requires IsLine(s) && i <= |s|
    ensures i <= j <= |s| && (ok ==> Placed(s, c))
    ensures Simple(Lex(s, i)) == if ok then Good(TreeOf(s, c), Lex(s, j)) else Bad
    decreases |s| - i, 0
  {
    Ahead(s, i, '(');
    var block, k := Peek(s, i, "(");
    if block {
      var tok, w, k2 := GetToken(s, k);
      SimpleStep(Lex(s, k), Lex(s, k2));
      ok, c, j := ParseBlock(s, k2);
    } else {
      ok, c, j := ParseRedirs(s, k, Exec([]));
      if ok {
        ok, c, j := ParseArgs(s, j, c);
      }
    }
  }

  lemma BlockStep(ts: seq<Token>, rest: seq<Token>, us: seq<Token>, c: Tree)
    requires Line(ts) == Good(c, rest) && Starts(rest, ')') && rest == [rest[0]] + us
    ensures Block(ts) == Redirs(c, us)
  {
    assert rest[1..] == us;
  }

  /** parseblock, after the parenthesis. */
  method ParseBlock(s: string, i: nat) returns (ok: bool, c: Cmd<Span>, j: nat)
    requires IsLine(s) && i <= |s|
    ensures i <= j <= |s| && (ok ==> Placed(s, c))
    ensures Block(Lex(s, i)) == if ok then Good(TreeOf(s, c), Lex(s, j)) else Bad
    decreases |s| - i, 3
  {
    ok, c, j := ParseLine(s, i);
    if ok {
      Ahead(s, j, ')');
      ok, j := Peek(s, j, ")");
      if ok {
        var tok, w, k := GetToken(s, j);
        BlockStep(Lex(s, i), Lex(s, j), Lex(s, k), TreeOf(s, c));
        ok, c, j := ParseRedirs(s, k, c);
      }
    }
  }

  lemma PipelineStep(ts: seq<Token>, rest: seq<Token>, us: seq<Token>, c: Tree)
    requires Simple(ts) == Good(c, rest) && Starts(rest, '|') && rest == [rest[0]] + us
    ensures Pipeline(ts) == match Pipeline(us) case Bad => Bad case Good(d, r) => Good(Pipe(c, d), r)
  {
    assert rest[1..] == us;
  }

  method ParsePipe(s: string, i: nat) returns (ok: bool, c: Cmd<Span>, j: nat)
    requires IsLine(s) && i <= |s|
    ensures i <= j <= |s| && (ok ==> Placed(s, c))
    ensures Pipeline(Lex(s, i)) == if ok then Good(TreeOf(s, c), Lex(s, j)) else Bad
    decreases |s| - i, 1
  {
    ok, c, j := ParseExec(s, i);
    if ok {
      Ahead(s, j, '|');
      var more;
      more, j := Peek(s, j, "|");
      if more {
        var tok, w, k := GetToken(s, j);
        PipelineStep(Lex(s, i), Lex(s, j), Lex(s, k), TreeOf(s, c));
        var d;
        ok, d, j := ParsePipe(s, k);
        if ok {
          c := Pipe(c, d);
        }
      }
    }
  }

  lemma BacksStep(c: Tree, ts: seq<Token>, us: seq<Token>)
    requires Starts(ts, '&') && ts == [ts[0]] + us
    ensures Backs(c, ts) == Backs(Back(c), us)
  {
    assert ts[1..] == us;
  }

  method ParseBacks(s: string, i: nat, cmd: Cmd<Span>) returns (c: Cmd<Span>, j: nat)
    requires IsLine(s) && i <= |s| && Placed(s, cmd)
    ensures i <= j <= |s| && Placed(s, c) && Backs(TreeOf(s, cmd), Lex(s, i)) == (TreeOf(s, c), Lex(s, j))
  {
    c := cmd;
    var more;
    Ahead(s, i, '&');
    more, j := Peek(s, i, "&");
    while more
      invariant i <= j <= |s| && Placed(s, c) && more == Starts(Lex(s, j), '&')
      invariant Backs(TreeOf(s, cmd), Lex(s, i)) == Backs(TreeOf(s, c), Lex(s, j))
      decreases |s| - j
    {
      var tok, w, k := GetToken(s, j);
      BacksStep(TreeOf(s, c), Lex(s, j), Lex(s, k));
      c := Back(c);
      Ahead(s, k, '&');
      more, j := Peek(s, k, "&");
    }
  }

  lemma LineStep(ts: seq<Token>, c: Tree, rest: seq<Token>, d: Tree, rest': seq<Token>, us: seq<Token>)
    requires Pipeline(ts) == Good(c, rest) && Backs(c, rest) == (d, rest') && Starts(rest', ';') && rest' == [rest'[0]] + us
    ensures Line(ts) == match Line(us) case Bad => Bad case Good(e, r) => Good(List(d, e), r)
  {
    assert rest'[1..] == us;
  }

  method ParseLine(s: string, i: nat) returns (ok: bool, c: Cmd<Span>, j: nat)
    requires IsLine(s) && i <= |s|
    ensures i <= j <= |s| && (ok ==> Placed(s, c))
    ensures Line(Lex(s, i)) == if ok then Good(TreeOf(s, c), Lex(s, j)) else Bad
    decreases |s| - i, 2
  {
    ok, c, j := ParsePipe(s, i);
    if ok {
      ghost var c0, j0 := TreeOf(s, c), j;
      c, j := ParseBacks(s, j, c);
      Ahead(s, j, ';');
      var more;
      more, j := Peek(s, j, ";");
      if more {
        var tok, w, k := GetToken(s, j);
        LineStep(Lex(s, i), c0, Lex(s, j0), TreeOf(s, c), Lex(s, j), Lex(s, k));
        var d;
        ok, d, j := ParseLine(s, k);
        if ok {
          c := List(c, d);
        }
      }
    }
  }

  // ----- nulterminate -----

  /** The first place after each word. */
  ghost function Ends(c: Cmd<Span>): (e: set<nat>) {
    match c
    case Exec(argv) => EndsOf(argv)
    case Redir(d, f, _) => Ends(d) + {f.eq}
    case Pipe(l, r) => Ends(l) + Ends(r)
    case List(l, r) => Ends(l) + Ends(r)
    case Back(d) => Ends(d)
  }

  ghost function EndsOf(argv: seq<Span>): (e: set<nat>)
    ensures forall k :: 0 <= k < |argv| ==> argv[k].eq in e
    ensures forall x :: x in e ==> exists k :: 0 <= k < |argv| && argv[k].eq == x
  {
    if argv == [] then {} else EndsOf(argv[..|argv| - 1]) + {argv[|argv| - 1].eq}
  }

  /** buf is the text of the line with NULs at the places in e. */
  ghost predicate Punched(a: seq<char>, b: seq<char>, e: set<nat>) {
    |a| == |b| && forall k :: 0 <= k < |a| ==> b[k] == if k in e then NUL else a[k]
  }

  ghost predicate Fits(c: Cmd<Span>, n: nat) {
    forall x :: x in Ends(c) ==> x < n
  }

  method NulTerminate(buf: array<char>, c: Cmd<Span>)
    requires Fits(c, buf.Length)
    modifies buf
    ensures Punched(old(buf[..]), buf[..], Ends(c))
  {
    match c
    case Exec(argv) =>
      var i := 0;
      while i < |argv|
        invariant i <= |argv| && Punched(old(buf[..]), buf[..], EndsOf(argv[..i]))
      {
        assert argv[..i + 1][..i] == argv[..i] && argv[i].eq in Ends(c);
        buf[argv[i].eq] := NUL;
        i := i + 1;
      }
      assert argv[..i] == argv;
    case Redir(d, f, _) =>
      assert Ends(c) == Ends(d) + {f.eq};
      NulTerminate(buf, d);
      buf[f.eq] := NUL;
    case Pipe(l, r) =>
      assert Ends(c) == Ends(l) + Ends(r);
      NulTerminate(buf, l);
      NulTerminate(buf, r);
    case List(l, r) =>
      assert Ends(c) == Ends(l) + Ends(r);
      NulTerminate(buf, l);
      NulTerminate(buf, r);
    case Back(d) =>
      assert Ends(c) == Ends(d);
      NulTerminate(buf, d);
  }

  /** A C string at q that reads w. */
  ghost predicate Reads(b: seq<char>, q: nat, w: string) {
    q + |w| < |b| && b[q..q + |w|] == w && b[q + |w|] == NUL && NUL !in w
  }

  /** Every word of the tree is a C string that reads as its token. */
  ghost predicate AllRead(s: string, b: seq<char>, c: Cmd<Span>)
    requires Placed(s, c)
  {
    match c
    case Exec(argv) => forall k :: 0 <= k < |argv| ==> IsToken(s, argv[k]) && Reads(b, argv[k].q, s[argv[k].q..argv[k].eq])
    case Redir(d, f, _) => AllRead(s, b, d) && Reads(b, f.q, s[f.q..f.eq])
    case Pipe(l, r) => AllRead(s, b, l) && AllRead(s, b, r)
    case List(l, r) => AllRead(s, b, l) && AllRead(s, b, r)
    case Back(d) => AllRead(s, b, d)
  }

  /** The end of a token is never inside another one. */
  lemma {:induction false} EndsOutside(s: string, c: Cmd<Span>, x: nat)
    requires Placed(s, c) && x in Ends(c)
    ensures x <= |s| && (x < |s| ==> !IsWordChar(s[x]))
  {
    match c
    case Exec(argv) =>
      var k :| 0 <= k < |argv| && argv[k].eq == x;
      assert IsToken(s, argv[k]);
    case Redir(d, f, _) =>
      if x in Ends(d) {
        EndsOutside(s, d, x);
      }
    case Pipe(l, r) =>
      if x in Ends(l) {
        EndsOutside(s, l, x);
      } else {
        EndsOutside(s, r, x);
      }
    case List(l, r) =>
      if x in Ends(l) {
        EndsOutside(s, l, x);
      } else {
        EndsOutside(s, r, x);
      }
    case Back(d) =>
      EndsOutside(s, d, x);
  }

  lemma TokenReads(s: string, b: seq<char>, e: set<nat>, w: Span)
    requires IsLine(s) && Punched(s + [NUL], b, e) && IsToken(s, w) && w.eq in e
    requires forall x :: x in e ==> x <= |s| && (x < |s| ==> !IsWordChar(s[x]))
    ensures Reads(b, w.q, s[w.q..w.eq])
  {
    assert b[w.q..w.eq] == s[w.q..w.eq];
  }

  lemma {:induction false} TreeReads(s: string, b: seq<char>, e: set<nat>, c: Cmd<Span>)
    requires IsLine(s) && Punched(s + [NUL], b, e) && Placed(s, c) && Ends(c) <= e
    requires forall x :: x in e ==> x <= |s| && (x < |s| ==> !IsWordChar(s[x]))
    ensures AllRead(s, b, c)
  {
    match c
    case Exec(argv) =>
      forall k | 0 <= k < |argv| ensures IsToken(s, argv[k]) && Reads(b, argv[k].q, s[argv[k].q..argv[k].eq]) {
        TokenReads(s, b, e, argv[k]);
      }
    case Redir(d, f, _) =>
      TreeReads(s, b, e, d);
      TokenReads(s, b, e, f);
    case Pipe(l, r) =>
      TreeReads(s, b, e, l);
      TreeReads(s, b, e, r);
    case List(l, r) =>
      TreeReads(s, b, e, l);
      TreeReads(s, b, e, r);
    case Back(d) =>
      TreeReads(s, b, e, d);
  }

  // ----- parsecmd -----

  /** Parses the line in buf, which ends at its first NUL, and terminates its words. It fails exactly on the lines
      that are not a way to write a command, and otherwise returns what they mean. */
  method ParseCmd(buf: array<char>, ghost s: string) returns (ok: bool, c: Cmd<Span>)
    requires IsLine(s) && |s| < buf.Length && buf[..|s| + 1] == s + [NUL]
    modifies buf
    ensures ok <==> exists t :: Means(s, t)
    ensures ok ==> Placed(s, c) && (forall t :: Means(s, t) <==> t == TreeOf(s, c)) && AllRead(s, buf[..|s| + 1], c)
    ensures !ok ==> buf[..] == old(buf[..])
  {
    var n := Length(buf, s);
    var line := buf[..n];
    assert line == s;
    Meaning(s);
    var j;
    ok, c, j := ParseLine(line, 0);
    if ok {
      var more;
      more, j := Peek(line, j, "");
      ok := j == n;
      assert ok <==> Lex(s, j) == [];
      if ok {
        Terminate(buf, s, c);
      }
    }
  }

  /** nulterminate on the whole tree. */
  method Terminate(buf: array<char>, ghost s: string, c: Cmd<Span>)
    requires IsLine(s) && |s| < buf.Length && buf[..|s| + 1] == s + [NUL] && Placed(s, c)
    modifies buf
    ensures AllRead(s, buf[..|s| + 1], c)
  {
    forall x | x in Ends(c) ensures x <= |s| && (x < |s| ==> !IsWordChar(s[x])) {
      EndsOutside(s, c, x);
    }
    NulTerminate(buf, c);
    assert Punched(s + [NUL], buf[..|s| + 1], Ends(c));
    TreeReads(s, buf[..|s| + 1], Ends(c), c);
  }

  /** strlen */
  method Length(buf: array<char>, ghost s: string) returns (n: nat)
    requires IsLine(s) && |s| < buf.Length && buf[..|s| + 1] == s + [NUL]
    ensures n == |s|
  {
    assert forall k :: 0 <= k <= |s| ==> buf[k] == (s + [NUL])[k];
    n := 0;
    while buf[n] != NUL
      invariant n <= |s|
      decreases |s| - n
    {
      n := n + 1;
    }
  }

  method Typed(s: string) returns (buf: array<char>)
    ensures fresh(buf) && buf.Length == |s| + 1 && buf[..|s| + 1] == s + [NUL]
  {
    buf := new char[|s| + 1](i => if 0 <= i < |s| then s[i] else NUL);
    assert buf[..|s| + 1] == s + [NUL];
  }

  /** The shell reads back every tree it can make from its printed form. */
  method Reread(t: Tree) returns (ok: bool, c: Cmd<Span>)
    requires Wellformed(t)
    ensures ok && Placed(Printed(t), c) && TreeOf(Printed(t), c) == t
  {
    RoundTrip(t);
    var buf := Typed(Printed(t));
    ok, c := ParseCmd(buf, Printed(t));
  }
}
