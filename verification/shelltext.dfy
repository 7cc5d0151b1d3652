/** Lines of text in the shell's language: tokens with whitespace between them, and a way to write every tree. */
module ShellText {
  import opened ShellSyntax
  import opened ShellGrammar

  // ----- characters -----

  function Text(t: Token): (s: string) {
    match t
    case Sym(c) => if c == '+' then ">>" else [c]
    case Word(w) => w
  }

  /** A word the lexer takes for one. */
  predicate IsWord(w: string) {
    w != [] && forall k :: 0 <= k < |w| ==> IsWordChar(w[k])
  }

  predicate Printable(t: Token) {
    match t
    case Sym(c) => IsSymbol(c) || c == '+'
    case Word(w) => IsWord(w)
  }

  ghost predicate AllPrintable(ts: seq<Token>) {
    forall k :: 0 <= k < |ts| ==> Printable(ts[k])
  }

  predicate Blank(g: string) {
    forall k :: 0 <= k < |g| ==> IsSpace(g[k])
  }

  /** Written next to each other, these two would be taken for something else. */
  predicate Clash(t: Token, u: Token) {
    (t.Word? && u.Word?) || (t == Sym('>') && (u == Sym('>') || u == Sym('+')))
  }

  /** Whitespace before, between and after the tokens, at least some where they would clash. */
  ghost predicate Spaced(ts: seq<Token>, gaps: seq<string>) {
    && |gaps| == |ts| + 1 && (forall k :: 0 <= k < |gaps| ==> Blank(gaps[k]))
    && forall k :: 0 < k < |ts| && Clash(ts[k - 1], ts[k]) ==> gaps[k] != ""
  }

  function Render(ts: seq<Token>, gaps: seq<string>): (s: string)
    requires |gaps| == |ts| + 1
  {
    if ts == [] then gaps[0] else gaps[0] + (Text(ts[0]) + Render(ts[1..], gaps[1..]))
  }

  lemma SpacedRest(ts: seq<Token>, gaps: seq<string>)
    requires Spaced(ts, gaps) && ts != []
    ensures Spaced(ts[1..], gaps[1..])
  {
    forall k | 0 < k < |ts[1..]| && Clash(ts[1..][k - 1], ts[1..][k]) ensures gaps[1..][k] != "" {
      assert Clash(ts[k], ts[k + 1]);
    }
  }

  /** What comes right after a token does not go on with it. */
  predicate Stops(t: Token, rest: string) {
    rest != "" ==> if t.Word? then IsSpace(rest[0]) || IsSymbol(rest[0]) else t == Sym('>') ==> rest[0] != '>'
  }

  lemma RestStops(ts: seq<Token>, gaps: seq<string>)
    requires Spaced(ts, gaps) && AllPrintable(ts) && ts != []
    ensures Stops(ts[0], Render(ts[1..], gaps[1..]))
  {
    var us, hs := ts[1..], gaps[1..];
    assert hs[0] == gaps[1] && Blank(gaps[1]);
    if us != [] && gaps[1] == "" {
      assert us[0] == ts[1] && !Clash(ts[0], ts[1]) && Printable(ts[1]);
      assert Render(us, hs) == Text(us[0]) + Render(us[1..], hs[1..]);
    }
  }

  lemma {:induction false} SkipsBlank(s: string, i: nat, j: nat)
    requires i <= j <= |s| && (forall k :: i <= k < j ==> IsSpace(s[k])) && (j < |s| ==> !IsSpace(s[j]))
    ensures SkipSpace(s, i) == j
    decreases j - i
  {
    if i < j {
      SkipsBlank(s, i + 1, j);
    }
  }

  /** The token at j, whose text ends at e. */
  lemma TokenIs(s: string, j: nat, t: Token, e: nat)
    requires Printable(t) && j + |Text(t)| == e <= |s| && s[j..e] == Text(t) && Stops(t, s[e..])
    ensures j < |s| && !IsSpace(s[j]) && TokenAt(s, j) == (t, e)
  {
    assert forall k :: j <= k < e ==> s[k] == Text(t)[k - j];
    assert e < |s| ==> s[e..][0] == s[e];
    if t.Word? {
      assert WordEnd(s, j) == e;
    }
  }

  lemma CutThree(s: string, i: nat, a: string, b: string, c: string) returns (j: nat, e: nat)
    requires i <= |s| && s[i..] == a + (b + c)
    ensures i <= j <= e <= |s| && s[i..j] == a && s[j..e] == b && s[e..] == c && j == i + |a| && e == j + |b|
  {
    j, e := i + |a|, i + |a| + |b|;
    var u := s[i..];
    assert u[..|a|] == a && u[|a|..|a| + |b|] == b && u[|a| + |b|..] == c;
  }

  lemma LexBlank(s: string, i: nat)
    requires i <= |s| && Blank(s[i..])
    ensures Lex(s, i) == []
  {
    forall k | i <= k < |s| ensures IsSpace(s[k]) {
      assert s[k] == s[i..][k - i];
    }
    SkipsBlank(s, i, |s|);
  }

  lemma LexNext(s: string, i: nat, j: nat, t: Token, e: nat)
    requires i <= j <= |s| && Blank(s[i..j]) && j < |s| && !IsSpace(s[j]) && TokenAt(s, j) == (t, e)
    ensures Lex(s, i) == [t] + Lex(s, e)
  {
    forall k | i <= k < j ensures IsSpace(s[k]) {
      assert s[k] == s[i..j][k - i];
    }
    SkipsBlank(s, i, j);
  }

  lemma Joined(a: seq<Token>, b: seq<Token>, ts: seq<Token>)
    requires ts != [] && a == [ts[0]] + b && b == ts[1..]
    ensures a == ts
  {
  }

  /** The tokens of a text are those it was made of. */
  lemma {:induction false} LexRendered(s: string, i: nat, ts: seq<Token>, gaps: seq<string>)
    requires i <= |s| && AllPrintable(ts) && Spaced(ts, gaps) && s[i..] == Render(ts, gaps)
    ensures Lex(s, i) == ts
    decreases |ts|
  {
    if ts == [] {
      LexBlank(s, i);
    } else {
      var j, e := CutThree(s, i, gaps[0], Text(ts[0]), Render(ts[1..], gaps[1..]));
      RestStops(ts, gaps);
      TokenIs(s, j, ts[0], e);
      SpacedRest(ts, gaps);
      LexRendered(s, e, ts[1..], gaps[1..]);
      LexNext(s, i, j, ts[0], e);
      Joined(Lex(s, i), Lex(s, e), ts);
    }
  }

  /** The token at j as the lexer takes it. */
  lemma TokenText(s: string, j: nat)
    requires IsLine(s) && j < |s| && !IsSpace(s[j])
    ensures var (t, e) := TokenAt(s, j); Printable(t) && s[j..e] == Text(t) && Stops(t, s[e..])
  {
  }

  lemma SpacedMore(t: Token, ts: seq<Token>, g: string, gaps: seq<string>)
    requires Blank(g) && Spaced(ts, gaps) && (ts != [] && Clash(t, ts[0]) ==> gaps[0] != "")
    ensures Spaced([t] + ts, [g] + gaps) && Render([t] + ts, [g] + gaps) == g + (Text(t) + Render(ts, gaps))
  {
    var us, hs := [t] + ts, [g] + gaps;
    assert us[1..] == ts && hs[1..] == gaps;
    forall k | 0 <= k < |hs| ensures Blank(hs[k]) {
      assert k > 0 ==> hs[k] == gaps[k - 1];
    }
    forall k | 0 < k < |us| && Clash(us[k - 1], us[k]) ensures hs[k] != "" {
      if k > 1 {
        assert Clash(ts[k - 2], ts[k - 1]);
      }
    }
  }

  /** A line is made of its tokens, with whitespace where it is needed. */
  lemma {:induction false} LexGaps(s: string, i: nat) returns (gaps: seq<string>)
    requires IsLine(s) && i <= |s|
    ensures AllPrintable(Lex(s, i)) && Spaced(Lex(s, i), gaps) && s[i..] == Render(Lex(s, i), gaps) && gaps[0] == s[i..SkipSpace(s, i)]
    decreases |s| - i
  {
    var j := SkipSpace(s, i);
    if j == |s| {
      gaps := [s[i..]];
    } else {
      var (t, e) := TokenAt(s, j);
      TokenText(s, j);
      var more := LexGaps(s, e);
      NoClash(s, t, e);
      gaps := [s[i..j]] + more;
      SpacedMore(t, Lex(s, e), s[i..j], more);
      Slices(s, i, j, e);
    }
  }

  lemma Slices(s: string, i: nat, j: nat, e: nat)
    requires i <= j <= e <= |s|
    ensures s[i..] == s[i..j] + (s[j..e] + s[e..])
  {
  }

  lemma NoClash(s: string, t: Token, e: nat)
    requires e <= |s| && Stops(t, s[e..])
    ensures Lex(s, e) != [] && Clash(t, Lex(s, e)[0]) ==> s[e..SkipSpace(s, e)] != ""
  {
    if Lex(s, e) != [] && SkipSpace(s, e) == e {
      assert s[e..][0] == s[e];
      assert Lex(s, e)[0] == TokenAt(s, e).0;
    }
  }

  // ----- lines -----

  /** The line s is a way to write something that means t. */
  ghost predicate Means(s: string, t: Tree) {
    exists l, gaps ::
      PhraseOk(l) && AllPrintable(PhraseTokens(l)) && Spaced(PhraseTokens(l), gaps) && Render(PhraseTokens(l), gaps) == s && PhraseMeans(l) == t
  }

  /** The lexer and the parser make t of a line exactly if the line is a way to write something that means t. */
  lemma Understood(s: string, t: Tree)
    requires IsLine(s)
    ensures Line(Lex(s, 0)) == Good(t, []) <==> Means(s, t)
  {
    var ts := Lex(s, 0);
    assert s[0..] == s;
    if Means(s, t) {
      var l, gaps :|
        PhraseOk(l) && AllPrintable(PhraseTokens(l)) && Spaced(PhraseTokens(l), gaps) && Render(PhraseTokens(l), gaps) == s && PhraseMeans(l) == t;
      LexRendered(s, 0, PhraseTokens(l), gaps);
      assert Says(ts, t);
      Parses(ts, t);
    }
    if Line(ts) == Good(t, []) {
      Parses(ts, t);
      var l :| PhraseOk(l) && PhraseTokens(l) == ts && PhraseMeans(l) == t;
      var gaps := LexGaps(s, 0);
    }
  }

  /** What the lexer and the parser make of a line. */
  lemma Meaning(s: string)
    requires IsLine(s)
    ensures forall t :: Means(s, t) <==> Line(Lex(s, 0)) == Good(t, [])
  {
    forall t ensures Means(s, t) <==> Line(Lex(s, 0)) == Good(t, []) {
      Understood(s, t);
    }
  }

  // ----- every tree can be written -----

  /** The trees the shell can make: words are words, and no command has MAXARGS of them. */
  ghost predicate Wellformed(c: Tree) {
    match c
    case Exec(argv) => |argv| < MAXARGS && forall k :: 0 <= k < |argv| ==> IsWord(argv[k])
    case Redir(d, f, _) => Wellformed(d) && IsWord(f)
    case Pipe(l, r) => Wellformed(l) && Wellformed(r)
    case List(l, r) => Wellformed(l) && Wellformed(r)
    case Back(d) => Wellformed(d)
  }

  function Size(c: Tree): (n: nat) {
    match c
    case Exec(_) => 0
    case Redir(d, _, _) => Size(d) + 1
    case Pipe(l, r) => Size(l) + Size(r) + 1
    case List(l, r) => Size(l) + Size(r) + 1
    case Back(d) => Size(d) + 1
  }

  /** What is under the redirections, and the redirections. */
  function Unwrap(c: Tree): (r: (Tree, seq<Redirection>))
    ensures !r.0.Redir? && Size(r.0) <= Size(c) && (c.Redir? ==> Size(r.0) < Size(c)) && (!c.Redir? ==> r.0 == c)
  {
    if c.Redir? then
      var (b, rs) := Unwrap(c.cmd);
      (b, rs + [Redirection(if c.out then '>' else '<', c.file)])
    else (c, [])
  }

  /** What is under the ampersands, and how many they are. */
  function Unback(c: Tree): (r: (Tree, nat))
    ensures !r.0.Back? && Size(r.0) <= Size(c) && (c.Back? ==> Size(r.0) < Size(c)) && (!c.Back? ==> r == (c, 0))
  {
    if c.Back? then
      var (b, n) := Unback(c.cmd);
      (b, n + 1)
    else (c, 0)
  }

  function ArgItems(argv: seq<string>): (items: seq<Item>) {
    if argv == [] then [] else [Arg(argv[0])] + ArgItems(argv[1..])
  }

  /** With parentheses only where they are needed. */
  function CommandOf(c: Tree): (r: Command)
    decreases Size(c), if c.Exec? || c.Redir? then 0 else 3
  {
    var (b, rs) := Unwrap(c);
    if b.Exec? then Plain(ArgItems(b.argv) + Intos(rs)) else Group(PhraseOf(b), rs)
  }

  function PipedOf(c: Tree): (r: Piped)
    decreases Size(c), if c.List? || c.Back? then 4 else 1
  {
    if c.Pipe? then Bar(CommandOf(c.left), PipedOf(c.right)) else Last(CommandOf(c))
  }

  function PhraseOf(c: Tree): (r: Phrase)
    decreases Size(c), 2
  {
    if c.List? then
      var (b, n) := Unback(c.left);
      Then(PipedOf(b), n, PhraseOf(c.right))
    else
      var (b, n) := Unback(c);
      Only(PipedOf(b), n)
  }

  lemma {:induction false} UnwrapWraps(c: Tree)
    requires Wellformed(c)
    ensures var (b, rs) := Unwrap(c);
      Wellformed(b) && Wrap(b, rs) == c && RedirsOk(rs) && forall k :: 0 <= k < |rs| ==> IsWord(rs[k].file)
    decreases c
  {
    if c.Redir? {
      UnwrapWraps(c.cmd);
      var rs := Unwrap(c.cmd).1;
      WrapLast(Unwrap(c.cmd).0, rs, Redirection(if c.out then '>' else '<', c.file));
    }
  }

  lemma WrapLast(c: Tree, rs: seq<Redirection>, r: Redirection)
    ensures Wrap(c, rs + [r]) == Redir(Wrap(c, rs), r.file, r.sym != '<')
  {
    assert (rs + [r])[..|rs|] == rs;
  }

  lemma {:induction false} UnbackBehind(c: Tree)
    requires Wellformed(c)
    ensures var (b, n) := Unback(c); Wellformed(b) && Behind(b, n) == c
    decreases c
  {
    if c.Back? {
      UnbackBehind(c.cmd);
    }
  }

  lemma JoinPrintable(a: seq<Token>, b: seq<Token>)
    requires AllPrintable(a) && AllPrintable(b)
    ensures AllPrintable(a + b)
  {
  }

  lemma {:induction false} RedirsPrintable(rs: seq<Redirection>)
    requires RedirsOk(rs) && forall k :: 0 <= k < |rs| ==> IsWord(rs[k].file)
    ensures AllPrintable(RedirsTokens(rs))
    decreases |rs|
  {
    if rs != [] {
      RedirsPrintable(rs[1..]);
      JoinPrintable(RedirTokens(rs[0]), RedirsTokens(rs[1..]));
    }
  }

  /** Words and then redirections. */
  lemma {:induction false} ArgItemsThen(argv: seq<string>, rs: seq<Redirection>)
    requires (forall k :: 0 <= k < |argv| ==> IsWord(argv[k])) && AllPrintable(RedirsTokens(rs))
    ensures var items := ArgItems(argv) + Intos(rs); ArgsOf(items) == argv && RedirsOf(items) == rs && AllPrintable(ItemsTokens(items))
    decreases |argv|
  {
    if argv == [] {
      IntosThen(rs, []);
      assert Intos(rs) + [] == Intos(rs) && ArgItems(argv) + Intos(rs) == Intos(rs);
    } else {
      var more := ArgItems(argv[1..]) + Intos(rs);
      ArgItemsThen(argv[1..], rs);
      ItemsCons(Arg(argv[0]), more);
      Assoc([Arg(argv[0])], ArgItems(argv[1..]), Intos(rs));
      JoinPrintable([Word(argv[0])], ItemsTokens(more));
    }
  }

  lemma {:induction false} CommandWritten(c: Tree)
    requires Wellformed(c)
    ensures CommandMeans(CommandOf(c)) == c && CommandOk(CommandOf(c)) && AllPrintable(CommandTokens(CommandOf(c)))
    decreases Size(c), if c.Exec? || c.Redir? then 0 else 3
  {
    var (b, rs) := Unwrap(c);
    UnwrapWraps(c);
    RedirsPrintable(rs);
    if b.Exec? {
      ArgItemsThen(b.argv, rs);
    } else {
      PhraseWritten(b);
      GroupPrintable(PhraseOf(b), rs);
    }
  }

  lemma GroupPrintable(l: Phrase, rs: seq<Redirection>)
    requires AllPrintable(PhraseTokens(l)) && AllPrintable(RedirsTokens(rs))
    ensures AllPrintable(CommandTokens(Group(l, rs)))
  {
    JoinPrintable([Sym(')')], RedirsTokens(rs));
    JoinPrintable(PhraseTokens(l), [Sym(')')] + RedirsTokens(rs));
    JoinPrintable([Sym('(')], PhraseTokens(l) + ([Sym(')')] + RedirsTokens(rs)));
  }

  lemma {:induction false} PipedWritten(c: Tree)
    requires Wellformed(c)
    ensures PipedMeans(PipedOf(c)) == c && PipedOk(PipedOf(c)) && AllPrintable(PipedTokens(PipedOf(c)))
    decreases Size(c), if c.List? || c.Back? then 4 else 1
  {
    if c.Pipe? {
      CommandWritten(c.left);
      PipedWritten(c.right);
      JoinPrintable([Sym('|')], PipedTokens(PipedOf(c.right)));
      JoinPrintable(CommandTokens(CommandOf(c.left)), [Sym('|')] + PipedTokens(PipedOf(c.right)));
    } else {
      CommandWritten(c);
    }
  }

  lemma {:induction false} AmpsPrintable(n: nat)
    ensures AllPrintable(Amps(n))
  {
    if n > 0 {
      AmpsPrintable(n - 1);
    }
  }

  lemma {:induction false} PhraseWritten(c: Tree)
    requires Wellformed(c)
    ensures PhraseMeans(PhraseOf(c)) == c && PhraseOk(PhraseOf(c)) && AllPrintable(PhraseTokens(PhraseOf(c)))
    decreases Size(c), 2
  {
    var d := if c.List? then c.left else c;
    var (b, n) := Unback(d);
    UnbackBehind(d);
    PipedWritten(b);
    AmpsPrintable(n);
    if c.List? {
      PhraseWritten(c.right);
      var rest := [Sym(';')] + PhraseTokens(PhraseOf(c.right));
      JoinPrintable([Sym(';')], PhraseTokens(PhraseOf(c.right)));
      JoinPrintable(Amps(n), rest);
      JoinPrintable(PipedTokens(PipedOf(b)), Amps(n) + rest);
    } else {
      JoinPrintable(PipedTokens(PipedOf(b)), Amps(n));
    }
  }

  /** Spaces only where they are needed. */
  function Gaps(ts: seq<Token>): (gaps: seq<string>)
    ensures |gaps| == |ts| + 1
  {
    seq(|ts| + 1, k => if 0 < k < |ts| && Clash(ts[k - 1], ts[k]) then " " else "")
  }

  /** A tree as it would be typed. */
  function Printed(c: Tree): (s: string) {
    var ts := PhraseTokens(PhraseOf(c));
    Render(ts, Gaps(ts))
  }

  lemma {:induction false} RenderLine(ts: seq<Token>, gaps: seq<string>)
    requires AllPrintable(ts) && |gaps| == |ts| + 1 && forall k :: 0 <= k < |gaps| ==> Blank(gaps[k])
    ensures IsLine(Render(ts, gaps))
    decreases |ts|
  {
    assert Blank(gaps[0]);
    if ts != [] {
      RenderLine(ts[1..], gaps[1..]);
      assert Printable(ts[0]) && IsLine(Text(ts[0]));
    }
  }

  lemma GapsSpaced(ts: seq<Token>)
    ensures Spaced(ts, Gaps(ts))
  {
  }

  /** Every tree means what it is printed as. */
  lemma RoundTrip(c: Tree)
    requires Wellformed(c)
    ensures IsLine(Printed(c)) && Means(Printed(c), c) && Line(Lex(Printed(c), 0)) == Good(c, [])
  {
    PhraseWritten(c);
    var ts := PhraseTokens(PhraseOf(c));
    GapsSpaced(ts);
    RenderLine(ts, Gaps(ts));
    Understood(Printed(c), c);
  }
}
