/** The shell's language as it is written: what a line consists of, how that is spelled and what it means. sh.c
    accepts exactly the spellings, and makes of them what they mean. */
module ShellGrammar {
  import opened ShellSyntax

  // ----- what a line consists of -----

  /** < file, > file or >> file; '+' stands for >>. */
  datatype Redirection = Redirection(sym: char, file: string)

  /** A word or a redirection of a simple command. */
  datatype Item = Arg(word: string) | Into(redir: Redirection)

  /** A simple command, its words and redirections in any order, or a line in parentheses and the redirections
      after it. */
  datatype Command = Plain(items: seq<Item>) | Group(line: Phrase, redirs: seq<Redirection>)

  /** Commands with bars between them. */
  datatype Piped = Last(cmd: Command) | Bar(cmd: Command, rest: Piped)

  /** Pipelines, each with amps ampersands after it, with semicolons between them. */
  datatype Phrase = Only(first: Piped, amps: nat) | Then(first: Piped, amps: nat, rest: Phrase)

  // ----- how it is spelled -----

  function RedirTokens(r: Redirection): (ts: seq<Token>) {
    [Sym(r.sym), Word(r.file)]
  }

  function RedirsTokens(rs: seq<Redirection>): (ts: seq<Token>) {
    if rs == [] then [] else RedirTokens(rs[0]) + RedirsTokens(rs[1..])
  }

  function ItemTokens(it: Item): (ts: seq<Token>) {
    match it
    case Arg(w) => [Word(w)]
    case Into(r) => RedirTokens(r)
  }

  function ItemsTokens(items: seq<Item>): (ts: seq<Token>) {
    if items == [] then [] else ItemTokens(items[0]) + ItemsTokens(items[1..])
  }

  function CommandTokens(c: Command): (ts: seq<Token>) {
    match c
    case Plain(items) => ItemsTokens(items)
    case Group(l, rs) => [Sym('(')] + (PhraseTokens(l) + ([Sym(')')] + RedirsTokens(rs)))
  }

  function PipedTokens(p: Piped): (ts: seq<Token>) {
    match p
    case Last(c) => CommandTokens(c)
    case Bar(c, q) => CommandTokens(c) + ([Sym('|')] + PipedTokens(q))
  }

  function Amps(n: nat): (ts: seq<Token>) {
    if n == 0 then [] else [Sym('&')] + Amps(n - 1)
  }

  function PhraseTokens(l: Phrase): (ts: seq<Token>) {
    match l
    case Only(p, n) => PipedTokens(p) + Amps(n)
    case Then(p, n, r) => PipedTokens(p) + (Amps(n) + ([Sym(';')] + PhraseTokens(r)))
  }

  // ----- what it means -----

  /** The words of a simple command. */
  function ArgsOf(items: seq<Item>): (ws: seq<string>) {
    if items == [] then []
    else (match items[0] case Arg(w) => [w] case Into(_) => []) + ArgsOf(items[1..])
  }

  /** Its redirections. */
  function RedirsOf(items: seq<Item>): (rs: seq<Redirection>) {
    if items == [] then []
    else (match items[0] case Arg(_) => [] case Into(r) => [r]) + RedirsOf(items[1..])
  }

  /** A command under redirections, the first one innermost. */
  function Wrap(c: Tree, rs: seq<Redirection>): (t: Tree)
    decreases |rs|
  {
    if rs == [] then c
    else
      var k := |rs| - 1;
      Redir(Wrap(c, rs[..k]), rs[k].file, rs[k].sym != '<')
  }

  function CommandMeans(c: Command): (t: Tree) {
    match c
    case Plain(items) => Wrap(Exec(ArgsOf(items)), RedirsOf(items))
    case Group(l, rs) => Wrap(PhraseMeans(l), rs)
  }

  function PipedMeans(p: Piped): (t: Tree) {
    match p
    case Last(c) => CommandMeans(c)
    case Bar(c, q) => Pipe(CommandMeans(c), PipedMeans(q))
  }

  function Behind(c: Tree, amps: nat): (t: Tree) {
    if amps == 0 then c else Back(Behind(c, amps - 1))
  }

  function PhraseMeans(l: Phrase): (t: Tree) {
    match l
    case Only(p, n) => Behind(PipedMeans(p), n)
    case Then(p, n, r) => List(Behind(PipedMeans(p), n), PhraseMeans(r))
  }

  // ----- what is allowed -----

  ghost predicate RedirsOk(rs: seq<Redirection>) {
    forall k :: 0 <= k < |rs| ==> rs[k].sym == '<' || rs[k].sym == '>' || rs[k].sym == '+'
  }

  /** The redirection symbols are these three, and no command has MAXARGS words. */
  ghost predicate CommandOk(c: Command) {
    match c
    case Plain(items) => |ArgsOf(items)| < MAXARGS && RedirsOk(RedirsOf(items))
    case Group(l, rs) => PhraseOk(l) && RedirsOk(rs)
  }

  ghost predicate PipedOk(p: Piped) {
    match p
    case Last(c) => CommandOk(c)
    case Bar(c, q) => CommandOk(c) && PipedOk(q)
  }

  ghost predicate PhraseOk(l: Phrase) {
    match l
    case Only(p, _) => PipedOk(p)
    case Then(p, _, r) => PipedOk(p) && PhraseOk(r)
  }

  lemma ItemsCons(it: Item, items: seq<Item>)
    ensures var all := [it] + items;
      && ItemsTokens(all) == ItemTokens(it) + ItemsTokens(items)
      && ArgsOf(all) == (if it.Arg? then [it.word] + ArgsOf(items) else ArgsOf(items))
      && RedirsOf(all) == (if it.Into? then [it.redir] + RedirsOf(items) else RedirsOf(items))
  {
    var all := [it] + items;
    assert all[0] == it && all[1..] == items;
  }

  lemma Assoc<T>(a: seq<T>, b: seq<T>, c: seq<T>)
    ensures a + b + c == a + (b + c)
  {
  }

  // ----- every spelling is accepted -----

  lemma {:induction false} WrapFirst(c: Tree, r: Redirection, rs: seq<Redirection>)
    ensures Wrap(c, [r] + rs) == Wrap(Redir(c, r.file, r.sym != '<'), rs)
    decreases |rs|
  {
    if rs == [] {
      assert ([r] + rs)[..0] == [];
    } else {
      var k := |rs| - 1;
      WrapFirst(c, r, rs[..k]);
      assert ([r] + rs)[..k + 1] == [r] + rs[..k];
    }
  }

  lemma {:induction false} WrapArgs(argv: seq<string>, was: seq<string>, rs: seq<Redirection>)
    ensures WithArgs(Wrap(Exec(was), rs), argv) == Wrap(Exec(argv), rs)
    decreases |rs|
  {
    if rs != [] {
      WrapArgs(argv, was, rs[..|rs| - 1]);
    }
  }

  /** One redirection in front. */
  lemma RedirsFirst(c: Tree, r: Redirection, tail: seq<Token>)
    requires RedirsOk([r])
    ensures Redirs(c, RedirTokens(r) + tail) == Redirs(Redir(c, r.file, r.sym != '<'), tail)
  {
    assert [r][0] == r;
    var ts := RedirTokens(r) + tail;
    assert ts[0] == Sym(r.sym) && ts[1] == Word(r.file) && ts[2..] == tail;
  }

  lemma {:induction false} RedirsRead(c: Tree, rs: seq<Redirection>, rest: seq<Token>)
    requires RedirsOk(rs) && !AtRedir(rest)
    ensures Redirs(c, RedirsTokens(rs) + rest) == Good(Wrap(c, rs), rest)
    decreases |rs|
  {
    if rs == [] {
      assert RedirsTokens(rs) + rest == rest;
    } else {
      var r, tail := rs[0], RedirsTokens(rs[1..]) + rest;
      assert RedirsTokens(rs) + rest == RedirTokens(r) + tail;
      RedirsFirst(c, r, tail);
      RedirsRead(Redir(c, r.file, r.sym != '<'), rs[1..], rest);
      WrapFirst(c, r, rs[1..]);
      assert [r] + rs[1..] == rs;
    }
  }

  /** parseexec from where it looks for redirections. */
  function Going(c: Tree, argv: seq<string>, ts: seq<Token>): (r: Parsed) {
    match Redirs(c, ts)
    case Bad => Bad
    case Good(d, rest) => Args(d, argv, rest)
  }

  lemma GoingRedir(c: Tree, argv: seq<string>, r: Redirection, tail: seq<Token>)
    requires RedirsOk([r])
    ensures Going(c, argv, RedirTokens(r) + tail) == Going(Redir(c, r.file, r.sym != '<'), argv, tail)
  {
    RedirsFirst(c, r, tail);
  }

  lemma GoingArg(c: Tree, argv: seq<string>, w: string, tail: seq<Token>)
    requires |argv| + 1 < MAXARGS
    ensures Going(c, argv, [Word(w)] + tail) == Going(c, argv + [w], tail)
  {
    var ts := [Word(w)] + tail;
    assert ts[0] == Word(w) && ts[1..] == tail;
  }

  lemma GoingEnds(c: Tree, argv: seq<string>, rest: seq<Token>)
    requires AtEnd(rest)
    ensures Going(c, argv, rest) == Good(WithArgs(c, argv), rest)
  {
  }

  /** The items of a simple command one after the other, from any point on. */
  lemma {:induction false} ItemsRead(c: Tree, argv: seq<string>, items: seq<Item>, rest: seq<Token>)
    requires AtEnd(rest) && |argv| + |ArgsOf(items)| < MAXARGS && RedirsOk(RedirsOf(items))
    ensures Going(c, argv, ItemsTokens(items) + rest) == Good(WithArgs(Wrap(c, RedirsOf(items)), argv + ArgsOf(items)), rest)
    decreases |items|
  {
    if items == [] {
      assert ItemsTokens(items) + rest == rest && argv + ArgsOf(items) == argv;
      GoingEnds(c, argv, rest);
    } else {
      var it, more := items[0], items[1..];
      assert items == [it] + more;
      ItemsCons(it, more);
      Assoc(ItemTokens(it), ItemsTokens(more), rest);
      if it.Arg? {
        GoingArg(c, argv, it.word, ItemsTokens(more) + rest);
        ItemsRead(c, argv + [it.word], more, rest);
        Assoc(argv, [it.word], ArgsOf(more));
      } else {
        RedirsLess(it.redir, RedirsOf(more));
        GoingRedir(c, argv, it.redir, ItemsTokens(more) + rest);
        ItemsRead(Redir(c, it.redir.file, it.redir.sym != '<'), argv, more, rest);
        WrapFirst(c, it.redir, RedirsOf(more));
      }
    }
  }

  lemma RedirsLess(r: Redirection, rs: seq<Redirection>)
    ensures RedirsOk([r] + rs) <==> RedirsOk([r]) && RedirsOk(rs)
  {
    assert ([r] + rs)[0] == r && ([r] + rs)[1..] == rs;
    if RedirsOk([r] + rs) {
      forall k | 0 <= k < |rs| ensures rs[k] == ([r] + rs)[k + 1] {}
      assert [r][0] == ([r] + rs)[0];
    }
    if RedirsOk([r]) {
      assert [r][0] == r;
    }
  }

  /** A simple command does not start with a parenthesis. */
  lemma ItemsStart(items: seq<Item>, rest: seq<Token>)
    requires AtEnd(rest) && RedirsOk(RedirsOf(items))
    ensures !Starts(ItemsTokens(items) + rest, '(')
  {
    if items == [] {
      assert ItemsTokens(items) + rest == rest;
    } else if items[0].Into? {
      RedirsLess(items[0].redir, RedirsOf(items[1..]));
      assert [items[0].redir][0] == items[0].redir;
    }
  }

  lemma PlainRead(items: seq<Item>, rest: seq<Token>)
    requires CommandOk(Plain(items)) && AtEnd(rest)
    ensures Simple(ItemsTokens(items) + rest) == Good(CommandMeans(Plain(items)), rest)
  {
    ItemsStart(items, rest);
    ItemsRead(Exec([]), [], items, rest);
    SimpleGoing(ItemsTokens(items) + rest);
    WrapArgs([] + ArgsOf(items), [], RedirsOf(items));
    assert [] + ArgsOf(items) == ArgsOf(items);
  }

  lemma SimpleGoing(ts: seq<Token>)
    requires !Starts(ts, '(')
    ensures Simple(ts) == Going(Exec([]), [], ts)
  {
  }

  lemma {:induction false} CommandRead(c: Command, rest: seq<Token>)
    requires CommandOk(c) && AtEnd(rest)
    ensures Simple(CommandTokens(c) + rest) == Good(CommandMeans(c), rest)
    decreases c
  {
    match c
    case Plain(items) => PlainRead(items, rest);
    case Group(l, rs) =>
      var close := [Sym(')')] + (RedirsTokens(rs) + rest);
      var ts := CommandTokens(c) + rest;
      assert ts[0] == Sym('(') && ts[1..] == PhraseTokens(l) + close;
      PhraseRead(l, close);
      assert close[1..] == RedirsTokens(rs) + rest;
      RedirsRead(PhraseMeans(l), rs, rest);
  }

  lemma {:induction false} PipedRead(p: Piped, rest: seq<Token>)
    requires PipedOk(p) && AtEnd(rest) && !Starts(rest, '|')
    ensures Pipeline(PipedTokens(p) + rest) == Good(PipedMeans(p), rest)
    decreases p
  {
    match p
    case Last(c) => CommandRead(c, rest);
    case Bar(c, q) =>
      var bar := [Sym('|')] + (PipedTokens(q) + rest);
      assert PipedTokens(p) + rest == CommandTokens(c) + bar;
      CommandRead(c, bar);
      assert bar[1..] == PipedTokens(q) + rest;
      PipedRead(q, rest);
  }

  lemma {:induction false} BehindIn(c: Tree, n: nat)
    ensures Behind(Back(c), n) == Back(Behind(c, n))
  {
    if n > 0 {
      BehindIn(c, n - 1);
    }
  }

  lemma {:induction false} BacksRead(c: Tree, n: nat, rest: seq<Token>)
    requires !Starts(rest, '&')
    ensures Backs(c, Amps(n) + rest) == (Behind(c, n), rest)
    decreases n
  {
    if n == 0 {
      assert Amps(n) + rest == rest;
    } else {
      var ts := Amps(n) + rest;
      assert ts[0] == Sym('&') && ts[1..] == Amps(n - 1) + rest;
      BacksRead(Back(c), n - 1, rest);
      BehindIn(c, n - 1);
    }
  }

  lemma AmpsEnd(n: nat, rest: seq<Token>)
    requires AtEnd(rest) && !Starts(rest, '|')
    ensures AtEnd(Amps(n) + rest) && !Starts(Amps(n) + rest, '|')
  {
    if n == 0 {
      assert Amps(n) + rest == rest;
    }
  }

  /** Nothing, or a closing parenthesis. */
  predicate Closes(rest: seq<Token>) {
    rest == [] || Starts(rest, ')')
  }

  lemma {:induction false} PhraseRead(l: Phrase, rest: seq<Token>)
    requires PhraseOk(l) && Closes(rest)
    ensures Line(PhraseTokens(l) + rest) == Good(PhraseMeans(l), rest)
    decreases l
  {
    match l
    case Only(p, n) =>
      assert PhraseTokens(l) + rest == PipedTokens(p) + (Amps(n) + rest);
      AmpsEnd(n, rest);
      PipedRead(p, Amps(n) + rest);
      BacksRead(PipedMeans(p), n, rest);
    case Then(p, n, r) =>
      var semi := [Sym(';')] + (PhraseTokens(r) + rest);
      assert PhraseTokens(l) + rest == PipedTokens(p) + (Amps(n) + semi);
      AmpsEnd(n, semi);
      PipedRead(p, Amps(n) + semi);
      BacksRead(PipedMeans(p), n, semi);
      assert semi[1..] == PhraseTokens(r) + rest;
      PhraseRead(r, rest);
  }

  // ----- only spellings are accepted -----

  lemma {:induction false} RedirsFrom(c: Tree, ts: seq<Token>) returns (rs: seq<Redirection>)
    requires Redirs(c, ts).Good?
    ensures RedirsOk(rs) && ts == RedirsTokens(rs) + Redirs(c, ts).rest && Redirs(c, ts).cmd == Wrap(c, rs)
    decreases |ts|
  {
    if !AtRedir(ts) {
      rs := [];
      assert RedirsTokens(rs) + ts == ts;
    } else {
      var r := Redirection(ts[0].c, ts[1].text);
      var more := RedirsFrom(Redir(c, r.file, r.sym != '<'), ts[2..]);
      rs := [r] + more;
      RedirsLess(r, more);
      assert RedirsOk([r]);
      WrapFirst(c, r, more);
      assert ts == RedirTokens(r) + ts[2..];
      RedirsCons(r, more, ts, ts[2..], Redirs(c, ts).rest);
    }
  }

  lemma RedirsCons(r: Redirection, rs: seq<Redirection>, ts: seq<Token>, us: seq<Token>, rest: seq<Token>)
    requires ts == RedirTokens(r) + us && us == RedirsTokens(rs) + rest
    ensures ts == RedirsTokens([r] + rs) + rest
  {
    assert ([r] + rs)[1..] == rs;
  }

  function Intos(rs: seq<Redirection>): (items: seq<Item>) {
    if rs == [] then [] else [Into(rs[0])] + Intos(rs[1..])
  }

  /** Redirections as items of a simple command, before others. */
  lemma {:induction false} IntosThen(rs: seq<Redirection>, items: seq<Item>)
    ensures ItemsTokens(Intos(rs) + items) == RedirsTokens(rs) + ItemsTokens(items)
    ensures ArgsOf(Intos(rs) + items) == ArgsOf(items) && RedirsOf(Intos(rs) + items) == rs + RedirsOf(items)
    decreases |rs|
  {
    if rs == [] {
      assert Intos(rs) + items == items && rs + RedirsOf(items) == RedirsOf(items);
    } else {
      IntosThen(rs[1..], items);
      ItemsCons(Into(rs[0]), Intos(rs[1..]) + items);
      Assoc([Into(rs[0])], Intos(rs[1..]), items);
      Assoc(RedirTokens(rs[0]), RedirsTokens(rs[1..]), ItemsTokens(items));
      Assoc([rs[0]], rs[1..], RedirsOf(items));
      assert rs == [rs[0]] + rs[1..];
    }
  }

  lemma {:induction false} WrapTwice(c: Tree, rs: seq<Redirection>, qs: seq<Redirection>)
    ensures Wrap(Wrap(c, rs), qs) == Wrap(c, rs + qs)
    decreases |qs|
  {
    if qs == [] {
      assert rs + qs == rs;
    } else {
      var k := |qs| - 1;
      WrapTwice(c, rs, qs[..k]);
      assert (rs + qs)[..|rs| + k] == rs + qs[..k];
    }
  }

  lemma RedirsBoth(rs: seq<Redirection>, qs: seq<Redirection>)
    requires RedirsOk(rs) && RedirsOk(qs)
    ensures RedirsOk(rs + qs)
  {
  }

  /** A word and the redirections after it, before other items. */
  lemma ArgThen(w: string, rs: seq<Redirection>, items: seq<Item>) returns (all: seq<Item>)
    requires RedirsOk(rs) && RedirsOk(RedirsOf(items))
    ensures ItemsTokens(all) == [Word(w)] + (RedirsTokens(rs) + ItemsTokens(items))
    ensures ArgsOf(all) == [w] + ArgsOf(items) && RedirsOf(all) == rs + RedirsOf(items) && RedirsOk(RedirsOf(all))
  {
    IntosThen(rs, items);
    RedirsBoth(rs, RedirsOf(items));
    all := [Arg(w)] + (Intos(rs) + items);
    ItemsCons(Arg(w), Intos(rs) + items);
  }

  lemma ArgMeans(c: Tree, d: Tree, argv: seq<string>, w: string, rs: seq<Redirection>, more: seq<Item>, items: seq<Item>)
    requires d == Wrap(c, rs) && ArgsOf(items) == [w] + ArgsOf(more) && RedirsOf(items) == rs + RedirsOf(more)
    ensures Wrap(d, RedirsOf(more)) == Wrap(c, RedirsOf(items)) && argv + [w] + ArgsOf(more) == argv + ArgsOf(items)
    ensures |argv + [w]| + |ArgsOf(more)| == |argv| + |ArgsOf(items)|
  {
    WrapTwice(c, rs, RedirsOf(more));
    Assoc(argv, [w], ArgsOf(more));
  }

  lemma {:induction false} ArgsFrom(c: Tree, argv: seq<string>, ts: seq<Token>) returns (items: seq<Item>)
    requires Args(c, argv, ts).Good? && |argv| < MAXARGS
    ensures var r := Args(c, argv, ts);
      && AtEnd(r.rest) && ts == ItemsTokens(items) + r.rest && |argv| + |ArgsOf(items)| < MAXARGS && RedirsOk(RedirsOf(items))
      && r.cmd == WithArgs(Wrap(c, RedirsOf(items)), argv + ArgsOf(items))
    decreases |ts|
  {
    if AtEnd(ts) {
      items := [];
      assert ItemsTokens(items) + ts == ts && argv + ArgsOf(items) == argv;
    } else {
      var w, d := ts[0].text, Redirs(c, ts[1..]);
      var rs := RedirsFrom(c, ts[1..]);
      var more := ArgsFrom(d.cmd, argv + [w], d.rest);
      items := ArgThen(w, rs, more);
      ArgMeans(c, d.cmd, argv, w, rs, more, items);
      assert ts == [Word(w)] + ts[1..];
      ThreeParts([Word(w)], RedirsTokens(rs), ItemsTokens(more), ts, ts[1..], d.rest, Args(c, argv, ts).rest);
    }
  }

  lemma ThreeParts(a: seq<Token>, b: seq<Token>, c: seq<Token>, ts: seq<Token>, us: seq<Token>, vs: seq<Token>, rest: seq<Token>)
    requires ts == a + us && us == b + vs && vs == c + rest
    ensures ts == a + (b + c) + rest
  {
  }

  lemma Regroup(a: seq<Token>, b: seq<Token>, c: seq<Token>, d: seq<Token>)
    ensures a + (b + (c + d)) == a + (b + c) + d
  {
  }

  lemma {:induction false} CommandFrom(ts: seq<Token>) returns (c: Command)
    requires Simple(ts).Good?
    ensures CommandOk(c) && ts == CommandTokens(c) + Simple(ts).rest && CommandMeans(c) == Simple(ts).cmd
    decreases |ts|, 0
  {
    if Starts(ts, '(') {
      var l := PhraseFrom(ts[1..]);
      var r := Line(ts[1..]);
      var rs := RedirsFrom(r.cmd, r.rest[1..]);
      c := Group(l, rs);
      GroupTokens(ts, l, r.rest, rs, Simple(ts).rest);
    } else {
      c := PlainFrom(ts);
    }
  }

  lemma GroupTokens(ts: seq<Token>, l: Phrase, inner: seq<Token>, rs: seq<Redirection>, rest: seq<Token>)
    requires Starts(ts, '(') && ts[1..] == PhraseTokens(l) + inner && Starts(inner, ')') && inner[1..] == RedirsTokens(rs) + rest
    ensures ts == CommandTokens(Group(l, rs)) + rest
  {
    assert ts == [Sym('(')] + ts[1..] && inner == [Sym(')')] + inner[1..];
  }

  lemma PlainFrom(ts: seq<Token>) returns (c: Command)
    requires Simple(ts).Good? && !Starts(ts, '(')
    ensures CommandOk(c) && ts == CommandTokens(c) + Simple(ts).rest && CommandMeans(c) == Simple(ts).cmd
  {
    var r := Redirs(Exec([]), ts);
    var rs := RedirsFrom(Exec([]), ts);
    var more := ArgsFrom(r.cmd, [], r.rest);
    IntosThen(rs, more);
    RedirsBoth(rs, RedirsOf(more));
    var items := Intos(rs) + more;
    c := Plain(items);
    PlainTokens(RedirsTokens(rs), ItemsTokens(more), ts, r.rest, Simple(ts).rest);
    PlainMeans(rs, more, items, r.cmd);
  }

  lemma PlainTokens(a: seq<Token>, b: seq<Token>, ts: seq<Token>, us: seq<Token>, rest: seq<Token>)
    requires ts == a + us && us == b + rest
    ensures ts == a + b + rest
  {
  }

  lemma PlainMeans(rs: seq<Redirection>, more: seq<Item>, items: seq<Item>, c: Tree)
    requires c == Wrap(Exec([]), rs) && ArgsOf(items) == ArgsOf(more) && RedirsOf(items) == rs + RedirsOf(more)
    ensures WithArgs(Wrap(c, RedirsOf(more)), [] + ArgsOf(more)) == CommandMeans(Plain(items))
  {
    var argv := ArgsOf(items);
    assert [] + ArgsOf(more) == argv;
    assert Wrap(c, RedirsOf(more)) == Wrap(Exec([]), RedirsOf(items)) by { WrapTwice(Exec([]), rs, RedirsOf(more)); }
    WrapArgs(argv, [], RedirsOf(items));
  }

  lemma {:induction false} PipedFrom(ts: seq<Token>) returns (p: Piped)
    requires Pipeline(ts).Good?
    ensures PipedOk(p) && ts == PipedTokens(p) + Pipeline(ts).rest && PipedMeans(p) == Pipeline(ts).cmd
    decreases |ts|, 1
  {
    var c := CommandFrom(ts);
    var rest := Simple(ts).rest;
    if Starts(rest, '|') {
      var q := PipedFrom(rest[1..]);
      p := Bar(c, q);
      assert rest == [Sym('|')] + rest[1..];
      Regroup(CommandTokens(c), [Sym('|')], PipedTokens(q), Pipeline(ts).rest);
    } else {
      p := Last(c);
    }
  }

  lemma {:induction false} BacksFrom(c: Tree, ts: seq<Token>) returns (n: nat)
    ensures ts == Amps(n) + Backs(c, ts).1 && Backs(c, ts).0 == Behind(c, n)
    decreases |ts|
  {
    if Starts(ts, '&') {
      var m := BacksFrom(Back(c), ts[1..]);
      n := m + 1;
      BehindIn(c, m);
      assert ts == [Sym('&')] + ts[1..];
    } else {
      n := 0;
      assert Amps(n) + ts == ts;
    }
  }

  lemma {:induction false} PhraseFrom(ts: seq<Token>) returns (l: Phrase)
    requires Line(ts).Good?
    ensures PhraseOk(l) && ts == PhraseTokens(l) + Line(ts).rest && PhraseMeans(l) == Line(ts).cmd
    decreases |ts|, 2
  {
    var p := PipedFrom(ts);
    var r := Pipeline(ts);
    var n := BacksFrom(r.cmd, r.rest);
    var rest := Backs(r.cmd, r.rest).1;
    if Starts(rest, ';') {
      var m := PhraseFrom(rest[1..]);
      l := Then(p, n, m);
      assert rest == [Sym(';')] + rest[1..];
      ThenTokens(PipedTokens(p), Amps(n), PhraseTokens(m), Line(ts).rest);
    } else {
      l := Only(p, n);
      assert PipedTokens(p) + (Amps(n) + rest) == PipedTokens(p) + Amps(n) + rest;
    }
  }

  lemma ThenTokens(a: seq<Token>, b: seq<Token>, c: seq<Token>, d: seq<Token>)
    ensures a + (b + ([Sym(';')] + (c + d))) == a + (b + ([Sym(';')] + c)) + d
  {
  }

  /** The tokens ts spell a line that means t. */
  ghost predicate Says(ts: seq<Token>, t: Tree) {
    exists l :: PhraseOk(l) && PhraseTokens(l) == ts && PhraseMeans(l) == t
  }

  /** The parser gets through the tokens with nothing left over exactly if they spell a line, and returns what that
      line means. */
  lemma Parses(ts: seq<Token>, t: Tree)
    ensures Line(ts) == Good(t, []) <==> Says(ts, t)
  {
    if Says(ts, t) {
      var l :| PhraseOk(l) && PhraseTokens(l) == ts && PhraseMeans(l) == t;
      PhraseRead(l, []);
      assert PhraseTokens(l) + [] == ts;
    }
    if Line(ts) == Good(t, []) {
      var l := PhraseFrom(ts);
      assert PhraseTokens(l) + [] == PhraseTokens(l);
    }
  }
}
