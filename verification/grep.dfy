/** grep.c: the matcher, against the meaning of a pattern as a set of strings. */
module Grep {
  /** A pattern: single characters and starred ones, the dot standing for any, and whether a final
      dollar ties it to the end of the text. */
  datatype Item = One(c: char) | Star(c: char)
  datatype Pattern = Pattern(items: seq<Item>, tied: bool)

  // ----- spelling -----

  /** A pattern as it is typed. */
  function Spell(p: Pattern): (re: string)
    decreases |p.items|
  {
    if p.items == [] then (if p.tied then "$" else "")
    else (match p.items[0] case One(c) => [c] case Star(c) => [c, '*']) + Spell(Pattern(p.items[1..], p.tied))
  }

  /** A single character is not followed by a star, and a dollar at the very end is no character. */
  ghost predicate Legible(p: Pattern) {
    && (forall i :: 0 <= i < |p.items| - 1 && p.items[i].One? ==> p.items[i + 1].c != '*')
    && (p.items != [] && p.items[|p.items| - 1] == One('$') ==> p.tied)
  }

  /** re is how p is typed. */
  ghost predicate Spells(re: string, p: Pattern) {
    Legible(p) && Spell(p) == re
  }

  /** How the matcher takes a pattern apart. */
  function Read(re: string): (p: Pattern)
    decreases |re|
  {
    if re == "" then Pattern([], false)
    else if |re| > 1 && re[1] == '*' then var p := Read(re[2..]); Pattern([Star(re[0])] + p.items, p.tied)
    else if re == "$" then Pattern([], true)
    else var p := Read(re[1..]); Pattern([One(re[0])] + p.items, p.tied)
  }

  lemma {:induction false} ReadSpelled(p: Pattern)
    requires Legible(p)
    ensures Read(Spell(p)) == p
    decreases |p.items|
  {
    if p.items != [] {
      var q := Pattern(p.items[1..], p.tied);
      var it, rest := p.items[0], Spell(q);
      assert Legible(q) by {
        assert forall i :: 0 <= i < |q.items| ==> q.items[i] == p.items[i + 1];
      }
      ReadSpelled(q);
      assert p == Pattern([it] + q.items, q.tied);
      if it.One? {
        StartsWith(q);
        SpellOne(it.c, rest);
      } else {
        SpellStar(it.c, rest);
      }
    }
  }

  /** What the spelling of a pattern starts with. */
  lemma StartsWith(p: Pattern)
    ensures Spell(p) == "" <==> p.items == [] && !p.tied
    ensures Spell(p) != "" ==> Spell(p)[0] == if p.items == [] then '$' else p.items[0].c
  {
  }

  lemma SpellOne(c: char, rest: string)
    requires (rest != "" ==> rest[0] != '*') && (c == '$' ==> rest != "")
    ensures Read([c] + rest) == Pattern([One(c)] + Read(rest).items, Read(rest).tied)
  {
    var re := [c] + rest;
    assert re[1..] == rest && (|re| > 1 ==> re[1] == rest[0]);
  }

  lemma SpellStar(c: char, rest: string)
    ensures Read([c, '*'] + rest) == Pattern([Star(c)] + Read(rest).items, Read(rest).tied)
  {
    var re := [c, '*'] + rest;
    assert re[2..] == rest && re[1] == '*';
  }

  /** Every string spells what is read from it. */
  lemma {:induction false} SpellRead(re: string)
    ensures Spells(re, Read(re))
    decreases |re|
  {
    if re == "" || re == "$" {
    } else if |re| > 1 && re[1] == '*' {
      SpellRead(re[2..]);
      ReadFirst(Star(re[0]), Read(re[2..]));
      assert re == [re[0], '*'] + re[2..];
    } else {
      SpellRead(re[1..]);
      ReadFirst(One(re[0]), Read(re[1..]));
      StartsWith(Read(re[1..]));
      assert re == [re[0]] + re[1..];
    }
  }

  lemma ReadFirst(it: Item, p: Pattern)
    requires Legible(p) && (it.One? && Spell(p) != "" ==> Spell(p)[0] != '*') && (it == One('$') ==> Spell(p) != "")
    ensures var q := Pattern([it] + p.items, p.tied);
      Legible(q) && Spell(q) == (match it case One(c) => [c] case Star(c) => [c, '*']) + Spell(p)
  {
    var q := Pattern([it] + p.items, p.tied);
    assert q.items[1..] == p.items;
    StartsWith(p);
    assert forall i :: 1 <= i < |q.items| ==> q.items[i] == p.items[i - 1];
  }

  /** Every string spells exactly one pattern, the one that is read from it. */
  lemma Reading(re: string, p: Pattern)
    ensures Spells(re, p) <==> p == Read(re)
  {
    SpellRead(re);
    if Legible(p) {
      ReadSpelled(p);
    }
  }

  // ----- meaning -----

  predicate Fits(c: char, x: char) {
    c == '.' || c == x
  }

  ghost predicate Piece(it: Item, w: string) {
    match it
    case One(c) => |w| == 1 && Fits(c, w[0])
    case Star(c) => forall k :: 0 <= k < |w| ==> Fits(c, w[k])
  }

  function Concat(parts: seq<string>): (w: string) {
    if parts == [] then "" else parts[0] + Concat(parts[1..])
  }

  /** One part for each item. */
  ghost predicate Parts(items: seq<Item>, parts: seq<string>) {
    |parts| == |items| && forall i :: 0 <= i < |items| ==> Piece(items[i], parts[i])
  }

  /** w is in the language of the items: it is made of a part for each. */
  ghost predicate In(items: seq<Item>, w: string) {
    exists parts :: Parts(items, parts) && Concat(parts) == w
  }

  /** Some prefix of the text is in the language; all of it, if the pattern is tied. */
  ghost predicate Here(p: Pattern, text: string) {
    exists k :: 0 <= k <= |text| && In(p.items, text[..k]) && (p.tied ==> k == |text|)
  }

  /** What re spells matches at the start of the text. */
  ghost predicate MatchesHere(re: string, text: string) {
    exists p :: Spells(re, p) && Here(p, text)
  }

  lemma HereRead(re: string, text: string)
    ensures MatchesHere(re, text) <==> Here(Read(re), text)
  {
    Reading(re, Read(re));
    forall p | Spells(re, p) ensures p == Read(re) {
      Reading(re, p);
    }
  }

  /** grep's whole pattern: a leading caret ties it to the start. */
  ghost predicate Found(re: string, text: string) {
    if re != "" && re[0] == '^' then MatchesHere(re[1..], text)
    else exists i :: 0 <= i <= |text| && MatchesHere(re, text[i..])
  }

  // ----- taking off the first item -----

  lemma InNothing(w: string)
    ensures In([], w) <==> w == ""
  {
    if w == "" {
      assert Parts([], []) && Concat([]) == w;
    }
  }

  /** A string is in the language exactly if a piece for the first item can be taken off its front. */
  lemma InCons(it: Item, items: seq<Item>, w: string)
    ensures In([it] + items, w) <==> exists j :: 0 <= j <= |w| && Piece(it, w[..j]) && In(items, w[j..])
  {
    var all := [it] + items;
    if In(all, w) {
      var parts :| Parts(all, parts) && Concat(parts) == w;
      var j := |parts[0]|;
      assert w[..j] == parts[0] && w[j..] == Concat(parts[1..]);
      assert Piece(all[0], parts[0]);
      assert Parts(items, parts[1..]) by {
        forall i | 0 <= i < |items| ensures Piece(items[i], parts[1..][i]) {
          assert Piece(all[i + 1], parts[i + 1]);
        }
      }
      assert In(items, w[j..]);
    }
    if j :| 0 <= j <= |w| && Piece(it, w[..j]) && In(items, w[j..]) {
      var rest :| Parts(items, rest) && Concat(rest) == w[j..];
      var parts := [w[..j]] + rest;
      assert parts[1..] == rest && w[..j] + w[j..] == w;
      assert Parts(all, parts) && Concat(parts) == w;
    }
  }

  /** The same for the start of a text. */
  lemma HereCons(it: Item, p: Pattern, text: string)
    ensures Here(Pattern([it] + p.items, p.tied), text) <==>
      exists j :: 0 <= j <= |text| && Piece(it, text[..j]) && Here(p, text[j..])
  {
    var q := Pattern([it] + p.items, p.tied);
    if Here(q, text) {
      var k :| 0 <= k <= |text| && In(q.items, text[..k]) && (p.tied ==> k == |text|);
      InCons(it, p.items, text[..k]);
      var j :| 0 <= j <= k && Piece(it, text[..k][..j]) && In(p.items, text[..k][j..]);
      HereThen(it, p, text, j, k);
    }
    if j :| 0 <= j <= |text| && Piece(it, text[..j]) && Here(p, text[j..]) {
      var m :| 0 <= m <= |text[j..]| && In(p.items, text[j..][..m]) && (p.tied ==> m == |text[j..]|);
      HereBefore(it, p, text, j, m);
    }
  }

  lemma HereThen(it: Item, p: Pattern, text: string, j: nat, k: nat)
    requires j <= k <= |text| && Piece(it, text[..k][..j]) && In(p.items, text[..k][j..]) && (p.tied ==> k == |text|)
    ensures Piece(it, text[..j]) && Here(p, text[j..])
  {
    assert text[..k][..j] == text[..j] && text[..k][j..] == text[j..][..k - j];
  }

  lemma HereBefore(it: Item, p: Pattern, text: string, j: nat, m: nat)
    requires j + m <= |text| && Piece(it, text[..j]) && In(p.items, text[j..][..m]) && (p.tied ==> j + m == |text|)
    ensures Here(Pattern([it] + p.items, p.tied), text)
  {
    var k := j + m;
    InCons(it, p.items, text[..k]);
    assert text[..k][..j] == text[..j] && text[..k][j..] == text[j..][..m];
    assert In([it] + p.items, text[..k]);
  }

  lemma HereEmpty(text: string)
    ensures Here(Pattern([], false), text) && (Here(Pattern([], true), text) <==> text == "")
  {
    assert text[..0] == "";
    InNothing("");
    forall k | 0 <= k <= |text| && In([], text[..k]) ensures k == 0 {
      InNothing(text[..k]);
    }
  }

  lemma HereOne(c: char, p: Pattern, text: string)
    ensures Here(Pattern([One(c)] + p.items, p.tied), text) <==> text != "" && Fits(c, text[0]) && Here(p, text[1..])
  {
    HereCons(One(c), p, text);
    if text != "" && Fits(c, text[0]) && Here(p, text[1..]) {
      assert Piece(One(c), text[..1]);
    }
  }

  /** Where a run of fitting characters stops. */
  lemma NoFurther(c: char, text: string, i: nat)
    requires i == |text| || (i < |text| && !Fits(c, text[i]))
    ensures forall j :: i < j <= |text| ==> !Piece(Star(c), text[..j])
  {
    forall j | i < j <= |text| ensures !Piece(Star(c), text[..j]) {
      assert text[..j][i] == text[i];
    }
  }

  // ----- the matcher -----

  method MatchHere(re: string, text: string) returns (r: bool)
    ensures r <==> MatchesHere(re, text)
    decreases |re|, 0
  {
    HereRead(re, text);
    HereEmpty(text);
    if re == "" {
      return true;
    }
    if |re| > 1 && re[1] == '*' {
      HereCons(Star(re[0]), Read(re[2..]), text);
      forall j | 0 <= j <= |text| ensures MatchesHere(re[2..], text[j..]) <==> Here(Read(re[2..]), text[j..]) {
        HereRead(re[2..], text[j..]);
      }
      r := MatchStar(re[0], re[2..], text);
      return;
    }
    if re[0] == '$' && |re| == 1 {
      return text == "";
    }
    HereOne(re[0], Read(re[1..]), text);
    HereRead(re[1..], if text == "" then "" else text[1..]);
    if text != "" && (re[0] == '.' || re[0] == text[0]) {
      r := MatchHere(re[1..], text[1..]);
      return;
    }
    return false;
  }

  /** Tries the rest of the pattern after zero, one, two, ... characters that fit. */
  method MatchStar(c: char, re: string, text: string) returns (r: bool)
    ensures r <==> exists j :: 0 <= j <= |text| && Piece(Star(c), text[..j]) && MatchesHere(re, text[j..])
    decreases |re|, 1
  {
    var i := 0;
    while true
      invariant 0 <= i <= |text| && Piece(Star(c), text[..i])
      invariant forall j :: 0 <= j < i ==> !MatchesHere(re, text[j..])
      decreases |text| - i
    {
      r := MatchHere(re, text[i..]);
      if r {
        return;
      }
      if i == |text| || !(text[i] == c || c == '.') {
        NoFurther(c, text, i);
        return;
      }
      i := i + 1;
    }
  }

  /** Tries every start, the empty end of the text included. */
  method Match(re: string, text: string) returns (r: bool)
    ensures r <==> Found(re, text)
  {
    if re != "" && re[0] == '^' {
      r := MatchHere(re[1..], text);
      return;
    }
    var i := 0;
    while true
      invariant 0 <= i <= |text| && forall j :: 0 <= j < i ==> !MatchesHere(re, text[j..])
      decreases |text| - i
    {
      r := MatchHere(re, text[i..]);
      if r {
        return;
      }
      if i == |text| {
        return;
      }
      i := i + 1;
    }
  }
}
