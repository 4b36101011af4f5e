/** grep.c: the regular-expression matcher against the meaning of patterns, and the line loop. A
    string stands for the characters before its NUL. */
module Grep {

  // ---- What a pattern means ----

  /** One character, or any number of them; '.' stands for every character. */
  datatype Item = One(c: char) | Many(c: char)

  /** A pattern without its leading '^': items, and whether they must reach the end of the text. */
  datatype Pattern = Pattern(items: seq<Item>, toEnd: bool)

  /** A '*' belongs to the character before it, whatever that is; '$' is special only as the last
      character. */
  function Parsed(re: string): Pattern
  {
    if re == "" then Pattern([], false)
    else if |re| > 1 && re[1] == '*' then Pattern([Many(re[0])] + Parsed(re[2..]).items, Parsed(re[2..]).toEnd)
    else if re == "$" then Pattern([], true)
    else Pattern([One(re[0])] + Parsed(re[1..]).items, Parsed(re[1..]).toEnd)
  }

  /** A pattern as it is written. */
  function Shown(items: seq<Item>, toEnd: bool): string
  {
    if items == [] then (if toEnd then "$" else "")
    else [items[0].c] + (if items[0].Many? then "*" else "") + Shown(items[1..], toEnd)
  }

  /** No item is written so that it would be read as something else: a '*' follows a single character only
      as its star, and a last '$' is the end of the text. */
  predicate Plain(items: seq<Item>, toEnd: bool)
  {
    && (forall k :: 0 <= k < |items| - 1 && items[k].One? ==> items[k + 1].c != '*')
    && (!toEnd && items != [] ==> items[|items| - 1] != One('$'))
  }

  /** One step of reading a pattern. */
  lemma FirstItem(re: string)
    requires re != "" && re != "$"
    ensures var n := if |re| > 1 && re[1] == '*' then 2 else 1;
      Parsed(re) == Pattern([if n == 2 then Many(re[0]) else One(re[0])] + Parsed(re[n..]).items, Parsed(re[n..]).toEnd)
  {
  }

  lemma {:induction false} ShowsBack(re: string)
    ensures Shown(Parsed(re).items, Parsed(re).toEnd) == re
  {
    if re != "" && re != "$" {
      var n := if |re| > 1 && re[1] == '*' then 2 else 1;
      FirstItem(re);
      ShowsBack(re[n..]);
      assert Parsed(re).items[1..] == Parsed(re[n..]).items;
      assert re == re[..n] + re[n..] && re[..n] == [re[0]] + (if n == 2 then "*" else "");
    }
  }

  lemma {:induction false} PlainBack(re: string)
    ensures Plain(Parsed(re).items, Parsed(re).toEnd)
    ensures Parsed(re).items != [] ==> re != "" && Parsed(re).items[0].c == re[0]
    ensures Parsed(re).items == [] && !Parsed(re).toEnd ==> re == ""
  {
    if re != "" && re != "$" {
      var n := if |re| > 1 && re[1] == '*' then 2 else 1;
      FirstItem(re);
      PlainBack(re[n..]);
      hide Parsed;
      var p, q := Parsed(re), Parsed(re[n..]);
      assert forall k :: 1 <= k < |p.items| ==> p.items[k] == q.items[k - 1];
    }
  }

  lemma {:induction false} ReadsAs(items: seq<Item>, toEnd: bool)
    requires Plain(items, toEnd)
    ensures Parsed(Shown(items, toEnd)) == Pattern(items, toEnd)
    decreases |items|
  {
    var re := Shown(items, toEnd);
    if items != [] {
      var rest := items[1..];
      assert Plain(rest, toEnd) by {
        assert forall k :: 0 <= k < |rest| ==> rest[k] == items[k + 1];
      }
      ReadsAs(rest, toEnd);
      var n := if items[0].Many? then 2 else 1;
      assert re[n..] == Shown(rest, toEnd);
      if rest != [] { assert Shown(rest, toEnd)[0] == items[1].c; }
      assert items == [items[0]] + rest;
    }
  }

  /** Every string is a pattern in exactly one way. */
  lemma ParsedExactly(re: string, p: Pattern)
    ensures Parsed(re) == p <==> Shown(p.items, p.toEnd) == re && Plain(p.items, p.toEnd)
  {
    ShowsBack(re);
    PlainBack(re);
    if Plain(p.items, p.toEnd) {
      ReadsAs(p.items, p.toEnd);
    }
  }

  predicate Accepts(c: char, x: char) { c == '.' || c == x }

  /** A piece of text that an item stands for. */
  ghost predicate Fits(item: Item, piece: string)
  {
    && (item.One? ==> |piece| == 1)
    && forall k :: 0 <= k < |piece| ==> Accepts(item.c, piece[k])
  }

  function Flat(pieces: seq<string>): string
  {
    if pieces == [] then "" else pieces[0] + Flat(pieces[1..])
  }

  /** The pieces, one for each item in order, make up the first j characters of the text. */
  ghost predicate Cuts(p: Pattern, text: string, j: nat, pieces: seq<string>)
  {
    && j <= |text| && (p.toEnd ==> j == |text|) && Flat(pieces) == text[..j] && |pieces| == |p.items|
    && forall k :: 0 <= k < |pieces| ==> Fits(p.items[k], pieces[k])
  }

  /** The pattern matches at the beginning of the text. */
  ghost predicate Here(p: Pattern, text: string)
  {
    exists j, pieces :: Cuts(p, text, j, pieces)
  }

  /** The pattern matches the text: at its beginning after '^', else anywhere in it. */
  ghost predicate Matches(re: string, text: string)
  {
    if re != "" && re[0] == '^' then Here(Parsed(re[1..]), text)
    else exists i :: 0 <= i <= |text| && Here(Parsed(re), text[i..])
  }

  lemma HereNil(p: Pattern, text: string)
    requires p.items == []
    ensures Here(p, text) <==> (p.toEnd ==> text == "")
  {
    if p.toEnd ==> text == "" {
      assert Cuts(p, text, 0, []);
    }
  }

  lemma HereOne(c: char, rest: seq<Item>, toEnd: bool, text: string)
    ensures Here(Pattern([One(c)] + rest, toEnd), text) <==>
            text != "" && Accepts(c, text[0]) && Here(Pattern(rest, toEnd), text[1..])
  {
    var p, q := Pattern([One(c)] + rest, toEnd), Pattern(rest, toEnd);
    if Here(p, text) {
      var j, pieces :| Cuts(p, text, j, pieces);
      assert Fits(p.items[0], pieces[0]) && pieces[0] == text[..1];
      Tail(p, text, j, pieces);
    }
    if text != "" && Accepts(c, text[0]) && Here(q, text[1..]) {
      var j, pieces :| Cuts(q, text[1..], j, pieces);
      Prepend(One(c), q, text, 1, j, pieces);
    }
  }

  /** The first k characters all fit a starred item. */
  ghost predicate Run(c: char, text: string, k: nat)
  {
    k <= |text| && forall x :: 0 <= x < k ==> Accepts(c, text[x])
  }

  lemma HereMany(c: char, rest: seq<Item>, toEnd: bool, text: string)
    ensures Here(Pattern([Many(c)] + rest, toEnd), text) <==>
            exists k: nat :: Run(c, text, k) && Here(Pattern(rest, toEnd), text[k..])
  {
    var p, q := Pattern([Many(c)] + rest, toEnd), Pattern(rest, toEnd);
    if Here(p, text) {
      var j, pieces :| Cuts(p, text, j, pieces);
      assert Fits(p.items[0], pieces[0]);
      Tail(p, text, j, pieces);
      assert forall x :: 0 <= x < |pieces[0]| ==> text[x] == pieces[0][x];
      assert Run(c, text, |pieces[0]|);
    }
    if k: nat :| Run(c, text, k) && Here(q, text[k..]) {
      var j, pieces :| Cuts(q, text[k..], j, pieces);
      Prepend(Many(c), q, text, k, j, pieces);
    }
  }

  /** The pieces after the first are a cut of the text after it. */
  lemma Tail(p: Pattern, text: string, j: nat, pieces: seq<string>)
    requires Cuts(p, text, j, pieces) && p.items != []
    ensures |pieces[0]| <= j && pieces[0] == text[..|pieces[0]|]
    ensures Cuts(p.(items := p.items[1..]), text[|pieces[0]|..], j - |pieces[0]|, pieces[1..])
  {
    var n := |pieces[0]|;
    var t := text[..j];
    assert t == pieces[0] + Flat(pieces[1..]);
    assert pieces[0] == t[..n] && Flat(pieces[1..]) == t[n..];
    assert t[n..] == text[n..][..j - n];
  }

  lemma Prepend(item: Item, q: Pattern, text: string, k: nat, j: nat, pieces: seq<string>)
    requires k <= |text| && Cuts(q, text[k..], j, pieces) && Fits(item, text[..k])
    ensures Cuts(Pattern([item] + q.items, q.toEnd), text, k + j, [text[..k]] + pieces)
  {
    assert ([text[..k]] + pieces)[1..] == pieces;
    assert text[..k] + text[k..][..j] == text[..k + j];
  }

  // ---- The matcher ----

  method Match(re: string, text: string) returns (r: bool)
    ensures r <==> Matches(re, text)
  {
    if re != "" && re[0] == '^' {
      r := MatchHere(re[1..], text);
      return;
    }
    var i := 0;
    while true
      invariant i <= |text| && forall x :: 0 <= x < i ==> !Here(Parsed(re), text[x..])
      decreases |text| - i
    {
      r := MatchHere(re, text[i..]);
      if r {
        return;
      }
      if i == |text| {
        break;
      }
      i := i + 1;
    }
    r := false;
  }

  method MatchHere(re: string, text: string) returns (r: bool)
    ensures r <==> Here(Parsed(re), text)
    decreases |re|, 0
  {
    if re == "" {
      HereNil(Parsed(re), text);
      return true;
    }
    if |re| > 1 && re[1] == '*' {
      r := MatchStar(re[0], re[2..], text);
      return;
    }
    if re[0] == '$' && |re| == 1 {
      assert re == "$";
      HereNil(Parsed(re), text);
      return text == "";
    }
    HereOne(re[0], Parsed(re[1..]).items, Parsed(re[1..]).toEnd, text);
    if text != "" && (re[0] == '.' || re[0] == text[0]) {
      r := MatchHere(re[1..], text[1..]);
      return;
    }
    r := false;
  }

  method MatchStar(c: char, re: string, text: string) returns (r: bool)
    ensures r <==> Here(Pattern([Many(c)] + Parsed(re).items, Parsed(re).toEnd), text)
    decreases |re|, 1
  {
    HereMany(c, Parsed(re).items, Parsed(re).toEnd, text);
    var i := 0;
    while true
      invariant Run(c, text, i) && forall k :: 0 <= k < i ==> !Here(Parsed(re), text[k..])
      decreases |text| - i
    {
      r := MatchHere(re, text[i..]);
      if r {
        return;
      }
      if i == |text| || !(text[i] == c || c == '.') {
        break;
      }
      i := i + 1;
    }
    forall k: nat | Run(c, text, k) ensures !Here(Parsed(re), text[k..]) {
      assert k > i ==> Accepts(c, text[i]);
    }
    r := false;
  }
}
