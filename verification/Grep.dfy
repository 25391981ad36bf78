/** grep's matcher, against a declarative meaning of its patterns.
  *
  * Strings are without their closing NUL; a loop that stops at the NUL stops at the length. */
module Grep {
  /** A pattern as a list of items: one character, any character, a repetition, or the end. */
  datatype Item = Char(c: char) | Any | Star(c: char) | End

  function ItemOf(c: char): Item {
    if c == '.' then Any else Char(c)
  }

  function Items(re: string): seq<Item> {
    if re == "" then []
    else if |re| > 1 && re[1] == '*' then [Star(re[0])] + Items(re[2..])
    else if re == "$" then [End]
    else [ItemOf(re[0])] + Items(re[1..])
  }

  predicate IsOne(c: char, x: char) {
    c == '.' || c == x
  }

  /** The strings an item stands for. */
  predicate Stands(item: Item, w: string) {
    match item
    case Char(c) => w == [c]
    case Any => |w| == 1
    case Star(c) => forall k :: 0 <= k < |w| ==> IsOne(c, w[k])
    case End => w == ""
  }

  function Concat(pieces: seq<string>): string {
    if pieces == [] then "" else pieces[0] + Concat(pieces[1..])
  }

  predicate Fits(items: seq<Item>, pieces: seq<string>) {
    |pieces| == |items| && forall k :: 0 <= k < |items| ==> Stands(items[k], pieces[k])
  }

  /** The pieces spell a prefix of the text, all of it when the pattern ends in End. */
  predicate Spells(items: seq<Item>, pieces: seq<string>, text: string) {
    && Fits(items, pieces)
    && Concat(pieces) <= text
    && (End in items ==> Concat(pieces) == text)
  }

  /** A prefix of the text is one piece for each item, one after the other. */
  ghost predicate Accepts(items: seq<Item>, text: string) {
    exists pieces :: Spells(items, pieces, text)
  }

  // ---- how patterns are written ----

  function Written(item: Item): (w: string)
    ensures w != ""
  {
    match item
    case Char(c) => [c]
    case Any => "."
    case Star(c) => [c, '*']
    case End => "$"
  }

  function Printed(items: seq<Item>): string {
    if items == [] then "" else Written(items[0]) + Printed(items[1..])
  }

  /** The items that patterns are made of: '.' is any character; a '*' stands for itself only where it is first
    * or follows a repetition; '$' is the end where it is last, and only there. */
  predicate Legal(items: seq<Item>) {
    items == [] ||
    (&& items[0] != Char('.')
     && (items[0] == End ==> items == [End]) && items != [Char('$')]
     && (|items| > 1 && !items[0].Star? ==> Written(items[1])[0] != '*')
     && Legal(items[1..]))
  }

  /** Items reads each legal list from its own text. */
  lemma {:induction false} ItemsOfPrinted(items: seq<Item>)
    requires Legal(items)
    ensures Items(Printed(items)) == items
  {
    if items != [] {
      var x, rest := items[0], Printed(items[1..]);
      ItemsOfPrinted(items[1..]);
      assert items == [x] + items[1..];
      if |items| > 1 { assert rest == Written(items[1]) + Printed(items[1..][1..]); }
      if x.Star? {
        assert Printed(items)[2..] == rest;
      } else {
        assert Printed(items)[1..] == rest;
      }
    }
  }

  /** And each text is that of the legal list that Items reads from it. */
  lemma {:induction false} PrintedItems(re: string)
    ensures Legal(Items(re)) && Printed(Items(re)) == re
  {
    if re != "" {
      var n := if |re| > 1 && re[1] == '*' then 2 else 1;
      PrintedItems(re[n..]);
      if n == 2 {
        assert Items(re)[1..] == Items(re[2..]) && re == [re[0], '*'] + re[2..];
      } else if re == "$" {
        assert Items(re)[1..] == [];
      } else {
        assert Items(re)[1..] == Items(re[1..]) && re == [re[0]] + re[1..];
        if re[1..] != "" { assert Items(re[1..]) != [] && Printed(Items(re[1..]))[0] == re[1]; }
      }
    }
  }

  // ---- the meaning, one item at a time ----

  lemma Split(items: seq<Item>, pieces: seq<string>, text: string)
    requires items != [] && Spells(items, pieces, text)
    ensures pieces != [] && pieces[0] <= text && Stands(items[0], pieces[0])
    ensures items[0] != End ==> Spells(items[1..], pieces[1..], text[|pieces[0]|..])
  {
    var rest := text[|pieces[0]|..];
    assert Concat(pieces) == pieces[0] + Concat(pieces[1..]);
    assert pieces[0] <= text;
    assert text == pieces[0] + rest;
    forall k | 0 <= k < |items[1..]| ensures Stands(items[1..][k], pieces[1..][k]) {
      assert Stands(items[k + 1], pieces[k + 1]);
    }
    assert Concat(pieces[1..]) <= rest;
    if End in items[1..] {
      assert End in items;
    }
  }

  lemma Join(item: Item, rest: seq<Item>, w: string, pieces: seq<string>, text: string)
    requires item != End && Stands(item, w) && w <= text && Spells(rest, pieces, text[|w|..])
    ensures Spells([item] + rest, [w] + pieces, text)
  {
    var items, all := [item] + rest, [w] + pieces;
    assert all[1..] == pieces;
    assert text == w + text[|w|..];
    forall k | 0 <= k < |items| ensures Stands(items[k], all[k]) {
      if k > 0 { assert Stands(rest[k - 1], pieces[k - 1]); }
    }
    if End in items {
      assert End in rest;
    }
  }

  lemma AcceptsNothing(text: string)
    ensures Accepts([], text)
  {
    assert Spells([], [], text);
  }

  lemma AcceptsEnd(text: string)
    ensures Accepts([End], text) <==> text == ""
  {
    assert Concat([""]) == "" && End in [End];
    if text == "" {
      assert Spells([End], [""], text);
    }
    if Accepts([End], text) {
      var pieces :| Spells([End], pieces, text);
      assert Stands([End][0], pieces[0]);
      assert pieces == [""];
    }
  }

  lemma AcceptsOne(c: char, rest: seq<Item>, text: string)
    ensures Accepts([ItemOf(c)] + rest, text) <==> text != "" && IsOne(c, text[0]) && Accepts(rest, text[1..])
  {
    var items := [ItemOf(c)] + rest;
    if Accepts(items, text) {
      var pieces :| Spells(items, pieces, text);
      Split(items, pieces, text);
      assert items[1..] == rest;
    }
    if text != "" && IsOne(c, text[0]) && Accepts(rest, text[1..]) {
      var pieces :| Spells(rest, pieces, text[1..]);
      Join(ItemOf(c), rest, [text[0]], pieces, text);
    }
  }

  /** k characters of the text are repetitions of c, and the rest is accepted. */
  ghost predicate Repeats(c: char, rest: seq<Item>, text: string, k: nat) {
    k <= |text| && Stands(Star(c), text[..k]) && Accepts(rest, text[k..])
  }

  lemma AcceptsStar(c: char, rest: seq<Item>, text: string)
    ensures Accepts([Star(c)] + rest, text) <==> exists k: nat :: Repeats(c, rest, text, k)
  {
    var items := [Star(c)] + rest;
    if Accepts(items, text) {
      var pieces :| Spells(items, pieces, text);
      Split(items, pieces, text);
      assert items[1..] == rest;
      assert text[..|pieces[0]|] == pieces[0];
      assert Repeats(c, rest, text, |pieces[0]|);
    }
    if k: nat :| Repeats(c, rest, text, k) {
      var pieces :| Spells(rest, pieces, text[k..]);
      Join(Star(c), rest, text[..k], pieces, text);
    }
  }

  // ---- the matcher ----

  method MatchHere(re: string, text: string) returns (r: bool)
    ensures r <==> Accepts(Items(re), text)
    decreases |re|, 0
  {
    if re == "" {
      AcceptsNothing(text);
      return true;
    }
    if |re| > 1 && re[1] == '*' {
      r := MatchStar(re[0], re[2..], text);
      return;
    }
    if re == "$" {
      AcceptsEnd(text);
      return text == "";
    }
    AcceptsOne(re[0], Items(re[1..]), text);
    if text != "" && (re[0] == '.' || re[0] == text[0]) {
      r := MatchHere(re[1..], text[1..]);
      return;
    }
    return false;
  }

  method MatchStar(c: char, re: string, text: string) returns (r: bool)
    ensures r <==> Accepts([Star(c)] + Items(re), text)
    decreases |re|, 1
  {
    AcceptsStar(c, Items(re), text);
    var i := 0;
    while true
      invariant i <= |text| && Stands(Star(c), text[..i])
      invariant forall k: nat :: k < i ==> !Repeats(c, Items(re), text, k)
      decreases |text| - i
    {
      r := MatchHere(re, text[i..]);
      if r {
        assert Repeats(c, Items(re), text, i);
        return true;
      }
      if i == |text| || !(text[i] == c || c == '.') {
        break;
      }
      i := i + 1;
    }
    forall k: nat ensures !Repeats(c, Items(re), text, k) {
      if k > i && k <= |text| {
        assert text[..k][i] == text[i];
      }
    }
    return false;
  }

  /** The text matches when the pattern accepts some suffix of it, or the whole after a leading ^. */
  method Match(re: string, text: string) returns (r: bool)
    ensures re != "" && re[0] == '^' ==> (r <==> Accepts(Items(re[1..]), text))
    ensures re == "" || re[0] != '^' ==> (r <==> exists k: nat :: k <= |text| && Accepts(Items(re), text[k..]))
  {
    if re != "" && re[0] == '^' {
      r := MatchHere(re[1..], text);
      return;
    }
    var i := 0;
    while true
      invariant i <= |text|
      invariant forall k: nat :: k < i ==> !Accepts(Items(re), text[k..])
      decreases |text| - i
    {
      r := MatchHere(re, text[i..]);
      if r || i == |text| {
        return;
      }
      i := i + 1;
    }
  }
}
