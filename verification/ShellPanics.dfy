/** What each of the parser's panics says of the line. */
module ShellPanics {
  import opened ShellGrammar
  import opened ShellRoundTrip
  import opened Shell
  import opened ShellDerivation

  /** The parser stops at token k with this panic. */
  ghost predicate PanicAt(p: Panic, toks: seq<Tok>, k: nat) {
    k <= |toks| &&
    match p
    case MissingFile => k > 0 && IsArrow(toks[k - 1].kind) && (k == |toks| || toks[k].kind != 'a')
    case Syntax => 0 < k < |toks| && toks[k].kind == '(' && toks[k - 1].kind == 'a'
    case TooManyArgs =>
      k < |toks| && toks[k].kind == 'a' && exists items :: ItemsOk(items) && |ArgsOf(items)| == MAXARGS
                                                           && EndsWith(toks[..k + 1], ItemsToks(items))
    case MissingParen =>
      && (k == |toks| || toks[k].kind != ')')
      && exists open: Tok, body :: open.kind == '(' && Derives(body, 0) && EndsWith(toks[..k], [open] + Yield(body))
    case Leftovers => k < |toks| && exists d :: Derives(d, 0) && toks[..k] == Yield(d)
    case NoBlock => false
  }

  ghost predicate EndsWith(toks: seq<Tok>, end: seq<Tok>) {
    |end| <= |toks| && toks[|toks| - |end|..] == end
  }

  ghost predicate Panics(p: Panic, toks: seq<Tok>) {
    exists k: nat :: PanicAt(p, toks, k)
  }

  lemma EndsLater(before: seq<Tok>, toks: seq<Tok>, end: seq<Tok>)
    requires EndsWith(toks, end)
    ensures EndsWith(before + toks, end)
  {
    var all := before + toks;
    assert all[|all| - |end|..] == toks[|toks| - |end|..];
  }

  /** A panic stays one with more tokens before, except that what is left over is left over of a whole line. */
  lemma PanicsLater(p: Panic, before: seq<Tok>, toks: seq<Tok>)
    requires Panics(p, toks) && p != Leftovers
    ensures Panics(p, before + toks)
  {
    var k: nat :| PanicAt(p, toks, k);
    var all := before + toks;
    var j := |before| + k;
    assert all[..j] == before + toks[..k];
    if p.TooManyArgs? {
      var items :| ItemsOk(items) && |ArgsOf(items)| == MAXARGS && EndsWith(toks[..k + 1], ItemsToks(items));
      assert all[..j + 1] == before + toks[..k + 1];
      EndsLater(before, toks[..k + 1], ItemsToks(items));
    } else if p.MissingParen? {
      var open: Tok, body :| open.kind == '(' && Derives(body, 0) && EndsWith(toks[..k], [open] + Yield(body));
      EndsLater(before, toks[..k], [open] + Yield(body));
    }
    assert PanicAt(p, all, j);
  }

  lemma {:induction false} ArrowsPanic(s: string, c: Cmd<Span>, i: nat)
    requires NulFree(s) && i <= |s| && Redirs(s, c, i).Err?
    ensures Redirs(s, c, i).panic == MissingFile && Panics(MissingFile, TokensFrom(s, i))
    decreases |s| - i
  {
    hide TokensFrom, GetToken, Peek, Skip;
    NextToken(s, i);
    var toks := TokensFrom(s, i);
    var op := GetToken(s, Skip(s, i));
    NextToken(s, op.next);
    TokensSkip(s, op.next);
    var file := GetToken(s, op.next);
    assert toks == [toks[0]] + toks[1..];
    if file.kind == 'a' {
      var rest := TokensFrom(s, op.next);
      ArrowsPanic(s, Redir(c, Span(file.lo, file.hi), Mode(op.kind), Fd(op.kind)), file.next);
      assert rest == [rest[0]] + rest[1..];
      PanicsLater(MissingFile, [rest[0]], rest[1..]);
      PanicsLater(MissingFile, [toks[0]], rest);
    } else {
      assert PanicAt(MissingFile, toks, 1);
    }
  }

  lemma LastTok(items: seq<Item>)
    requires ItemsToks(items) != []
    ensures ItemsToks(items)[|ItemsToks(items)| - 1].kind == 'a'
  {
    assert ItemToks(items[|items| - 1]) != [];
  }

  lemma {:induction false} ItemsPanic(s: string, done: seq<Item>, i: nat)
    requires NulFree(s) && i <= |s| && ItemsOk(done) && |ArgsOf(done)| < MAXARGS
    requires ItemsToks(done) != [] || !Peek(s, i, "(")
    requires Items(s, TreeOf(done), |ArgsOf(done)|, i).Err?
    ensures var p := Items(s, TreeOf(done), |ArgsOf(done)|, i).panic;
      p != Leftovers && Panics(p, ItemsToks(done) + TokensFrom(s, i))
    decreases |s| - i
  {
    hide TokensFrom, GetToken, Peek, Skip, Wrap, ArgsOf, ItemsToks, Redirs, TreeOf, Items, PanicAt, Panics;
    var c, n := TreeOf(done), |ArgsOf(done)|;
    ItemsErr(s, c, n, i);
    var r := Redirs(s, c, i);
    if r.Err? {
      ArrowsPanic(s, c, i);
      PanicsLater(MissingFile, ItemsToks(done), TokensFrom(s, i));
    } else {
      var arrows := ArrowsFound(s, c, i);
      var before := done + arrows;
      TreeJoins(done, arrows);
      WrapJoins(c, done, arrows);
      NextToken(s, r.next);
      NextToken(s, i);
      var t := GetToken(s, Skip(s, r.next));
      var toks, rest := ItemsToks(before), TokensFrom(s, r.next);
      assert ItemsToks(done) + TokensFrom(s, i) == toks + rest;
      if t.kind != 'a' {
        RedirsStop(s, c, i);
        TokenIs(s, Skip(s, r.next));
        SyntaxAt(toks, rest, before);
      } else if n + 1 >= MAXARGS {
        TenArgs(before, Span(t.lo, t.hi), rest);
      } else {
        var x := Arg(Span(t.lo, t.hi));
        TreeGrows(before, x);
        OneItem(before, x);
        assert ItemsToks(before + [x]) + rest[1..] == toks + rest;
        ItemsPanic(s, before + [x], t.next);
      }
    }
  }

  lemma ItemsErr(s: string, c: Cmd<Span>, n: nat, i: nat)
    requires i <= |s| && Items(s, c, n, i).Err?
    ensures var (q, r) := (Items(s, c, n, i), Redirs(s, c, i));
      if r.Err? then q == r
      else
        && !Peek(s, r.next, "|)&;")
        && var t := GetToken(s, Skip(s, r.next));
        && t.kind != NUL
        && q == if t.kind != 'a' then Err(Syntax) else if n + 1 >= MAXARGS then Err(TooManyArgs)
           else Items(s, AddArg(r.cmd, Span(t.lo, t.hi)), n + 1, t.next)
  {
    hide GetToken, Peek, Skip, Redirs, AddArg;
  }

  lemma {:induction false} RedirsStop(s: string, c: Cmd<Span>, i: nat)
    requires i <= |s| && Redirs(s, c, i).Ok?
    ensures !Peek(s, Redirs(s, c, i).next, "<>")
    decreases |s| - i
  {
    hide GetToken;
    if Peek(s, i, "<>") {
      var op := GetToken(s, Skip(s, i));
      var file := GetToken(s, op.next);
      hide Skip, Peek;
      RedirsStop(s, Redir(c, Span(file.lo, file.hi), Mode(op.kind), Fd(op.kind)), file.next);
    } else {
      SkipTwice(s, i);
    }
  }

  lemma SyntaxAt(toks: seq<Tok>, rest: seq<Tok>, items: seq<Item>)
    requires toks == ItemsToks(items) && toks != [] && rest != [] && rest[0].kind == '('
    ensures Panics(Syntax, toks + rest)
  {
    LastTok(items);
    assert PanicAt(Syntax, toks + rest, |toks|);
  }

  lemma TenArgs(items: seq<Item>, w: Span, rest: seq<Tok>)
    requires ItemsOk(items) && |ArgsOf(items)| + 1 == MAXARGS && rest != [] && rest[0] == WordTok(w)
    ensures Panics(TooManyArgs, ItemsToks(items) + rest)
  {
    var toks, all := ItemsToks(items), ItemsToks(items) + rest;
    OneItem(items, Arg(w));
    assert all[..|toks| + 1] == toks + [WordTok(w)];
    assert ItemsOk(items + [Arg(w)]) && EndsWith(all[..|toks| + 1], ItemsToks(items + [Arg(w)]));
    assert PanicAt(TooManyArgs, all, |toks|);
  }

  /** Each panic of the parser says what is wrong, at a token of the line; and it never says NoBlock. */
  lemma {:induction false} CommandPanic(s: string, i: nat)
    requires NulFree(s) && i <= |s| && ParseExec(s, i).Err?
    ensures ParseExec(s, i).panic != Leftovers && Panics(ParseExec(s, i).panic, TokensFrom(s, i))
    decreases |s| - i, 1
  {
    hide TokensFrom, GetToken, Peek, Skip, Redirs, Items, ParseLine, PanicAt, Panics;
    if Peek(s, i, "(") {
      BlockPanic(s, i);
    } else {
      EmptyItems();
      ExecByItems(s, i, Items(s, Exec([]), 0, i));
      assert TreeOf([]) == Exec([]);
      ItemsPanic(s, [], i);
      assert ItemsToks([]) + TokensFrom(s, i) == TokensFrom(s, i);
    }
  }

  lemma {:induction false} BlockPanic(s: string, i: nat)
    requires NulFree(s) && i <= |s| && Peek(s, i, "(") && ParseExec(s, i).Err?
    ensures ParseExec(s, i).panic != Leftovers && Panics(ParseExec(s, i).panic, TokensFrom(s, i))
    decreases |s| - i, 0
  {
    hide TokensFrom, GetToken, Peek, Skip, Redirs, Items, ParseLine, PanicAt, Panics, Yield, Derives, Tree;
    NextToken(s, i);
    TokensSkip(s, i);
    NextToken(s, Skip(s, i));
    SkipTwice(s, i);
    var j := GetToken(s, Skip(s, Skip(s, i))).next;
    BlockErr(s, i, j);
    var toks, rest, r := TokensFrom(s, i), TokensFrom(s, j), ParseLine(s, j);
    assert toks == [toks[0]] + rest;
    if r.Err? {
      LinePanic(s, j);
      PanicsLater(r.panic, [toks[0]], rest);
    } else {
      var body := LineFound(s, j);
      NextToken(s, r.next);
      var after := TokensFrom(s, r.next);
      if !Peek(s, r.next, ")") {
        NotClosed(toks[0], body, after);
        assert toks == [toks[0]] + Yield(body) + after;
      } else {
        var k := GetToken(s, Skip(s, r.next)).next;
        ArrowsPanic(s, r.cmd, k);
        assert after == [after[0]] + TokensFrom(s, k);
        PanicsLater(MissingFile, [after[0]], TokensFrom(s, k));
        PanicsLater(MissingFile, [toks[0]] + Yield(body), after);
        assert toks == [toks[0]] + Yield(body) + after;
      }
    }
  }

  lemma BlockErr(s: string, i: nat, j: nat)
    requires i <= |s| && Peek(s, i, "(") && Peek(s, Skip(s, i), "(") && ParseExec(s, i).Err?
    requires j == GetToken(s, Skip(s, Skip(s, i))).next
    ensures var (q, r) := (ParseExec(s, i), ParseLine(s, j));
      if r.Err? then q == r
      else if !Peek(s, r.next, ")") then q == Err(MissingParen)
      else q == Redirs(s, r.cmd, GetToken(s, Skip(s, r.next)).next)
  {
    hide GetToken, Peek, Skip, Redirs, Items, ParseLine;
  }

  lemma NotClosed(open: Tok, body: Derivation, after: seq<Tok>)
    requires open.kind == '(' && Derives(body, 0) && (after == [] || after[0].kind != ')')
    ensures Panics(MissingParen, [open] + Yield(body) + after)
  {
    hide Yield, Derives;
    var before := [open] + Yield(body);
    assert (before + after)[..|before|] == before && EndsWith(before, before);
    assert PanicAt(MissingParen, before + after, |before|);
  }

  lemma {:induction false} PipelinePanic(s: string, i: nat)
    requires NulFree(s) && i <= |s| && ParsePipe(s, i).Err?
    ensures ParsePipe(s, i).panic != Leftovers && Panics(ParsePipe(s, i).panic, TokensFrom(s, i))
    decreases |s| - i, 2
  {
    hide TokensFrom, GetToken, Peek, Skip, ParseExec, PanicAt, Panics, Yield, Derives, Tree;
    var r := ParseExec(s, i);
    if r.Err? {
      CommandPanic(s, i);
    } else {
      PipeIs(s, i);
      var left := CommandFound(s, i);
      NextToken(s, r.next);
      var j := GetToken(s, Skip(s, r.next)).next;
      PipelinePanic(s, j);
      var after := TokensFrom(s, r.next);
      assert after == [after[0]] + TokensFrom(s, j);
      PanicsLater(ParsePipe(s, j).panic, [after[0]], TokensFrom(s, j));
      PanicsLater(ParsePipe(s, j).panic, Yield(left), after);
    }
  }

  lemma {:induction false} LinePanic(s: string, i: nat)
    requires NulFree(s) && i <= |s| && ParseLine(s, i).Err?
    ensures ParseLine(s, i).panic != Leftovers && Panics(ParseLine(s, i).panic, TokensFrom(s, i))
    decreases |s| - i, 3
  {
    hide TokensFrom, GetToken, Peek, Skip, ParsePipe, ParseLine, Amps, PanicAt, Panics, Yield, Derives, Tree;
    var p := ParsePipe(s, i);
    if p.Err? {
      LineErr(s, i);
      PipelinePanic(s, i);
    } else {
      LineIs(s, i);
      var pipeline := PipelineFound(s, i);
      AtLower(pipeline, 2);
      var job, amps := AmpsFound(s, pipeline, p.next);
      var r := Amps(s, p.cmd, p.next);
      NextToken(s, r.next);
      var j := GetToken(s, Skip(s, r.next)).next;
      LinePanic(s, j);
      var after := TokensFrom(s, r.next);
      assert after == [after[0]] + TokensFrom(s, j);
      PanicsLater(ParseLine(s, j).panic, [after[0]], TokensFrom(s, j));
      PanicsLater(ParseLine(s, j).panic, Yield(job), after);
      assert TokensFrom(s, i) == Yield(job) + after;
    }
  }

  lemma LineErr(s: string, i: nat)
    requires i <= |s| && ParseLine(s, i).Err? && ParsePipe(s, i).Err?
    ensures ParseLine(s, i) == ParsePipe(s, i)
  {
    hide ParsePipe, Amps, Peek, GetToken, Skip;
  }

  /** What a refused line did wrong. */
  lemma PanicMeans(s: string)
    requires NulFree(s) && Parse(s).Err?
    ensures Panics(Parse(s).panic, TokensFrom(s, 0))
  {
    hide TokensFrom, ParseLine, Skip, PanicAt, Panics, Yield, Derives, Tree;
    var r := ParseLine(s, 0);
    if r.Err? {
      LinePanic(s, 0);
    } else {
      var d := LineFound(s, 0);
      NotEmpty(s, r.next);
      LeftOver(d, TokensFrom(s, r.next));
    }
  }

  lemma NotEmpty(s: string, i: nat)
    requires NulFree(s) && i <= |s| && Skip(s, i) != |s|
    ensures TokensFrom(s, i) != []
  {
    TokenIs(s, i);
  }

  lemma LeftOver(d: Derivation, rest: seq<Tok>)
    requires Derives(d, 0) && rest != []
    ensures Panics(Leftovers, Yield(d) + rest)
  {
    hide Yield, Derives;
    assert (Yield(d) + rest)[..|Yield(d)|] == Yield(d);
    assert PanicAt(Leftovers, Yield(d) + rest, |Yield(d)|);
  }
}
