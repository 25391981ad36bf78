/** The shell's language as a grammar over tokens, in the usual way: derivations, the tokens each of them
  * stands for, and the tree that it means.  The parser accepts exactly the lines that have a derivation, and
  * gives its tree. */
module ShellDerivation {
  import opened ShellGrammar
  import opened ShellRoundTrip
  import opened Shell

  // ---- the tokens of a line ----

  datatype Tok = Tok(kind: char, lo: nat, hi: nat)

  function TokensFrom(s: string, i: nat): (r: seq<Tok>)
    requires i <= |s|
    decreases |s| - i
  {
    var t := GetToken(s, i);
    if t.kind == NUL then [] else [Tok(t.kind, t.lo, t.hi)] + TokensFrom(s, t.next)
  }

  /** A token of the line: a symbol, two arrows, or a whole word. */
  predicate TokOk(s: string, t: Tok) {
    && t.lo < t.hi <= |s|
    && (|| (t.kind in "|();&<" && t.hi == t.lo + 1 && s[t.lo] == t.kind)
        || (t.kind == '>' && t.hi == t.lo + 1 && s[t.lo] == '>' && At(s, t.hi) != '>')
        || (t.kind == '+' && t.hi == t.lo + 2 && s[t.lo] == '>' && s[t.lo + 1] == '>')
        || (t.kind == 'a' && WholeWord(s, Span(t.lo, t.hi))))
  }

  predicate Blank(s: string, lo: nat, hi: nat) {
    lo <= hi <= |s| && forall k :: lo <= k < hi ==> Space(s[k])
  }

  /** These tokens and the blanks between them are the whole line from i on. */
  predicate Covers(s: string, i: nat, toks: seq<Tok>)
    decreases |toks|
  {
    if toks == [] then Blank(s, i, |s|)
    else TokOk(s, toks[0]) && Blank(s, i, toks[0].lo) && Covers(s, toks[0].hi, toks[1..])
  }

  lemma TokenIs(s: string, i: nat)
    requires NulFree(s) && i <= |s|
    ensures var t := GetToken(s, i);
      && Blank(s, i, t.lo) && (t.kind == NUL <==> t.lo == |s|)
      && (t.kind != NUL ==> TokOk(s, Tok(t.kind, t.lo, t.hi)) && t.next == Skip(s, t.hi))
  {
    if GetToken(s, i).kind == 'a' { WordSpan(s, i); }
  }

  lemma TokensSkip(s: string, i: nat)
    requires i <= |s|
    ensures TokensFrom(s, i) == TokensFrom(s, Skip(s, i)) && GetToken(s, Skip(s, i)) == GetToken(s, i)
  {
    TokenSkip(s, i);
    hide GetToken, Skip;
  }

  lemma TokenSkip(s: string, i: nat)
    requires i <= |s|
    ensures GetToken(s, Skip(s, i)) == GetToken(s, i)
  {
    SkipTwice(s, i);
    hide Skip, WordEnd;
  }

  /** The tokenizer loses nothing. */
  lemma {:induction false} TokensCover(s: string, i: nat)
    requires NulFree(s) && i <= |s|
    ensures Covers(s, i, TokensFrom(s, i))
    decreases |s| - i
  {
    TokenIs(s, i);
    var t := GetToken(s, i);
    if t.kind != NUL {
      TokensCover(s, t.hi);
      TokensSkip(s, t.hi);
      assert TokensFrom(s, i)[1..] == TokensFrom(s, t.next);
    }
  }

  /** And there is no other way to read the line. */
  lemma {:induction false} TokensUnique(s: string, i: nat, toks: seq<Tok>)
    requires NulFree(s) && i <= |s| && Covers(s, i, toks)
    ensures toks == TokensFrom(s, i)
    decreases |toks|
  {
    hide GetToken, TokOk, Blank;
    if toks == [] {
      NoToken(s, i);
    } else {
      OneToken(s, i, toks[0]);
      TokensUnique(s, toks[0].hi, toks[1..]);
      TokensSkip(s, toks[0].hi);
      assert toks == [toks[0]] + toks[1..];
    }
  }

  lemma NoToken(s: string, i: nat)
    requires i <= |s| && Blank(s, i, |s|)
    ensures GetToken(s, i).kind == NUL
  {
    SkipsTo(s, i, |s|);
    hide Skip, WordEnd;
  }

  lemma OneToken(s: string, i: nat, u: Tok)
    requires NulFree(s) && i <= |s| && TokOk(s, u) && Blank(s, i, u.lo)
    ensures GetToken(s, i) == Token(u.kind, u.lo, u.hi, Skip(s, u.hi)) && u.kind != NUL
  {
    if u.kind == 'a' {
      hide Skip, GetToken;
      WordAt(s, i, u);
    } else {
      SkipsTo(s, i, u.lo);
      hide Skip, WordEnd, WholeWord;
    }
  }

  lemma WordAt(s: string, i: nat, u: Tok)
    requires NulFree(s) && i <= |s| && WholeWord(s, Span(u.lo, u.hi)) && Blank(s, i, u.lo)
    ensures GetToken(s, i) == Token('a', u.lo, u.hi, Skip(s, u.hi))
  {
    assert Letter(s[u.lo]);
    SkipsTo(s, i, u.lo);
    WordEndIs(s, u.lo, u.lo, u.hi);
    hide Skip, WordEnd, WholeWord;
  }

  lemma {:induction false} SkipsTo(s: string, i: nat, j: nat)
    requires Blank(s, i, j) && (j < |s| ==> !Space(s[j]))
    ensures Skip(s, i) == j
    decreases j - i
  {
    if i < j { SkipsTo(s, i + 1, j); }
  }

  lemma {:induction false} WordEndIs(s: string, lo: nat, i: nat, hi: nat)
    requires NulFree(s) && WholeWord(s, Span(lo, hi)) && lo <= i <= hi
    ensures WordEnd(s, i) == hi
    decreases hi - i
  {
    if i < hi {
      assert Letter(s[i]);
      WordEndIs(s, lo, i + 1, hi);
    }
  }

  /** What peek and gettoken say of the next token. */
  lemma NextToken(s: string, i: nat)
    requires NulFree(s) && i <= |s|
    ensures var (toks, t) := (TokensFrom(s, i), GetToken(s, Skip(s, i)));
      && t == GetToken(s, i)
      && if toks == [] then t.kind == NUL && t.next == |s| && forall w :: !Peek(s, i, w)
         else
           && toks[0] == Tok(t.kind, t.lo, t.hi) && t.kind != NUL && toks[1..] == TokensFrom(s, t.next) && i < t.next
           && (Peek(s, i, "<>") <==> IsArrow(t.kind))
           && forall w :: w in {"|", "&", ";", "(", ")", "|)&;"} ==> (Peek(s, i, w) <==> t.kind in w)
  {
    TokensSkip(s, i);
    TokenIs(s, i);
    var t := GetToken(s, i);
    if t.kind == 'a' { assert Letter(s[t.lo]); }
  }

  predicate IsArrow(kind: char) {
    kind == '<' || kind == '>' || kind == '+'
  }

  // ---- the grammar ----

  /** A part of a simple command. */
  datatype Item = Arg(word: Span) | Arrow(op: Tok, file: Span)

  /** command: items, or a block with arrows after it; pipeline: command, or command | pipeline;
    * job: pipeline, or job &; line: job, or job ; line. */
  datatype Derivation =
    | Simple(items: seq<Item>)
    | Block(open: Tok, body: Derivation, close: Tok, arrows: seq<Item>)
    | Piped(left: Derivation, bar: Tok, right: Derivation)
    | Amped(job: Derivation, amp: Tok)
    | Listed(left: Derivation, semi: Tok, right: Derivation)

  /** d is a line (0), a job (1), a pipeline (2) or a command (3). */
  predicate Derives(d: Derivation, level: nat) {
    match d
    case Simple(items) => ItemsOk(items) && |ArgsOf(items)| < MAXARGS
    case Block(open, body, close, arrows) =>
      open.kind == '(' && Derives(body, 0) && close.kind == ')' && ItemsOk(arrows) && ArgsOf(arrows) == []
    case Piped(left, bar, right) => level <= 2 && Derives(left, 3) && bar.kind == '|' && Derives(right, 2)
    case Amped(job, amp) => level <= 1 && Derives(job, 1) && amp.kind == '&'
    case Listed(left, semi, right) => level == 0 && Derives(left, 1) && semi.kind == ';' && Derives(right, 0)
  }

  predicate ItemsOk(items: seq<Item>) {
    forall k :: 0 <= k < |items| && items[k].Arrow? ==> IsArrow(items[k].op.kind)
  }

  function ArgsOf(items: seq<Item>): seq<Span> {
    if items == [] then []
    else
      var x := items[|items| - 1];
      ArgsOf(items[..|items| - 1]) + (if x.Arg? then [x.word] else [])
  }

  function WordTok(w: Span): Tok {
    Tok('a', w.lo, w.hi)
  }

  function ItemToks(x: Item): seq<Tok> {
    match x
    case Arg(w) => [WordTok(w)]
    case Arrow(op, file) => [op, WordTok(file)]
  }

  function ItemsToks(items: seq<Item>): seq<Tok> {
    if items == [] then [] else ItemsToks(items[..|items| - 1]) + ItemToks(items[|items| - 1])
  }

  /** The tokens that d stands for. */
  function Yield(d: Derivation): seq<Tok> {
    match d
    case Simple(items) => ItemsToks(items)
    case Block(open, body, close, arrows) => [open] + Yield(body) + [close] + ItemsToks(arrows)
    case Piped(left, bar, right) => Yield(left) + [bar] + Yield(right)
    case Amped(job, amp) => Yield(job) + [amp]
    case Listed(left, semi, right) => Yield(left) + [semi] + Yield(right)
  }

  /** c under the redirections among the items, the first one innermost. */
  function Wrap(c: Cmd<Span>, items: seq<Item>): Cmd<Span> {
    if items == [] then c
    else
      Wrapped(Wrap(c, items[..|items| - 1]), items[|items| - 1])
  }

  function Wrapped(c: Cmd<Span>, x: Item): Cmd<Span> {
    match x
    case Arg(_) => c
    case Arrow(op, file) =>
      if op.kind == '<' then Redir(c, file, O_RDONLY, 0) else Redir(c, file, O_WRONLY + O_CREATE, 1)
  }

  /** What d means: an EXEC of its words in order under its redirections in order, wherever these stand. */
  function Tree(d: Derivation): Cmd<Span> {
    match d
    case Simple(items) => Wrap(Exec(ArgsOf(items)), items)
    case Block(_, body, _, arrows) => Wrap(Tree(body), arrows)
    case Piped(left, _, right) => Pipe(Tree(left), Tree(right))
    case Amped(job, _) => Back(Tree(job))
    case Listed(left, _, right) => List(Tree(left), Tree(right))
  }

  // ---- one more item ----

  lemma OneItem(items: seq<Item>, x: Item)
    ensures ArgsOf(items + [x]) == if x.Arg? then ArgsOf(items) + [x.word] else ArgsOf(items)
    ensures ItemsToks(items + [x]) == ItemsToks(items) + ItemToks(x)
    ensures forall c :: Wrap(c, items + [x]) == Wrapped(Wrap(c, items), x)
  {
    assert (items + [x])[..|items|] == items;
  }

  lemma {:induction false} FirstItem(items: seq<Item>)
    requires items != []
    ensures ItemsToks(items) == ItemToks(items[0]) + ItemsToks(items[1..])
    ensures ArgsOf(items) == (if items[0].Arg? then [items[0].word] else []) + ArgsOf(items[1..])
  {
    hide ItemsToks, ArgsOf, ItemToks;
    var n := |items| - 1;
    var first, x := items[..n], items[n];
    assert items == first + [x];
    OneItem(first, x);
    EmptyItems();
    if n > 0 {
      FirstItem(first);
      OneItem(first[1..], x);
      assert items[1..] == first[1..] + [x];
    } else {
      assert items[1..] == [] && first == [];
    }
  }

  /** An argument goes to the end of the EXEC, whatever redirections are around it. */
  lemma {:induction false} ArgAdded(args: seq<Span>, items: seq<Item>, w: Span)
    ensures AddArg(Wrap(Exec(args), items), w) == Wrap(Exec(args + [w]), items)
  {
    if items != [] { ArgAdded(args, items[..|items| - 1], w); }
  }

  /** The tree of a simple command with these items. */
  function TreeOf(items: seq<Item>): Cmd<Span> {
    Wrap(Exec(ArgsOf(items)), items)
  }

  lemma TreeGrows(items: seq<Item>, x: Item)
    requires x.Arrow? ==> IsArrow(x.op.kind)
    ensures TreeOf(items + [x]) ==
      match x
      case Arg(w) => AddArg(TreeOf(items), w)
      case Arrow(op, file) => Redir(TreeOf(items), file, Mode(op.kind), Fd(op.kind))
  {
    OneItem(items, x);
    if x.Arg? { ArgAdded(ArgsOf(items), items, x.word); }
  }

  // ---- every derivation is parsed ----

  predicate Stops(rest: seq<Tok>, kinds: string) {
    rest == [] || rest[0].kind in kinds
  }

  /** The parser is at i with these tokens ahead, and has read c. */
  predicate AtRest(s: string, r: Parsed, c: Cmd<Span>, rest: seq<Tok>) {
    r.Ok? && r.cmd == c && r.next <= |s| && TokensFrom(s, r.next) == rest
  }

  /** One redirection. */
  lemma ArrowParsed(s: string, c: Cmd<Span>, i: nat, x: Item, rest: seq<Tok>) returns (j: nat)
    requires NulFree(s) && i <= |s| && x.Arrow? && IsArrow(x.op.kind) && TokensFrom(s, i) == ItemToks(x) + rest
    ensures j <= |s| && TokensFrom(s, j) == rest
    ensures Redirs(s, c, i) == Redirs(s, Redir(c, x.file, Mode(x.op.kind), Fd(x.op.kind)), j)
  {
    hide TokensFrom, GetToken, Peek, Skip, Redirs;
    NextToken(s, i);
    var op := GetToken(s, Skip(s, i));
    assert TokensFrom(s, i)[1..] == [WordTok(x.file)] + rest;
    NextToken(s, op.next);
    var file := GetToken(s, op.next);
    assert TokensFrom(s, op.next)[1..] == rest;
    RedirsOnce(s, c, i, op, file);
    j := file.next;
  }

  lemma {:induction false} ArrowsParsed(s: string, c: Cmd<Span>, done: seq<Item>, i: nat, items: seq<Item>,
                                      rest: seq<Tok>)
    requires NulFree(s) && i <= |s| && ItemsOk(items) && ArgsOf(items) == [] && Stops(rest, "|)&;")
    requires TokensFrom(s, i) == ItemsToks(items) + rest
    ensures AtRest(s, Redirs(s, Wrap(c, done), i), Wrap(c, done + items), rest)
    decreases |items|
  {
    hide TokensFrom, GetToken, Peek, Skip, Redirs, Wrap, ItemsToks, ArgsOf;
    if items == [] {
      EmptyItems();
      NoArrow(s, Wrap(c, done), i, rest);
      assert done + items == done;
    } else {
      FirstItem(items);
      var x := items[0];
      assert TokensFrom(s, i) == ItemToks(x) + (ItemsToks(items[1..]) + rest);
      var j := ArrowParsed(s, Wrap(c, done), i, x, ItemsToks(items[1..]) + rest);
      OneItem(done, x);
      ArrowsParsed(s, c, done + [x], j, items[1..], rest);
      assert done + [x] + items[1..] == done + items;
    }
  }

  lemma EmptyItems()
    ensures ItemsToks([]) == [] && ArgsOf([]) == [] && forall c :: Wrap(c, []) == c
  {
  }

  lemma NoArrow(s: string, c: Cmd<Span>, i: nat, rest: seq<Tok>)
    requires NulFree(s) && i <= |s| && TokensFrom(s, i) == rest && (rest == [] || !IsArrow(rest[0].kind))
    ensures AtRest(s, Redirs(s, c, i), c, rest) && Redirs(s, c, i) == Ok(c, Skip(s, i))
  {
    hide TokensFrom, GetToken, Peek, Skip;
    NextToken(s, i);
    TokensSkip(s, i);
  }

  /** The items of a simple command, after others. */
  lemma {:induction false} ItemsParsed(s: string, done: seq<Item>, i: nat, items: seq<Item>, rest: seq<Tok>)
    requires NulFree(s) && i <= |s| && ItemsOk(items) && Stops(rest, "|)&;")
    requires |ArgsOf(done)| + |ArgsOf(items)| < MAXARGS && TokensFrom(s, i) == ItemsToks(items) + rest
    ensures AtRest(s, Items(s, TreeOf(done), |ArgsOf(done)|, i), TreeOf(done + items), rest)
    decreases |items|
  {
    hide TokensFrom, GetToken, Peek, Skip, Redirs, Items, Wrap, ItemsToks, ArgsOf, TreeOf;
    if items == [] {
      EmptyItems();
      NoItem(s, TreeOf(done), |ArgsOf(done)|, i, rest);
      assert done + items == done;
    } else {
      FirstItem(items);
      var x, more := items[0], ItemsToks(items[1..]) + rest;
      assert TokensFrom(s, i) == ItemToks(x) + more;
      OneItem(done, x);
      TreeGrows(done, x);
      var j: nat;
      if x.Arg? {
        j := ArgParsed(s, TreeOf(done), |ArgsOf(done)|, i, x.word, more);
      } else {
        j := ArrowParsed(s, TreeOf(done), i, x, more);
        ItemsRedirs(s, TreeOf(done), TreeOf(done + [x]), |ArgsOf(done)|, i, j);
      }
      ItemsParsed(s, done + [x], j, items[1..], rest);
      assert done + [x] + items[1..] == done + items;
    }
  }

  lemma NoItem(s: string, c: Cmd<Span>, n: nat, i: nat, rest: seq<Tok>)
    requires NulFree(s) && i <= |s| && TokensFrom(s, i) == rest && Stops(rest, "|)&;")
    ensures AtRest(s, Items(s, c, n, i), c, rest)
  {
    hide TokensFrom, GetToken, Peek, Skip, Redirs;
    NoArrow(s, c, i, rest);
    NextToken(s, Skip(s, i));
    TokensSkip(s, i);
    TokensSkip(s, Skip(s, i));
    SkipTwice(s, i);
    LastToken(s);
  }

  lemma LastToken(s: string)
    ensures TokensFrom(s, |s|) == []
  {
  }

  lemma ArgParsed(s: string, c: Cmd<Span>, n: nat, i: nat, w: Span, rest: seq<Tok>) returns (j: nat)
    requires NulFree(s) && i <= |s| && TokensFrom(s, i) == [WordTok(w)] + rest && n + 1 < MAXARGS
    ensures j <= |s| && TokensFrom(s, j) == rest && Items(s, c, n, i) == Items(s, AddArg(c, w), n + 1, j)
  {
    hide TokensFrom, GetToken, Peek, Skip, Redirs, AddArg;
    NextToken(s, i);
    TokensSkip(s, i);
    SkipTwice(s, i);
    NextToken(s, Skip(s, i));
    SkipItems(s, c, n, i);
    var t := GetToken(s, Skip(s, i));
    assert TokensFrom(s, i)[1..] == rest;
    ItemsWord(s, c, n, Skip(s, i), t);
    j := t.next;
  }

  lemma {:induction false} FirstTok(items: seq<Item>)
    requires ItemsOk(items) && items != []
    ensures ItemsToks(items) != [] && (ItemsToks(items)[0].kind == 'a' || IsArrow(ItemsToks(items)[0].kind))
  {
    FirstItem(items);
  }

  lemma SimpleParsed(s: string, i: nat, items: seq<Item>, rest: seq<Tok>)
    requires NulFree(s) && i <= |s| && ItemsOk(items) && |ArgsOf(items)| < MAXARGS && Stops(rest, "|)&;")
    requires TokensFrom(s, i) == ItemsToks(items) + rest
    ensures AtRest(s, ParseExec(s, i), TreeOf(items), rest)
  {
    hide TokensFrom, GetToken, Peek, Skip, Items, ItemsToks, ArgsOf, Wrap;
    NextToken(s, i);
    EmptyItems();
    if items != [] { FirstTok(items); }
    ItemsParsed(s, [], i, items, rest);
    assert [] + items == items;
    ExecByItems(s, i, Items(s, Exec([]), 0, i));
  }

  /** Every derivation of a command is parsed as it says, wherever its tokens stand. */
  lemma {:induction false} CommandParsed(s: string, i: nat, d: Derivation, rest: seq<Tok>)
    requires NulFree(s) && i <= |s| && Derives(d, 3) && Stops(rest, "|)&;") && TokensFrom(s, i) == Yield(d) + rest
    ensures AtRest(s, ParseExec(s, i), Tree(d), rest)
    decreases d, 0
  {
    hide TokensFrom, GetToken, Peek, Skip, ItemsToks, ArgsOf, Wrap, Redirs, Items, ParseLine, ParseExec, ParseBlock;
    match d
    case Simple(items) => SimpleParsed(s, i, items, rest);
    case Block(open, body, close, arrows) =>
      var after := [close] + ItemsToks(arrows) + rest;
      assert TokensFrom(s, i) == [open] + (Yield(body) + after);
      var j := Bracketed(s, i, open, Yield(body) + after);
      LineParsed(s, j, body, after);
      var r := ParseLine(s, j);
      assert after == [close] + (ItemsToks(arrows) + rest);
      var k := Closed(s, r.next, close, ItemsToks(arrows) + rest);
      EmptyItems();
      ArrowsParsed(s, Tree(body), [], k, arrows, rest);
      assert [] + arrows == arrows;
      BlockIs(s, i, j, k);
  }

  lemma Bracketed(s: string, i: nat, open: Tok, rest: seq<Tok>) returns (j: nat)
    requires NulFree(s) && i <= |s| && TokensFrom(s, i) == [open] + rest && open.kind == '('
    ensures Peek(s, i, "(") && Peek(s, Skip(s, i), "(") && j == GetToken(s, Skip(s, Skip(s, i))).next
    ensures j <= |s| && TokensFrom(s, j) == rest
  {
    hide TokensFrom, GetToken, Peek, Skip;
    NextToken(s, i);
    TokensSkip(s, i);
    NextToken(s, Skip(s, i));
    j := GetToken(s, Skip(s, Skip(s, i))).next;
  }

  lemma Closed(s: string, i: nat, close: Tok, rest: seq<Tok>) returns (j: nat)
    requires NulFree(s) && i <= |s| && TokensFrom(s, i) == [close] + rest && close.kind == ')'
    ensures Peek(s, i, ")") && j == GetToken(s, Skip(s, i)).next && j <= |s| && TokensFrom(s, j) == rest
  {
    hide TokensFrom, GetToken, Peek, Skip;
    NextToken(s, i);
    j := GetToken(s, Skip(s, i)).next;
  }

  lemma BlockIs(s: string, i: nat, j: nat, k: nat)
    requires i <= |s| && Peek(s, i, "(") && Peek(s, Skip(s, i), "(") && j == GetToken(s, Skip(s, Skip(s, i))).next
    requires ParseLine(s, j).Ok? && Peek(s, ParseLine(s, j).next, ")")
    requires k == GetToken(s, Skip(s, ParseLine(s, j).next)).next
    ensures ParseExec(s, i) == Redirs(s, ParseLine(s, j).cmd, k)
  {
    hide GetToken, Peek, Skip, Redirs, Items, ParseLine;
  }

  lemma {:induction false} PipelineParsed(s: string, i: nat, d: Derivation, rest: seq<Tok>)
    requires NulFree(s) && i <= |s| && Derives(d, 2) && Stops(rest, ")&;") && TokensFrom(s, i) == Yield(d) + rest
    ensures AtRest(s, ParsePipe(s, i), Tree(d), rest)
    decreases d, 1
  {
    hide TokensFrom, GetToken, Peek, Skip, ParseExec, ParsePipe, Yield, Derives, Tree;
    PipedIs(d);
    if d.Piped? {
      var more := Yield(d.right) + rest;
      assert TokensFrom(s, i) == Yield(d.left) + ([d.bar] + more);
      CommandParsed(s, i, d.left, [d.bar] + more);
      var j := BarRead(s, ParseExec(s, i).next, d.bar, more);
      PipelineParsed(s, j, d.right, rest);
      PipeIs(s, i);
    } else {
      CommandParsed(s, i, d, rest);
      NextToken(s, ParseExec(s, i).next);
      TokensSkip(s, ParseExec(s, i).next);
      PipeIs(s, i);
    }
  }

  lemma PipedIs(d: Derivation)
    requires Derives(d, 2)
    ensures if d.Piped? then
              && Derives(d.left, 3) && d.bar.kind == '|' && Derives(d.right, 2)
              && Tree(d) == Pipe(Tree(d.left), Tree(d.right)) && Yield(d) == Yield(d.left) + [d.bar] + Yield(d.right)
            else Derives(d, 3)
  {
  }

  lemma BarRead(s: string, i: nat, bar: Tok, rest: seq<Tok>) returns (j: nat)
    requires NulFree(s) && i <= |s| && TokensFrom(s, i) == [bar] + rest && bar.kind == '|'
    ensures Peek(s, i, "|") && j == GetToken(s, Skip(s, i)).next && j <= |s| && TokensFrom(s, j) == rest
  {
    hide TokensFrom, GetToken, Peek, Skip;
    NextToken(s, i);
    j := GetToken(s, Skip(s, i)).next;
  }

  lemma PipeIs(s: string, i: nat)
    requires i <= |s| && ParseExec(s, i).Ok?
    ensures var (r, p) := (ParseExec(s, i), ParsePipe(s, i));
      if Peek(s, r.next, "|") then
        var j := GetToken(s, Skip(s, r.next)).next;
        && i <= j <= |s|
        && var right := ParsePipe(s, j); p == if right.Err? then right else Ok(Pipe(r.cmd, right.cmd), right.next)
      else p == Ok(r.cmd, Skip(s, r.next))
  {
    hide GetToken, Peek, Skip, ParseExec;
  }

  lemma {:induction false} JobParsed(s: string, i: nat, d: Derivation, rest: seq<Tok>) returns (j: nat)
    requires NulFree(s) && i <= |s| && Derives(d, 1) && Stops(rest, ")&;") && TokensFrom(s, i) == Yield(d) + rest
    ensures ParsePipe(s, i).Ok? && j <= |s| && TokensFrom(s, j) == rest
    ensures Amps(s, ParsePipe(s, i).cmd, ParsePipe(s, i).next) == Amps(s, Tree(d), j)
    decreases d, 2
  {
    hide TokensFrom, GetToken, Peek, Skip, ParsePipe, Amps;
    if d.Amped? {
      assert TokensFrom(s, i) == Yield(d.job) + ([d.amp] + rest);
      var k := JobParsed(s, i, d.job, [d.amp] + rest);
      j := AmpParsed(s, Tree(d.job), k, d.amp, rest);
    } else {
      PipelineParsed(s, i, d, rest);
      j := ParsePipe(s, i).next;
    }
  }

  lemma AmpParsed(s: string, c: Cmd<Span>, i: nat, amp: Tok, rest: seq<Tok>) returns (j: nat)
    requires NulFree(s) && i <= |s| && TokensFrom(s, i) == [amp] + rest && amp.kind == '&'
    ensures j <= |s| && TokensFrom(s, j) == rest && Amps(s, c, i) == Amps(s, Back(c), j)
  {
    hide TokensFrom, GetToken, Peek, Skip;
    NextToken(s, i);
    j := GetToken(s, Skip(s, i)).next;
  }

  lemma NoAmp(s: string, c: Cmd<Span>, i: nat, rest: seq<Tok>)
    requires NulFree(s) && i <= |s| && TokensFrom(s, i) == rest && Stops(rest, ");")
    ensures AtRest(s, Amps(s, c, i), c, rest)
  {
    hide TokensFrom, GetToken, Peek, Skip;
    NextToken(s, i);
    TokensSkip(s, i);
  }

  lemma LineIs(s: string, i: nat)
    requires i <= |s| && ParsePipe(s, i).Ok?
    ensures var (r, p) := (Amps(s, ParsePipe(s, i).cmd, ParsePipe(s, i).next), ParseLine(s, i));
      if Peek(s, r.next, ";") then
        var j := GetToken(s, Skip(s, r.next)).next;
        && i <= j <= |s|
        && var right := ParseLine(s, j); p == if right.Err? then right else Ok(List(r.cmd, right.cmd), right.next)
      else p == Ok(r.cmd, Skip(s, r.next))
  {
    hide GetToken, Peek, Skip, ParsePipe, Amps;
  }

  lemma {:induction false} LineParsed(s: string, i: nat, d: Derivation, rest: seq<Tok>)
    requires NulFree(s) && i <= |s| && Derives(d, 0) && Stops(rest, ")") && TokensFrom(s, i) == Yield(d) + rest
    ensures AtRest(s, ParseLine(s, i), Tree(d), rest)
    decreases d, 3
  {
    hide TokensFrom, GetToken, Peek, Skip, ParsePipe, ParseLine, Amps;
    if d.Listed? {
      var more := Yield(d.right) + rest;
      assert TokensFrom(s, i) == Yield(d.left) + ([d.semi] + more);
      var j := JobParsed(s, i, d.left, [d.semi] + more);
      NoAmp(s, Tree(d.left), j, [d.semi] + more);
      var r := Amps(s, Tree(d.left), j);
      NextToken(s, r.next);
      assert ([d.semi] + more)[1..] == more;
      LineParsed(s, GetToken(s, Skip(s, r.next)).next, d.right, rest);
      LineIs(s, i);
    } else {
      var j := JobParsed(s, i, d, rest);
      NoAmp(s, Tree(d), j, rest);
      var r := Amps(s, Tree(d), j);
      NextToken(s, r.next);
      TokensSkip(s, r.next);
      LineIs(s, i);
    }
  }

  // ---- and whatever is parsed has a derivation ----

  lemma {:induction false} WrapJoins(c: Cmd<Span>, x: seq<Item>, y: seq<Item>)
    ensures Wrap(c, x + y) == Wrap(Wrap(c, x), y) && ArgsOf(x + y) == ArgsOf(x) + ArgsOf(y)
    ensures ItemsToks(x + y) == ItemsToks(x) + ItemsToks(y)
    decreases |y|
  {
    hide Wrap, ArgsOf, ItemsToks;
    EmptyItems();
    if y == [] {
      assert x + y == x;
    } else {
      var z, last := y[..|y| - 1], y[|y| - 1];
      WrapJoins(c, x, z);
      OneItem(x + z, last);
      OneItem(z, last);
      assert x + y == x + z + [last] && y == z + [last];
    }
  }

  lemma {:induction false} ArrowsFound(s: string, c: Cmd<Span>, i: nat) returns (arrows: seq<Item>)
    requires NulFree(s) && i <= |s| && Redirs(s, c, i).Ok?
    ensures ItemsOk(arrows) && ArgsOf(arrows) == [] && Redirs(s, c, i).cmd == Wrap(c, arrows)
    ensures TokensFrom(s, i) == ItemsToks(arrows) + TokensFrom(s, Redirs(s, c, i).next)
    decreases |s| - i
  {
    hide TokensFrom, GetToken, Peek, Skip, Wrap, ArgsOf, ItemsToks;
    NextToken(s, i);
    EmptyItems();
    arrows := [];
    if Peek(s, i, "<>") {
      var op := GetToken(s, Skip(s, i));
      NextToken(s, op.next);
      TokensSkip(s, op.next);
      var file := GetToken(s, op.next);
      var x := Arrow(Tok(op.kind, op.lo, op.hi), Span(file.lo, file.hi));
      var rest := ArrowsFound(s, Redir(c, x.file, Mode(op.kind), Fd(op.kind)), file.next);
      arrows := [x] + rest;
      OneItem([], x);
      assert [] + [x] == [x];
      WrapJoins(c, [x], rest);
      assert TokensFrom(s, i) == [x.op] + TokensFrom(s, op.next);
      assert TokensFrom(s, op.next) == [WordTok(x.file)] + TokensFrom(s, file.next);
    } else {
      TokensSkip(s, i);
    }
  }

  lemma TreeJoins(done: seq<Item>, arrows: seq<Item>)
    requires ArgsOf(arrows) == []
    ensures TreeOf(done + arrows) == Wrap(TreeOf(done), arrows) && ArgsOf(done + arrows) == ArgsOf(done)
  {
    WrapJoins(Exec(ArgsOf(done)), done, arrows);
    hide Wrap, ArgsOf, ItemsToks;
    assert ArgsOf(done) + [] == ArgsOf(done);
  }

  lemma {:induction false} ItemsFound(s: string, done: seq<Item>, i: nat) returns (items: seq<Item>)
    requires NulFree(s) && i <= |s| && ItemsOk(done) && |ArgsOf(done)| < MAXARGS
    requires Items(s, TreeOf(done), |ArgsOf(done)|, i).Ok?
    ensures var r := Items(s, TreeOf(done), |ArgsOf(done)|, i);
      && ItemsOk(items) && |ArgsOf(done + items)| < MAXARGS && r.cmd == TreeOf(done + items)
      && TokensFrom(s, i) == ItemsToks(items) + TokensFrom(s, r.next)
    decreases |s| - i
  {
    hide TokensFrom, GetToken, Peek, Skip, Wrap, ArgsOf, ItemsToks, Redirs, TreeOf, Items;
    var c, n := TreeOf(done), |ArgsOf(done)|;
    ItemsIs(s, c, n, i);
    var arrows := ArrowsFound(s, c, i);
    var r := Redirs(s, c, i);
    var before := done + arrows;
    TreeJoins(done, arrows);
    NextToken(s, r.next);
    TokensSkip(s, r.next);
    SkipTwice(s, r.next);
    NextToken(s, Skip(s, r.next));
    var t := GetToken(s, Skip(s, r.next));
    if Peek(s, r.next, "|)&;") || t.kind == NUL {
      items := arrows;
      LastToken(s);
    } else {
      var x := Arg(Span(t.lo, t.hi));
      TreeGrows(before, x);
      OneItem(before, x);
      var rest := ItemsFound(s, before + [x], t.next);
      items := arrows + [x] + rest;
      assert done + items == before + [x] + rest;
      ArgBetween(arrows, x, rest);
    }
  }

  lemma ArgBetween(arrows: seq<Item>, x: Item, rest: seq<Item>)
    ensures ItemsToks(arrows + [x] + rest) == ItemsToks(arrows) + ItemToks(x) + ItemsToks(rest)
  {
    OneItem(arrows, x);
    WrapJoins(Exec([]), arrows + [x], rest);
  }

  lemma ItemsIs(s: string, c: Cmd<Span>, n: nat, i: nat)
    requires i <= |s| && Items(s, c, n, i).Ok?
    ensures Redirs(s, c, i).Ok?
    ensures var (q, r) := (Items(s, c, n, i), Redirs(s, c, i));
      var t := GetToken(s, Skip(s, r.next));
      if Peek(s, r.next, "|)&;") then q == Ok(r.cmd, Skip(s, r.next))
      else if t.kind == NUL then q == Ok(r.cmd, t.next)
      else t.kind == 'a' && n + 1 < MAXARGS && q == Items(s, AddArg(r.cmd, Span(t.lo, t.hi)), n + 1, t.next)
  {
    hide GetToken, Peek, Skip, Redirs, AddArg;
  }

  /** What is between i and what the parser leaves is what d stands for. */
  predicate Found(s: string, i: nat, r: Parsed, d: Derivation, level: nat)
    requires i <= |s|
  {
    && r.Ok? && r.next <= |s| && Derives(d, level) && r.cmd == Tree(d)
    && TokensFrom(s, i) == Yield(d) + TokensFrom(s, r.next)
  }

  lemma {:induction false} CommandFound(s: string, i: nat) returns (d: Derivation)
    requires NulFree(s) && i <= |s| && ParseExec(s, i).Ok?
    ensures Found(s, i, ParseExec(s, i), d, 3)
    decreases |s| - i, 0
  {
    hide TokensFrom, GetToken, Peek, Skip, Wrap, ArgsOf, ItemsToks, Redirs, Items, ParseLine;
    if Peek(s, i, "(") {
      var j := BlockOpens(s, i);
      var body := LineFound(s, j);
      var r := ParseLine(s, j);
      NextToken(s, r.next);
      var close := GetToken(s, Skip(s, r.next));
      var arrows := ArrowsFound(s, r.cmd, close.next);
      d := Block(TokensFrom(s, i)[0], body, TokensFrom(s, r.next)[0], arrows);
      BlockIs(s, i, j, close.next);
      var q := Redirs(s, r.cmd, close.next);
      YieldsBlock(TokensFrom(s, i), TokensFrom(s, j), TokensFrom(s, r.next), TokensFrom(s, close.next),
                  TokensFrom(s, q.next), d);
    } else {
      ExecByItems(s, i, Items(s, Exec([]), 0, i));
      EmptyItems();
      var items := ItemsFound(s, [], i);
      assert [] + items == items;
      d := Simple(items);
    }
  }

  lemma YieldsBlock(a: seq<Tok>, b: seq<Tok>, c: seq<Tok>, e: seq<Tok>, f: seq<Tok>, d: Derivation)
    requires d.Block? && a != [] && a[0] == d.open && a[1..] == b && b == Yield(d.body) + c
    requires c != [] && c[0] == d.close && c[1..] == e && e == ItemsToks(d.arrows) + f
    ensures a == Yield(d) + f
  {
    assert a == [a[0]] + a[1..] && c == [c[0]] + c[1..];
  }

  lemma BlockOpens(s: string, i: nat) returns (j: nat)
    requires NulFree(s) && i <= |s| && Peek(s, i, "(") && ParseExec(s, i).Ok?
    ensures i < j <= |s| && Peek(s, Skip(s, i), "(") && j == GetToken(s, Skip(s, Skip(s, i))).next
    ensures TokensFrom(s, i) != [] && TokensFrom(s, i)[0].kind == '(' && TokensFrom(s, i)[1..] == TokensFrom(s, j)
    ensures ParseLine(s, j).Ok? && Peek(s, ParseLine(s, j).next, ")")
    ensures ParseExec(s, i) == Redirs(s, ParseLine(s, j).cmd, GetToken(s, Skip(s, ParseLine(s, j).next)).next)
  {
    hide TokensFrom, GetToken, Peek, Skip, Redirs, Items, ParseLine;
    NextToken(s, i);
    TokensSkip(s, i);
    NextToken(s, Skip(s, i));
    SkipTwice(s, i);
    j := GetToken(s, Skip(s, Skip(s, i))).next;
  }

  lemma {:induction false} PipelineFound(s: string, i: nat) returns (d: Derivation)
    requires NulFree(s) && i <= |s| && ParsePipe(s, i).Ok?
    ensures Found(s, i, ParsePipe(s, i), d, 2)
    decreases |s| - i, 1
  {
    hide TokensFrom, GetToken, Peek, Skip, ParseExec;
    var left := CommandFound(s, i);
    var r := ParseExec(s, i);
    NextToken(s, r.next);
    if Peek(s, r.next, "|") {
      var bar := GetToken(s, Skip(s, r.next));
      var right := PipelineFound(s, bar.next);
      d := Piped(left, TokensFrom(s, r.next)[0], right);
      assert TokensFrom(s, r.next) == [d.bar] + TokensFrom(s, bar.next);
    } else {
      d := left;
      TokensSkip(s, r.next);
    }
  }

  /** The ampersands after a job. */
  lemma {:induction false} AmpsFound(s: string, job: Derivation, i: nat) returns (d: Derivation, amps: seq<Tok>)
    requires NulFree(s) && i <= |s| && Derives(job, 1)
    ensures var r := Amps(s, Tree(job), i);
      && Derives(d, 1) && r.cmd == Tree(d) && Yield(d) == Yield(job) + amps
      && TokensFrom(s, i) == amps + TokensFrom(s, r.next)
    decreases |s| - i
  {
    hide TokensFrom, GetToken, Peek, Skip, Yield, Derives, Tree, Amps;
    NextToken(s, i);
    AmpsIs(s, Tree(job), i);
    if Peek(s, i, "&") {
      var t := GetToken(s, Skip(s, i));
      var amp := TokensFrom(s, i)[0];
      AmpedIs(job, amp);
      var more;
      d, more := AmpsFound(s, Amped(job, amp), t.next);
      amps := [amp] + more;
      assert TokensFrom(s, i) == [amp] + TokensFrom(s, t.next);
      assert Yield(job) + [amp] + more == Yield(job) + amps;
    } else {
      d, amps := job, [];
      TokensSkip(s, i);
      assert Yield(job) + amps == Yield(job);
    }
  }

  lemma AmpsIs(s: string, c: Cmd<Span>, i: nat)
    requires i <= |s|
    ensures Amps(s, c, i) ==
      (if Peek(s, i, "&") then Amps(s, Back(c), GetToken(s, Skip(s, i)).next) else Ok(c, Skip(s, i)))
  {
    hide GetToken, Peek, Skip;
  }

  lemma AmpedIs(job: Derivation, amp: Tok)
    requires Derives(job, 1) && amp.kind == '&'
    ensures Derives(Amped(job, amp), 1) && Tree(Amped(job, amp)) == Back(Tree(job))
    ensures Yield(Amped(job, amp)) == Yield(job) + [amp]
  {
  }

  lemma {:induction false} LineFound(s: string, i: nat) returns (d: Derivation)
    requires NulFree(s) && i <= |s| && ParseLine(s, i).Ok?
    ensures Found(s, i, ParseLine(s, i), d, 0)
    decreases |s| - i, 2
  {
    hide TokensFrom, GetToken, Peek, Skip, ParsePipe, Amps, ParseLine, Yield, Derives, Tree;
    LineSplits(s, i);
    LineIs(s, i);
    var pipeline := PipelineFound(s, i);
    var p := ParsePipe(s, i);
    AtLower(pipeline, 2);
    var job, amps := AmpsFound(s, pipeline, p.next);
    var r := Amps(s, p.cmd, p.next);
    assert TokensFrom(s, i) == Yield(job) + TokensFrom(s, r.next);
    NextToken(s, r.next);
    if Peek(s, r.next, ";") {
      var semi := GetToken(s, Skip(s, r.next));
      var right := LineFound(s, semi.next);
      d := Listed(job, TokensFrom(s, r.next)[0], right);
      assert TokensFrom(s, r.next) == [d.semi] + TokensFrom(s, semi.next);
      ListedIs(job, d.semi, right);
    } else {
      AtLower(job, 1);
      d := job;
      TokensSkip(s, r.next);
    }
  }

  lemma LineSplits(s: string, i: nat)
    requires i <= |s| && ParseLine(s, i).Ok?
    ensures ParsePipe(s, i).Ok?
  {
    hide ParsePipe, Amps, Peek, GetToken, Skip;
  }

  lemma ListedIs(left: Derivation, semi: Tok, right: Derivation)
    requires Derives(left, 1) && semi.kind == ';' && Derives(right, 0)
    ensures var d := Listed(left, semi, right);
      Derives(d, 0) && Tree(d) == List(Tree(left), Tree(right)) && Yield(d) == Yield(left) + [semi] + Yield(right)
  {
  }

  lemma AtLower(d: Derivation, level: nat)
    requires Derives(d, level) && level > 0
    ensures Derives(d, level - 1)
  {
  }

  /** The parser accepts exactly the lines that have a derivation, and answers with its tree: so no line has
    * two that mean different things. */
  lemma ParserIsGrammar(s: string)
    requires NulFree(s)
    ensures Parse(s).Ok? <==> exists d :: Derives(d, 0) && Yield(d) == TokensFrom(s, 0)
    ensures forall d :: Derives(d, 0) && Yield(d) == TokensFrom(s, 0) ==> Parse(s).Ok? && Parse(s).cmd == Tree(d)
  {
    hide ParseLine, TokensFrom, Yield, Derives, Tree, Skip;
    forall d | Derives(d, 0) && Yield(d) == TokensFrom(s, 0) ensures Parse(s).Ok? && Parse(s).cmd == Tree(d) {
      assert TokensFrom(s, 0) == Yield(d) + [];
      LineParsed(s, 0, d, []);
      NothingLeft(s, ParseLine(s, 0).next);
    }
    if Parse(s).Ok? {
      var d := LineFound(s, 0);
      SkipEnds(s, ParseLine(s, 0).next);
      assert Yield(d) + [] == Yield(d);
    }
  }

  lemma NothingLeft(s: string, i: nat)
    requires NulFree(s) && i <= |s| && TokensFrom(s, i) == []
    ensures Skip(s, i) == |s|
  {
    TokenIs(s, i);
  }

  lemma SkipEnds(s: string, i: nat)
    requires i <= |s| && Skip(s, i) == |s|
    ensures TokensFrom(s, i) == []
  {
  }
}
