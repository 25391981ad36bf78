/** Where the words of an accepted line go. */
module ShellWords {
  import opened ShellGrammar
  import opened ShellRoundTrip
  import opened Shell
  import opened ShellDerivation

  predicate AfterArrow(toks: seq<Tok>, k: nat) {
    0 < k < |toks| && IsArrow(toks[k - 1].kind)
  }

  /** The words of the line that follow an arrow, or those that do not, in order. */
  function WordsOf(toks: seq<Tok>, file: bool): seq<Span> {
    if toks == [] then []
    else
      var n := |toks| - 1;
      WordsOf(toks[..n], file) +
      if toks[n].kind == 'a' && (file <==> AfterArrow(toks, n)) then [Span(toks[n].lo, toks[n].hi)] else []
  }

  function ArgSpans(c: Cmd<Span>): seq<Span> {
    match c
    case Exec(argv) => argv
    case Redir(cmd, _, _, _) => ArgSpans(cmd)
    case Pipe(left, right) => ArgSpans(left) + ArgSpans(right)
    case List(left, right) => ArgSpans(left) + ArgSpans(right)
    case Back(cmd) => ArgSpans(cmd)
  }

  function FileSpans(c: Cmd<Span>): seq<Span> {
    match c
    case Exec(_) => []
    case Redir(cmd, file, _, _) => FileSpans(cmd) + [file]
    case Pipe(left, right) => FileSpans(left) + FileSpans(right)
    case List(left, right) => FileSpans(left) + FileSpans(right)
    case Back(cmd) => FileSpans(cmd)
  }

  predicate Whole(toks: seq<Tok>) {
    toks == [] || !IsArrow(toks[|toks| - 1].kind)
  }

  lemma {:induction false} WordsJoin(x: seq<Tok>, y: seq<Tok>, file: bool)
    requires Whole(x)
    ensures WordsOf(x + y, file) == WordsOf(x, file) + WordsOf(y, file)
    decreases |y|
  {
    if y == [] {
      assert x + y == x;
    } else {
      var n := |y| - 1;
      WordsJoin(x, y[..n], file);
      assert (x + y)[..|x + y| - 1] == x + y[..n];
      assert AfterArrow(x + y, |x + y| - 1) <==> AfterArrow(y, n);
    }
  }

  lemma {:induction false} ItemsWords(c: Cmd<Span>, items: seq<Item>)
    requires ItemsOk(items)
    ensures Whole(ItemsToks(items)) && WordsOf(ItemsToks(items), false) == ArgsOf(items)
    ensures ArgSpans(Wrap(c, items)) == ArgSpans(c)
    ensures FileSpans(Wrap(c, items)) == FileSpans(c) + WordsOf(ItemsToks(items), true)
  {
    hide ItemsToks, ArgsOf, Wrap, WordsOf, ItemToks;
    EmptyItems();
    NoWord([], false);
    NoWord([], true);
    if items != [] {
      var n := |items| - 1;
      var first, x := items[..n], items[n];
      assert items == first + [x];
      ItemsWords(c, first);
      OneItem(first, x);
      ItemWords(x);
      WordsJoin(ItemsToks(first), ItemToks(x), false);
      WordsJoin(ItemsToks(first), ItemToks(x), true);
      WholeJoins(ItemsToks(first), ItemToks(x));
      WrappedSpans(Wrap(c, first), x);
    }
  }

  lemma WholeJoins(x: seq<Tok>, y: seq<Tok>)
    requires Whole(x) && Whole(y)
    ensures Whole(x + y)
  {
  }

  lemma WrappedSpans(c: Cmd<Span>, x: Item)
    ensures ArgSpans(Wrapped(c, x)) == ArgSpans(c)
    ensures FileSpans(Wrapped(c, x)) == FileSpans(c) + if x.Arrow? then [x.file] else []
  {
  }

  lemma ItemWords(x: Item)
    requires x.Arrow? ==> IsArrow(x.op.kind)
    ensures Whole(ItemToks(x)) && WordsOf(ItemToks(x), false) == if x.Arg? then [x.word] else []
    ensures WordsOf(ItemToks(x), true) == if x.Arrow? then [x.file] else []
  {
    var first := if x.Arg? then [] else [x.op];
    var w := if x.Arg? then x.word else x.file;
    assert ItemToks(x) == first + [WordTok(w)];
    NextWord(first, WordTok(w), false);
    NextWord(first, WordTok(w), true);
    NoWord(first, false);
    NoWord(first, true);
    hide WordsOf;
    assert [Span(w.lo, w.hi)] == [w];
  }

  lemma NextWord(toks: seq<Tok>, t: Tok, file: bool)
    ensures WordsOf(toks + [t], file) ==
      WordsOf(toks, file) +
      if t.kind == 'a' && (file <==> AfterArrow(toks + [t], |toks|)) then [Span(t.lo, t.hi)] else []
  {
    assert (toks + [t])[..|toks|] == toks;
  }

  lemma {:induction false} DerivedWords(d: Derivation, level: nat)
    requires Derives(d, level)
    ensures Whole(Yield(d))
    ensures WordsOf(Yield(d), false) == ArgSpans(Tree(d)) && WordsOf(Yield(d), true) == FileSpans(Tree(d))
  {
    hide WordsOf, Wrap, ItemsToks, ArgsOf;
    match d
    case Simple(items) =>
      ItemsWords(Exec(ArgsOf(items)), items);
    case Block(open, body, close, arrows) =>
      DerivedWords(body, 0);
      ItemsWords(Tree(body), arrows);
      WordsBetween([open], Yield(body), close, ItemsToks(arrows));
      assert ArgSpans(Tree(body)) + [] == ArgSpans(Tree(body));
    case Piped(left, bar, right) =>
      DerivedWords(left, 3);
      DerivedWords(right, 2);
      WordsBetween([], Yield(left), bar, Yield(right));
    case Amped(job, amp) =>
      DerivedWords(job, 1);
      WordsBetween([], Yield(job), amp, []);
      NoWord([], false);
      NoWord([], true);
      assert ArgSpans(Tree(job)) + [] == ArgSpans(Tree(job)) && FileSpans(Tree(job)) + [] == FileSpans(Tree(job));
    case Listed(left, semi, right) =>
      DerivedWords(left, 1);
      DerivedWords(right, 0);
      WordsBetween([], Yield(left), semi, Yield(right));
  }

  /** A symbol between two parts adds no word. */
  lemma WordsBetween(first: seq<Tok>, x: seq<Tok>, t: Tok, y: seq<Tok>)
    requires first == [] || (|first| == 1 && first[0].kind == '(')
    requires Whole(x) && Whole(y) && t.kind in "|;&)"
    ensures var all := first + x + [t] + y;
      Whole(all) && forall file :: WordsOf(all, file) == WordsOf(x, file) + WordsOf(y, file)
    ensures [] + x + [t] + y == x + [t] + y && x + [t] + [] == x + [t]
  {
    hide WordsOf;
    forall file ensures WordsOf(first + x + [t] + y, file) == WordsOf(x, file) + WordsOf(y, file) {
      NoWord(first, file);
      NoWord([t], file);
      WordsJoin(first, x, file);
      WordsJoin(first + x, [t], file);
      WordsJoin(first + x + [t], y, file);
    }
  }

  lemma NoWord(toks: seq<Tok>, file: bool)
    requires toks == [] || (|toks| == 1 && toks[0].kind != 'a')
    ensures WordsOf(toks, file) == []
  {
  }

  /** The spans stand one after another in the line. */
  ghost predicate Rising(sps: seq<Span>) {
    forall j, k :: 0 <= j < k < |sps| ==> sps[j].hi <= sps[k].lo
  }

  /** So do the arguments of each EXEC of c. */
  ghost predicate ArgvRise(c: Cmd<Span>) {
    match c
    case Exec(argv) => Rising(argv)
    case Redir(cmd, _, _, _) => ArgvRise(cmd)
    case Pipe(left, right) => ArgvRise(left) && ArgvRise(right)
    case List(left, right) => ArgvRise(left) && ArgvRise(right)
    case Back(cmd) => ArgvRise(cmd)
  }

  lemma {:induction false} ArgsRise(c: Cmd<Span>)
    requires Rising(ArgSpans(c))
    ensures ArgvRise(c)
  {
    match c
    case Exec(_) =>
    case Redir(cmd, _, _, _) => ArgsRise(cmd);
    case Pipe(left, right) => RisingParts(ArgSpans(left), ArgSpans(right)); ArgsRise(left); ArgsRise(right);
    case List(left, right) => RisingParts(ArgSpans(left), ArgSpans(right)); ArgsRise(left); ArgsRise(right);
    case Back(cmd) => ArgsRise(cmd);
  }

  lemma RisingParts(x: seq<Span>, y: seq<Span>)
    requires Rising(x + y)
    ensures Rising(x) && Rising(y)
  {
    assert forall k :: 0 <= k < |x| ==> (x + y)[k] == x[k];
    assert forall k :: 0 <= k < |y| ==> (x + y)[|x| + k] == y[k];
  }

  ghost predicate InOrder(toks: seq<Tok>) {
    && (forall k :: 0 <= k < |toks| ==> toks[k].lo <= toks[k].hi)
    && forall j, k :: 0 <= j < k < |toks| ==> toks[j].hi <= toks[k].lo
  }

  lemma {:induction false} CoveredInOrder(s: string, i: nat, toks: seq<Tok>)
    requires Covers(s, i, toks)
    ensures InOrder(toks) && forall k :: 0 <= k < |toks| ==> i <= toks[k].lo
    decreases |toks|
  {
    if toks != [] {
      CoveredInOrder(s, toks[0].hi, toks[1..]);
      assert forall k :: 1 <= k < |toks| ==> toks[k] == toks[1..][k - 1];
    }
  }

  lemma {:induction false} WordsRise(toks: seq<Tok>, file: bool)
    requires InOrder(toks)
    ensures var sps := WordsOf(toks, file);
      Rising(sps) && forall k :: 0 <= k < |sps| ==> toks != [] && sps[k].hi <= toks[|toks| - 1].hi
  {
    if toks != [] {
      var n := |toks| - 1;
      WordsRise(toks[..n], file);
    }
  }

  /** In an accepted line each word is in the tree once: the file of a redirection if it follows an arrow and
    * an argument otherwise, both in their order; the arguments of each EXEC are in the order of the line. */
  lemma WordsKept(s: string)
    requires NulFree(s) && Parse(s).Ok?
    ensures ArgSpans(Parse(s).cmd) == WordsOf(TokensFrom(s, 0), false)
    ensures FileSpans(Parse(s).cmd) == WordsOf(TokensFrom(s, 0), true)
    ensures ArgvRise(Parse(s).cmd)
  {
    hide Parse, TokensFrom, Yield, Derives, Tree, WordsOf, ArgSpans, FileSpans, Rising, ArgvRise;
    ParserIsGrammar(s);
    var d :| Derives(d, 0) && Yield(d) == TokensFrom(s, 0);
    DerivedWords(d, 0);
    TokensCover(s, 0);
    CoveredInOrder(s, 0, TokensFrom(s, 0));
    WordsRise(TokensFrom(s, 0), false);
    ArgsRise(Parse(s).cmd);
  }
}
