/** Printing a command tree and parsing the result gives the tree back. */
module ShellRoundTrip {
  import opened ShellGrammar

  // ---- canonical printing ----

  /** The grammar level at which a tree prints without parentheses:
    * 0 a line, 1 a pipeline with trailing ampersands, 2 a pipeline, 3 one command. */
  function Home<T>(t: Cmd<T>): (h: nat)
    ensures h <= 3
  {
    match t
    case List(_, _) => 0
    case Back(_) => 1
    case Pipe(_, _) => 2
    case _ => 3
  }

  function Words(argv: seq<string>): string {
    if argv == [] then "" else Words(argv[..|argv| - 1]) + (argv[|argv| - 1] + " ")
  }

  function Arrow(fd: nat): string {
    if fd == 0 then "<" else ">"
  }

  function Redirection(fd: nat, file: string): string {
    Arrow(fd) + (" " + (file + " "))
  }

  /** t in as few parentheses as the grammar allows at the given level. */
  function Print(t: Cmd<string>, level: nat): string
    requires level <= 3
    decreases t, (Home(t) + 4 - level) % 4
  {
    if level == Home(t) then
      match t
      case Exec(argv) => Words(argv)
      case Redir(cmd, file, _, fd) => Print(cmd, 3) + Redirection(fd, file)
      case Pipe(left, right) => Print(left, 3) + "|" + Print(right, 2)
      case List(left, right) => Print(left, 1) + ";" + Print(right, 0)
      case Back(cmd) => Print(cmd, 1) + "&"
    else if level == 3 then "(" + Print(t, 0) + ")"
    else Print(t, level + 1)
  }

  // ---- legal trees ----

  predicate Word(w: string) {
    w != "" && forall k :: 0 <= k < |w| ==> Letter(w[k])
  }

  predicate Legal(t: Cmd<string>) {
    match t
    case Exec(argv) => |argv| < MAXARGS && forall k :: 0 <= k < |argv| ==> Word(argv[k])
    case Redir(cmd, file, mode, fd) =>
      Legal(cmd) && Word(file) && ((mode == O_RDONLY && fd == 0) || (mode == O_WRONLY + O_CREATE && fd == 1))
    case Pipe(left, right) => Legal(left) && Legal(right)
    case List(left, right) => Legal(left) && Legal(right)
    case Back(cmd) => Legal(cmd)
  }

  // ---- the text of a parsed tree ----

  function Read(s: string, sp: Span): string {
    if sp.lo <= sp.hi <= |s| then s[sp.lo..sp.hi] else ""
  }

  function Reads(s: string, sps: seq<Span>): (r: seq<string>)
    ensures |r| == |sps|
    ensures forall k :: 0 <= k < |r| ==> r[k] == Read(s, sps[k])
  {
    seq(|sps|, k requires 0 <= k < |sps| => Read(s, sps[k]))
  }

  function Text(s: string, c: Cmd<Span>): Cmd<string> {
    match c
    case Exec(argv) => Exec(Reads(s, argv))
    case Redir(cmd, file, mode, fd) => Redir(Text(s, cmd), Read(s, file), mode, fd)
    case Pipe(left, right) => Pipe(Text(s, left), Text(s, right))
    case List(left, right) => List(Text(s, left), Text(s, right))
    case Back(cmd) => Back(Text(s, cmd))
  }

  // ---- where a printed piece stands in the line ----

  predicate Here(s: string, i: nat, t: string) {
    i + |t| <= |s| && s[i..i + |t|] == t
  }

  lemma HereParts(s: string, i: nat, a: string, b: string)
    requires Here(s, i, a + b)
    ensures Here(s, i, a) && Here(s, i + |a|, b)
  {
    assert (a + b)[..|a|] == a && (a + b)[|a|..] == b;
  }

  /** What may follow: the end of the line or one of stops. */
  predicate Follow(s: string, j: nat, stops: string) {
    j <= |s| && (j < |s| ==> s[j] in stops && s[j] !in Whitespace && s[j] != NUL)
  }

  lemma SkipTwice(s: string, i: nat)
    requires i <= |s|
    ensures Skip(s, Skip(s, i)) == Skip(s, i)
  {
  }

  /** The parsers do not care about white space before what they read. */
  lemma SkipFirst(s: string, i: nat)
    requires i <= |s|
    ensures ParseExec(s, i) == ParseExec(s, Skip(s, i))
    ensures ParsePipe(s, i) == ParsePipe(s, Skip(s, i))
    ensures ParseLine(s, i) == ParseLine(s, Skip(s, i))
  {
    SkipTwice(s, i);
    SkipItems(s, Exec([]), 0, i);
    hide Items;
  }

  lemma SkipRedirs(s: string, c: Cmd<Span>, i: nat)
    requires i <= |s|
    ensures Redirs(s, c, i) == Redirs(s, c, Skip(s, i))
  {
    SkipTwice(s, i);
    hide GetToken;
  }

  lemma SkipItems(s: string, c: Cmd<Span>, n: nat, i: nat)
    requires i <= |s|
    ensures Items(s, c, n, i) == Items(s, c, n, Skip(s, i))
  {
    SkipRedirs(s, c, i);
    hide Redirs, GetToken;
  }

  lemma SkipAmps(s: string, c: Cmd<Span>, i: nat)
    requires i <= |s|
    ensures Amps(s, c, i) == Amps(s, c, Skip(s, i))
  {
    SkipTwice(s, i);
    hide GetToken;
  }

  lemma {:induction false} WordEndsAt(s: string, i: nat, w: string)
    requires Here(s, i, w) && forall k :: 0 <= k < |w| ==> Letter(w[k])
    requires At(s, i + |w|) in Whitespace
    ensures WordEnd(s, i) == i + |w|
    decreases |w|
  {
    if w != "" {
      assert s[i] == s[i..i + |w|][0] == w[0];
      assert s[i + 1..i + 1 + |w[1..]|] == w[1..];
      WordEndsAt(s, i + 1, w[1..]);
    }
  }

  /** A word followed by a blank is one token, and its span reads as the word. */
  lemma WordToken(s: string, i: nat, w: string)
    requires Here(s, i, w + " ") && Word(w)
    ensures GetToken(s, i) == Token('a', i, i + |w|, Skip(s, i + |w| + 1))
    ensures !Peek(s, i, "|)&;") && !Peek(s, i, "<>") && !Peek(s, i, "(")
    ensures Read(s, Span(i, i + |w|)) == w
    ensures Skip(s, i) == i
  {
    HereParts(s, i, w, " ");
    assert s[i + |w|..i + |w| + 1][0] == ' ';
    assert s[i] == s[i..i + |w|][0] == w[0];
    WordEndsAt(s, i, w);
  }

  lemma ArrowHere(s: string, i: nat, fd: nat, w: string)
    requires Here(s, i, Redirection(fd, w))
    ensures Here(s, i + 2, w + " ") && i + 2 <= |s|
    ensures s[i] == Arrow(fd)[0] && s[i + 1] == ' '
  {
    HereParts(s, i, Arrow(fd), " " + (w + " "));
    HereParts(s, i + 1, " ", w + " ");
    assert s[i..i + 1][0] == Arrow(fd)[0] && s[i + 1..i + 2][0] == ' ';
  }

  lemma ArrowToken(s: string, i: nat, c: char)
    requires i + 2 <= |s| && s[i] == c && c in "<>" && s[i + 1] == ' ' && Skip(s, i + 2) == i + 2
    ensures Skip(s, i) == i && !Peek(s, i, "(") && Peek(s, i, "<>")
    ensures GetToken(s, i) == Token(c, i, i + 1, i + 2)
  {
    assert Skip(s, i + 1) == Skip(s, i + 2) == i + 2;
  }

  lemma RedirsOnce(s: string, c: Cmd<Span>, i: nat, op: Token, file: Token)
    requires i <= |s| && Peek(s, i, "<>") && op == GetToken(s, Skip(s, i))
    requires file == GetToken(s, op.next) && file.kind == 'a'
    ensures file.next <= |s|
    ensures Redirs(s, c, i) == Redirs(s, Redir(c, Span(file.lo, file.hi), Mode(op.kind), Fd(op.kind)), file.next)
  {
    hide GetToken, Peek, Skip;
  }

  /** A redirection operator, a blank, a word and a blank are one step of Redirs. */
  lemma RedirStep(s: string, c: Cmd<Span>, i: nat, fd: nat, w: string)
    requires fd <= 1 && Word(w) && Here(s, i, Redirection(fd, w))
    ensures var d := Redir(c, Span(i + 2, i + 2 + |w|), Mode(Arrow(fd)[0]), fd);
      i + 3 + |w| <= |s| && Redirs(s, c, i) == Redirs(s, d, i + 3 + |w|)
    ensures Read(s, Span(i + 2, i + 2 + |w|)) == w
  {
    hide GetToken, Peek, Skip, Redirection, Word, Redirs;
    ArrowHere(s, i, fd, w);
    WordToken(s, i + 2, w);
    ArrowToken(s, i, Arrow(fd)[0]);
    RedirsOnce(s, c, i, GetToken(s, i), GetToken(s, i + 2));
    SkipRedirs(s, Redir(c, Span(i + 2, i + 2 + |w|), Mode(Arrow(fd)[0]), fd), i + 3 + |w|);
  }

  lemma AppendToken(s: string, i: nat)
    requires i + 3 <= |s| && s[i] == '>' && s[i + 1] == '>' && s[i + 2] == ' ' && Skip(s, i + 3) == i + 3
    ensures Skip(s, i) == i && Peek(s, i, "<>") && GetToken(s, i) == Token('+', i, i + 2, i + 3)
  {
    assert Skip(s, i + 2) == Skip(s, i + 3) == i + 3;
  }

  lemma AppendHere(s: string, i: nat, w: string)
    requires Here(s, i, ">> " + (w + " "))
    ensures i + 4 + |w| <= |s| && s[i] == '>' && s[i + 1] == '>' && s[i + 2] == ' ' && Here(s, i + 3, w + " ")
    ensures Here(s[i := ' '], i + 1, Redirection(1, w))
  {
    HereParts(s, i, ">> ", w + " ");
    assert s[i..i + 3][0] == '>' && s[i..i + 3][1] == '>' && s[i..i + 3][2] == ' ';
    var s' := s[i := ' '];
    assert s[i + 1..i + 3] == s[i..i + 3][1..] == "> ";
    assert s'[i + 1..i + 4 + |w|] == s[i + 1..i + 3] + s[i + 3..i + 4 + |w|];
    assert Redirection(1, w) == "> " + (w + " ");
  }

  lemma SkipBlank(s: string, i: nat)
    requires i < |s| && Space(s[i])
    ensures Skip(s, i) == Skip(s, i + 1)
  {
  }

  lemma AppendStep(s: string, c: Cmd<Span>, i: nat, w: string)
    requires Word(w) && Here(s, i, ">> " + (w + " "))
    ensures var d := Redir(c, Span(i + 3, i + 3 + |w|), O_WRONLY + O_CREATE, 1);
      i + 4 + |w| <= |s| && Read(s, d.file) == w && Redirs(s, c, i) == Redirs(s, d, i + 4 + |w|)
  {
    hide GetToken, Peek, Skip, Redirection, Word, Read, Here, Redirs;
    AppendHere(s, i, w);
    WordToken(s, i + 3, w);
    AppendToken(s, i);
    RedirsOnce(s, c, i, GetToken(s, i), GetToken(s, i + 3));
    SkipRedirs(s, Redir(c, Span(i + 3, i + 3 + |w|), O_WRONLY + O_CREATE, 1), i + 4 + |w|);
  }

  /** ">> file" is read as "> file": the same command, opened in the same mode on the same
    * descriptor, as if a blank stood for the first arrow. */
  lemma AppendReadsAsOverwrite(s: string, c: Cmd<Span>, i: nat, w: string)
    requires Word(w) && Here(s, i, ">> " + (w + " "))
    ensures var s', d := s[i := ' '], Redir(c, Span(i + 3, i + 3 + |w|), O_WRONLY + O_CREATE, 1);
      && i + 4 + |w| <= |s| && Read(s, d.file) == w && Read(s', d.file) == w
      && Redirs(s, c, i) == Redirs(s, d, i + 4 + |w|) && Redirs(s', c, i) == Redirs(s', d, i + 4 + |w|)
  {
    hide GetToken, Peek, Skip, Redirection, Word, Redirs, Read, Here;
    AppendStep(s, c, i, w);
    AppendHere(s, i, w);
    var s' := s[i := ' '];
    RedirStep(s', c, i + 1, 1, w);
    SkipBlank(s', i);
    SkipRedirs(s', c, i);
    SkipRedirs(s', c, i + 1);
  }

  /** What a symbol that stands at j, or the end of the line, tells the parsers. */
  lemma SymbolToken(s: string, j: nat, stops: string)
    requires Follow(s, j, stops)
    ensures Skip(s, j) == j
    ensures forall toks :: Peek(s, j, toks) <==> j < |s| && s[j] in toks
    ensures j < |s| && s[j] in "|();&" ==> GetToken(s, j) == Token(s[j], j, j + 1, Skip(s, j + 1))
    ensures j == |s| ==> GetToken(s, j) == Token(NUL, j, j, j)
  {
  }

  // ---- single steps of the parsers ----

  lemma ItemsWord(s: string, c: Cmd<Span>, n: nat, j: nat, t: Token)
    requires j <= |s| && Skip(s, j) == j && GetToken(s, j) == t && t.kind == 'a' && n + 1 < MAXARGS
    requires !Peek(s, j, "<>") && !Peek(s, j, "|)&;")
    ensures Items(s, c, n, j) == Items(s, AddArg(c, Span(t.lo, t.hi)), n + 1, t.next)
  {
    hide GetToken, Skip, Peek, AddArg;
    assert Redirs(s, c, j) == Ok(c, j);
  }

  lemma ItemsRedirs(s: string, c: Cmd<Span>, d: Cmd<Span>, n: nat, i: nat, j: nat)
    requires i <= |s| && j <= |s| && Redirs(s, c, i) == Redirs(s, d, j)
    ensures Items(s, c, n, i) == Items(s, d, n, j)
  {
    hide GetToken, Skip, Peek, AddArg, Redirs;
  }

  lemma CommandEnds(s: string, c: Cmd<Span>, n: nat, j: nat)
    requires Follow(s, j, "|)&;")
    ensures Redirs(s, c, j) == Ok(c, j)
    ensures Items(s, c, n, j) == Ok(c, j)
  {
    hide GetToken, Skip, Peek, AddArg;
    SymbolToken(s, j, "|)&;");
  }

  lemma ExecByItems(s: string, i: nat, r: Parsed)
    requires i <= |s| && !Peek(s, i, "(") && Items(s, Exec([]), 0, i) == r
    ensures ParseExec(s, i) == r
  {
    hide Skip, Peek, Items, ParseBlock;
  }

  lemma BlockSteps(s: string, i: nat, j: nat, c: Cmd<Span>)
    requires i < j < |s| && s[i] == '(' && s[j] == ')' && ParseLine(s, i + 1) == Ok(c, j)
    ensures ParseExec(s, i) == Redirs(s, c, j + 1)
  {
    hide GetToken, Skip, Peek, Items, Redirs, ParseLine, ParseBlock;
    SymbolToken(s, i, "(");
    BlockBody(s, i, j, c);
  }

  lemma BlockBody(s: string, i: nat, j: nat, c: Cmd<Span>)
    requires i < j < |s| && s[i] == '(' && s[j] == ')' && ParseLine(s, i + 1) == Ok(c, j)
    ensures ParseBlock(s, i) == Redirs(s, c, j + 1)
  {
    hide GetToken, Skip, Peek, Items, Redirs, ParseLine, ParseExec, ParsePipe;
    Bracket(s, i, "(");
    Bracket(s, j, ")");
    SkipFirst(s, i + 1);
    SkipRedirs(s, c, j + 1);
  }

  lemma Bracket(s: string, i: nat, b: string)
    requires i < |s| && (b == "(" || b == ")") && [s[i]] == b
    ensures Peek(s, i, b) && GetToken(s, Skip(s, i)).next == Skip(s, i + 1)
  {
    SymbolToken(s, i, b);
  }

  lemma PipeSteps(s: string, i: nat, k: nat, left: Cmd<Span>, right: Cmd<Span>, j: nat)
    requires i <= k < |s| && s[k] == '|' && ParseExec(s, i) == Ok(left, k) && ParsePipe(s, k + 1) == Ok(right, j)
    ensures ParsePipe(s, i) == Ok(Pipe(left, right), j)
  {
    hide GetToken, Skip, Peek, ParseExec;
    SymbolToken(s, k, "|");
    SkipFirst(s, k + 1);
  }

  lemma PipeEnds(s: string, i: nat, c: Cmd<Span>, j: nat)
    requires i <= |s| && Follow(s, j, ")&;") && ParseExec(s, i) == Ok(c, j)
    ensures ParsePipe(s, i) == Ok(c, j)
  {
    hide GetToken, Skip, Peek, ParseExec;
    SymbolToken(s, j, ")&;");
  }

  lemma AmpStep(s: string, c: Cmd<Span>, k: nat)
    requires k < |s| && s[k] == '&'
    ensures Amps(s, c, k) == Amps(s, Back(c), k + 1)
  {
    hide GetToken, Skip, Peek;
    SymbolToken(s, k, "&");
    SkipAmps(s, Back(c), k + 1);
  }

  lemma AmpEnds(s: string, c: Cmd<Span>, j: nat)
    requires Follow(s, j, ");")
    ensures Amps(s, c, j) == Ok(c, j)
  {
    hide GetToken, Skip, Peek;
    SymbolToken(s, j, ");");
  }

  lemma ListSteps(s: string, i: nat, k: nat, left: Cmd<Span>, right: Cmd<Span>, j: nat)
    requires i <= k < |s| && s[k] == ';' && ParseLine(s, k + 1) == Ok(right, j)
    requires ParsePipe(s, i).Ok? && Amps(s, ParsePipe(s, i).cmd, ParsePipe(s, i).next) == Ok(left, k)
    ensures ParseLine(s, i) == Ok(List(left, right), j)
  {
    hide GetToken, Skip, Peek, ParsePipe, Amps;
    SymbolToken(s, k, ";");
    SkipFirst(s, k + 1);
  }

  lemma LineEnds(s: string, i: nat, c: Cmd<Span>, j: nat)
    requires i <= |s| && Follow(s, j, ")")
    requires ParsePipe(s, i).Ok? && Amps(s, ParsePipe(s, i).cmd, ParsePipe(s, i).next) == Ok(c, j)
    ensures ParseLine(s, i) == Ok(c, j)
  {
    hide GetToken, Skip, Peek, ParsePipe, Amps;
    SymbolToken(s, j, ")");
  }

  // ---- one command ----

  lemma {:induction false} WordsAt(s: string, argv: seq<string>, i: nat) returns (sps: seq<Span>)
    requires Here(s, i, Words(argv)) && |argv| < MAXARGS
    requires forall k :: 0 <= k < |argv| ==> Word(argv[k])
    ensures Reads(s, sps) == argv
    ensures Items(s, Exec([]), 0, i) == Items(s, Exec(sps), |argv|, i + |Words(argv)|)
  {
    hide Items, Redirs, GetToken, Peek, Skip, Word, Here, Words, Reads;
    sps := [];
    NoWords(s);
    if argv != [] {
      var n := |argv| - 1;
      var w := argv[n];
      LastWord(argv);
      HereParts(s, i, Words(argv[..n]), w + " ");
      sps := WordsAt(s, argv[..n], i);
      var j := i + |Words(argv[..n])|;
      WordToken(s, j, w);
      OneWord(s, Exec(sps), n, j, w);
      ReadsMore(s, sps, Span(j, j + |w|));
      assert argv == argv[..n] + [w];
      sps := sps + [Span(j, j + |w|)];
    }
  }

  lemma NoWords(s: string)
    ensures Words([]) == "" && Reads(s, []) == []
  {
  }

  lemma LastWord(argv: seq<string>)
    requires argv != []
    ensures Words(argv) == Words(argv[..|argv| - 1]) + (argv[|argv| - 1] + " ")
  {
  }

  lemma ReadsMore(s: string, sps: seq<Span>, x: Span)
    ensures Reads(s, sps + [x]) == Reads(s, sps) + [Read(s, x)]
  {
  }

  lemma OneWord(s: string, c: Cmd<Span>, n: nat, j: nat, w: string)
    requires Here(s, j, w + " ") && Word(w) && n + 1 < MAXARGS
    ensures Items(s, c, n, j) == Items(s, AddArg(c, Span(j, j + |w|)), n + 1, j + |w + " "|)
  {
    hide Items, Redirs, GetToken, Peek, Skip, Word, AddArg, Read;
    WordToken(s, j, w);
    ItemsWord(s, c, n, j, GetToken(s, j));
    SkipItems(s, AddArg(c, Span(j, j + |w|)), n + 1, j + |w + " "|);
  }

  /** The command's core is an EXEC, reached through redirections alone. */
  predicate ExecCore(t: Cmd<string>) {
    t.Exec? || (t.Redir? && ExecCore(t.cmd))
  }

  function Argc(t: Cmd<string>): nat {
    match t
    case Exec(argv) => |argv|
    case Redir(cmd, _, _, _) => Argc(cmd)
    case _ => 0
  }

  lemma {:induction false} ItemsAt(s: string, t: Cmd<string>, i: nat) returns (c: Cmd<Span>)
    requires Legal(t) && ExecCore(t) && Here(s, i, Print(t, 3))
    ensures Text(s, c) == t
    ensures Items(s, Exec([]), 0, i) == Items(s, c, Argc(t), i + |Print(t, 3)|)
  {
    hide Items, Redirs, Here, Word, Read, Words, Redirection;
    match t
    case Exec(argv) =>
      var sps := WordsAt(s, argv, i);
      c := Exec(sps);
    case Redir(cmd, file, mode, fd) =>
      HereParts(s, i, Print(cmd, 3), Redirection(fd, file));
      var c0 := ItemsAt(s, cmd, i);
      var j := i + |Print(cmd, 3)|;
      RedirStep(s, c0, j, fd, file);
      c := Redir(c0, Span(j + 2, j + 2 + |file|), mode, fd);
      assert |Redirection(fd, file)| == 3 + |file| by { RedirectionLength(fd, file); }
      ItemsRedirs(s, c0, c, Argc(t), j, j + |Redirection(fd, file)|);
    case _ =>
  }

  lemma RedirectionLength(fd: nat, file: string)
    ensures |Redirection(fd, file)| == 3 + |file|
  {
  }

  lemma {:induction false} FirstLetter(s: string, argv: seq<string>, i: nat)
    requires Here(s, i, Words(argv)) && argv != []
    requires forall k :: 0 <= k < |argv| ==> Word(argv[k])
    ensures i < |s| && Letter(s[i])
  {
    var n := |argv| - 1;
    HereParts(s, i, Words(argv[..n]), argv[n] + " ");
    if n > 0 {
      FirstLetter(s, argv[..n], i);
    } else {
      HereParts(s, i, argv[0], " ");
      assert s[i] == s[i..i + |argv[0]|][0];
    }
  }

  lemma {:induction false} NotABlock(s: string, t: Cmd<string>, i: nat)
    requires Legal(t) && ExecCore(t) && Here(s, i, Print(t, 3))
    requires At(s, i + |Print(t, 3)|) !in Whitespace && At(s, i + |Print(t, 3)|) != '('
    ensures !Peek(s, i, "(")
  {
    match t
    case Exec(argv) =>
      if argv != [] { FirstLetter(s, argv, i); }
    case Redir(cmd, file, mode, fd) =>
      HereParts(s, i, Print(cmd, 3), Redirection(fd, file));
      ArrowHere(s, i + |Print(cmd, 3)|, fd, file);
      NotABlock(s, cmd, i);
    case _ =>
  }

  /** Redirections after a parenthesised block: the block's core is parsed as a line. */
  lemma {:induction false} BlockAt(s: string, t: Cmd<string>, i: nat) returns (c: Cmd<Span>)
    requires Legal(t) && !ExecCore(t) && Here(s, i, Print(t, 3))
    ensures Text(s, c) == t
    ensures ParseExec(s, i) == Redirs(s, c, i + |Print(t, 3)|)
    decreases t, (Home(t) + 4 - 3) % 4, 0
  {
    hide Redirs, ParseExec, ParseLine, Here, Word, Read, Redirection;
    if t.Redir? {
      HereParts(s, i, Print(t.cmd, 3), Redirection(t.fd, t.file));
      var c0 := BlockAt(s, t.cmd, i);
      var j := i + |Print(t.cmd, 3)|;
      RedirStep(s, c0, j, t.fd, t.file);
      RedirectionLength(t.fd, t.file);
      c := Redir(c0, Span(j + 2, j + 2 + |t.file|), t.mode, t.fd);
    } else {
      var body := Print(t, 0);
      Parentheses(s, i, body);
      var j := i + 1 + |body|;
      c := LineAt(s, t, i + 1);
      BlockSteps(s, i, j, c);
    }
  }

  lemma Parentheses(s: string, i: nat, body: string)
    requires Here(s, i, "(" + body + ")")
    ensures Here(s, i + 1, body) && i + 1 + |body| < |s| && s[i] == '(' && s[i + 1 + |body|] == ')'
  {
    assert "(" + body + ")" == "(" + (body + ")");
    HereParts(s, i, "(", body + ")");
    HereParts(s, i + 1, body, ")");
    OneChar(s, i, '(');
    OneChar(s, i + 1 + |body|, ')');
  }

  lemma Joint(s: string, i: nat, a: string, c: char, b: string)
    requires Here(s, i, a + [c] + b)
    ensures Here(s, i, a) && i + |a| < |s| && s[i + |a|] == c && Here(s, i + |a| + 1, b)
  {
    HereParts(s, i, a + [c], b);
    HereParts(s, i, a, [c]);
    OneChar(s, i + |a|, c);
  }

  lemma OneChar(s: string, i: nat, c: char)
    requires Here(s, i, [c])
    ensures i < |s| && s[i] == c
  {
    assert s[i] == s[i..i + 1][0];
  }

  lemma {:induction false} CommandAt(s: string, t: Cmd<string>, i: nat) returns (c: Cmd<Span>)
    requires Legal(t) && Here(s, i, Print(t, 3)) && Follow(s, i + |Print(t, 3)|, "|)&;")
    ensures Text(s, c) == t && ParseExec(s, i) == Ok(c, i + |Print(t, 3)|)
    decreases t, (Home(t) + 4 - 3) % 4, 1
  {
    hide Redirs, Items, ParseExec, Here, Word, Read, Peek, Text, Print;
    var j := i + |Print(t, 3)|;
    if ExecCore(t) {
      c := ItemsAt(s, t, i);
      NotABlock(s, t, i);
      CommandEnds(s, c, Argc(t), j);
      ExecByItems(s, i, Ok(c, j));
    } else {
      c := BlockAt(s, t, i);
      CommandEnds(s, c, 0, j);
    }
  }

  // ---- pipelines and lines ----

  lemma {:induction false} PipeAt(s: string, t: Cmd<string>, i: nat) returns (c: Cmd<Span>)
    requires Legal(t) && Here(s, i, Print(t, 2)) && Follow(s, i + |Print(t, 2)|, ")&;")
    ensures Text(s, c) == t && ParsePipe(s, i) == Ok(c, i + |Print(t, 2)|)
    decreases t, (Home(t) + 4 - 2) % 4, 0
  {
    hide ParseExec, ParsePipe, Here, Word, Read;
    if t.Pipe? {
      Joint(s, i, Print(t.left, 3), '|', Print(t.right, 2));
      var k := i + |Print(t.left, 3)|;
      var left := CommandAt(s, t.left, i);
      var right := PipeAt(s, t.right, k + 1);
      c := Pipe(left, right);
      PipeSteps(s, i, k, left, right, i + |Print(t, 2)|);
    } else {
      c := CommandAt(s, t, i);
      PipeEnds(s, i, c, i + |Print(t, 2)|);
    }
  }

  /** A pipeline with its ampersands: the loop over them, started at the pipeline, reaches c. */
  lemma {:induction false} BackAt(s: string, t: Cmd<string>, i: nat) returns (c: Cmd<Span>)
    requires Legal(t) && Here(s, i, Print(t, 1)) && Follow(s, i + |Print(t, 1)|, ")&;")
    ensures Text(s, c) == t && ParsePipe(s, i).Ok?
    ensures Amps(s, ParsePipe(s, i).cmd, ParsePipe(s, i).next) == Amps(s, c, i + |Print(t, 1)|)
    decreases t, (Home(t) + 4 - 1) % 4, 0
  {
    hide ParsePipe, Amps, Here, Word, Read;
    if t.Back? {
      assert Print(t, 1) == Print(t.cmd, 1) + "&" + "";
      Joint(s, i, Print(t.cmd, 1), '&', "");
      var k := i + |Print(t.cmd, 1)|;
      var c0 := BackAt(s, t.cmd, i);
      c := Back(c0);
      AmpStep(s, c0, k);
    } else {
      c := PipeAt(s, t, i);
    }
  }

  lemma {:induction false} LineAt(s: string, t: Cmd<string>, i: nat) returns (c: Cmd<Span>)
    requires Legal(t) && Here(s, i, Print(t, 0)) && Follow(s, i + |Print(t, 0)|, ")")
    ensures Text(s, c) == t && ParseLine(s, i) == Ok(c, i + |Print(t, 0)|)
    decreases t, (Home(t) + 4 - 0) % 4, 0
  {
    hide ParsePipe, Amps, ParseLine, Here, Word, Read;
    var j := i + |Print(t, 0)|;
    if t.List? {
      Joint(s, i, Print(t.left, 1), ';', Print(t.right, 0));
      var k := i + |Print(t.left, 1)|;
      var left := BackAt(s, t.left, i);
      AmpEnds(s, left, k);
      var right := LineAt(s, t.right, k + 1);
      c := List(left, right);
      ListSteps(s, i, k, left, right, j);
    } else {
      c := BackAt(s, t, i);
      AmpEnds(s, c, j);
      LineEnds(s, i, c, j);
    }
  }

  /** The parser undoes the printer: every legal tree, printed with as few parentheses as its
    * level allows, parses to a tree with the same shape, tokens, modes and descriptors. */
  lemma RoundTrip(t: Cmd<string>)
    requires Legal(t)
    ensures var r := Parse(Print(t, 0)); r.Ok? && Text(Print(t, 0), r.cmd) == t
  {
    hide ParseLine, Print;
    var s := Print(t, 0);
    assert s[0..0 + |s|] == s;
    var c := LineAt(s, t, 0);
  }
}
