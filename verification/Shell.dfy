/** The shell's parser as it runs: over one buffer, then writing NULs into it. */
module Shell {
  import opened ShellGrammar
  import opened ShellRoundTrip

  // ---- what a parsed tree holds ----

  predicate NulFree(s: string) {
    forall k :: 0 <= k < |s| ==> s[k] != NUL
  }

  /** A span that is a whole word of the line: letters, and no letter after them. */
  predicate WholeWord(s: string, sp: Span) {
    && sp.lo < sp.hi <= |s|
    && (forall k :: sp.lo <= k < sp.hi ==> Letter(s[k]))
    && !Letter(At(s, sp.hi))
  }

  predicate WholeWords(s: string, sps: seq<Span>) {
    forall k :: 0 <= k < |sps| ==> WholeWord(s, sps[k])
  }

  predicate WellRead(s: string, c: Cmd<Span>) {
    match c
    case Exec(argv) => |argv| < MAXARGS && WholeWords(s, argv)
    case Redir(cmd, file, mode, fd) =>
      WellRead(s, cmd) && WholeWord(s, file)
      && ((mode == O_RDONLY && fd == 0) || (mode == O_WRONLY + O_CREATE && fd == 1))
    case Pipe(left, right) => WellRead(s, left) && WellRead(s, right)
    case List(left, right) => WellRead(s, left) && WellRead(s, right)
    case Back(cmd) => WellRead(s, cmd)
  }

  /** The EXEC under redirections alone, with n arguments so far. */
  predicate Core(c: Cmd<Span>, n: nat) {
    match c
    case Exec(argv) => |argv| == n
    case Redir(cmd, _, _, _) => Core(cmd, n)
    case _ => false
  }

  /** A token that peek found moves the parser on. */
  lemma Progress(s: string, i: nat, toks: string)
    requires i <= |s| && Peek(s, i, toks)
    ensures i < GetToken(s, Skip(s, i)).next
  {
    SkipTwice(s, i);
  }

  lemma WordSpan(s: string, i: nat)
    requires NulFree(s) && i <= |s| && GetToken(s, i).kind == 'a'
    ensures WholeWord(s, Span(GetToken(s, i).lo, GetToken(s, i).hi))
  {
  }

  lemma {:induction false} RedirsRead(s: string, c: Cmd<Span>, n: nat, i: nat)
    requires NulFree(s) && i <= |s| && WellRead(s, c)
    ensures Redirs(s, c, i).Ok? ==> WellRead(s, Redirs(s, c, i).cmd)
    ensures Redirs(s, c, i).Ok? && Core(c, n) ==> Core(Redirs(s, c, i).cmd, n)
    decreases |s| - i
  {
    hide GetToken, Peek, Skip, WholeWord;
    if Peek(s, i, "<>") {
      var op := GetToken(s, Skip(s, i));
      var file := GetToken(s, op.next);
      if file.kind == 'a' {
        WordSpan(s, op.next);
        RedirsRead(s, Redir(c, Span(file.lo, file.hi), Mode(op.kind), Fd(op.kind)), n, file.next);
      }
    }
  }

  lemma {:induction false} AddArgRead(s: string, c: Cmd<Span>, n: nat, arg: Span)
    requires WellRead(s, c) && Core(c, n) && n + 1 < MAXARGS && WholeWord(s, arg)
    ensures WellRead(s, AddArg(c, arg)) && Core(AddArg(c, arg), n + 1)
  {
    if c.Redir? {
      AddArgRead(s, c.cmd, n, arg);
    }
  }

  lemma {:induction false} ItemsRead(s: string, c: Cmd<Span>, n: nat, i: nat)
    requires NulFree(s) && i <= |s| && WellRead(s, c) && Core(c, n)
    ensures Items(s, c, n, i).Ok? ==> WellRead(s, Items(s, c, n, i).cmd)
    decreases |s| - i
  {
    hide GetToken, Peek, Skip, WholeWord, Redirs, AddArg, WellRead, Core;
    var r := Redirs(s, c, i);
    RedirsRead(s, c, n, i);
    if r.Ok? && !Peek(s, r.next, "|)&;") {
      var t := GetToken(s, Skip(s, r.next));
      if t.kind == 'a' && n + 1 < MAXARGS {
        WordSpan(s, Skip(s, r.next));
        AddArgRead(s, r.cmd, n, Span(t.lo, t.hi));
        ItemsRead(s, AddArg(r.cmd, Span(t.lo, t.hi)), n + 1, t.next);
      }
    }
  }

  lemma {:induction false} AmpsRead(s: string, c: Cmd<Span>, i: nat)
    requires i <= |s| && WellRead(s, c)
    ensures WellRead(s, Amps(s, c, i).cmd)
    decreases |s| - i
  {
    hide GetToken, Peek, Skip;
    if Peek(s, i, "&") {
      Progress(s, i, "&");
      AmpsRead(s, Back(c), GetToken(s, Skip(s, i)).next);
    }
  }

  lemma {:induction false} ExecRead(s: string, i: nat)
    requires NulFree(s) && i <= |s|
    ensures ParseExec(s, i).Ok? ==> WellRead(s, ParseExec(s, i).cmd)
    decreases |s| - i, 1
  {
    hide GetToken, Peek, Skip, Redirs, ParseLine, Items;
    if Peek(s, i, "(") {
      SkipTwice(s, i);
      var at := Skip(s, i);
      if Peek(s, at, "(") {
        var t := GetToken(s, Skip(s, at));
        Progress(s, at, "(");
        LineRead(s, t.next);
        var r := ParseLine(s, t.next);
        if r.Ok? && Peek(s, r.next, ")") {
          RedirsRead(s, r.cmd, 0, GetToken(s, Skip(s, r.next)).next);
        }
      }
    } else {
      ItemsRead(s, Exec([]), 0, i);
    }
  }

  lemma {:induction false} PipeRead(s: string, i: nat)
    requires NulFree(s) && i <= |s|
    ensures ParsePipe(s, i).Ok? ==> WellRead(s, ParsePipe(s, i).cmd)
    decreases |s| - i, 2
  {
    hide GetToken, Peek, Skip, ParseExec;
    ExecRead(s, i);
    var r := ParseExec(s, i);
    if r.Ok? && Peek(s, r.next, "|") {
      Progress(s, r.next, "|");
      PipeRead(s, GetToken(s, Skip(s, r.next)).next);
    }
  }

  lemma {:induction false} LineRead(s: string, i: nat)
    requires NulFree(s) && i <= |s|
    ensures ParseLine(s, i).Ok? ==> WellRead(s, ParseLine(s, i).cmd)
    decreases |s| - i, 3
  {
    hide GetToken, Peek, Skip, ParsePipe, Amps;
    PipeRead(s, i);
    var p := ParsePipe(s, i);
    if p.Ok? {
      AmpsRead(s, p.cmd, p.next);
      var r := Amps(s, p.cmd, p.next);
      if Peek(s, r.next, ";") {
        Progress(s, r.next, ";");
        LineRead(s, GetToken(s, Skip(s, r.next)).next);
      }
    }
  }

  /** Whatever the parser accepts is a legal tree: nine arguments at most, every token a word,
    * and one of the two modes. */
  lemma {:induction false} ReadIsLegal(s: string, c: Cmd<Span>)
    requires WellRead(s, c)
    ensures Legal(Text(s, c))
  {
    match c
    case Exec(argv) =>
    case Redir(cmd, file, mode, fd) => ReadIsLegal(s, cmd);
    case Pipe(left, right) => ReadIsLegal(s, left); ReadIsLegal(s, right);
    case List(left, right) => ReadIsLegal(s, left); ReadIsLegal(s, right);
    case Back(cmd) => ReadIsLegal(s, cmd);
  }

  /** Any accepted line has a canonical form that reads the same. */
  lemma Canonical(s: string)
    requires NulFree(s) && Parse(s).Ok?
    ensures var t := Text(s, Parse(s).cmd);
      var r := Parse(Print(t, 0)); Legal(t) && r.Ok? && Text(Print(t, 0), r.cmd) == t
  {
    hide ParseLine, Print, WellRead, Legal, Text;
    LineRead(s, 0);
    ReadIsLegal(s, Parse(s).cmd);
    RoundTrip(Text(s, Parse(s).cmd));
  }

  // ---- writing the NULs ----

  function Spans(c: Cmd<Span>): seq<Span> {
    match c
    case Exec(argv) => argv
    case Redir(cmd, file, _, _) => Spans(cmd) + [file]
    case Pipe(left, right) => Spans(left) + Spans(right)
    case List(left, right) => Spans(left) + Spans(right)
    case Back(cmd) => Spans(cmd)
  }

  lemma {:induction false} SpansRead(s: string, c: Cmd<Span>)
    requires WellRead(s, c)
    ensures WholeWords(s, Spans(c))
  {
    match c
    case Exec(argv) =>
    case Redir(cmd, file, mode, fd) => SpansRead(s, cmd);
    case Pipe(left, right) => SpansRead(s, left); SpansRead(s, right);
    case List(left, right) => SpansRead(s, left); SpansRead(s, right);
    case Back(cmd) => SpansRead(s, cmd);
  }

  /** b with a NUL at the end of every span. */
  function Ended(b: seq<char>, sps: seq<Span>): (r: seq<char>)
    ensures |r| == |b|
  {
    if sps == [] then b
    else
      var r := Ended(b, sps[..|sps| - 1]);
      var hi := sps[|sps| - 1].hi;
      if hi < |r| then r[hi := NUL] else r
  }

  lemma {:induction false} EndedJoins(b: seq<char>, x: seq<Span>, y: seq<Span>)
    ensures Ended(b, x + y) == Ended(Ended(b, x), y)
    decreases |y|
  {
    if y == [] {
      assert x + y == x;
    } else {
      assert (x + y)[..|x + y| - 1] == x + y[..|y| - 1];
      EndedJoins(b, x, y[..|y| - 1]);
    }
  }

  /** Only the characters just past the spans change, and all of them become NUL. */
  lemma {:induction false} EndedAt(b: seq<char>, sps: seq<Span>, k: nat)
    requires k < |b|
    ensures (forall j :: 0 <= j < |sps| ==> sps[j].hi != k) ==> Ended(b, sps)[k] == b[k]
    ensures (exists j :: 0 <= j < |sps| && sps[j].hi == k) ==> Ended(b, sps)[k] == NUL
  {
    if sps != [] {
      var init := sps[..|sps| - 1];
      EndedAt(b, init, k);
      if (exists j :: 0 <= j < |sps| && sps[j].hi == k) && sps[|sps| - 1].hi != k {
        var j :| 0 <= j < |sps| && sps[j].hi == k;
        assert init[j].hi == k;
      }
    }
  }

  /** The string a pointer into the buffer denotes. */
  function CString(b: seq<char>, i: nat): string
    decreases |b| - i
  {
    if i >= |b| || b[i] == NUL then "" else [b[i]] + CString(b, i + 1)
  }

  lemma {:induction false} CStringIs(b: seq<char>, lo: nat, hi: nat)
    requires lo <= hi < |b| && b[hi] == NUL && forall k :: lo <= k < hi ==> b[k] != NUL
    ensures CString(b, lo) == b[lo..hi]
    decreases hi - lo
  {
    if lo < hi {
      CStringIs(b, lo + 1, hi);
    }
  }

  /** After the NULs are written every token reads as exactly itself, and none cut another. */
  lemma TokensSurvive(b: seq<char>, es: nat, sps: seq<Span>, k: nat)
    requires es < |b| && WholeWords(b[..es], sps) && k < |sps|
    ensures CString(Ended(b, sps), sps[k].lo) == Read(b[..es], sps[k])
  {
    hide Ended;
    var s, sp, e := b[..es], sps[k], Ended(b, sps);
    assert WholeWord(s, sp);
    forall x: nat | sp.lo <= x < sp.hi ensures e[x] == b[x] && b[x] != NUL {
      assert Letter(s[x]) && s[x] == b[x];
      forall j | 0 <= j < |sps| ensures sps[j].hi != x {
        assert WholeWord(s, sps[j]);
      }
      EndedAt(b, sps, x);
    }
    EndedAt(b, sps, sp.hi);
    CStringIs(e, sp.lo, sp.hi);
    assert e[sp.lo..sp.hi] == b[sp.lo..sp.hi] == s[sp.lo..sp.hi];
  }

  // ---- the program ----

  /** The line in a buffer: the characters before the NUL at es. */
  ghost predicate Line(buf: array<char>, es: nat, s: string)
    reads buf
  {
    es < buf.Length && buf[es] == NUL && buf[..es] == s
  }

  method GetTok(buf: array<char>, ghost line: string, s: nat, es: nat) returns (ret: char, q: nat, eq: nat, next: nat)
    requires Line(buf, es, line) && s <= es
    ensures Token(ret, q, eq, next) == GetToken(line, s)
  {
    hide Skip, WordEnd;
    next := SkipBlanks(buf, line, s, es);
    q := next;
    ret := buf[next];
    match ret {
      case '\0' =>
      case '|' | '(' | ')' | ';' | '&' | '<' =>
        next := next + 1;
      case '>' =>
        next := next + 1;
        if buf[next] == '>' {
          ret := '+';
          next := next + 1;
        }
      case _ =>
        ret := 'a';
        next := SkipWord(buf, line, next, es);
    }
    eq := next;
    next := SkipBlanks(buf, line, next, es);
  }

  /** gettoken's loop over a word. */
  method SkipWord(buf: array<char>, ghost line: string, s: nat, es: nat) returns (next: nat)
    requires Line(buf, es, line) && s <= es
    ensures next == WordEnd(line, s)
  {
    next := s;
    while next < es && buf[next] !in Whitespace && buf[next] !in Symbols
      invariant s <= next <= es && WordEnd(line, next) == WordEnd(line, s)
    {
      next := next + 1;
    }
  }

  /** The loop both gettoken and peek run. */
  method SkipBlanks(buf: array<char>, ghost line: string, s: nat, es: nat) returns (next: nat)
    requires Line(buf, es, line) && s <= es
    ensures next == Skip(line, s)
  {
    next := s;
    while next < es && buf[next] in Whitespace
      invariant next <= es && Skip(line, next) == Skip(line, s)
    {
      next := next + 1;
    }
  }

  method Look(buf: array<char>, ghost line: string, s: nat, es: nat, toks: string) returns (found: bool, next: nat)
    requires Line(buf, es, line) && s <= es
    ensures next == Skip(line, s) && found == Peek(line, s, toks)
  {
    next := SkipBlanks(buf, line, s, es);
    found := buf[next] != NUL && buf[next] in toks;
  }

  method ReadRedirs(buf: array<char>, ghost line: string, cmd0: Cmd<Span>, s: nat, es: nat) returns (r: Parsed)
    requires Line(buf, es, line) && s <= es
    ensures r == Redirs(line, cmd0, s)
  {
    hide GetToken, Peek, Skip, Line;
    assert |line| == es by { LineLength(buf, es, line); }
    var cmd := cmd0;
    ghost var p := s;
    var found, at := Look(buf, line, s, es, "<>");
    while found
      invariant p <= es && Redirs(line, cmd, p) == Redirs(line, cmd0, s)
      invariant at == Skip(line, p) && found == Peek(line, p, "<>")
      decreases es - p
    {
      Progress(line, p, "<>");
      var tok, q, eq;
      tok, q, eq, at := GetTok(buf, line, at, es);
      var kind;
      kind, q, eq, at := GetTok(buf, line, at, es);
      if kind != 'a' {
        return Err(MissingFile);
      }
      match tok {
        case '<' => cmd := Redir(cmd, Span(q, eq), O_RDONLY, 0);
        case _ => cmd := Redir(cmd, Span(q, eq), O_WRONLY + O_CREATE, 1);
      }
      p := at;
      found, at := Look(buf, line, at, es, "<>");
    }
    return Ok(cmd, at);
  }

  lemma LineLength(buf: array<char>, es: nat, s: string)
    requires Line(buf, es, s)
    ensures |s| == es
  {
  }

  method ReadBlock(buf: array<char>, ghost line: string, s: nat, es: nat) returns (r: Parsed)
    requires Line(buf, es, line) && s <= es
    ensures r == ParseBlock(line, s)
    decreases es - s, 0
  {
    hide GetToken, Peek, Skip, Line, Redirs, ParseLine;
    LineLength(buf, es, line);
    var found, at := Look(buf, line, s, es, "(");
    if !found {
      return Err(NoBlock);
    }
    Progress(line, s, "(");
    var tok, q, eq;
    tok, q, eq, at := GetTok(buf, line, at, es);
    r := ReadLine(buf, line, at, es);
    if r.Err? {
      return;
    }
    var cmd := r.cmd;
    found, at := Look(buf, line, r.next, es, ")");
    if !found {
      return Err(MissingParen);
    }
    tok, q, eq, at := GetTok(buf, line, at, es);
    r := ReadRedirs(buf, line, cmd, at, es);
  }

  method ReadExec(buf: array<char>, ghost line: string, s: nat, es: nat) returns (r: Parsed)
    requires Line(buf, es, line) && s <= es
    ensures r == ParseExec(line, s)
    decreases es - s, 1
  {
    hide GetToken, Peek, Skip, Line, Redirs, ParseBlock, AddArg;
    LineLength(buf, es, line);
    var found, at := Look(buf, line, s, es, "(");
    if found {
      SkipTwice(line, s);
      r := ReadBlock(buf, line, at, es);
      return;
    }
    var argc := 0;
    ghost var c: Cmd<Span>, p := Exec([]), at;
    SkipItems(line, Exec([]), 0, s);
    r := ReadRedirs(buf, line, Exec([]), at, es);
    if r.Err? {
      return;
    }
    found, at := Look(buf, line, r.next, es, "|)&;");
    while !found
      invariant p <= es && Items(line, c, argc, p) == ParseExec(line, s)
      invariant r == Redirs(line, c, p) && r.Ok?
      invariant at == Skip(line, r.next) && found == Peek(line, r.next, "|)&;")
      decreases es - p
    {
      var tok, q, eq;
      tok, q, eq, at := GetTok(buf, line, at, es);
      if tok == NUL {
        return Ok(r.cmd, at);
      }
      if tok != 'a' {
        return Err(Syntax);
      }
      var cmd := AddArg(r.cmd, Span(q, eq));
      argc := argc + 1;
      if argc >= MAXARGS {
        return Err(TooManyArgs);
      }
      c, p := cmd, at;
      r := ReadRedirs(buf, line, cmd, at, es);
      if r.Err? {
        return;
      }
      found, at := Look(buf, line, r.next, es, "|)&;");
    }
    return Ok(r.cmd, at);
  }

  method ReadPipe(buf: array<char>, ghost line: string, s: nat, es: nat) returns (r: Parsed)
    requires Line(buf, es, line) && s <= es
    ensures r == ParsePipe(line, s)
    decreases es - s, 2
  {
    hide GetToken, Peek, Skip, Line, ParseExec;
    LineLength(buf, es, line);
    r := ReadExec(buf, line, s, es);
    if r.Err? {
      return;
    }
    var cmd := r.cmd;
    var found, at := Look(buf, line, r.next, es, "|");
    if found {
      Progress(line, r.next, "|");
      var tok, q, eq;
      tok, q, eq, at := GetTok(buf, line, at, es);
      r := ReadPipe(buf, line, at, es);
      return if r.Err? then r else Ok(Pipe(cmd, r.cmd), r.next);
    }
    return Ok(cmd, at);
  }

  method ReadLine(buf: array<char>, ghost line: string, s: nat, es: nat) returns (r: Parsed)
    requires Line(buf, es, line) && s <= es
    ensures r == ParseLine(line, s)
    decreases es - s, 3
  {
    hide GetToken, Peek, Skip, Line, ParsePipe;
    LineLength(buf, es, line);
    r := ReadPipe(buf, line, s, es);
    if r.Err? {
      return;
    }
    var cmd := r.cmd;
    ghost var p := r.next;
    var found, at := Look(buf, line, r.next, es, "&");
    while found
      invariant r.next <= p <= es && Amps(line, cmd, p) == Amps(line, r.cmd, r.next)
      invariant at == Skip(line, p) && found == Peek(line, p, "&")
      decreases es - p
    {
      Progress(line, p, "&");
      var tok, q, eq;
      tok, q, eq, at := GetTok(buf, line, at, es);
      cmd := Back(cmd);
      p := at;
      found, at := Look(buf, line, at, es, "&");
    }
    p := at;
    found, at := Look(buf, line, at, es, ";");
    if found {
      Progress(line, p, ";");
      var tok, q, eq;
      tok, q, eq, at := GetTok(buf, line, at, es);
      r := ReadLine(buf, line, at, es);
      return if r.Err? then r else Ok(List(cmd, r.cmd), r.next);
    }
    return Ok(cmd, at);
  }

  predicate Within(sps: seq<Span>, n: nat) {
    forall k :: 0 <= k < |sps| ==> sps[k].hi < n
  }

  /** Writes a NUL at the end of every token of the tree. */
  method NulTerminate(buf: array<char>, cmd: Cmd<Span>)
    requires Within(Spans(cmd), buf.Length)
    modifies buf
    ensures buf[..] == Ended(old(buf[..]), Spans(cmd))
  {
    match cmd
    case Exec(argv) =>
      var i := 0;
      while i < |argv|
        invariant i <= |argv|
        invariant buf[..] == Ended(old(buf[..]), argv[..i])
      {
        assert argv[..i + 1][..i] == argv[..i] && argv[i].hi < buf.Length;
        buf[argv[i].hi] := NUL;
        i := i + 1;
      }
      assert argv[..|argv|] == argv;
    case Redir(sub, file, _, _) =>
      WithinParts(Spans(sub), [file], buf.Length);
      EndedJoins(buf[..], Spans(sub), [file]);
      NulTerminate(buf, sub);
      buf[file.hi] := NUL;
    case Pipe(left, right) =>
      WithinParts(Spans(left), Spans(right), buf.Length);
      EndedJoins(buf[..], Spans(left), Spans(right));
      NulTerminate(buf, left);
      NulTerminate(buf, right);
    case List(left, right) =>
      WithinParts(Spans(left), Spans(right), buf.Length);
      EndedJoins(buf[..], Spans(left), Spans(right));
      NulTerminate(buf, left);
      NulTerminate(buf, right);
    case Back(sub) =>
      NulTerminate(buf, sub);
  }

  lemma WithinParts(x: seq<Span>, y: seq<Span>, n: nat)
    requires Within(x + y, n)
    ensures Within(x, n) && Within(y, n)
  {
    forall k | 0 <= k < |x| ensures x[k].hi < n { assert (x + y)[k] == x[k]; }
    forall k | 0 <= k < |y| ensures y[k].hi < n { assert (x + y)[|x| + k] == y[k]; }
  }

  method Strlen(buf: array<char>) returns (n: nat)
    requires NUL in buf[..]
    ensures n < buf.Length && buf[n] == NUL && NulFree(buf[..n])
  {
    n := 0;
    while buf[n] != NUL
      invariant n < buf.Length && NulFree(buf[..n])
      invariant NUL in buf[n..]
      decreases buf.Length - n
    {
      n := n + 1;
    }
  }

  /** Parses the line in the buffer.  On success every token of the tree reads, as a string that
    * starts in the buffer, as exactly what the line had there; otherwise nothing is written. */
  method ParseCmd(buf: array<char>) returns (r: Parsed, ghost line: string)
    requires NUL in buf[..]
    modifies buf
    ensures |line| < buf.Length && old(buf[..])[..|line|] == line && old(buf[..])[|line|] == NUL && NulFree(line)
    ensures r == Parse(line)
    ensures r.Err? ==> buf[..] == old(buf[..])
    ensures r.Ok? ==> WellRead(line, r.cmd)
    ensures r.Ok? ==> buf[..] == Ended(old(buf[..]), Spans(r.cmd))
    ensures r.Ok? ==> forall k :: 0 <= k < |Spans(r.cmd)| ==>
                        CString(buf[..], Spans(r.cmd)[k].lo) == Read(line, Spans(r.cmd)[k])
  {
    hide ParseLine, Ended, WellRead, CString, Read, Spans;
    var es := Strlen(buf);
    line := buf[..es];
    assert buf[..][..es] == line;
    r := ReadLine(buf, line, 0, es);
    if r.Err? {
      return;
    }
    var found, s := Look(buf, line, r.next, es, "");
    if s != es {
      return Err(Leftovers), line;
    }
    LineRead(line, 0);
    SpansRead(line, r.cmd);
    forall k | 0 <= k < |Spans(r.cmd)|
      ensures CString(Ended(buf[..], Spans(r.cmd)), Spans(r.cmd)[k].lo) == Read(line, Spans(r.cmd)[k]) {
      TokensSurvive(buf[..], es, Spans(r.cmd), k);
    }
    forall k | 0 <= k < |Spans(r.cmd)| ensures Spans(r.cmd)[k].hi < buf.Length {
      assert WholeWord(line, Spans(r.cmd)[k]);
    }
    NulTerminate(buf, r.cmd);
  }
}
