/** The shell's grammar: what the tokenizer and the parser compute on a string.
  *
  * A command tree is generic in its tokens: the parser builds trees whose tokens are spans of
  * the input line, and Text turns them into trees of strings. */
module ShellGrammar {
  const MAXARGS: nat := 10
  const O_RDONLY: nat := 0
  const O_WRONLY: nat := 1
  const O_CREATE: nat := 0x200

  const NUL: char := '\0'
  const Whitespace: string := [' ', '\t', '\r', '\n', '\U{0B}']
  const Symbols: string := "<|>&;()"

  datatype Cmd<T> =
    | Exec(argv: seq<T>)
    | Redir(cmd: Cmd<T>, file: T, mode: nat, fd: nat)
    | Pipe(left: Cmd<T>, right: Cmd<T>)
    | List(left: Cmd<T>, right: Cmd<T>)
    | Back(cmd: Cmd<T>)

  datatype Span = Span(lo: nat, hi: nat)

  datatype Token = Token(kind: char, lo: nat, hi: nat, next: nat)

  datatype Panic =
    | MissingFile
    | NoBlock
    | MissingParen
    | Syntax
    | TooManyArgs
    | Leftovers

  datatype Parsed = Ok(cmd: Cmd<Span>, next: nat) | Err(panic: Panic)

  // ---- tokens ----

  predicate Space(c: char) {
    c in Whitespace
  }

  predicate Letter(c: char) {
    c !in Whitespace && c !in Symbols && c != NUL
  }

  /** The character at i; the byte after the line is NUL. */
  function At(s: string, i: nat): char {
    if i < |s| then s[i] else NUL
  }

  function Skip(s: string, i: nat): (j: nat)
    requires i <= |s|
    ensures i <= j <= |s| && !Space(At(s, j))
    ensures forall k :: i <= k < j ==> Space(s[k])
    decreases |s| - i
  {
    if i < |s| && Space(s[i]) then Skip(s, i + 1) else i
  }

  function WordEnd(s: string, i: nat): (j: nat)
    requires i <= |s|
    ensures i <= j <= |s|
    ensures j < |s| ==> s[j] in Whitespace || s[j] in Symbols
    ensures forall k :: i <= k < j ==> s[k] !in Whitespace && s[k] !in Symbols
    decreases |s| - i
  {
    if i < |s| && s[i] !in Whitespace && s[i] !in Symbols then WordEnd(s, i + 1) else i
  }

  function GetToken(s: string, i: nat): (t: Token)
    requires i <= |s|
    ensures i <= t.lo <= t.hi <= t.next <= |s|
    ensures t.kind != NUL ==> i < t.next
    ensures t.kind == 'a' ==> t.lo < t.hi
  {
    var a := Skip(s, i);
    var c := At(s, a);
    var (kind, end) :=
      if c == NUL then (c, a)
      else if c in "|();&<" then (c, a + 1)
      else if c == '>' then if At(s, a + 1) == '>' then ('+', a + 2) else ('>', a + 1)
      else ('a', WordEnd(s, a));
    Token(kind, a, end, Skip(s, end))
  }

  predicate Peek(s: string, i: nat, toks: string)
    requires i <= |s|
  {
    At(s, Skip(s, i)) != NUL && At(s, Skip(s, i)) in toks
  }

  // ---- the parser ----

  /** The tree ret with one more argument for the EXEC at its core. */
  function AddArg(ret: Cmd<Span>, arg: Span): Cmd<Span> {
    match ret
    case Exec(argv) => Exec(argv + [arg])
    case Redir(cmd, file, mode, fd) => Redir(AddArg(cmd, arg), file, mode, fd)
    case _ => ret
  }

  function Mode(kind: char): nat {
    if kind == '<' then O_RDONLY else O_WRONLY + O_CREATE
  }

  function Fd(kind: char): nat {
    if kind == '<' then 0 else 1
  }

  function Redirs(s: string, cmd: Cmd<Span>, i: nat): (r: Parsed)
    requires i <= |s|
    ensures r.Ok? ==> i <= r.next <= |s|
    decreases |s| - i
  {
    if Peek(s, i, "<>") then
      var op := GetToken(s, Skip(s, i));
      var file := GetToken(s, op.next);
      if file.kind != 'a' then Err(MissingFile)
      else Redirs(s, Redir(cmd, Span(file.lo, file.hi), Mode(op.kind), Fd(op.kind)), file.next)
    else Ok(cmd, Skip(s, i))
  }

  /** Redirections and arguments, with n arguments already read. */
  function Items(s: string, cmd: Cmd<Span>, n: nat, i: nat): (r: Parsed)
    requires i <= |s|
    ensures r.Ok? ==> i <= r.next <= |s|
    decreases |s| - i
  {
    var r := Redirs(s, cmd, i);
    if r.Err? then r
    else if Peek(s, r.next, "|)&;") then Ok(r.cmd, Skip(s, r.next))
    else
      var t := GetToken(s, Skip(s, r.next));
      if t.kind == NUL then Ok(r.cmd, t.next)
      else if t.kind != 'a' then Err(Syntax)
      else if n + 1 >= MAXARGS then Err(TooManyArgs)
      else Items(s, AddArg(r.cmd, Span(t.lo, t.hi)), n + 1, t.next)
  }

  function ParseExec(s: string, i: nat): (r: Parsed)
    requires i <= |s|
    ensures r.Ok? ==> i <= r.next <= |s|
    decreases |s| - i, 1
  {
    if Peek(s, i, "(") then ParseBlock(s, Skip(s, i)) else Items(s, Exec([]), 0, i)
  }

  function ParseBlock(s: string, i: nat): (r: Parsed)
    requires i <= |s|
    ensures r.Ok? ==> i <= r.next <= |s|
    decreases |s| - i, 0
  {
    if !Peek(s, i, "(") then Err(NoBlock)
    else
      var r := ParseLine(s, GetToken(s, Skip(s, i)).next);
      if r.Err? then r
      else if !Peek(s, r.next, ")") then Err(MissingParen)
      else Redirs(s, r.cmd, GetToken(s, Skip(s, r.next)).next)
  }

  function ParsePipe(s: string, i: nat): (r: Parsed)
    requires i <= |s|
    ensures r.Ok? ==> i <= r.next <= |s|
    decreases |s| - i, 2
  {
    var r := ParseExec(s, i);
    if r.Ok? && Peek(s, r.next, "|") then
      var right := ParsePipe(s, GetToken(s, Skip(s, r.next)).next);
      if right.Err? then right else Ok(Pipe(r.cmd, right.cmd), right.next)
    else if r.Ok? then Ok(r.cmd, Skip(s, r.next)) else r
  }

  function Amps(s: string, cmd: Cmd<Span>, i: nat): (r: Parsed)
    requires i <= |s|
    ensures r.Ok? && i <= r.next <= |s|
    decreases |s| - i
  {
    if Peek(s, i, "&") then Amps(s, Back(cmd), GetToken(s, Skip(s, i)).next)
    else Ok(cmd, Skip(s, i))
  }

  function ParseLine(s: string, i: nat): (r: Parsed)
    requires i <= |s|
    ensures r.Ok? ==> i <= r.next <= |s|
    decreases |s| - i, 3
  {
    var p := ParsePipe(s, i);
    if p.Err? then p
    else
      var r := Amps(s, p.cmd, p.next);
      if Peek(s, r.next, ";") then
        var right := ParseLine(s, GetToken(s, Skip(s, r.next)).next);
        if right.Err? then right else Ok(List(r.cmd, right.cmd), right.next)
      else Ok(r.cmd, Skip(s, r.next))
  }

  /** The whole line must be one command. */
  function Parse(s: string): Parsed {
    var r := ParseLine(s, 0);
    if r.Ok? && Skip(s, r.next) != |s| then Err(Leftovers) else r
  }
}
