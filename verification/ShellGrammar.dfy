// The shell's command lines (sh.c): tokens, and the grammar as functions of the
// line and a position.
module ShellGrammar {
  import opened Blocks

  const MAXARGS: nat := 10

  // The line being parsed, without its final NUL.
  type Line = s: string | '\0' !in s

  // A token in the line: from q up to but not including eq.
  datatype Span = Span(q: nat, eq: nat)

  const O_RDONLY: nat := 0x000
  const O_WRONLY: nat := 0x001
  const O_CREATE: nat := 0x200

  // How a redirection opens its file: the mode, and the descriptor it replaces.
  datatype Open = Open(mode: nat, fd: nat)

  // Commands, with words and file names of type T and redirections of type M.
  datatype Cmd<T, M> =
    | Exec(args: seq<T>)
    | Redir(cmd: Cmd<T, M>, file: T, how: M)
    | Pipe(left: Cmd<T, M>, right: Cmd<T, M>)
    | List(left: Cmd<T, M>, right: Cmd<T, M>)
    | Back(cmd: Cmd<T, M>)

  datatype Redirection = Redirection(file: Span, how: Open)

  // parseredirs's switch on the token: its cases for '>' and for '+', which
  // stands for ">>", are the same.
  function Opening(kind: char): Open {
    if kind == '<' then Open(O_RDONLY, 0) else Open(O_WRONLY + O_CREATE, 1)
  }

  predicate Space(c: char) { c == ' ' || c == '\t' || c == '\r' || c == '\n' || c == '\U{000B}' }

  predicate Symbol(c: char) { c == '<' || c == '|' || c == '>' || c == '&' || c == ';' || c == '(' || c == ')' }

  predicate WordChar(c: char) { !Space(c) && !Symbol(c) && c != '\0' }

  function At(buf: Line, p: nat): char { if p < |buf| then buf[p] else '\0' }

  // --- tokens ---

  function Skip(buf: Line, p: nat): (r: nat)
    requires p <= |buf|
    ensures p <= r <= |buf| && !Space(At(buf, r))
    decreases |buf| - p
  {
    if p < |buf| && Space(buf[p]) then Skip(buf, p + 1) else p
  }

  function WordEnd(buf: Line, p: nat): (r: nat)
    requires p <= |buf|
    ensures p <= r <= |buf| && !WordChar(At(buf, r))
    ensures forall i | p <= i < r :: WordChar(buf[i])
    decreases |buf| - p
  {
    if p < |buf| && WordChar(buf[p]) then WordEnd(buf, p + 1) else p
  }

  datatype Token = Token(kind: char, q: nat, eq: nat, next: nat)

  // kind is 'a' for a word, '+' for '>>', NUL at the end, else the symbol.
  function GetToken(buf: Line, p: nat): (t: Token)
    requires p <= |buf|
    ensures p <= t.q <= t.eq <= t.next <= |buf|
    ensures t.kind != '\0' ==> p < t.next && t.q < t.eq
    ensures t.kind == 'a' ==> IsWord(buf, Span(t.q, t.eq))
  {
    var q := Skip(buf, p);
    var c := At(buf, q);
    if c == '\0' then Token(c, q, q, Skip(buf, q))
    else if c == '>' then
      if At(buf, q + 1) == '>' then Token('+', q, q + 2, Skip(buf, q + 2)) else Token('>', q, q + 1, Skip(buf, q + 1))
    else if Symbol(c) then Token(c, q, q + 1, Skip(buf, q + 1))
    else Token('a', q, WordEnd(buf, q), Skip(buf, WordEnd(buf, q)))
  }

  // A word that runs as far as it can.
  predicate IsWord(buf: Line, w: Span) {
    && w.q < w.eq <= |buf| && !WordChar(At(buf, w.eq))
    && forall i | w.q <= i < w.eq :: WordChar(buf[i])
  }

  predicate Peek(buf: Line, p: nat, toks: string)
    requires p <= |buf|
  {
    var c := At(buf, Skip(buf, p));
    c != '\0' && c in toks
  }

  // --- the grammar ---

  function Redirs(buf: Line, p: nat): (r: Option<(seq<Redirection>, nat)>)
    requires p <= |buf|
    ensures r.Some? ==> p <= r.value.1 <= |buf|
    decreases |buf| - p
  {
    var s := Skip(buf, p);
    if !Peek(buf, p, "<>") then Some(([], s)) else
    var op := GetToken(buf, s);
    var file := GetToken(buf, op.next);
    if file.kind != 'a' then None else
    match Redirs(buf, file.next)
    case None => None
    case Some((rs, e)) => Some(([Redirection(Span(file.q, file.eq), Opening(op.kind))] + rs, e))
  }

  function WithWord(w: Span, rs: seq<Redirection>, r: Option<(seq<Span>, seq<Redirection>, nat)>)
    : Option<(seq<Span>, seq<Redirection>, nat)>
  {
    if r.Some? then Some(([w] + r.value.0, rs + r.value.1, r.value.2)) else None
  }

  // The words and redirections of a simple command that has argc words so far.
  function Words(buf: Line, p: nat, argc: nat): (r: Option<(seq<Span>, seq<Redirection>, nat)>)
    requires p <= |buf|
    ensures r.Some? ==> p <= r.value.2 <= |buf|
    decreases |buf| - p
  {
    var s := Skip(buf, p);
    if Peek(buf, p, "|)&;") then Some(([], [], s)) else
    var t := GetToken(buf, s);
    if t.kind == '\0' then Some(([], [], t.next))
    else if t.kind != 'a' || argc + 1 >= MAXARGS then None
    else match Redirs(buf, t.next)
      case None => None
      case Some((rs, e)) =>
        WithWord(Span(t.q, t.eq), rs, Words(buf, e, argc + 1))
  }

  function Wrap(c: Cmd<Span, Open>, rs: seq<Redirection>): Cmd<Span, Open>
    decreases |rs|
  {
    if rs == [] then c else Wrap(Redir(c, rs[0].file, rs[0].how), rs[1..])
  }

  function WithRedirs(c: Cmd<Span, Open>, r: Option<(seq<Redirection>, nat)>): Option<(Cmd<Span, Open>, nat)> {
    if r.Some? then Some((Wrap(c, r.value.0), r.value.1)) else None
  }

  function ParseExec(buf: Line, p: nat): (r: Option<(Cmd<Span, Open>, nat)>)
    requires p <= |buf|
    ensures r.Some? ==> p <= r.value.1 <= |buf|
    decreases |buf| - p, 1
  {
    var s := Skip(buf, p);
    if Peek(buf, p, "(") then ParseBlock(buf, s) else
    match Redirs(buf, s)
    case None => None
    case Some((rs, e)) =>
      match Words(buf, e, 0)
      case None => None
      case Some((ws, rs', e')) => Some((Wrap(Exec(ws), rs + rs'), e'))
  }

  function ParseBlock(buf: Line, p: nat): (r: Option<(Cmd<Span, Open>, nat)>)
    requires p <= |buf|
    ensures r.Some? ==> p <= r.value.1 <= |buf|
    decreases |buf| - p, 0
  {
    if !Peek(buf, p, "(") then None else
    match ParseLine(buf, GetToken(buf, p).next)
    case None => None
    case Some((c, e)) =>
      if !Peek(buf, e, ")") then None else
      WithRedirs(c, Redirs(buf, GetToken(buf, e).next))
  }

  function ParsePipe(buf: Line, p: nat): (r: Option<(Cmd<Span, Open>, nat)>)
    requires p <= |buf|
    ensures r.Some? ==> p <= r.value.1 <= |buf|
    decreases |buf| - p, 2
  {
    match ParseExec(buf, p)
    case None => None
    case Some((c, e)) =>
      if !Peek(buf, e, "|") then Some((c, Skip(buf, e))) else
      match ParsePipe(buf, GetToken(buf, e).next)
      case None => None
      case Some((c', e')) => Some((Pipe(c, c'), e'))
  }

  function Backs(buf: Line, p: nat, c: Cmd<Span, Open>): (r: (Cmd<Span, Open>, nat))
    requires p <= |buf|
    ensures p <= r.1 <= |buf|
    decreases |buf| - p
  {
    if Peek(buf, p, "&") then Backs(buf, GetToken(buf, p).next, Back(c)) else (c, Skip(buf, p))
  }

  function ParseLine(buf: Line, p: nat): (r: Option<(Cmd<Span, Open>, nat)>)
    requires p <= |buf|
    ensures r.Some? ==> p <= r.value.1 <= |buf|
    decreases |buf| - p, 3
  {
    match ParsePipe(buf, p)
    case None => None
    case Some((c, e)) =>
      var (c', e') := Backs(buf, e, c);
      if !Peek(buf, e', ";") then Some((c', Skip(buf, e'))) else
      match ParseLine(buf, GetToken(buf, e').next)
      case None => None
      case Some((c2, e2)) => Some((List(c', c2), e2))
  }

  // None stands for every way the shell panics on a line.
  function ParseCmd(buf: Line): Option<Cmd<Span, Open>> {
    match ParseLine(buf, 0)
    case None => None
    case Some((c, e)) => if Skip(buf, e) == |buf| then Some(c) else None
  }
}
