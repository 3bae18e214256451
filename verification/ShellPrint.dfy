// Printing commands so that the shell (sh.c) reads them back.
module ShellPrint {
  import opened Blocks
  import opened ShellGrammar

  // --- printing ---

  // How a redirection is spelled.
  datatype Arrow = Less | Greater | Append

  function Sign(a: Arrow): string {
    match a case Less => "<" case Greater => ">" case Append => ">>"
  }

  // What the shell makes of each spelling.
  function How(a: Arrow): Open {
    match a
    case Less => Open(O_RDONLY, 0)
    case Greater => Open(O_WRONLY + O_CREATE, 1)
    case Append => Open(O_WRONLY + O_CREATE, 1)
  }

  function Join(ws: seq<string>): string {
    if ws == [] then "" else if |ws| == 1 then ws[0] else ws[0] + " " + Join(ws[1..])
  }

  function Print(c: Cmd<string, Arrow>): string
    decreases c, 0
  {
    match c
    case Exec(args) => Join(args)
    case Redir(c', file, a) => Paren(c') + Sign(a) + file
    case Pipe(l, r) => Paren(l) + "|" + Paren(r)
    case List(l, r) => Paren(l) + ";" + Paren(r)
    case Back(c') => Paren(c') + "&"
  }

  function Paren(c: Cmd<string, Arrow>): string
    decreases c, 1
  {
    "(" + Print(c) + ")"
  }

  predicate Plain(w: string) { w != "" && forall i | 0 <= i < |w| :: WordChar(w[i]) }

  // The commands a line can spell: plain words, and no more of them than fit.
  predicate Printable(c: Cmd<string, Arrow>) {
    match c
    case Exec(args) => |args| < MAXARGS && forall i | 0 <= i < |args| :: Plain(args[i])
    case Redir(c', file, _) => Printable(c') && Plain(file)
    case Pipe(l, r) => Printable(l) && Printable(r)
    case List(l, r) => Printable(l) && Printable(r)
    case Back(c') => Printable(c')
  }

  // A parsed command with its spans read out of the line.
  function Slice(buf: Line, w: Span): string { if w.q <= w.eq <= |buf| then buf[w.q..w.eq] else "" }

  function Texts(buf: Line, ws: seq<Span>): (ts: seq<string>)
    ensures |ts| == |ws|
  {
    if ws == [] then [] else [Slice(buf, ws[0])] + Texts(buf, ws[1..])
  }

  function Read(buf: Line, c: Cmd<Span, Open>): Cmd<string, Open> {
    match c
    case Exec(args) => Exec(Texts(buf, args))
    case Redir(c', file, how) => Redir(Read(buf, c'), Slice(buf, file), how)
    case Pipe(l, r) => Pipe(Read(buf, l), Read(buf, r))
    case List(l, r) => List(Read(buf, l), Read(buf, r))
    case Back(c') => Back(Read(buf, c'))
  }

  // What a command spelled with arrows should be read as.
  function Opened(c: Cmd<string, Arrow>): Cmd<string, Open> {
    match c
    case Exec(args) => Exec(args)
    case Redir(c', file, a) => Redir(Opened(c'), file, How(a))
    case Pipe(l, r) => Pipe(Opened(l), Opened(r))
    case List(l, r) => List(Opened(l), Opened(r))
    case Back(c') => Back(Opened(c'))
  }

  // --- scanning printed text ---

  // The line has w at p.
  ghost predicate Has(buf: Line, p: nat, w: string) { p + |w| <= |buf| && buf[p..p + |w|] == w }

  lemma HasParts(buf: Line, p: nat, u: string, w: string)
    requires Has(buf, p, u + w)
    ensures Has(buf, p, u) && Has(buf, p + |u|, w)
  {
    assert buf[p..p + |u|] == (u + w)[..|u|];
    assert buf[p + |u|..p + |u| + |w|] == (u + w)[|u|..];
  }

  lemma HasChar(buf: Line, p: nat, w: string, i: nat)
    requires Has(buf, p, w) && i < |w|
    ensures p + i < |buf| && At(buf, p + i) == w[i]
  {
    assert buf[p..p + |w|][i] == w[i];
  }

  lemma NoSkip(buf: Line, p: nat)
    requires p <= |buf| && !Space(At(buf, p))
    ensures Skip(buf, p) == p
  {
  }

  // The end of the line, or of the enclosing block.
  predicate Stop(buf: Line, e: nat) { e == |buf| || (e < |buf| && buf[e] == ')') }

  lemma {:induction false} WordEndsAt(buf: Line, p: nat, e: nat)
    requires p <= e <= |buf| && !WordChar(At(buf, e)) && forall i | p <= i < e :: WordChar(buf[i])
    ensures WordEnd(buf, p) == e
    decreases e - p
  {
    if p < e { WordEndsAt(buf, p + 1, e); }
  }

  // The token at a printed word is that word.
  lemma WordToken(buf: Line, p: nat, w: string)
    requires Plain(w) && Has(buf, p, w) && !WordChar(At(buf, p + |w|))
    ensures var e := p + |w|; GetToken(buf, p) == Token('a', p, e, Skip(buf, e)) && Slice(buf, Span(p, e)) == w
  {
    HasChar(buf, p, w, 0);
    forall i | p <= i < p + |w| ensures WordChar(buf[i]) { HasChar(buf, p, w, i - p); }
    NoSkip(buf, p);
    WordEndsAt(buf, p, p + |w|);
  }

  // No redirection begins at a position that is not blank, '<' or '>'.
  lemma NoRedirs(buf: Line, p: nat)
    requires p <= |buf| && !Space(At(buf, p)) && At(buf, p) != '<' && At(buf, p) != '>'
    ensures Redirs(buf, p) == Some(([], p))
  {
    NoSkip(buf, p);
  }

  // One word of a simple command, when no redirection follows it.
  lemma OneWord(buf: Line, p: nat, w: string, argc: nat, n: nat)
    requires Plain(w) && Has(buf, p, w) && !WordChar(At(buf, p + |w|)) && argc + 1 < MAXARGS
    requires n == Skip(buf, p + |w|) && At(buf, n) != '<' && At(buf, n) != '>'
    ensures Words(buf, p, argc) == WithWord(Span(p, p + |w|), [], Words(buf, n, argc + 1))
    ensures Slice(buf, Span(p, p + |w|)) == w
  {
    WordToken(buf, p, w);
    HasChar(buf, p, w, 0);
    NoSkip(buf, p);
    NoRedirs(buf, n);
  }

  lemma FirstOfWords(ws: seq<string>)
    requires ws != [] && Plain(ws[0])
    ensures Join(ws) != "" && WordChar(Join(ws)[0])
  {
    assert Join(ws)[0] == ws[0][0];
  }

  // The words of a simple command.
  lemma {:induction false} PrintedWords(buf: Line, p: nat, ws: seq<string>, argc: nat)
    requires p <= |buf| && argc + |ws| < MAXARGS && (forall i | 0 <= i < |ws| :: Plain(ws[i]))
    requires Has(buf, p, Join(ws)) && Stop(buf, p + |Join(ws)|)
    ensures var e := p + |Join(ws)|;
      && Words(buf, p, argc).Some? && Words(buf, p, argc).value.2 == e && Words(buf, p, argc).value.1 == []
      && Texts(buf, Words(buf, p, argc).value.0) == ws
    decreases |ws|
  {
    hide Words, Plain, Has, Join;
    if ws == [] {
      NoWords();
      WordsStop(buf, p, argc);
    } else {
      MoreWords(buf, p, ws, argc);
      var n := Skip(buf, p + |ws[0]|);
      PrintedWords(buf, n, ws[1..], argc + 1);
      var (ts, _, _) := Words(buf, n, argc + 1).value;
      assert ([Span(p, p + |ws[0]|)] + ts)[1..] == ts;
    }
  }

  lemma WordsStop(buf: Line, p: nat, argc: nat)
    requires Stop(buf, p)
    ensures Words(buf, p, argc) == Some(([], [], p))
  {
    NoSkip(buf, p);
  }

  lemma NoWords()
    ensures Join([]) == ""
  {
  }

  // After the first word the rest of the words follow, past a blank.
  lemma MoreWords(buf: Line, p: nat, ws: seq<string>, argc: nat)
    requires p <= |buf| && argc + |ws| < MAXARGS && ws != [] && (forall i | 0 <= i < |ws| :: Plain(ws[i]))
    requires Has(buf, p, Join(ws)) && Stop(buf, p + |Join(ws)|)
    ensures p + |ws[0]| <= |buf| && Slice(buf, Span(p, p + |ws[0]|)) == ws[0]
    ensures var n := Skip(buf, p + |ws[0]|);
      && Has(buf, n, Join(ws[1..])) && n + |Join(ws[1..])| == p + |Join(ws)|
      && Words(buf, p, argc) == WithWord(Span(p, p + |ws[0]|), [], Words(buf, n, argc + 1))
  {
    hide Words, Skip, WithWord, Plain, Has, Slice;
    var w := ws[0];
    var e := p + |w|;
    if |ws| == 1 {
      StopHere(buf, e);
      OneWord(buf, p, w, argc, e);
    } else {
      FirstOfWords(ws[1..]);
      assert Join(ws) == w + (" " + Join(ws[1..]));
      HasParts(buf, p, w, " " + Join(ws[1..]));
      PastBlank(buf, e, Join(ws[1..]));
      OneWord(buf, p, w, argc, e + 1);
    }
  }

  lemma StopHere(buf: Line, e: nat)
    requires Stop(buf, e)
    ensures e <= |buf| && Skip(buf, e) == e && Has(buf, e, "") && !Space(At(buf, e))
    ensures !WordChar(At(buf, e)) && At(buf, e) != '<' && At(buf, e) != '>'
  {
    NoSkip(buf, e);
  }

  lemma PastBlank(buf: Line, e: nat, rest: string)
    requires Has(buf, e, " " + rest) && rest != "" && WordChar(rest[0])
    ensures e + 1 < |buf| && Has(buf, e + 1, rest) && Skip(buf, e) == e + 1 && !WordChar(At(buf, e))
    ensures At(buf, e + 1) != '<' && At(buf, e + 1) != '>'
  {
    HasChar(buf, e, " " + rest, 0);
    HasChar(buf, e, " " + rest, 1);
    HasParts(buf, e, " ", rest);
    NoSkip(buf, e + 1);
  }

  // --- reading back ---

  // What ParseExec, ParsePipe and ParseLine give on a printed command.
  ghost predicate Gives(buf: Line, r: Option<(Cmd<Span, Open>, nat)>, c: Cmd<string, Arrow>, e: nat) {
    r.Some? && r.value.1 == e && Read(buf, r.value.0) == Opened(c)
  }

  // A simple command where the line or the block ends after it.
  lemma PrintedExec(buf: Line, p: nat, args: seq<string>)
    requires Printable(Exec(args)) && Has(buf, p, Join(args)) && Stop(buf, p + |Join(args)|)
    ensures Gives(buf, ParseExec(buf, p), Exec(args), p + |Join(args)|)
  {
    var e := p + |Join(args)|;
    if args == [] {
      assert At(buf, p) == '\0' || At(buf, p) == ')';
    } else {
      FirstOfWords(args);
      HasChar(buf, p, Join(args), 0);
    }
    NoSkip(buf, p);
    NoRedirs(buf, p);
    PrintedWords(buf, p, args, 0);
    var (ws, rs, _) := Words(buf, p, 0).value;
    assert [] + rs == [];
  }

  // Nothing more belongs to a line that ends here.
  lemma LineStops(buf: Line, p: nat, e: nat, c: Cmd<string, Arrow>)
    requires p <= |buf| && Gives(buf, ParsePipe(buf, p), c, e) && Stop(buf, e)
    ensures Gives(buf, ParseLine(buf, p), c, e)
  {
    NoSkip(buf, e);
  }

  lemma PipeStops(buf: Line, p: nat, e: nat, c: Cmd<string, Arrow>)
    requires p <= |buf| && Gives(buf, ParseExec(buf, p), c, e) && e <= |buf| && !Space(At(buf, e)) && At(buf, e) != '|'
    ensures Gives(buf, ParsePipe(buf, p), c, e)
  {
    NoSkip(buf, e);
  }

  // A block, up to its redirections.
  lemma BlockOpens(buf: Line, p: nat, c: Cmd<string, Arrow>)
    requires Has(buf, p, Paren(c)) && p + 1 <= |buf| && Gives(buf, ParseLine(buf, p + 1), c, p + 1 + |Print(c)|)
    requires Stop(buf, p + 1 + |Print(c)|) && !Space(At(buf, p + 1))
    ensures var e := p + |Paren(c)|;
      e <= |buf| && ParseExec(buf, p) == WithRedirs(ParseLine(buf, p + 1).value.0, Redirs(buf, Skip(buf, e)))
  {
    hide ParseLine, Redirs, Words, Print, Has, Gives;
    var e := p + |Paren(c)|;
    HasChar(buf, p, Paren(c), 0);
    HasChar(buf, p, Paren(c), |Paren(c)| - 1);
    NoSkip(buf, p);
    NoSkip(buf, p + 1);
    NoSkip(buf, e - 1);
    GivesWhat(buf, ParseLine(buf, p + 1), c, e - 1);
    SymbolToken(buf, p);
    SymbolToken(buf, e - 1);
    SkipTwice(buf, e);
  }

  lemma GivesWhat(buf: Line, r: Option<(Cmd<Span, Open>, nat)>, c: Cmd<string, Arrow>, e: nat)
    requires Gives(buf, r, c, e)
    ensures r.Some? && r.value.1 == e
  {
  }

  lemma SymbolToken(buf: Line, p: nat)
    requires p < |buf| && (At(buf, p) == '(' || At(buf, p) == ')')
    ensures GetToken(buf, p).next == Skip(buf, p + 1)
  {
    NoSkip(buf, p);
  }

  lemma SkipTwice(buf: Line, p: nat)
    requires p <= |buf|
    ensures Skip(buf, Skip(buf, p)) == Skip(buf, p)
  {
    NoSkip(buf, Skip(buf, p));
  }

  // A block with something after it that is neither blank nor a redirection.
  lemma PrintedBlock(buf: Line, p: nat, c: Cmd<string, Arrow>)
    requires Has(buf, p, Paren(c)) && p + 1 <= |buf| && Gives(buf, ParseLine(buf, p + 1), c, p + 1 + |Print(c)|)
    requires Stop(buf, p + 1 + |Print(c)|) && !Space(At(buf, p + 1))
    requires var d := At(buf, p + |Paren(c)|); !Space(d) && d != '<' && d != '>'
    ensures Gives(buf, ParseExec(buf, p), c, p + |Paren(c)|)
  {
    hide ParseExec, ParseLine, Has, Print, Read;
    BlockOpens(buf, p, c);
    NoSkip(buf, p + |Paren(c)|);
    NoRedirs(buf, p + |Paren(c)|);
  }

  // A block and one redirection.
  lemma PrintedRedir(buf: Line, p: nat, c: Cmd<string, Arrow>, file: string, a: Arrow)
    requires Has(buf, p, Paren(c)) && p + 1 <= |buf| && Gives(buf, ParseLine(buf, p + 1), c, p + 1 + |Print(c)|)
    requires Stop(buf, p + 1 + |Print(c)|) && !Space(At(buf, p + 1)) && Plain(file)
    requires var e := p + |Paren(c)|;
      Has(buf, e, Sign(a) + file) && Stop(buf, e + |Sign(a)| + |file|)
    ensures Gives(buf, ParseExec(buf, p), Redir(c, file, a), p + |Paren(c)| + |Sign(a)| + |file|)
  {
    hide ParseExec, ParseLine, Print, Has, Redirs, Paren, Stop, Skip, How;
    BlockOpens(buf, p, c);
    OneRedir(buf, p + |Paren(c)|, file, a);
    var c' := ParseLine(buf, p + 1).value.0;
    var q := p + |Paren(c)| + |Sign(a)|;
    var rs := [Redirection(Span(q, q + |file|), How(a))];
    assert rs[1..] == [];
    assert Wrap(c', rs) == Wrap(Redir(c', rs[0].file, rs[0].how), []);
  }

  lemma OneRedir(buf: Line, e: nat, file: string, a: Arrow)
    requires Plain(file) && Has(buf, e, Sign(a) + file) && Stop(buf, e + |Sign(a)| + |file|)
    ensures var q := e + |Sign(a)|;
      && Skip(buf, e) == e && Slice(buf, Span(q, q + |file|)) == file
      && Redirs(buf, e) == Some(([Redirection(Span(q, q + |file|), How(a))], q + |file|))
  {
    hide *;
    var q := e + |Sign(a)|;
    SignThenFile(buf, e, file, a);
    FileToken(buf, q, file);
    RedirToken(buf, e, a);
    RedirUnfolds(buf, e);
  }

  lemma SignThenFile(buf: Line, e: nat, file: string, a: Arrow)
    requires Plain(file) && Has(buf, e, Sign(a) + file)
    ensures Has(buf, e + |Sign(a)|, file) && e + |Sign(a)| < |buf| && WordChar(At(buf, e + |Sign(a)|))
    ensures forall i | 0 <= i < |Sign(a)| :: At(buf, e + i) == Sign(a)[i]
  {
    hide Has, At, Sign, WordChar;
    HasParts(buf, e, Sign(a), file);
    HasChar(buf, e + |Sign(a)|, file, 0);
    forall i | 0 <= i < |Sign(a)| ensures At(buf, e + i) == Sign(a)[i] { HasChar(buf, e, Sign(a), i); }
  }

  // The file name after an arrow, where the line or the block ends after it.
  lemma FileToken(buf: Line, q: nat, file: string)
    requires Plain(file) && Has(buf, q, file) && Stop(buf, q + |file|)
    ensures var e := q + |file|;
      && e <= |buf| && GetToken(buf, q) == Token('a', q, e, e) && Slice(buf, Span(q, e)) == file
      && Redirs(buf, e) == Some(([], e))
  {
    hide *;
    StopHere(buf, q + |file|);
    WordToken(buf, q, file);
    NoRedirs(buf, q + |file|);
  }

  // The token for an arrow that a word follows.
  lemma RedirToken(buf: Line, e: nat, a: Arrow)
    requires e + |Sign(a)| < |buf| && WordChar(At(buf, e + |Sign(a)|))
    requires forall i | 0 <= i < |Sign(a)| :: At(buf, e + i) == Sign(a)[i]
    ensures Skip(buf, e) == e && Peek(buf, e, "<>")
    ensures var t := GetToken(buf, e); t.next == e + |Sign(a)| && Opening(t.kind) == How(a)
  {
    assert At(buf, e + 0) == Sign(a)[0];
    NoSkip(buf, e);
    NoSkip(buf, e + |Sign(a)|);
    if a == Append { assert At(buf, e + 1) == Sign(a)[1]; }
  }

  lemma RedirUnfolds(buf: Line, e: nat)
    requires e <= |buf| && Peek(buf, e, "<>") && Skip(buf, e) == e
    requires var op := GetToken(buf, e);
      var file := GetToken(buf, op.next);
      file.kind == 'a' && Redirs(buf, file.next) == Some(([], file.next))
    ensures var op := GetToken(buf, e);
      var file := GetToken(buf, op.next);
      Redirs(buf, e) == Some(([Redirection(Span(file.q, file.eq), Opening(op.kind))], file.next))
  {
    hide GetToken, Skip, Peek, Opening;
    var op := GetToken(buf, e);
    var file := GetToken(buf, op.next);
    var r := Redirection(Span(file.q, file.eq), Opening(op.kind));
    assert [r] + [] == [r];
  }

  // What is printed does not begin with a blank, whatever comes after.
  lemma StartsDark(buf: Line, p: nat, c: Cmd<string, Arrow>)
    requires Printable(c) && Has(buf, p, Print(c)) && Stop(buf, p + |Print(c)|)
    ensures p <= |buf| && !Space(At(buf, p))
  {
    if Print(c) != "" {
      HasChar(buf, p, Print(c), 0);
      FirstOfPrint(c);
    }
  }

  lemma FirstOfPrint(c: Cmd<string, Arrow>)
    requires Printable(c) && Print(c) != ""
    ensures !Space(Print(c)[0])
  {
    match c {
      case Exec(args) => FirstOfWords(args);
      case Redir(c', _, _) => assert Print(c)[0] == Paren(c')[0] == '(';
      case Pipe(l, _) => assert Print(c)[0] == Paren(l)[0] == '(';
      case List(l, _) => assert Print(c)[0] == Paren(l)[0] == '(';
      case Back(c') => assert Print(c)[0] == Paren(c')[0] == '(';
    }
  }

  // Reading back what was printed, where the line or the block ends after it.
  lemma {:induction false} PrintedLine(buf: Line, p: nat, c: Cmd<string, Arrow>)
    requires Printable(c) && Has(buf, p, Print(c)) && Stop(buf, p + |Print(c)|)
    ensures p <= |buf| && Gives(buf, ParseLine(buf, p), c, p + |Print(c)|)
    decreases c
  {
    hide ParseLine, ParsePipe, ParseExec, Gives, Read, Print, Paren, Has, Stop;
    PrintEquals(c);
    match c {
      case Exec(args) =>
        PrintedExec(buf, p, args);
        Ends(buf, p, p + |Print(c)|, c);
      case Redir(c', file, a) =>
        Inner(buf, p, c', Sign(a) + file);
        PrintedLine(buf, p + 1, c');
        PrintedRedir(buf, p, c', file, a);
        Ends(buf, p, p + |Print(c)|, c);
      case Pipe(l, r) =>
        var q := p + |Paren(l)|;
        Inner(buf, p, l, "|" + Paren(r));
        Operand(buf, q, "|", r);
        PrintedLine(buf, p + 1, l);
        PrintedLine(buf, q + 2, r);
        PrintedBlock(buf, p, l);
        PrintedBlock(buf, q + 1, r);
        Ends(buf, q + 1, p + |Print(c)|, r);
        PipeGoesOn(buf, p, q, p + |Print(c)|, l, r);
        LineStops(buf, p, p + |Print(c)|, c);
      case List(l, r) =>
        var q := p + |Paren(l)|;
        Inner(buf, p, l, ";" + Paren(r));
        Operand(buf, q, ";", r);
        PrintedLine(buf, p + 1, l);
        PrintedLine(buf, q + 2, r);
        PrintedBlock(buf, p, l);
        PrintedBlock(buf, q + 1, r);
        PipeStops(buf, p, q, l);
        Ends(buf, q + 1, p + |Print(c)|, r);
        LineGoesOn(buf, p, q, p + |Print(c)|, l, r);
      case Back(c') =>
        Inner(buf, p, c', "&");
        PrintedLine(buf, p + 1, c');
        PrintedBlock(buf, p, c');
        PipeStops(buf, p, p + |Paren(c')|, c');
        LineBacks(buf, p, p + |Print(c)|, c');
    }
  }

  lemma PrintEquals(c: Cmd<string, Arrow>)
    ensures match c
      case Exec(args) => Print(c) == Join(args)
      case Redir(c', file, a) =>
        Print(c) == Paren(c') + (Sign(a) + file) && |Print(c)| == |Paren(c')| + |Sign(a)| + |file|
      case Pipe(l, r) => Print(c) == Paren(l) + ("|" + Paren(r)) && |Print(c)| == |Paren(l)| + 1 + |Paren(r)|
      case List(l, r) => Print(c) == Paren(l) + (";" + Paren(r)) && |Print(c)| == |Paren(l)| + 1 + |Paren(r)|
      case Back(c') => Print(c) == Paren(c') + "&" && |Print(c)| == |Paren(c')| + 1
  {
  }

  // A command that ParseExec gives is the whole line, if the line ends there.
  lemma Ends(buf: Line, p: nat, e: nat, c: Cmd<string, Arrow>)
    requires p <= |buf| && Gives(buf, ParseExec(buf, p), c, e) && Stop(buf, e)
    ensures Gives(buf, ParsePipe(buf, p), c, e) && Gives(buf, ParseLine(buf, p), c, e)
  {
    hide ParseLine, ParsePipe, ParseExec, Gives;
    PipeStops(buf, p, e, c);
    LineStops(buf, p, e, c);
  }

  // The operator at q and the block after it, which ends the line.
  lemma Operand(buf: Line, q: nat, op: string, r: Cmd<string, Arrow>)
    requires Printable(r) && |op| == 1 && Has(buf, q, op + Paren(r)) && Stop(buf, q + 1 + |Paren(r)|)
    ensures q + 2 <= |buf| && At(buf, q) == op[0] && !Space(At(buf, q + 1))
    ensures Has(buf, q + 1, Paren(r)) && Has(buf, q + 2, Print(r)) && Stop(buf, q + 2 + |Print(r)|)
            && !Space(At(buf, q + 2))
    ensures var d := At(buf, q + 1 + |Paren(r)|); !Space(d) && d != '<' && d != '>'
    ensures |Paren(r)| == |Print(r)| + 2
  {
    hide Print, Has;
    HasParts(buf, q, op, Paren(r));
    HasChar(buf, q, op + Paren(r), 0);
    HasChar(buf, q + 1, Paren(r), 0);
    assert Paren(r) + "" == Paren(r);
    Inner(buf, q + 1, r, "");
  }

  // A printed block begins at p, with w after it.
  lemma Inner(buf: Line, p: nat, c: Cmd<string, Arrow>, w: string)
    requires Printable(c) && Has(buf, p, Paren(c) + w)
    ensures Has(buf, p, Paren(c)) && Has(buf, p + 1, Print(c)) && Stop(buf, p + 1 + |Print(c)|)
    ensures p + 1 <= |buf| && !Space(At(buf, p + 1)) && Has(buf, p + |Paren(c)|, w)
    ensures w != "" ==> At(buf, p + |Paren(c)|) == w[0]
    ensures |Paren(c)| == |Print(c)| + 2
  {
    hide Print, Has;
    HasParts(buf, p, Paren(c), w);
    assert Paren(c) == "(" + (Print(c) + ")");
    HasParts(buf, p, "(", Print(c) + ")");
    HasParts(buf, p + 1, Print(c), ")");
    HasChar(buf, p + 1 + |Print(c)|, ")", 0);
    StartsDark(buf, p + 1, c);
    if w != "" { HasChar(buf, p + |Paren(c)|, w, 0); }
  }

  lemma PipeGoesOn(buf: Line, p: nat, q: nat, e: nat, l: Cmd<string, Arrow>, r: Cmd<string, Arrow>)
    requires p <= |buf| && Gives(buf, ParseExec(buf, p), l, q) && q + 1 <= |buf| && At(buf, q) == '|'
    requires !Space(At(buf, q + 1)) && Gives(buf, ParsePipe(buf, q + 1), r, e)
    ensures Gives(buf, ParsePipe(buf, p), Pipe(l, r), e)
  {
    hide ParseExec, GetToken, Peek, Skip;
    Separator(buf, q);
  }

  // A separator that no blank follows is a token of its own.
  lemma Separator(buf: Line, q: nat)
    requires q < |buf| && At(buf, q) in "|;&" && !Space(At(buf, q + 1))
    ensures Skip(buf, q) == q && GetToken(buf, q).next == q + 1
    ensures forall toks {:trigger Peek(buf, q, toks)} :: Peek(buf, q, toks) <==> At(buf, q) in toks
  {
    hide WordEnd;
    NoSkip(buf, q);
    NoSkip(buf, q + 1);
  }

  lemma LineGoesOn(buf: Line, p: nat, q: nat, e: nat, l: Cmd<string, Arrow>, r: Cmd<string, Arrow>)
    requires p <= |buf| && Gives(buf, ParsePipe(buf, p), l, q) && q + 1 <= |buf| && At(buf, q) == ';'
    requires !Space(At(buf, q + 1)) && Gives(buf, ParseLine(buf, q + 1), r, e)
    ensures Gives(buf, ParseLine(buf, p), List(l, r), e)
  {
    hide ParsePipe, GetToken, Peek, Skip;
    Separator(buf, q);
  }

  lemma LineBacks(buf: Line, p: nat, e: nat, c: Cmd<string, Arrow>)
    requires p <= |buf| && 0 < e <= |buf| && Gives(buf, ParsePipe(buf, p), c, e - 1) && At(buf, e - 1) == '&'
             && Stop(buf, e)
    ensures Gives(buf, ParseLine(buf, p), Back(c), e)
  {
    hide ParsePipe, GetToken, Peek, Skip;
    StopHere(buf, e);
    StopPeek(buf, e);
    Separator(buf, e - 1);
    var c' := ParsePipe(buf, p).value.0;
    assert Backs(buf, e - 1, c') == Backs(buf, e, Back(c'));
  }

  lemma StopPeek(buf: Line, e: nat)
    requires Stop(buf, e)
    ensures !Peek(buf, e, "&") && !Peek(buf, e, ";")
  {
    StopHere(buf, e);
  }

  lemma {:induction false} JoinClean(ws: seq<string>)
    requires forall i | 0 <= i < |ws| :: Plain(ws[i])
    ensures '\0' !in Join(ws)
  {
    if ws != [] {
      assert '\0' !in ws[0];
      JoinClean(ws[1..]);
    }
  }

  lemma {:induction false} PrintClean(c: Cmd<string, Arrow>)
    requires Printable(c)
    ensures '\0' !in Print(c)
  {
    match c {
      case Exec(args) => JoinClean(args);
      case Redir(c', file, _) => PrintClean(c'); assert '\0' !in file;
      case Pipe(l, r) => PrintClean(l); PrintClean(r);
      case List(l, r) => PrintClean(l); PrintClean(r);
      case Back(c') => PrintClean(c');
    }
  }

  // Printing any command and parsing the result gives the command back.
  lemma RoundTrip(c: Cmd<string, Arrow>)
    requires Printable(c)
    ensures '\0' !in Print(c) && ParseCmd(Print(c)).Some? && Read(Print(c), ParseCmd(Print(c)).value) == Opened(c)
  {
    hide ParseLine;
    PrintClean(c);
    var buf: Line := Print(c);
    assert buf[0..0 + |buf|] == buf;
    PrintedLine(buf, 0, c);
  }

  // The same command with ">" for every ">>".
  function Overwriting(c: Cmd<string, Arrow>): Cmd<string, Arrow> {
    match c
    case Exec(args) => c
    case Redir(c', file, a) => Redir(Overwriting(c'), file, if a == Append then Greater else a)
    case Pipe(l, r) => Pipe(Overwriting(l), Overwriting(r))
    case List(l, r) => List(Overwriting(l), Overwriting(r))
    case Back(c') => Back(Overwriting(c'))
  }

  // Two lines that differ only in ">" and ">>" are read as the same command,
  // which opens the same files in the same way.
  lemma AppendOverwrites(c: Cmd<string, Arrow>)
    requires Printable(c)
    ensures Printable(Overwriting(c)) && '\0' !in Print(c) && '\0' !in Print(Overwriting(c))
    ensures var p, q := ParseCmd(Print(c)), ParseCmd(Print(Overwriting(c)));
      p.Some? && q.Some? && Read(Print(c), p.value) == Read(Print(Overwriting(c)), q.value)
  {
    hide Print, ParseCmd, Read;
    SameOpened(c);
    RoundTrip(c);
    RoundTrip(Overwriting(c));
  }

  lemma {:induction false} SameOpened(c: Cmd<string, Arrow>)
    requires Printable(c)
    ensures Printable(Overwriting(c)) && Opened(Overwriting(c)) == Opened(c)
  {
    match c {
      case Exec(args) =>
      case Redir(c', _, _) => SameOpened(c');
      case Pipe(l, r) => SameOpened(l); SameOpened(r);
      case List(l, r) => SameOpened(l); SameOpened(r);
      case Back(c') => SameOpened(c');
    }
  }
}
