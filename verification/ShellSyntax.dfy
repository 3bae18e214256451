// The shell's grammar (sh.c) as a relation between stretches of a line and
// commands, which says nothing about how a parser goes about it, and the proof
// that the shell's parser accepts exactly this grammar.
//
//   line   =  backed  |  backed ; line
//   backed =  pipe  |  backed &
//   pipe   =  simple  |  simple "|" pipe
//   simple =  words and redirections in any order  |  ( line ) redirections
module ShellSyntax {
  import opened Blocks
  import opened ShellGrammar

  // --- the grammar ---

  ghost predicate Blank(buf: Line, p: nat, q: nat) { p <= q <= |buf| && forall i | p <= i < q :: Space(buf[i]) }

  // An arrow from p to q, and how it opens its file.
  ghost predicate Arrow(buf: Line, p: nat, q: nat, how: Open) {
    && p < q <= |buf|
    && (|| (q == p + 1 && buf[p] == '<' && how == Open(O_RDONLY, 0))
        || (q == p + 1 && buf[p] == '>' && At(buf, q) != '>' && how == Open(O_WRONLY + O_CREATE, 1))
        || (q == p + 2 && buf[p] == '>' && buf[p + 1] == '>' && how == Open(O_WRONLY + O_CREATE, 1)))
  }

  // A redirection with its arrow from m to q, after blanks from p.
  ghost predicate RedirAt(buf: Line, p: nat, m: nat, q: nat, r: Redirection) {
    Blank(buf, p, m) && Arrow(buf, m, q, r.how) && Blank(buf, q, r.file.q) && IsWord(buf, r.file)
  }

  ghost predicate WordAt(buf: Line, p: nat, w: Span) { Blank(buf, p, w.q) && IsWord(buf, w) }

  // From p to e stand the words ws and the redirections rs, each in this order.
  ghost predicate Items(buf: Line, p: nat, e: nat, ws: seq<Span>, rs: seq<Redirection>)
    decreases e - p
  {
    && p <= e
    && (|| (ws == [] && rs == [] && Blank(buf, p, e))
        || (ws != [] && WordAt(buf, p, ws[0]) && ws[0].eq <= e && Items(buf, ws[0].eq, e, ws[1..], rs))
        || (&& rs != [] && p < rs[0].file.eq <= e && (exists m, q :: RedirAt(buf, p, m, q, rs[0]))
            && Items(buf, rs[0].file.eq, e, ws, rs[1..])))
  }

  // c is b with redirections rs, the last of them outermost.
  ghost predicate Wrapped(c: Cmd<Span, Open>, b: Cmd<Span, Open>, rs: seq<Redirection>)
    decreases |rs|
  {
    if rs == [] then c == b else
      var r := rs[|rs| - 1];
      c.Redir? && c.file == r.file && c.how == r.how && Wrapped(c.cmd, b, rs[..|rs| - 1])
  }

  ghost predicate IsWords(buf: Line, p: nat, e: nat, c: Cmd<Span, Open>, ws: seq<Span>, rs: seq<Redirection>) {
    Items(buf, p, e, ws, rs) && |ws| < MAXARGS && Wrapped(c, Exec(ws), rs)
  }

  // A line b between parentheses at m and n, with redirections rs.
  ghost predicate IsBlock(buf: Line, p: nat, e: nat, c: Cmd<Span, Open>, m: nat, n: nat, b: Cmd<Span, Open>,
                          rs: seq<Redirection>)
    decreases e - p, 0
  {
    && p <= m < n < e && n < |buf| && Blank(buf, p, m) && buf[m] == '(' && buf[n] == ')'
    && IsLine(buf, m + 1, n, b) && Items(buf, n + 1, e, [], rs) && Wrapped(c, b, rs)
  }

  ghost predicate IsSimple(buf: Line, p: nat, e: nat, c: Cmd<Span, Open>)
    decreases e - p, 1
  {
    || (exists ws, rs :: IsWords(buf, p, e, c, ws, rs))
    || (exists m, n, b, rs :: IsBlock(buf, p, e, c, m, n, b, rs))
  }

  ghost predicate IsPair(buf: Line, p: nat, m: nat, e: nat, c: Cmd<Span, Open>)
    decreases e - p, 2
  {
    && c.Pipe? && p <= m < e && m < |buf| && buf[m] == '|'
    && IsSimple(buf, p, m, c.left) && IsPipe(buf, m + 1, e, c.right)
  }

  ghost predicate IsPipe(buf: Line, p: nat, e: nat, c: Cmd<Span, Open>)
    decreases e - p, 3
  {
    IsSimple(buf, p, e, c) || exists m :: IsPair(buf, p, m, e, c)
  }

  ghost predicate IsBack(buf: Line, p: nat, m: nat, e: nat, c: Cmd<Span, Open>)
    decreases e - p, 4
  {
    c.Back? && p <= m < e && m < |buf| && buf[m] == '&' && IsBacked(buf, p, m, c.cmd) && Blank(buf, m + 1, e)
  }

  ghost predicate IsBacked(buf: Line, p: nat, e: nat, c: Cmd<Span, Open>)
    decreases e - p, 5
  {
    IsPipe(buf, p, e, c) || exists m :: IsBack(buf, p, m, e, c)
  }

  ghost predicate IsList(buf: Line, p: nat, m: nat, e: nat, c: Cmd<Span, Open>)
    decreases e - p, 6
  {
    && c.List? && p <= m < e && m < |buf| && buf[m] == ';'
    && IsBacked(buf, p, m, c.left) && IsLine(buf, m + 1, e, c.right)
  }

  ghost predicate IsLine(buf: Line, p: nat, e: nat, c: Cmd<Span, Open>)
    decreases e - p, 7
  {
    IsBacked(buf, p, e, c) || exists m :: IsList(buf, p, m, e, c)
  }

  // --- blanks ---

  lemma {:induction false} SkipsTo(buf: Line, p: nat, q: nat)
    requires Blank(buf, p, q) && !Space(At(buf, q))
    ensures Skip(buf, p) == q
    decreases q - p
  {
    if p < q { SkipsTo(buf, p + 1, q); }
  }

  lemma {:induction false} SkipBlank(buf: Line, p: nat)
    requires p <= |buf|
    ensures Blank(buf, p, Skip(buf, p)) && Skip(buf, Skip(buf, p)) == Skip(buf, p)
    decreases |buf| - p
  {
    if p < |buf| && Space(buf[p]) { SkipBlank(buf, p + 1); }
  }

  lemma SkipRedirs(buf: Line, p: nat)
    requires p <= |buf|
    ensures Redirs(buf, Skip(buf, p)) == Redirs(buf, p)
  {
    SkipBlank(buf, p);
  }

  lemma SkipExec(buf: Line, p: nat)
    requires p <= |buf|
    ensures ParseExec(buf, Skip(buf, p)) == ParseExec(buf, p)
  {
    hide ParseBlock, Words, Redirs;
    SkipBlank(buf, p);
  }

  lemma SkipPipe(buf: Line, p: nat)
    requires p <= |buf|
    ensures ParsePipe(buf, Skip(buf, p)) == ParsePipe(buf, p)
  {
    hide ParseExec;
    SkipExec(buf, p);
  }

  lemma SkipLine(buf: Line, p: nat)
    requires p <= |buf|
    ensures ParseLine(buf, Skip(buf, p)) == ParseLine(buf, p)
  {
    hide ParsePipe;
    SkipPipe(buf, p);
  }

  lemma BlankItems(buf: Line, p: nat, q: nat, e: nat, ws: seq<Span>, rs: seq<Redirection>)
    requires Blank(buf, p, q) && Items(buf, q, e, ws, rs)
    ensures Items(buf, p, e, ws, rs)
  {
    if rs != [] && exists m, n :: RedirAt(buf, q, m, n, rs[0]) {
      var m: nat, n: nat :| RedirAt(buf, q, m, n, rs[0]);
      assert RedirAt(buf, p, m, n, rs[0]);
    }
  }

  lemma BlankSimple(buf: Line, p: nat, q: nat, e: nat, c: Cmd<Span, Open>)
    requires Blank(buf, p, q) && IsSimple(buf, q, e, c)
    ensures IsSimple(buf, p, e, c)
  {
    hide Items, Wrapped, IsLine;
    if ws, rs :| IsWords(buf, q, e, c, ws, rs) {
      BlankItems(buf, p, q, e, ws, rs);
      assert IsWords(buf, p, e, c, ws, rs);
    } else {
      var m: nat, n: nat, b, rs :| IsBlock(buf, q, e, c, m, n, b, rs);
      assert IsBlock(buf, p, e, c, m, n, b, rs);
    }
  }

  lemma BlankPipe(buf: Line, p: nat, q: nat, e: nat, c: Cmd<Span, Open>)
    requires Blank(buf, p, q) && IsPipe(buf, q, e, c)
    ensures IsPipe(buf, p, e, c)
  {
    hide IsSimple;
    if IsSimple(buf, q, e, c) {
      BlankSimple(buf, p, q, e, c);
    } else {
      var m: nat :| IsPair(buf, q, m, e, c);
      BlankSimple(buf, p, q, m, c.left);
      assert IsPair(buf, p, m, e, c);
    }
  }

  lemma {:induction false} BlankBacked(buf: Line, p: nat, q: nat, e: nat, c: Cmd<Span, Open>)
    requires Blank(buf, p, q) && IsBacked(buf, q, e, c)
    ensures IsBacked(buf, p, e, c)
    decreases e
  {
    hide IsPipe;
    if IsPipe(buf, q, e, c) {
      BlankPipe(buf, p, q, e, c);
    } else {
      var m: nat :| IsBack(buf, q, m, e, c);
      BlankBacked(buf, p, q, m, c.cmd);
      assert IsBack(buf, p, m, e, c);
    }
  }

  lemma BlankLine(buf: Line, p: nat, q: nat, e: nat, c: Cmd<Span, Open>)
    requires Blank(buf, p, q) && IsLine(buf, q, e, c)
    ensures IsLine(buf, p, e, c)
  {
    hide IsBacked;
    if IsBacked(buf, q, e, c) {
      BlankBacked(buf, p, q, e, c);
    } else {
      var m: nat :| IsList(buf, q, m, e, c);
      BlankBacked(buf, p, q, m, c.left);
      assert IsList(buf, p, m, e, c);
    }
  }

  // --- redirections and words ---

  lemma {:induction false} WrapLast(b: Cmd<Span, Open>, rs: seq<Redirection>)
    requires rs != []
    ensures var r := rs[|rs| - 1]; Wrap(b, rs) == Redir(Wrap(b, rs[..|rs| - 1]), r.file, r.how)
    decreases |rs|
  {
    if |rs| > 1 {
      WrapLast(Redir(b, rs[0].file, rs[0].how), rs[1..]);
      assert rs[1..][..|rs| - 2] == rs[..|rs| - 1][1..];
    }
  }

  lemma {:induction false} WrappedIs(c: Cmd<Span, Open>, b: Cmd<Span, Open>, rs: seq<Redirection>)
    ensures Wrapped(c, b, rs) <==> c == Wrap(b, rs)
    decreases |rs|
  {
    if rs != [] {
      WrapLast(b, rs);
      if c.Redir? { WrappedIs(c.cmd, b, rs[..|rs| - 1]); }
    }
  }

  lemma {:induction false} WordEndIs(buf: Line, p: nat, e: nat)
    requires p <= e <= |buf| && !WordChar(At(buf, e)) && forall i | p <= i < e :: WordChar(buf[i])
    ensures WordEnd(buf, p) == e
    decreases e - p
  {
    if p < e { WordEndIs(buf, p + 1, e); }
  }

  // A word, as the scanner sees it.
  lemma WordScan(buf: Line, p: nat, w: Span)
    requires WordAt(buf, p, w)
    ensures Skip(buf, p) == w.q && GetToken(buf, p) == Token('a', w.q, w.eq, Skip(buf, w.eq))
    ensures !Peek(buf, p, "<>") && !Peek(buf, p, "|)&;") && !Peek(buf, p, "(")
  {
    assert WordChar(buf[w.q]);
    SkipsTo(buf, p, w.q);
    WordEndIs(buf, w.q, w.eq);
  }

  lemma ArrowScan(buf: Line, p: nat, m: nat, q: nat, how: Open)
    requires Blank(buf, p, m) && Arrow(buf, m, q, how)
    ensures Skip(buf, p) == m && Peek(buf, p, "<>") && !Peek(buf, p, "(")
    ensures var op := GetToken(buf, m); op.next == Skip(buf, q) && Opening(op.kind) == how
  {
    SkipsTo(buf, p, m);
    SkipsTo(buf, m, m);
  }

  // One redirection is taken off the front.
  lemma RedirTaken(buf: Line, p: nat, r: Redirection)
    requires exists m, q :: RedirAt(buf, p, m, q, r)
    ensures p <= |buf| && r.file.eq <= |buf| && !Peek(buf, p, "(")
    ensures var t := Redirs(buf, r.file.eq);
            Redirs(buf, p) == if t.Some? then Some(([r] + t.value.0, t.value.1)) else None
  {
    hide GetToken, Peek, Skip, Opening;
    var m: nat, q: nat :| RedirAt(buf, p, m, q, r);
    ArrowScan(buf, p, m, q, r.how);
    var op := GetToken(buf, m);
    SkipBlank(buf, q);
    FileScan(buf, q, r.file);
    SkipRedirs(buf, r.file.eq);
  }

  // The file's token, read after the blanks behind the arrow.
  lemma FileScan(buf: Line, q: nat, w: Span)
    requires WordAt(buf, q, w)
    ensures GetToken(buf, Skip(buf, q)) == Token('a', w.q, w.eq, Skip(buf, w.eq))
  {
    hide GetToken;
    WordScan(buf, q, w);
    WordScan(buf, w.q, w);
  }

  // The redirections and then the words and redirections from p.
  function Tail(buf: Line, p: nat, argc: nat): Option<(seq<Span>, seq<Redirection>, nat)>
    requires p <= |buf|
  {
    match Redirs(buf, p)
    case None => None
    case Some((rs, e)) =>
      match Words(buf, e, argc)
      case None => None
      case Some((ws, rs', e')) => Some((ws, rs + rs', e'))
  }

  // Where a simple command can end.
  predicate Ender(buf: Line, e: nat) { e <= |buf| && At(buf, e) in "|)&;\0" }

  lemma EnderScan(buf: Line, p: nat, e: nat)
    requires Blank(buf, p, e) && Ender(buf, e)
    ensures Skip(buf, p) == e && !Peek(buf, p, "<>") && !Peek(buf, p, "(")
    ensures Redirs(buf, p) == Some(([], e))
  {
    SkipsTo(buf, p, e);
  }

  lemma WordsEnd(buf: Line, e: nat, argc: nat)
    requires Ender(buf, e)
    ensures Words(buf, e, argc) == Some(([], [], e))
  {
    SkipsTo(buf, e, e);
  }

  // Reading the items of a simple command.
  lemma {:induction false} ItemsRead(buf: Line, p: nat, e: nat, ws: seq<Span>, rs: seq<Redirection>, argc: nat)
    requires p <= |buf| && Items(buf, p, e, ws, rs) && Ender(buf, e) && argc + |ws| < MAXARGS
    ensures Tail(buf, p, argc) == Some((ws, rs, e)) && !Peek(buf, p, "(")
    decreases e - p
  {
    hide Words, Redirs, Peek, GetToken, Skip, Ender, IsWord, Blank, RedirAt;
    if ws == [] && rs == [] && Blank(buf, p, e) {
      EnderScan(buf, p, e);
      WordsEnd(buf, e, argc);
      NoneFirst(Words(buf, e, argc));
    } else if ws != [] && WordAt(buf, p, ws[0]) && ws[0].eq <= e && Items(buf, ws[0].eq, e, ws[1..], rs) {
      WordTaken(buf, p, ws[0], argc);
      ItemsRead(buf, ws[0].eq, e, ws[1..], rs, argc + 1);
      assert [ws[0]] + ws[1..] == ws;
    } else {
      RedirTaken(buf, p, rs[0]);
      ItemsRead(buf, rs[0].file.eq, e, ws, rs[1..], argc);
      RedirFirst(buf, p, rs[0], argc);
      assert [rs[0]] + rs[1..] == rs;
    }
  }

  lemma RedirFirst(buf: Line, p: nat, r: Redirection, argc: nat)
    requires p <= |buf| && r.file.eq <= |buf|
    requires var t := Redirs(buf, r.file.eq);
             Redirs(buf, p) == if t.Some? then Some(([r] + t.value.0, t.value.1)) else None
    ensures var t := Tail(buf, r.file.eq, argc);
            Tail(buf, p, argc) == if t.Some? then Some((t.value.0, [r] + t.value.1, t.value.2)) else None
  {
    hide Words, Redirs;
    var t := Redirs(buf, r.file.eq);
    if t.Some? && Words(buf, t.value.1, argc).Some? {
      var rs' := Words(buf, t.value.1, argc).value.1;
      assert ([r] + t.value.0) + rs' == [r] + (t.value.0 + rs');
    }
  }

  // One word is taken off the front.
  lemma WordTaken(buf: Line, p: nat, w: Span, argc: nat)
    requires WordAt(buf, p, w) && argc + 1 < MAXARGS
    ensures p < w.eq <= |buf| && !Peek(buf, p, "(")
    ensures var t := Tail(buf, w.eq, argc + 1);
            Tail(buf, p, argc) == if t.Some? then Some(([w] + t.value.0, t.value.1, t.value.2)) else None
  {
    hide Peek, GetToken, Skip;
    WordScan(buf, p, w);
    WordScan(buf, w.q, w);
    assert Redirs(buf, p) == Some(([], w.q));
    SkipRedirs(buf, w.eq);
    NoneFirst(Words(buf, w.q, argc));
  }

  lemma NoneFirst(r: Option<(seq<Span>, seq<Redirection>, nat)>)
    ensures r.Some? ==> [] + r.value.1 == r.value.1
  {
  }

  lemma {:induction false} RedirsRead(buf: Line, p: nat, e: nat, rs: seq<Redirection>)
    requires p <= |buf| && Items(buf, p, e, [], rs) && Ender(buf, e)
    ensures Redirs(buf, p) == Some((rs, e))
    decreases e - p
  {
    hide Redirs, Peek, GetToken, Skip, Ender, IsWord, Blank, RedirAt;
    if rs == [] {
      EnderScan(buf, p, e);
    } else {
      RedirTaken(buf, p, rs[0]);
      RedirsRead(buf, rs[0].file.eq, e, rs[1..]);
      assert [rs[0]] + rs[1..] == rs;
    }
  }

  // --- every command of the grammar is read ---

  // Where a line can end.
  predicate Stop(buf: Line, e: nat) { e <= |buf| && At(buf, e) in ")\0" }

  // A character that is a token of its own, with what comes after it.
  lemma MarkScan(buf: Line, m: nat)
    requires m < |buf| && buf[m] in "(|)&;"
    ensures Skip(buf, m) == m && GetToken(buf, m).next == Skip(buf, m + 1)
    ensures forall toks {:trigger Peek(buf, m, toks)} :: Peek(buf, m, toks) <==> buf[m] in toks
  {
    SkipsTo(buf, m, m);
  }

  lemma StopScan(buf: Line, e: nat)
    requires Stop(buf, e)
    ensures Skip(buf, e) == e && !Peek(buf, e, "|") && !Peek(buf, e, "&") && !Peek(buf, e, ";")
  {
    SkipsTo(buf, e, e);
  }

  lemma {:induction false} SimpleRead(buf: Line, p: nat, e: nat, c: Cmd<Span, Open>)
    requires IsSimple(buf, p, e, c) && Ender(buf, e)
    ensures p <= |buf| && ParseExec(buf, p) == Some((c, e))
    decreases e - p, 0
  {
    hide ParseExec, ParseLine, ParsePipe, Words, Redirs, Ender, Items, IsLine, Tail, Wrap, Wrapped;
    if ws, rs :| IsWords(buf, p, e, c, ws, rs) {
      ItemsBounds(buf, p, e, ws, rs);
      ItemsRead(buf, p, e, ws, rs, 0);
      WrappedIs(c, Exec(ws), rs);
      TailExec(buf, p);
    } else {
      var m: nat, n: nat, b, rs :| IsBlock(buf, p, e, c, m, n, b, rs);
      LineRead(buf, m + 1, n, b);
      RedirsRead(buf, n + 1, e, rs);
      WrappedIs(c, b, rs);
      BlockRead(buf, p, m, n, b);
    }
  }

  lemma ItemsBounds(buf: Line, p: nat, e: nat, ws: seq<Span>, rs: seq<Redirection>)
    requires Items(buf, p, e, ws, rs)
    ensures p <= |buf|
  {
    if rs != [] && exists m, q :: RedirAt(buf, p, m, q, rs[0]) {
      var m: nat, q: nat :| RedirAt(buf, p, m, q, rs[0]);
    }
  }

  // A simple command without a block is its items.
  lemma TailExec(buf: Line, p: nat)
    requires p <= |buf| && !Peek(buf, p, "(")
    ensures var t := Tail(buf, p, 0);
            ParseExec(buf, p) == if t.Some? then Some((Wrap(Exec(t.value.0), t.value.1), t.value.2)) else None
  {
    hide Words, Redirs, Peek, Skip, Wrap;
    SkipRedirs(buf, p);
  }

  lemma BlockRead(buf: Line, p: nat, m: nat, n: nat, b: Cmd<Span, Open>)
    requires Blank(buf, p, m) && m < n < |buf| && buf[m] == '(' && buf[n] == ')'
    requires ParseLine(buf, m + 1) == Some((b, n))
    ensures ParseExec(buf, p) == WithRedirs(b, Redirs(buf, n + 1))
  {
    hide ParseLine, Redirs, Words, GetToken, Wrap;
    SkipsTo(buf, p, m);
    MarkScan(buf, m);
    MarkScan(buf, n);
    SkipLine(buf, m + 1);
    SkipRedirs(buf, n + 1);
  }

  lemma {:induction false} PipeRead(buf: Line, p: nat, e: nat, c: Cmd<Span, Open>)
    requires IsPipe(buf, p, e, c) && Ender(buf, e) && At(buf, e) != '|'
    ensures p <= |buf| && ParsePipe(buf, p) == Some((c, e))
    decreases e - p, 1
  {
    hide ParseExec, IsSimple, GetToken, Peek, Skip;
    if IsSimple(buf, p, e, c) {
      SimpleRead(buf, p, e, c);
      NoBar(buf, e);
    } else {
      var m: nat :| IsPair(buf, p, m, e, c);
      SimpleRead(buf, p, m, c.left);
      PipeRead(buf, m + 1, e, c.right);
      MarkScan(buf, m);
      SkipPipe(buf, m + 1);
    }
  }

  lemma NoBar(buf: Line, e: nat)
    requires Ender(buf, e) && At(buf, e) != '|'
    ensures !Peek(buf, e, "|") && Skip(buf, e) == e
  {
    SkipsTo(buf, e, e);
  }

  // The pipe at the front, and then the ampersands up to e.
  lemma {:induction false} BackedRead(buf: Line, p: nat, e: nat, c: Cmd<Span, Open>)
    requires IsBacked(buf, p, e, c) && Ender(buf, e) && At(buf, e) != '|'
    ensures p <= |buf| && ParsePipe(buf, p).Some?
    ensures var (c0, e0) := ParsePipe(buf, p).value; Backs(buf, e0, c0) == Backs(buf, e, c)
    decreases e - p, 2
  {
    hide ParsePipe, IsPipe, GetToken, Peek, Skip;
    if IsPipe(buf, p, e, c) {
      PipeRead(buf, p, e, c);
    } else {
      var m: nat :| IsBack(buf, p, m, e, c);
      BackedRead(buf, p, m, c.cmd);
      MarkScan(buf, m);
      SkipsTo(buf, m + 1, e);
    }
  }

  lemma {:induction false} LineRead(buf: Line, p: nat, e: nat, c: Cmd<Span, Open>)
    requires IsLine(buf, p, e, c) && Stop(buf, e)
    ensures p <= |buf| && ParseLine(buf, p) == Some((c, e))
    decreases e - p, 3
  {
    hide ParsePipe, IsBacked, GetToken, Peek, Skip;
    if IsBacked(buf, p, e, c) {
      BackedRead(buf, p, e, c);
      StopScan(buf, e);
    } else {
      var m: nat :| IsList(buf, p, m, e, c);
      BackedRead(buf, p, m, c.left);
      LineRead(buf, m + 1, e, c.right);
      MarkScan(buf, m);
      SkipLine(buf, m + 1);
    }
  }

  // --- only commands of the grammar are read ---

  // A redirection that was read is one.
  lemma RedirFound(buf: Line, p: nat)
    requires p <= |buf| && Peek(buf, p, "<>") && GetToken(buf, GetToken(buf, Skip(buf, p)).next).kind == 'a'
    ensures var op := GetToken(buf, Skip(buf, p));
            var file := GetToken(buf, op.next);
            && RedirAt(buf, p, Skip(buf, p), op.eq, Redirection(Span(file.q, file.eq), Opening(op.kind)))
            && p < file.eq && file.next == Skip(buf, file.eq)
  {
    hide GetToken, Skip, Peek, Opening, IsWord, Arrow, Blank;
    SkipBlank(buf, p);
    ArrowFound(buf, p);
    var op := GetToken(buf, Skip(buf, p));
    SkipBlank(buf, op.eq);
    WordFound(buf, op.eq);
  }

  lemma ArrowFound(buf: Line, p: nat)
    requires p <= |buf| && Peek(buf, p, "<>")
    ensures var op := GetToken(buf, Skip(buf, p));
            Arrow(buf, Skip(buf, p), op.eq, Opening(op.kind)) && op.next == Skip(buf, op.eq)
  {
    hide WordEnd;
    SkipBlank(buf, p);
  }

  lemma {:induction false} RedirsFound(buf: Line, p: nat)
    requires p <= |buf| && Redirs(buf, p).Some?
    ensures var (rs, e) := Redirs(buf, p).value; Items(buf, p, e, [], rs) && !Space(At(buf, e)) && p <= e
    decreases |buf| - p
  {
    hide GetToken, Peek, Skip, IsWord, RedirAt, Opening, Blank;
    SkipBlank(buf, p);
    if Peek(buf, p, "<>") {
      RedirFound(buf, p);
      var op := GetToken(buf, Skip(buf, p));
      var file := GetToken(buf, op.next);
      var r := Redirection(Span(file.q, file.eq), Opening(op.kind));
      RedirsFound(buf, file.next);
      var (rs, e) := Redirs(buf, file.next).value;
      SkipBlank(buf, file.eq);
      BlankItems(buf, file.eq, file.next, e, [], rs);
      assert ([r] + rs)[1..] == rs;
    }
  }

  // Items from p, after the redirections rs.
  lemma {:induction false} AfterRedirs(buf: Line, p: nat, e: nat, rs: seq<Redirection>, e': nat, ws: seq<Span>,
                                       rs': seq<Redirection>)
    requires Items(buf, p, e, [], rs) && Items(buf, e, e', ws, rs')
    ensures Items(buf, p, e', ws, rs + rs')
    decreases |rs|
  {
    hide RedirAt;
    if rs == [] {
      BlankItems(buf, p, e, e', ws, rs');
      assert rs + rs' == rs';
    } else {
      AfterRedirs(buf, rs[0].file.eq, e, rs[1..], e', ws, rs');
      assert (rs + rs')[1..] == rs[1..] + rs';
    }
  }

  lemma {:induction false} WordsFound(buf: Line, p: nat, argc: nat)
    requires p <= |buf| && Words(buf, p, argc).Some?
    ensures var (ws, rs, e) := Words(buf, p, argc).value;
            Items(buf, p, e, ws, rs) && !Space(At(buf, e)) && (argc < MAXARGS ==> argc + |ws| < MAXARGS)
    decreases |buf| - p
  {
    hide Peek, GetToken, Redirs, Skip, Blank, IsWord, RedirAt;
    var s := Skip(buf, p);
    SkipBlank(buf, p);
    var t := GetToken(buf, s);
    if Peek(buf, p, "|)&;") {
    } else if t.kind == '\0' {
      EndFound(buf, p);
    } else {
      WordFound(buf, p);
      var (rs, e) := Redirs(buf, t.next).value;
      RedirsFound(buf, t.next);
      WordsFound(buf, e, argc + 1);
      var (ws, rs', e') := Words(buf, e, argc + 1).value;
      AfterRedirs(buf, t.next, e, rs, e', ws, rs');
      SkipBlank(buf, t.eq);
      BlankItems(buf, t.eq, t.next, e', ws, rs + rs');
      var w := Span(t.q, t.eq);
      assert ([w] + ws)[1..] == ws;
    }
  }

  lemma EndFound(buf: Line, p: nat)
    requires p <= |buf| && GetToken(buf, Skip(buf, p)).kind == '\0'
    ensures GetToken(buf, Skip(buf, p)).next == Skip(buf, p) == |buf|
  {
    SkipBlank(buf, p);
  }

  lemma WordFound(buf: Line, p: nat)
    requires p <= |buf| && GetToken(buf, Skip(buf, p)).kind == 'a'
    ensures var t := GetToken(buf, Skip(buf, p)); WordAt(buf, p, Span(t.q, t.eq)) && t.next == Skip(buf, t.eq)
  {
    SkipBlank(buf, p);
  }

  lemma {:induction false} SimpleFound(buf: Line, p: nat)
    requires p <= |buf| && ParseExec(buf, p).Some?
    ensures var (c, e) := ParseExec(buf, p).value; IsSimple(buf, p, e, c) && !Space(At(buf, e))
    decreases |buf| - p, 0
  {
    hide ParseExec, ParseLine, Words, Redirs, Peek, GetToken, Skip, Items, IsLine, Wrap, Wrapped, Blank;
    if Peek(buf, p, "(") {
      BlockSeen(buf, p);
      var m := Skip(buf, p);
      var (b, n) := ParseLine(buf, m + 1).value;
      LineFound(buf, m + 1);
      var (rs, e) := Redirs(buf, n + 1).value;
      RedirsFound(buf, n + 1);
      WrappedIs(Wrap(b, rs), b, rs);
      assert IsBlock(buf, p, e, Wrap(b, rs), m, n, b, rs);
    } else {
      TailExec(buf, p);
      var (rs, e) := Redirs(buf, p).value;
      var (ws, rs', e') := Words(buf, e, 0).value;
      RedirsFound(buf, p);
      WordsFound(buf, e, 0);
      AfterRedirs(buf, p, e, rs, e', ws, rs');
      WrappedIs(Wrap(Exec(ws), rs + rs'), Exec(ws), rs + rs');
      assert IsWords(buf, p, e', Wrap(Exec(ws), rs + rs'), ws, rs + rs');
    }
  }

  // A block that was read has its parentheses, a line and redirections.
  lemma BlockSeen(buf: Line, p: nat)
    requires p <= |buf| && Peek(buf, p, "(") && ParseExec(buf, p).Some?
    ensures var m := Skip(buf, p);
            && m < |buf| && Blank(buf, p, m) && buf[m] == '(' && ParseLine(buf, m + 1).Some?
            && var (b, n) := ParseLine(buf, m + 1).value;
               && (!Space(At(buf, n)) ==>
                     && n < |buf| && buf[n] == ')' && Redirs(buf, n + 1).Some?
                     && ParseExec(buf, p) == WithRedirs(b, Redirs(buf, n + 1)))
  {
    hide ParseLine, Redirs, Words, GetToken, Wrap;
    var m := Skip(buf, p);
    SkipBlank(buf, p);
    MarkScan(buf, m);
    SkipLine(buf, m + 1);
    var (b, n) := ParseLine(buf, m + 1).value;
    if !Space(At(buf, n)) {
      SkipsTo(buf, n, n);
      MarkScan(buf, n);
      SkipRedirs(buf, n + 1);
    }
  }

  lemma {:induction false} PipeFound(buf: Line, p: nat)
    requires p <= |buf| && ParsePipe(buf, p).Some?
    ensures var (c, e) := ParsePipe(buf, p).value; IsPipe(buf, p, e, c) && !Space(At(buf, e))
    decreases |buf| - p, 1
  {
    hide ParseExec, IsSimple, GetToken, Peek, Skip;
    SimpleFound(buf, p);
    var (c, e) := ParseExec(buf, p).value;
    SkipsTo(buf, e, e);
    if Peek(buf, e, "|") {
      PeekMark(buf, e, '|');
      SkipPipe(buf, e + 1);
      PipeFound(buf, e + 1);
      var (c', e') := ParsePipe(buf, e + 1).value;
      assert IsPair(buf, p, e, e', Pipe(c, c'));
    }
  }

  lemma PeekMark(buf: Line, e: nat, d: char)
    requires e <= |buf| && !Space(At(buf, e)) && Peek(buf, e, [d]) && d in "|&;"
    ensures e < |buf| && buf[e] == d && GetToken(buf, e).next == Skip(buf, e + 1)
  {
    SkipsTo(buf, e, e);
    MarkScan(buf, e);
  }

  lemma {:induction false} BacksFound(buf: Line, p: nat, e: nat, c: Cmd<Span, Open>)
    requires e <= |buf| && IsBacked(buf, p, e, c) && !Space(At(buf, e)) && p <= e
    ensures var (c', e') := Backs(buf, e, c); IsBacked(buf, p, e', c') && !Space(At(buf, e'))
    decreases |buf| - e
  {
    hide IsPipe, GetToken, Peek, Skip;
    SkipsTo(buf, e, e);
    if Peek(buf, e, "&") {
      PeekMark(buf, e, '&');
      var n := Skip(buf, e + 1);
      SkipBlank(buf, e + 1);
      assert IsBack(buf, p, e, n, Back(c));
      BacksFound(buf, p, n, Back(c));
    }
  }

  lemma {:induction false} LineFound(buf: Line, p: nat)
    requires p <= |buf| && ParseLine(buf, p).Some?
    ensures var (c, e) := ParseLine(buf, p).value; IsLine(buf, p, e, c) && !Space(At(buf, e))
    decreases |buf| - p, 2
  {
    hide ParsePipe, Backs, IsPipe, GetToken, Peek, Skip;
    PipeFound(buf, p);
    var (c0, e0) := ParsePipe(buf, p).value;
    BacksFound(buf, p, e0, c0);
    var (c, e) := Backs(buf, e0, c0);
    SkipsTo(buf, e, e);
    if Peek(buf, e, ";") {
      PeekMark(buf, e, ';');
      SkipLine(buf, e + 1);
      LineFound(buf, e + 1);
      var (c', e') := ParseLine(buf, e + 1).value;
      assert IsList(buf, p, e, e', List(c, c'));
    }
  }

  // The shell reads a line as a command exactly if the grammar makes it that
  // command, and panics on a line that is none.
  lemma ParsesExactly(buf: Line, c: Cmd<Span, Open>)
    ensures ParseCmd(buf) == Some(c) <==> IsLine(buf, 0, |buf|, c)
  {
    hide ParseLine, IsLine;
    if IsLine(buf, 0, |buf|, c) {
      LineRead(buf, 0, |buf|, c);
      StopScan(buf, |buf|);
    }
    if ParseLine(buf, 0).Some? {
      LineFound(buf, 0);
      SkipsTo(buf, ParseLine(buf, 0).value.1, ParseLine(buf, 0).value.1);
    }
  }

  // No line is two commands.
  lemma Unambiguous(buf: Line, c: Cmd<Span, Open>, c': Cmd<Span, Open>)
    requires IsLine(buf, 0, |buf|, c) && IsLine(buf, 0, |buf|, c')
    ensures c == c'
  {
    ParsesExactly(buf, c);
    ParsesExactly(buf, c');
  }
}
