// The shell's parser (sh.c) with its cursor, and nulterminate.
module Shell {
  import opened Blocks
  import opened ShellGrammar
  import ShellSyntax

  // --- every span of a parsed command is a whole word ---

  predicate Good(buf: Line, c: Cmd<Span, Open>) {
    match c
    case Exec(args) => |args| < MAXARGS && forall i | 0 <= i < |args| :: IsWord(buf, args[i])
    case Redir(c', file, _) => Good(buf, c') && IsWord(buf, file)
    case Pipe(l, r) => Good(buf, l) && Good(buf, r)
    case List(l, r) => Good(buf, l) && Good(buf, r)
    case Back(c') => Good(buf, c')
  }

  predicate GoodFiles(buf: Line, rs: seq<Redirection>) { forall i | 0 <= i < |rs| :: IsWord(buf, rs[i].file) }

  lemma {:induction false} RedirsGood(buf: Line, p: nat)
    requires p <= |buf|
    ensures Redirs(buf, p).Some? ==> GoodFiles(buf, Redirs(buf, p).value.0)
    decreases |buf| - p
  {
    hide Skip, WordEnd, Peek, IsWord;
    var s := Skip(buf, p);
    if Peek(buf, p, "<>") {
      var op := GetToken(buf, s);
      var file := GetToken(buf, op.next);
      if file.kind == 'a' { RedirsGood(buf, file.next); }
    }
  }

  predicate GoodWords(buf: Line, argc: nat, r: Option<(seq<Span>, seq<Redirection>, nat)>) {
    r.Some? ==> && |r.value.0| + argc < MAXARGS && GoodFiles(buf, r.value.1)
                && forall i | 0 <= i < |r.value.0| :: IsWord(buf, r.value.0[i])
  }

  lemma WithWordGood(buf: Line, argc: nat, w: Span, rs: seq<Redirection>, r: Option<(seq<Span>, seq<Redirection>, nat)>)
    requires IsWord(buf, w) && GoodFiles(buf, rs) && GoodWords(buf, argc + 1, r)
    ensures GoodWords(buf, argc, WithWord(w, rs, r))
  {
    hide IsWord;
  }

  lemma NoWordsGood(buf: Line, argc: nat)
    requires argc < MAXARGS
    ensures GoodWords(buf, argc, None) && forall e :: GoodWords(buf, argc, Some(([], [], e)))
  {
  }

  lemma {:induction false} WordsGood(buf: Line, p: nat, argc: nat)
    requires p <= |buf| && argc < MAXARGS
    ensures GoodWords(buf, argc, Words(buf, p, argc))
    decreases |buf| - p
  {
    hide Skip, Peek, IsWord, Redirs, WithWord, GetToken, GoodWords, GoodFiles;
    NoWordsGood(buf, argc);
    var s := Skip(buf, p);
    if !Peek(buf, p, "|)&;") {
      var t := GetToken(buf, s);
      if t.kind == 'a' && argc + 1 < MAXARGS && Redirs(buf, t.next).Some? {
        RedirsGood(buf, t.next);
        var (rs, e) := Redirs(buf, t.next).value;
        WordsGood(buf, e, argc + 1);
        WithWordGood(buf, argc, Span(t.q, t.eq), rs, Words(buf, e, argc + 1));
      }
    }
  }

  lemma {:induction false} WrapGood(buf: Line, c: Cmd<Span, Open>, rs: seq<Redirection>)
    requires Good(buf, c) && GoodFiles(buf, rs)
    ensures Good(buf, Wrap(c, rs))
    decreases |rs|
  {
    hide IsWord;
    if rs != [] { WrapGood(buf, Redir(c, rs[0].file, rs[0].how), rs[1..]); }
  }

  lemma {:induction false} ExecGood(buf: Line, p: nat)
    requires p <= |buf|
    ensures ParseExec(buf, p).Some? ==> Good(buf, ParseExec(buf, p).value.0)
    decreases |buf| - p, 1
  {
    hide Skip, Peek, IsWord, Redirs, Words, GetToken, Good, Wrap, ParseBlock;
    var s := Skip(buf, p);
    if Peek(buf, p, "(") {
      BlockGood(buf, s);
    } else if Redirs(buf, s).Some? {
      RedirsGood(buf, s);
      var (rs, e) := Redirs(buf, s).value;
      WordsGood(buf, e, 0);
      if Words(buf, e, 0).Some? {
        var (ws, rs', _) := Words(buf, e, 0).value;
        assert Good(buf, Exec(ws)) by { ExecIsGood(buf, ws); }
        WrapGood(buf, Exec(ws), rs + rs');
      }
    }
  }

  lemma ExecIsGood(buf: Line, ws: seq<Span>)
    requires |ws| < MAXARGS && forall i | 0 <= i < |ws| :: IsWord(buf, ws[i])
    ensures Good(buf, Exec(ws))
  {
  }

  lemma {:induction false} BlockGood(buf: Line, p: nat)
    requires p <= |buf|
    ensures ParseBlock(buf, p).Some? ==> Good(buf, ParseBlock(buf, p).value.0)
    decreases |buf| - p, 0
  {
    hide Skip, IsWord, Redirs, Words, Good, Wrap, ParseLine;
    if Peek(buf, p, "(") {
      LineGood(buf, GetToken(buf, p).next);
      if ParseLine(buf, GetToken(buf, p).next).Some? {
        var (c, e) := ParseLine(buf, GetToken(buf, p).next).value;
        if Peek(buf, e, ")") && Redirs(buf, GetToken(buf, e).next).Some? {
          RedirsGood(buf, GetToken(buf, e).next);
          WrapGood(buf, c, Redirs(buf, GetToken(buf, e).next).value.0);
        }
      }
    }
  }

  lemma {:induction false} PipeGood(buf: Line, p: nat)
    requires p <= |buf|
    ensures ParsePipe(buf, p).Some? ==> Good(buf, ParsePipe(buf, p).value.0)
    decreases |buf| - p, 2
  {
    hide Skip, IsWord, ParseExec;
    ExecGood(buf, p);
    if ParseExec(buf, p).Some? {
      var (c, e) := ParseExec(buf, p).value;
      if Peek(buf, e, "|") { PipeGood(buf, GetToken(buf, e).next); }
    }
  }

  lemma {:induction false} BacksGood(buf: Line, p: nat, c: Cmd<Span, Open>)
    requires p <= |buf| && Good(buf, c)
    ensures Good(buf, Backs(buf, p, c).0)
    decreases |buf| - p
  {
    hide Skip, IsWord;
    if Peek(buf, p, "&") { BacksGood(buf, GetToken(buf, p).next, Back(c)); }
  }

  lemma {:induction false} LineGood(buf: Line, p: nat)
    requires p <= |buf|
    ensures ParseLine(buf, p).Some? ==> Good(buf, ParseLine(buf, p).value.0)
    decreases |buf| - p, 3
  {
    hide Skip, IsWord, ParsePipe, Backs;
    PipeGood(buf, p);
    if ParsePipe(buf, p).Some? {
      var (c, e) := ParsePipe(buf, p).value;
      BacksGood(buf, e, c);
      var (c', e') := Backs(buf, e, c);
      if Peek(buf, e', ";") { LineGood(buf, GetToken(buf, e').next); }
    }
  }

  // --- nulterminate ---

  function Spans(c: Cmd<Span, Open>): set<Span> {
    match c
    case Exec(args) => set w | w in args
    case Redir(c', file, _) => Spans(c') + {file}
    case Pipe(l, r) => Spans(l) + Spans(r)
    case List(l, r) => Spans(l) + Spans(r)
    case Back(c') => Spans(c')
  }

  function Ends(c: Cmd<Span, Open>): set<nat> { set w | w in Spans(c) :: w.eq }

  // The C string at q.
  function CString(a: seq<char>, q: nat): string
    decreases |a| - q
  {
    if q < |a| && a[q] != '\0' then [a[q]] + CString(a, q + 1) else ""
  }

  // NULs at the given places.
  function Cut(a: seq<char>, ends: set<nat>): (b: seq<char>)
    ensures |b| == |a|
  {
    seq(|a|, i requires 0 <= i < |a| => if i in ends then '\0' else a[i])
  }

  lemma {:induction false} CStringIs(a: seq<char>, q: nat, e: nat)
    requires q <= e < |a| && a[e] == '\0' && forall i | q <= i < e :: a[i] != '\0'
    ensures CString(a, q) == a[q..e]
    decreases e - q
  {
    if q < e { CStringIs(a, q + 1, e); }
  }

  lemma {:induction false} SpanIsWord(buf: Line, c: Cmd<Span, Open>, w: Span)
    requires Good(buf, c) && w in Spans(c)
    ensures IsWord(buf, w)
  {
    match c {
      case Exec(args) =>
      case Redir(c', file, _) => if w in Spans(c') { SpanIsWord(buf, c', w); }
      case Pipe(l, r) => if w in Spans(l) { SpanIsWord(buf, l, w); } else { SpanIsWord(buf, r, w); }
      case List(l, r) => if w in Spans(l) { SpanIsWord(buf, l, w); } else { SpanIsWord(buf, r, w); }
      case Back(c') => SpanIsWord(buf, c', w);
    }
  }

  // No token ends inside another.
  lemma NoEndInside(buf: Line, w: Span, v: Span)
    requires IsWord(buf, w) && IsWord(buf, v)
    ensures !(w.q <= v.eq < w.eq)
  {
  }

  lemma CutGood(buf: Line, c: Cmd<Span, Open>, w: Span)
    requires Good(buf, c) && w in Spans(c)
    ensures w.q < w.eq <= |buf| && CString(Cut(buf + ['\0'], Ends(c)), w.q) == buf[w.q..w.eq]
  {
    hide Good, WordChar;
    SpanIsWord(buf, c, w);
    var a := Cut(buf + ['\0'], Ends(c));
    assert w.eq in Ends(c);
    forall i | w.q <= i < w.eq ensures a[i] == buf[i] != '\0' {
      if i in Ends(c) {
        var v :| v in Spans(c) && v.eq == i;
        SpanIsWord(buf, c, v);
        NoEndInside(buf, w, v);
      }
    }
    CStringIs(a, w.q, w.eq);
    assert a[w.q..w.eq] == buf[w.q..w.eq];
  }

  // After the cuts, each argument and each file name is its token.
  lemma CutExactly(buf: Line, c: Cmd<Span, Open>, w: Span)
    requires ParseCmd(buf) == Some(c) && w in Spans(c)
    ensures w.q < w.eq <= |buf| && CString(Cut(buf + ['\0'], Ends(c)), w.q) == buf[w.q..w.eq]
  {
    hide ParseLine, Spans, Ends, Cut, CString;
    LineGood(buf, 0);
    CutGood(buf, c, w);
  }

  lemma {:induction false} CutCut(a: seq<char>, x: set<nat>, y: set<nat>)
    ensures Cut(Cut(a, x), y) == Cut(a, x + y)
  {
    assert forall i | 0 <= i < |a| :: Cut(Cut(a, x), y)[i] == Cut(a, x + y)[i];
  }

  // nulterminate, on the line and its final NUL.
  method NulTerminate(a: array<char>, c: Cmd<Span, Open>)
    requires forall w | w in Spans(c) :: w.eq < a.Length
    modifies a
    ensures a[..] == Cut(old(a[..]), Ends(c))
    decreases c
  {
    ghost var was := a[..];
    match c {
      case Exec(args) =>
        var i := 0;
        while i < |args|
          invariant 0 <= i <= |args|
          invariant forall k | 0 <= k < a.Length ::
                      a[k] == if exists j | 0 <= j < i :: args[j].eq == k then '\0' else was[k]
        {
          assert args[i] in Spans(c);
          a[args[i].eq] := '\0';
          i := i + 1;
        }
        forall k | 0 <= k < a.Length ensures (exists j | 0 <= j < |args| :: args[j].eq == k) <==> k in Ends(c) {
          if k in Ends(c) {
            var w :| w in Spans(c) && w.eq == k;
            var j :| 0 <= j < |args| && args[j] == w;
          }
          if j :| 0 <= j < |args| && args[j].eq == k { assert args[j] in Spans(c); }
        }
        assert a[..] == Cut(was, Ends(c));
      case Redir(c', file, _) =>
        NulTerminate(a, c');
        assert file in Spans(c);
        a[file.eq] := '\0';
        CutCut(was, Ends(c'), {file.eq});
        assert a[..] == Cut(Cut(was, Ends(c')), {file.eq});
        assert Ends(c) == Ends(c') + {file.eq};
      case Pipe(l, r) =>
        NulTerminate(a, l);
        NulTerminate(a, r);
        CutCut(was, Ends(l), Ends(r));
        assert Ends(c) == Ends(l) + Ends(r);
      case List(l, r) =>
        NulTerminate(a, l);
        NulTerminate(a, r);
        CutCut(was, Ends(l), Ends(r));
        assert Ends(c) == Ends(l) + Ends(r);
      case Back(c') =>
        NulTerminate(a, c');
    }
  }

  // --- the parser and its cursor ---

  function Prepend(acc: seq<Redirection>, r: Option<(seq<Redirection>, nat)>): Option<(seq<Redirection>, nat)> {
    if r.Some? then Some((acc + r.value.0, r.value.1)) else None
  }

  function PrependWords(ws: seq<Span>, rs: seq<Redirection>, r: Option<(seq<Span>, seq<Redirection>, nat)>)
    : Option<(seq<Span>, seq<Redirection>, nat)>
  {
    if r.Some? then Some((ws + r.value.0, rs + r.value.1, r.value.2)) else None
  }

  lemma RedirsStart(buf: Line, p: nat)
    requires p <= |buf|
    ensures Prepend([], Redirs(buf, p)) == Redirs(buf, p)
  {
    if Redirs(buf, p).Some? { assert [] + Redirs(buf, p).value.0 == Redirs(buf, p).value.0; }
  }

  // One turn of the loop in parseredirs.
  lemma RedirsTurn(buf: Line, p: nat, acc: seq<Redirection>)
    requires p <= |buf|
    ensures if !Peek(buf, p, "<>") then Prepend(acc, Redirs(buf, p)) == Some((acc, Skip(buf, p))) else
      var op := GetToken(buf, Skip(buf, p));
      var file := GetToken(buf, op.next);
      if file.kind != 'a' then Prepend(acc, Redirs(buf, p)) == None
      else
        Prepend(acc, Redirs(buf, p))
        == Prepend(acc + [Redirection(Span(file.q, file.eq), Opening(op.kind))], Redirs(buf, file.next))
  {
    hide Peek, Skip, GetToken;
    if !Peek(buf, p, "<>") {
      assert acc + [] == acc;
    } else {
      var op := GetToken(buf, Skip(buf, p));
      var file := GetToken(buf, op.next);
      var r := Redirs(buf, file.next);
      if file.kind == 'a' && r.Some? {
        var x := [Redirection(Span(file.q, file.eq), Opening(op.kind))];
        assert acc + (x + r.value.0) == acc + x + r.value.0;
      }
    }
  }

  // One turn of the loop in parseexec.
  lemma WordsTurn(buf: Line, p: nat, ws: seq<Span>, rs: seq<Redirection>)
    requires p <= |buf|
    ensures var r := PrependWords(ws, rs, Words(buf, p, |ws|));
      if Peek(buf, p, "|)&;") then r == Some((ws, rs, Skip(buf, p))) else
      var t := GetToken(buf, Skip(buf, p));
      if t.kind == '\0' then r == Some((ws, rs, t.next))
      else if t.kind != 'a' || |ws| + 1 >= MAXARGS || Redirs(buf, t.next) == None then r == None
      else var (more, e) := Redirs(buf, t.next).value;
        r == PrependWords(ws + [Span(t.q, t.eq)], rs + more, Words(buf, e, |ws| + 1))
  {
    hide Peek, Skip, GetToken, Redirs;
    assert ws + [] == ws && rs + [] == rs;
    if !Peek(buf, p, "|)&;") {
      var t := GetToken(buf, Skip(buf, p));
      if t.kind == 'a' && |ws| + 1 < MAXARGS && Redirs(buf, t.next).Some? {
        var (more, e) := Redirs(buf, t.next).value;
        var r := Words(buf, e, |ws| + 1);
        if r.Some? {
          assert ws + ([Span(t.q, t.eq)] + r.value.0) == ws + [Span(t.q, t.eq)] + r.value.0;
          assert rs + (more + r.value.1) == rs + more + r.value.1;
        }
      }
    }
  }

  lemma BlockOrNot(buf: Line, p: nat)
    requires p <= |buf|
    ensures Peek(buf, p, "(") ==> ParseExec(buf, p) == ParseBlock(buf, Skip(buf, p))
    ensures !Peek(buf, p, "(") && Redirs(buf, Skip(buf, p)) == None ==> ParseExec(buf, p) == None
  {
    hide Peek, Skip, Redirs, Words, ParseBlock;
  }

  lemma ExecEnds(buf: Line, p: nat, s: nat, rs: seq<Redirection>, e: nat)
    requires p <= |buf| && s == Skip(buf, p) && !Peek(buf, p, "(") && e <= |buf| && Redirs(buf, s) == Some((rs, e))
    ensures var r := PrependWords([], rs, Words(buf, e, 0));
      ParseExec(buf, p) == if r.Some? then Some((Wrap(Exec(r.value.0), r.value.1), r.value.2)) else None
  {
    hide Peek, Skip, Redirs, Words;
    if Words(buf, e, 0).Some? { assert [] + Words(buf, e, 0).value.0 == Words(buf, e, 0).value.0; }
  }

  // A result of the grammar, as the parser gives it: the command, or a panic.
  ghost predicate Agrees(r: Option<Cmd<Span, Open>>, pos: nat, spec: Option<(Cmd<Span, Open>, nat)>) {
    if spec.Some? then r == Some(spec.value.0) && pos == spec.value.1 else r == None
  }

  class Parser {
    const buf: Line
    var pos: nat

    constructor (buf: Line)
      ensures this.buf == buf && pos == 0
    {
      this.buf := buf;
      pos := 0;
    }

    method SkipBlanks()
      requires pos <= |buf|
      modifies this
      ensures pos == Skip(buf, old(pos))
    {
      while pos < |buf| && Space(buf[pos])
        invariant pos <= |buf| && Skip(buf, pos) == Skip(buf, old(pos))
      {
        pos := pos + 1;
      }
    }

    method Gettoken() returns (kind: char, q: nat, eq: nat)
      requires pos <= |buf|
      modifies this
      ensures GetToken(buf, old(pos)) == Token(kind, q, eq, pos)
    {
      SkipBlanks();
      q := pos;
      kind := At(buf, pos);
      if kind == '\0' {
      } else if kind == '>' {
        pos := pos + 1;
        if At(buf, pos) == '>' {
          kind := '+';
          pos := pos + 1;
        }
      } else if Symbol(kind) {
        pos := pos + 1;
      } else {
        kind := 'a';
        while pos < |buf| && !Space(buf[pos]) && !Symbol(buf[pos])
          invariant q <= pos <= |buf| && WordEnd(buf, pos) == WordEnd(buf, q)
        {
          pos := pos + 1;
        }
      }
      eq := pos;
      SkipBlanks();
    }

    method PeekFor(toks: string) returns (yes: bool)
      requires pos <= |buf|
      modifies this
      ensures pos == Skip(buf, old(pos)) && yes == Peek(buf, old(pos), toks)
    {
      SkipBlanks();
      var c := At(buf, pos);
      return c != '\0' && c in toks;
    }

    // parseredirs; the redirections wrap the command in the order given.
    method ParseRedirs() returns (rs: Option<seq<Redirection>>)
      requires pos <= |buf|
      modifies this
      ensures pos <= |buf|
      ensures var r := Redirs(buf, old(pos)); if r.Some? then rs == Some(r.value.0) && pos == r.value.1 else rs == None
    {
      hide GetToken, Peek, Skip, Redirs, Prepend;
      RedirsStart(buf, pos);
      var acc := [];
      while true
        invariant old(pos) <= pos <= |buf| && Redirs(buf, old(pos)) == Prepend(acc, Redirs(buf, pos))
        decreases |buf| - pos
      {
        RedirsTurn(buf, pos, acc);
        var more := PeekFor("<>");
        if !more { return Some(acc); }
        var op, _, _ := Gettoken();
        var kind, q, eq := Gettoken();
        if kind != 'a' { return None; }
        acc := acc + [Redirection(Span(q, eq), Opening(op))];
      }
    }

    method ParseExec() returns (c: Option<Cmd<Span, Open>>)
      requires pos <= |buf|
      modifies this
      ensures pos <= |buf| && Agrees(c, pos, ShellGrammar.ParseExec(buf, old(pos)))
      decreases |buf| - pos, 1
    {
      hide GetToken, Peek, Skip, Redirs, Words, PrependWords, ShellGrammar.ParseBlock, ShellGrammar.ParseExec;
      BlockOrNot(buf, pos);
      var block := PeekFor("(");
      if block {
        c := ParseBlock();
        return;
      }
      var rs := ParseRedirs();
      if rs == None { return None; }
      ExecEnds(buf, old(pos), Skip(buf, old(pos)), rs.value, pos);
      ghost var p := pos;
      var args, redirs := [], rs.value;
      while true
        invariant pos <= |buf| && |args| < MAXARGS
        invariant PrependWords([], rs.value, Words(buf, p, 0)) == PrependWords(args, redirs, Words(buf, pos, |args|))
        decreases |buf| - pos
      {
        WordsTurn(buf, pos, args, redirs);
        var stop := PeekFor("|)&;");
        if stop { return Some(Wrap(Exec(args), redirs)); }
        var kind, q, eq := Gettoken();
        if kind == '\0' { return Some(Wrap(Exec(args), redirs)); }
        if kind != 'a' { return None; }
        if |args| + 1 >= MAXARGS { return None; }
        var more := ParseRedirs();
        if more == None { return None; }
        args, redirs := args + [Span(q, eq)], redirs + more.value;
      }
    }

    method ParseBlock() returns (c: Option<Cmd<Span, Open>>)
      requires pos <= |buf|
      modifies this
      ensures pos <= |buf| && Agrees(c, pos, ShellGrammar.ParseBlock(buf, old(pos)))
      decreases |buf| - pos, 0
    {
      hide Redirs, ShellGrammar.ParseLine;
      SkipAgain(buf, pos);
      var open := PeekFor("(");
      if !open { return None; }
      var _, _, _ := Gettoken();
      c := ParseLine();
      if c == None { return; }
      SkipAgain(buf, pos);
      var close := PeekFor(")");
      if !close { return None; }
      var _, _, _ := Gettoken();
      var rs := ParseRedirs();
      if rs == None { return None; }
      return Some(Wrap(c.value, rs.value));
    }

    method ParsePipe() returns (c: Option<Cmd<Span, Open>>)
      requires pos <= |buf|
      modifies this
      ensures pos <= |buf| && Agrees(c, pos, ShellGrammar.ParsePipe(buf, old(pos)))
      decreases |buf| - pos, 2
    {
      hide ShellGrammar.ParseExec;
      c := ParseExec();
      if c == None { return; }
      SkipAgain(buf, pos);
      var bar := PeekFor("|");
      if bar {
        var _, _, _ := Gettoken();
        var right := ParsePipe();
        if right == None { return None; }
        return Some(Cmd.Pipe(c.value, right.value));
      }
    }

    method ParseLine() returns (c: Option<Cmd<Span, Open>>)
      requires pos <= |buf|
      modifies this
      ensures pos <= |buf| && Agrees(c, pos, ShellGrammar.ParseLine(buf, old(pos)))
      decreases |buf| - pos, 3
    {
      hide ShellGrammar.ParsePipe;
      c := ParsePipe();
      if c == None { return; }
      ghost var p, c0 := pos, c.value;
      while true
        invariant p <= pos <= |buf| && c.Some? && Backs(buf, p, c0) == Backs(buf, pos, c.value)
        decreases |buf| - pos
      {
        SkipAgain(buf, pos);
        var amp := PeekFor("&");
        if !amp { break; }
        var _, _, _ := Gettoken();
        c := Some(Back(c.value));
      }
      SkipAgain(buf, pos);
      var semi := PeekFor(";");
      if semi {
        var _, _, _ := Gettoken();
        var rest := ParseLine();
        if rest == None { return None; }
        return Some(List(c.value, rest.value));
      }
    }
  }

  // Skipping blanks first changes neither a token nor a test.
  lemma SkipAgain(buf: Line, p: nat)
    requires p <= |buf|
    ensures Skip(buf, Skip(buf, p)) == Skip(buf, p) && GetToken(buf, Skip(buf, p)) == GetToken(buf, p)
  {
    var s := Skip(buf, p);
    assert Skip(buf, s) == s;
  }

  // parsecmd: the whole line is one command, and its words are cut out of it.
  method ParseWhole(line: Line, a: array<char>) returns (c: Option<Cmd<Span, Open>>)
    requires a[..] == line + ['\0']
    modifies a
    ensures c == ParseCmd(line)
    ensures forall t {:trigger ShellSyntax.IsLine(line, 0, |line|, t)} ::
              c == Some(t) <==> ShellSyntax.IsLine(line, 0, |line|, t)
    ensures c.Some? ==> forall w | w in Spans(c.value) :: w.q < w.eq <= |line| && CString(a[..], w.q) == line[w.q..w.eq]
  {
    hide ParseLine, Spans, Ends, Cut, CString, ShellSyntax.IsLine;
    forall t ensures ParseCmd(line) == Some(t) <==> ShellSyntax.IsLine(line, 0, |line|, t) {
      ShellSyntax.ParsesExactly(line, t);
    }
    var parser := new Parser(line);
    c := parser.ParseLine();
    if c == None { return; }
    var _ := parser.PeekFor("");
    if parser.pos != |line| { return None; }
    forall w | w in Spans(c.value)
      ensures w.q < w.eq <= |line| && CString(Cut(line + ['\0'], Ends(c.value)), w.q) == line[w.q..w.eq]
    {
      CutExactly(line, c.value, w);
    }
    NulTerminate(a, c.value);
  }
}
