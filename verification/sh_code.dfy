/** The parser of sh.c as it runs: a position moved along the line by loops, trees
    built by recursion. */
module ShCode {
  import opened ShParse

  /** The character at s; the NUL that ends the string. */
  function At(t: Text, s: nat): (c: char) { if s < |t| then t[s] else '\0' }

  method SkipSpace(t: Text, ps: nat) returns (s: nat)
    requires ps <= |t|
    ensures s == SkipWhite(t, ps)
  {
    s := ps;
    while s < |t| && White(t[s])
      invariant ps <= s <= |t| && SkipWhite(t, ps) == SkipWhite(t, s)
    {
      s := s + 1;
    }
  }

  /** gettoken */
  method Gettoken(t: Text, ps: nat) returns (ret: Tok, q: nat, eq: nat, next: nat)
    requires ps <= |t|
    ensures Lexed(ret, q, eq, next) == Lex(t, ps)
  {
    var s := SkipSpace(t, ps);
    q := s;
    var c := At(t, s);
    if c == '\0' {
      ret := End;
    } else if c == '|' || c == '(' || c == ')' || c == ';' || c == '&' || c == '<' {
      ret, s := Sym(c), s + 1;
    } else if c == '>' {
      ret, s := Sym('>'), s + 1;
      if At(t, s) == '>' {
        ret, s := Append, s + 1;
      }
    } else {
      ret := Word;
      while s < |t| && !White(t[s]) && !Symbol(t[s])
        invariant q <= s <= |t| && WordEnd(t, q) == WordEnd(t, s)
      {
        s := s + 1;
      }
    }
    eq := s;
    next := SkipSpace(t, s);
  }

  /** peek */
  method PeekAt(t: Text, ps: nat, toks: string) returns (r: bool, s: nat)
    requires ps <= |t|
    ensures r == Peek(t, ps, toks) && s == SkipWhite(t, ps)
  {
    s := SkipSpace(t, ps);
    r := s < |t| && t[s] in toks;
  }

  /** Looking twice moves no further. */
  lemma SkipTwice(t: Text, i: nat)
    requires i <= |t|
    ensures SkipWhite(t, SkipWhite(t, i)) == SkipWhite(t, i)
    ensures Lex(t, SkipWhite(t, i)) == Lex(t, i)
    ensures forall toks: string :: Peek(t, SkipWhite(t, i), toks) == Peek(t, i, toks)
  {
  }

  /** parseredirs */
  method Parseredirs(t: Text, ps: nat, cmd: Cmd) returns (r: Parse)
    requires ps <= |t|
    ensures r == Redirs(t, ps, cmd)
  {
    var c, i := cmd, ps;
    var more, s := PeekAt(t, i, "<>");
    while more
      invariant i <= |t| && s == SkipWhite(t, i) && more == Peek(t, i, "<>")
      invariant Redirs(t, ps, cmd) == Redirs(t, i, c)
      decreases |t| - i
    {
      SkipTwice(t, i);
      var tok, q0, eq0, n0 := Gettoken(t, s);
      var word, q, eq, n := Gettoken(t, n0);
      if word != Word { return Fail(MissingFile); }
      c, i := Redir(c, Span(q, eq), tok != Sym('<')), n;
      more, s := PeekAt(t, i, "<>");
    }
    r := Ok(c, s);
  }

  /** parseexec, from its loop on. */
  method Parseargs(t: Text, ps: nat, cmd: Cmd) returns (r: Parse)
    requires ps <= |t|
    ensures r == Args(t, ps, cmd, 0)
  {
    var c, i, argc := cmd, ps, 0;
    var stop, s := PeekAt(t, i, "|)&;");
    while !stop
      invariant i <= |t| && s == SkipWhite(t, i) && stop == Peek(t, i, "|)&;")
      invariant Args(t, ps, cmd, 0) == Args(t, i, c, argc)
      decreases |t| - i
    {
      SkipTwice(t, i);
      var tok, q, eq, n := Gettoken(t, s);
      if tok == End { return Ok(c, n); }
      if tok != Word { return Fail(Syntax); }
      c := AddArg(c, Span(q, eq));
      argc := argc + 1;
      if argc >= MAXARGS { return Fail(TooManyArgs); }
      r := Parseredirs(t, n, c);
      if r.Fail? { return; }
      c, i := r.cmd, r.next;
      stop, s := PeekAt(t, i, "|)&;");
    }
    r := Ok(c, s);
  }

  /** parseexec */
  method Parseexec(t: Text, ps: nat) returns (r: Parse)
    requires ps <= |t|
    ensures r == Simple(t, ps)
    decreases |t| - ps, 1
  {
    var block, s := PeekAt(t, ps, "(");
    SkipTwice(t, ps);
    if block {
      r := Parseblock(t, ps);
      return;
    }
    r := Parseredirs(t, ps, Exec([]));
    if r.Fail? { return; }
    r := Parseargs(t, r.next, r.cmd);
  }

  /** parseblock */
  method Parseblock(t: Text, ps: nat) returns (r: Parse)
    requires ps <= |t|
    ensures r == Block(t, ps)
    decreases |t| - ps, 0
  {
    var open, s := PeekAt(t, ps, "(");
    if !open { return Fail(Syntax); }
    SkipTwice(t, ps);
    var tok, q, eq, n := Gettoken(t, s);
    r := Parseline(t, n);
    if r.Fail? { return; }
    var cmd, i := r.cmd, r.next;
    var close;
    close, s := PeekAt(t, i, ")");
    if !close { return Fail(MissingParen); }
    SkipTwice(t, i);
    tok, q, eq, n := Gettoken(t, s);
    r := Parseredirs(t, n, cmd);
  }

  /** parsepipe */
  method Parsepipe(t: Text, ps: nat) returns (r: Parse)
    requires ps <= |t|
    ensures r == Pipes(t, ps)
    decreases |t| - ps, 2
  {
    r := Parseexec(t, ps);
    if r.Fail? { return; }
    var cmd, i := r.cmd, r.next;
    var more, s := PeekAt(t, i, "|");
    if !more { return Ok(cmd, s); }
    SkipTwice(t, i);
    var tok, q, eq, n := Gettoken(t, s);
    r := Parsepipe(t, n);
    if r.Ok? { r := Ok(Pipe(cmd, r.cmd), r.next); }
  }

  /** parseline */
  method Parseline(t: Text, ps: nat) returns (r: Parse)
    requires ps <= |t|
    ensures r == Line(t, ps)
    decreases |t| - ps, 3
  {
    r := Parsepipe(t, ps);
    if r.Fail? { return; }
    var cmd, i := r.cmd, r.next;
    ghost var c0, i0 := cmd, i;
    var more, s := PeekAt(t, i, "&");
    while more
      invariant i0 <= i <= |t| && s == SkipWhite(t, i) && more == Peek(t, i, "&")
      invariant Amps(t, i0, c0) == Amps(t, i, cmd)
      decreases |t| - i
    {
      SkipTwice(t, i);
      var tok, q, eq, n := Gettoken(t, s);
      cmd, i := Back(cmd), n;
      more, s := PeekAt(t, i, "&");
    }
    SkipTwice(t, i);
    more, s := PeekAt(t, s, ";");
    if !more { return Ok(cmd, s); }
    SkipTwice(t, s);
    var tok, q, eq, n := Gettoken(t, s);
    r := Parseline(t, n);
    if r.Ok? { r := Ok(List(cmd, r.cmd), r.next); }
  }

  /** parsecmd up to nulterminate: the tree for the whole line, or the first error. */
  method Parsecmd(t: Text) returns (r: Parse)
    ensures r == Command(t)
  {
    r := Parseline(t, 0);
    if r.Fail? { return; }
    var more, s := PeekAt(t, r.next, "");
    if s != |t| { return Fail(Leftovers); }
    r := Ok(r.cmd, s);
  }
}
