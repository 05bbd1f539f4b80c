/** The parser does not tell `>>` from `>`. */
module ShAppend {
  import opened ShParse

  /** `>>` stands at q as a token of its own. */
  predicate AppendAt(t: Text, q: nat) { q + 1 < |t| && t[q] == '>' && t[q + 1] == '>' && (q == 0 || t[q - 1] != '>') }

  /** The line with that `>>` made a `>` and a blank. */
  function Blanked(t: Text, q: nat): (u: Text)
    requires AppendAt(t, q)
  {
    t[q + 1 := ' ']
  }

  lemma {:induction false} SkipSame(t: Text, q: nat, i: nat)
    requires AppendAt(t, q) && i <= |t| && i != q + 1
    ensures SkipWhite(Blanked(t, q), i) == SkipWhite(t, i) != q + 1
    decreases |t| - i
  {
    if i < |t| && White(t[i]) { SkipSame(t, q, i + 1); }
  }

  lemma {:induction false} WordSame(t: Text, q: nat, i: nat)
    requires AppendAt(t, q) && i <= |t| && i != q + 1
    ensures WordEnd(Blanked(t, q), i) == WordEnd(t, i) != q + 1
    decreases |t| - i
  {
    if i < |t| && WordChar(t[i]) { WordSame(t, q, i + 1); }
  }

  /** Tokens are the same but for that one, and none starts inside it. */
  lemma LexSame(t: Text, q: nat, i: nat)
    requires AppendAt(t, q) && i <= |t| && i != q + 1
    ensures var a, b := Lex(t, i), Lex(Blanked(t, q), i);
      && a.q == b.q && a.next == b.next != q + 1
      && if a.q == q then a.tok == Append && b.tok == Sym('>') else a.tok == b.tok && a.eq == b.eq
  {
    var u, s := Blanked(t, q), SkipWhite(t, i);
    SkipSame(t, q, i);
    if s == q {
      SkipSame(t, q, q + 2);
      assert SkipWhite(u, q + 1) == SkipWhite(u, q + 2);
    } else if s < |t| {
      LexElse(t, q, i);
    }
  }

  lemma LexElse(t: Text, q: nat, i: nat)
    requires AppendAt(t, q) && i <= |t| && i != q + 1 && SkipWhite(t, i) < |t| && SkipWhite(t, i) != q
    ensures Lex(Blanked(t, q), i) == Lex(t, i) && Lex(t, i).next != q + 1
  {
    var s := SkipWhite(t, i);
    if t[s] == '>' { LexAngle(t, q, i, s); } else if Symbol(t[s]) { LexSymbol(t, q, i, s); } else { LexWord(t, q, i, s); }
  }

  lemma LexAngle(t: Text, q: nat, i: nat, s: nat)
    requires AppendAt(t, q) && i <= |t| && i != q + 1 && s == SkipWhite(t, i) < |t| && s != q && t[s] == '>'
    ensures Lex(Blanked(t, q), i) == Lex(t, i) && Lex(t, i).next != q + 1
  {
    var u, e := Blanked(t, q), if s + 1 < |t| && t[s + 1] == '>' then s + 2 else s + 1;
    SkipSame(t, q, i);
    assert s + 1 != q && u[s] == t[s];
    SkipSame(t, q, e);
    assert Lex(t, i) == Lexed(if e == s + 2 then Append else Sym('>'), s, e, SkipWhite(t, e));
  }

  lemma LexSymbol(t: Text, q: nat, i: nat, s: nat)
    requires AppendAt(t, q) && i <= |t| && i != q + 1 && s == SkipWhite(t, i) < |t| && t[s] != '>' && Symbol(t[s])
    ensures Lex(Blanked(t, q), i) == Lex(t, i) && Lex(t, i).next != q + 1
  {
    SkipSame(t, q, i);
    SkipSame(t, q, s + 1);
    assert Lex(t, i) == Lexed(Sym(t[s]), s, s + 1, SkipWhite(t, s + 1));
  }

  lemma LexWord(t: Text, q: nat, i: nat, s: nat)
    requires AppendAt(t, q) && i <= |t| && i != q + 1 && s == SkipWhite(t, i) < |t| && !Symbol(t[s])
    ensures Lex(Blanked(t, q), i) == Lex(t, i) && Lex(t, i).next != q + 1
  {
    SkipSame(t, q, i);
    WordSame(t, q, s);
    SkipSame(t, q, WordEnd(t, s));
    assert Lex(t, i) == Lexed(Word, s, WordEnd(t, s), SkipWhite(t, WordEnd(t, s)));
  }

  lemma PeekSame(t: Text, q: nat, i: nat, toks: string)
    requires AppendAt(t, q) && i <= |t| && i != q + 1
    ensures Peek(Blanked(t, q), i, toks) == Peek(t, i, toks)
  {
    SkipSame(t, q, i);
  }

  /** The same parse, ending at a token. */
  predicate Same(a: Parse, b: Parse, q: nat) { a == b && (a.Ok? ==> a.next != q + 1) }

  lemma {:induction false} RedirsSame(t: Text, q: nat, i: nat, c: Cmd)
    requires AppendAt(t, q) && i <= |t| && i != q + 1
    ensures Same(Redirs(t, i, c), Redirs(Blanked(t, q), i, c), q)
    decreases |t| - i
  {
    SkipSame(t, q, i);
    PeekSame(t, q, i, "<>");
    if Peek(t, i, "<>") {
      LexSame(t, q, i);
      var op := Lex(t, i);
      LexSame(t, q, op.next);
      var file := Lex(t, op.next);
      if file.tok.Word? { RedirsSame(t, q, file.next, Redir(c, Span(file.q, file.eq), op.tok != Sym('<'))); }
    }
  }

  lemma {:induction false} ArgsSame(t: Text, q: nat, i: nat, c: Cmd, argc: nat)
    requires AppendAt(t, q) && i <= |t| && i != q + 1
    ensures Same(Args(t, i, c, argc), Args(Blanked(t, q), i, c, argc), q)
    decreases |t| - i, 0
  {
    SkipSame(t, q, i);
    PeekSame(t, q, i, "|)&;");
    LexSame(t, q, i);
    var w := Lex(t, i);
    if !Peek(t, i, "|)&;") && w.tok.Word? && argc + 1 < MAXARGS {
      MoreArgsSame(t, q, w.next, AddArg(c, Span(w.q, w.eq)), argc + 1);
    }
  }

  lemma {:induction false} MoreArgsSame(t: Text, q: nat, i: nat, c: Cmd, argc: nat)
    requires AppendAt(t, q) && i <= |t| && i != q + 1
    ensures Same(MoreArgs(t, i, c, argc), MoreArgs(Blanked(t, q), i, c, argc), q)
    decreases |t| - i, 1
  {
    RedirsSame(t, q, i, c);
    var r := Redirs(t, i, c);
    if r.Ok? { ArgsSame(t, q, r.next, r.cmd, argc); }
  }

  lemma {:induction false} AmpsSame(t: Text, q: nat, i: nat, c: Cmd)
    requires AppendAt(t, q) && i <= |t| && i != q + 1
    ensures Same(Amps(t, i, c), Amps(Blanked(t, q), i, c), q)
    decreases |t| - i
  {
    SkipSame(t, q, i);
    PeekSame(t, q, i, "&");
    if Peek(t, i, "&") {
      LexSame(t, q, i);
      AmpsSame(t, q, Lex(t, i).next, Back(c));
    }
  }

  lemma {:induction false} LineSame(t: Text, q: nat, i: nat)
    requires AppendAt(t, q) && i <= |t| && i != q + 1
    ensures Same(Line(t, i), Line(Blanked(t, q), i), q)
    decreases |t| - i, 3
  {
    PipesSame(t, q, i);
    var l := Pipes(t, i);
    if l.Ok? {
      AmpsSame(t, q, l.next, l.cmd);
      var a := Amps(t, l.next, l.cmd);
      SkipSame(t, q, a.next);
      PeekSame(t, q, a.next, ";");
      if Peek(t, a.next, ";") {
        LexSame(t, q, a.next);
        LineSame(t, q, Lex(t, a.next).next);
      }
    }
  }

  lemma {:induction false} PipesSame(t: Text, q: nat, i: nat)
    requires AppendAt(t, q) && i <= |t| && i != q + 1
    ensures Same(Pipes(t, i), Pipes(Blanked(t, q), i), q)
    decreases |t| - i, 2
  {
    SimpleSame(t, q, i);
    var l := Simple(t, i);
    if l.Ok? {
      SkipSame(t, q, l.next);
      PeekSame(t, q, l.next, "|");
      if Peek(t, l.next, "|") {
        LexSame(t, q, l.next);
        PipesSame(t, q, Lex(t, l.next).next);
      }
    }
  }

  lemma {:induction false} SimpleSame(t: Text, q: nat, i: nat)
    requires AppendAt(t, q) && i <= |t| && i != q + 1
    ensures Same(Simple(t, i), Simple(Blanked(t, q), i), q)
    decreases |t| - i, 1
  {
    PeekSame(t, q, i, "(");
    if Peek(t, i, "(") {
      BlockSame(t, q, i);
    } else {
      RedirsSame(t, q, i, Exec([]));
      var r := Redirs(t, i, Exec([]));
      if r.Ok? { ArgsSame(t, q, r.next, r.cmd, 0); }
    }
  }

  lemma {:induction false} BlockSame(t: Text, q: nat, i: nat)
    requires AppendAt(t, q) && i <= |t| && i != q + 1
    ensures Same(Block(t, i), Block(Blanked(t, q), i), q)
    decreases |t| - i, 0
  {
    PeekSame(t, q, i, "(");
    if Peek(t, i, "(") {
      LexSame(t, q, i);
      LineSame(t, q, Lex(t, i).next);
      var r := Line(t, Lex(t, i).next);
      if r.Ok? {
        PeekSame(t, q, r.next, ")");
        LexSame(t, q, r.next);
        RedirsSame(t, q, Lex(t, r.next).next, r.cmd);
      }
    }
  }

  /** Any line with a `>>` is parsed, or refused, as the line with `>` and a blank in its place. */
  lemma AppendIsWrite(t: Text, q: nat)
    requires AppendAt(t, q)
    ensures Command(Blanked(t, q)) == Command(t)
  {
    LineSame(t, q, 0);
    var r := Line(t, 0);
    if r.Ok? { SkipSame(t, q, r.next); }
  }

  /** A redirection is for output exactly when its token is `>` or `>>`. */
  lemma OutIff(t: Text, i: nat, c: Cmd)
    requires i <= |t| && Peek(t, i, "<>") && Lex(t, Lex(t, i).next).tok.Word?
    ensures var op := Lex(t, i); var file := Lex(t, op.next);
      exists out :: (out <==> op.tok == Sym('>') || op.tok == Append)
                    && Redirs(t, i, c) == Redirs(t, file.next, Redir(c, Span(file.q, file.eq), out))
  {
    var op := Lex(t, i);
    var file := Lex(t, op.next);
    assert op.tok in {Sym('<'), Sym('>'), Append};
    assert Redirs(t, i, c) == Redirs(t, file.next, Redir(c, Span(file.q, file.eq), op.tok != Sym('<')));
  }

  /** For one, `a >> f` and `a >  f`: both are `a` with its output redirected to `f`. */
  lemma AppendExample()
    ensures Command("a >> f") == Command("a >  f") == Ok(Redir(Exec([Span(0, 1)]), Span(5, 6), true), 6)
  {
    var t: Text := "a >> f";
    AppendIsWrite(t, 2);
    assert Blanked(t, 2) == "a >  f";
    ExampleTokens(t);
    ExampleParse(t);
  }

  /** `a >> f`, token by token. */
  predicate ExampleLexed(t: Text) {
    && |t| == 6 && Lex(t, 0) == Lexed(Word, 0, 1, 2) && Lex(t, 2) == Lexed(Append, 2, 4, 5) && Lex(t, 5) == Lexed(Word, 5, 6, 6)
    && Lex(t, 6) == Lexed(End, 6, 6, 6) && SkipWhite(t, 0) == 0 && SkipWhite(t, 2) == 2 && SkipWhite(t, 6) == 6
    && t[0] == 'a' && t[2] == '>'
  }

  lemma ExampleTokens(t: Text)
    requires t == "a >> f"
    ensures ExampleLexed(t)
  {
    assert t[0] == 'a' && t[1] == ' ' && t[2] == '>' && t[3] == '>' && t[4] == ' ' && t[5] == 'f';
    assert WordEnd(t, 0) == 1 && SkipWhite(t, 1) == 2;
    assert SkipWhite(t, 4) == 5 && WordEnd(t, 5) == 6;
  }

  lemma ExampleParse(t: Text)
    requires ExampleLexed(t)
    ensures Command(t) == Ok(Redir(Exec([Span(0, 1)]), Span(5, 6), true), 6)
  {
    var a := Exec([Span(0, 1)]);
    var c := Redir(a, Span(5, 6), true);
    assert Redirs(t, 6, c) == Ok(c, 6);
    assert Redirs(t, 2, a) == Redirs(t, 6, c);
    assert Args(t, 6, c, 1) == Ok(c, 6);
    assert MoreArgs(t, 2, a, 1) == Ok(c, 6);
    assert Args(t, 0, Exec([]), 0) == MoreArgs(t, 2, a, 1) by { assert AddArg(Exec([]), Span(0, 1)) == a; }
    assert Redirs(t, 0, Exec([])) == Ok(Exec([]), 0);
    assert Simple(t, 0) == Ok(c, 6);
    assert Pipes(t, 0) == Ok(c, 6);
    assert Amps(t, 6, c) == Ok(c, 6);
    assert Line(t, 0) == Ok(c, 6);
  }
}
