/** nulterminate: the tokens of a parsed line become C strings in place. */
module ShNul {
  import opened ShParse
  import opened ShCode

  /** Every argument and file name in the tree. */
  function Spans(c: Cmd): (r: set<Span>) {
    match c
    case Exec(argv) => set a | a in argv
    case Redir(d, file, _) => Spans(d) + {file}
    case Pipe(l, r) => Spans(l) + Spans(r)
    case List(l, r) => Spans(l) + Spans(r)
    case Back(d) => Spans(d)
  }

  /** No command has MAXARGS arguments. */
  predicate Few(c: Cmd) {
    match c
    case Exec(argv) => |argv| < MAXARGS
    case Redir(d, _, _) => Few(d)
    case Pipe(l, r) => Few(l) && Few(r)
    case List(l, r) => Few(l) && Few(r)
    case Back(d) => Few(d)
  }

  /** Arguments and file names are maximal words of the line, and arguments are few. */
  ghost predicate Words(t: Text, c: Cmd) { Few(c) && forall a :: a in Spans(c) ==> WordSpan(t, a.q, a.eq) }

  ghost predicate WordsIn(t: Text, r: Parse) { r.Ok? ==> Words(t, r.cmd) }

  /** A chain of redirections around an exec node with n arguments. */
  predicate Holds(c: Cmd, n: nat) {
    match c
    case Exec(argv) => |argv| == n
    case Redir(d, _, _) => Holds(d, n)
    case _ => false
  }

  lemma {:induction false} AddArgSpans(c: Cmd, a: Span, n: nat)
    requires Holds(c, n)
    ensures Spans(AddArg(c, a)) == Spans(c) + {a} && Holds(AddArg(c, a), n + 1) && (n + 1 < MAXARGS ==> Few(AddArg(c, a)))
  {
    match c
    case Exec(argv) =>
      assert Spans(AddArg(c, a)) == Spans(c) + {a};
    case Redir(d, _, _) => AddArgSpans(d, a, n);
  }

  lemma AddArgWords(t: Text, c: Cmd, a: Span, n: nat)
    requires Words(t, c) && Holds(c, n) && n + 1 < MAXARGS && WordSpan(t, a.q, a.eq)
    ensures Words(t, AddArg(c, a)) && Holds(AddArg(c, a), n + 1)
  {
    AddArgSpans(c, a, n);
  }

  lemma {:induction false} RedirsWords(t: Text, i: nat, c: Cmd)
    requires i <= |t| && Words(t, c)
    ensures WordsIn(t, Redirs(t, i, c))
    ensures forall n: nat :: Redirs(t, i, c).Ok? && Holds(c, n) ==> Holds(Redirs(t, i, c).cmd, n)
    decreases |t| - i
  {
    if Peek(t, i, "<>") {
      var op := Lex(t, i);
      var file := Lex(t, op.next);
      if file.tok.Word? { RedirsWords(t, file.next, Redir(c, Span(file.q, file.eq), op.tok != Sym('<'))); }
    }
  }

  lemma {:induction false} ArgsWords(t: Text, i: nat, c: Cmd, argc: nat)
    requires i <= |t| && Words(t, c) && Holds(c, argc)
    ensures WordsIn(t, Args(t, i, c, argc))
    decreases |t| - i, 0
  {
    if !Peek(t, i, "|)&;") {
      var w := Lex(t, i);
      if w.tok.Word? && argc + 1 < MAXARGS {
        AddArgWords(t, c, Span(w.q, w.eq), argc);
        MoreArgsWords(t, w.next, AddArg(c, Span(w.q, w.eq)), argc + 1);
      }
    }
  }

  lemma {:induction false} MoreArgsWords(t: Text, i: nat, c: Cmd, argc: nat)
    requires i <= |t| && Words(t, c) && Holds(c, argc)
    ensures WordsIn(t, MoreArgs(t, i, c, argc))
    decreases |t| - i, 1
  {
    RedirsWords(t, i, c);
    var r := Redirs(t, i, c);
    if r.Ok? { ArgsWords(t, r.next, r.cmd, argc); }
  }

  lemma {:induction false} AmpsWords(t: Text, i: nat, c: Cmd)
    requires i <= |t| && Words(t, c)
    ensures WordsIn(t, Amps(t, i, c))
    decreases |t| - i
  {
    if Peek(t, i, "&") { AmpsWords(t, Lex(t, i).next, Back(c)); }
  }

  lemma {:induction false} LineWords(t: Text, i: nat)
    requires i <= |t|
    ensures WordsIn(t, Line(t, i))
    decreases |t| - i, 3
  {
    PipesWords(t, i);
    var l := Pipes(t, i);
    if l.Ok? {
      AmpsWords(t, l.next, l.cmd);
      var a := Amps(t, l.next, l.cmd);
      if Peek(t, a.next, ";") { LineWords(t, Lex(t, a.next).next); }
    }
  }

  lemma {:induction false} PipesWords(t: Text, i: nat)
    requires i <= |t|
    ensures WordsIn(t, Pipes(t, i))
    decreases |t| - i, 2
  {
    SimpleWords(t, i);
    var l := Simple(t, i);
    if l.Ok? && Peek(t, l.next, "|") { PipesWords(t, Lex(t, l.next).next); }
  }

  lemma {:induction false} SimpleWords(t: Text, i: nat)
    requires i <= |t|
    ensures WordsIn(t, Simple(t, i))
    decreases |t| - i, 1
  {
    if Peek(t, i, "(") {
      BlockWords(t, i);
    } else {
      assert Holds(Exec([]), 0);
      RedirsWords(t, i, Exec([]));
      var r := Redirs(t, i, Exec([]));
      if r.Ok? { ArgsWords(t, r.next, r.cmd, 0); }
    }
  }

  lemma {:induction false} BlockWords(t: Text, i: nat)
    requires i <= |t|
    ensures WordsIn(t, Block(t, i))
    decreases |t| - i, 0
  {
    if Peek(t, i, "(") {
      LineWords(t, Lex(t, i).next);
      var r := Line(t, Lex(t, i).next);
      if r.Ok? && Peek(t, r.next, ")") { RedirsWords(t, Lex(t, r.next).next, r.cmd); }
    }
  }

  // ---- in place ----

  /** The buffer b holds line t, but with a NUL where some word of done ends. */
  ghost predicate Cut(b: seq<char>, t: Text, done: set<Span>) {
    && |b| == |t| + 1
    && (forall a: Span :: a in done ==> a.eq < |b| && b[a.eq] == '\0')
    && forall k: nat :: k < |b| && (forall a: Span :: a in done ==> a.eq != k) ==> b[k] == At(t, k)
  }

  lemma CutMore(b: seq<char>, t: Text, done: set<Span>, a: Span)
    requires Cut(b, t, done) && a.eq < |b|
    ensures Cut(b[a.eq := '\0'], t, done + {a})
  {
    forall k: nat | k < |b| && (forall x: Span :: x in done + {a} ==> x.eq != k) ensures b[a.eq := '\0'][k] == At(t, k) {
      assert a in done + {a};
      forall x: Span | x in done ensures x.eq != k { assert x in done + {a}; }
    }
  }

  /** nulterminate: a NUL after every token of the tree, and nothing else touched. */
  method Nulterminate(b: array<char>, c: Cmd, ghost t: Text, ghost done: set<Span>)
    requires Cut(b[..], t, done) && Words(t, c)
    modifies b
    ensures Cut(b[..], t, done + Spans(c))
  {
    match c {
      case Exec(argv) =>
        var i := 0;
        ghost var cut := done;
        while i < |argv|
          invariant 0 <= i <= |argv| && Cut(b[..], t, cut)
          invariant cut == done + set k: nat | k < i :: argv[k]
        {
          assert argv[i] in Spans(c);
          CutMore(b[..], t, cut, argv[i]);
          b[argv[i].eq] := '\0';
          cut, i := cut + {argv[i]}, i + 1;
        }
        assert cut == done + Spans(c);
      case Redir(d, file, _) =>
        assert file in Spans(c);
        Nulterminate(b, d, t, done);
        CutMore(b[..], t, done + Spans(d), file);
        b[file.eq] := '\0';
        assert done + Spans(d) + {file} == done + Spans(c);
      case Pipe(l, r) =>
        Nulterminate(b, l, t, done);
        Nulterminate(b, r, t, done + Spans(l));
        assert done + Spans(l) + Spans(r) == done + Spans(c);
      case List(l, r) =>
        Nulterminate(b, l, t, done);
        Nulterminate(b, r, t, done + Spans(l));
        assert done + Spans(l) + Spans(r) == done + Spans(c);
      case Back(d) =>
        Nulterminate(b, d, t, done);
    }
  }

  /** The C string that starts at q. */
  function CString(b: seq<char>, q: nat): (r: seq<char>)
    decreases |b| - q
  {
    if q < |b| && b[q] != '\0' then [b[q]] + CString(b, q + 1) else []
  }

  lemma {:induction false} CStringIs(b: seq<char>, t: Text, q: nat, eq: nat)
    requires q <= eq < |b| == |t| + 1 && b[eq] == '\0' && forall k :: q <= k < eq ==> b[k] == t[k]
    ensures CString(b, q) == t[q..eq]
    decreases eq - q
  {
    if q < eq {
      CStringIs(b, t, q + 1, eq);
      assert b[q] == t[q] && t[q] in t;
      assert t[q..eq] == [t[q]] + t[q + 1..eq];
    }
  }

  /** No token's end falls inside another token. */
  lemma TokenUncut(b: seq<char>, t: Text, spans: set<Span>, a: Span)
    requires Cut(b, t, spans) && a in spans && WordSpan(t, a.q, a.eq) && forall x :: x in spans ==> WordSpan(t, x.q, x.eq)
    ensures CString(b, a.q) == t[a.q..a.eq]
  {
    forall k | a.q <= k < a.eq ensures b[k] == t[k] {
      assert WordChar(t[k]);
      forall x | x in spans ensures x.eq != k { assert WordSpan(t, x.q, x.eq); }
    }
    CStringIs(b, t, a.q, a.eq);
  }

  /** parsecmd: after it, each argument and file name read as a C string is exactly its token's text. */
  method ParsecmdInPlace(b: array<char>, t: Text) returns (r: Parse)
    requires b.Length == |t| + 1 && forall k: nat :: k < b.Length ==> b[k] == At(t, k)
    modifies b
    ensures r == Command(t)
    ensures r.Ok? ==> forall a :: a in Spans(r.cmd) ==> a.q < a.eq <= |t| && CString(b[..], a.q) == t[a.q..a.eq]
    ensures r.Fail? ==> b[..] == old(b[..])
  {
    r := Parsecmd(t);
    if r.Fail? { return; }
    LineWords(t, 0);
    Nulterminate(b, r.cmd, t, {});
    assert {} + Spans(r.cmd) == Spans(r.cmd);
    forall a | a in Spans(r.cmd) ensures a.q < a.eq <= |t| && CString(b[..], a.q) == t[a.q..a.eq] {
      assert WordSpan(t, a.q, a.eq);
      TokenUncut(b[..], t, Spans(r.cmd), a);
    }
  }
}
