/** The shell's grammar: what gettoken, peek and the parse functions compute on an
    input line, as functions of the line and a position in it. */
module ShParse {

  /** A C string: no NUL before its end. */
  type Text = t: string | '\0' !in t witness ""

  predicate White(c: char) { c == ' ' || c == '\t' || c == '\r' || c == '\n' || c == '\U{000B}' }

  predicate Symbol(c: char) { c == '<' || c == '|' || c == '>' || c == '&' || c == ';' || c == '(' || c == ')' }

  predicate WordChar(c: char) { !White(c) && !Symbol(c) && c != '\0' }

  function SkipWhite(t: Text, i: nat): (s: nat)
    requires i <= |t|
    ensures i <= s <= |t| && (s < |t| ==> !White(t[s]))
    decreases |t| - i
  {
    if i < |t| && White(t[i]) then SkipWhite(t, i + 1) else i
  }

  lemma {:induction false} SkippedIsWhite(t: Text, i: nat)
    requires i <= |t|
    ensures forall j :: i <= j < SkipWhite(t, i) ==> White(t[j])
    decreases |t| - i
  {
    if i < |t| && White(t[i]) { SkippedIsWhite(t, i + 1); }
  }

  function WordEnd(t: Text, i: nat): (s: nat)
    requires i <= |t|
    ensures i <= s <= |t| && (s < |t| ==> !WordChar(t[s])) && forall j :: i <= j < s ==> WordChar(t[j])
    decreases |t| - i
  {
    if i < |t| && WordChar(t[i]) then WordEnd(t, i + 1) else i
  }

  // ---- tokens ----

  /** gettoken's result: 0, a symbol, '+' for >>, 'a' for a word. */
  datatype Tok = End | Sym(c: char) | Append | Word

  /** A token, the span [q, eq) it covers, and where the next one starts. */
  datatype Lexed = Lexed(tok: Tok, q: nat, eq: nat, next: nat)

  function Lex(t: Text, i: nat): (r: Lexed)
    requires i <= |t|
    ensures i <= r.q <= r.eq <= r.next <= |t| && (r.tok.End? <==> r.q == |t|) && (!r.tok.End? ==> r.q < r.eq)
    ensures r.next < |t| ==> !White(t[r.next])
    ensures r.tok.Word? ==> WordSpan(t, r.q, r.eq)
  {
    var q := SkipWhite(t, i);
    if q == |t| then Lexed(End, q, q, q)
    else if t[q] == '>' then
      if q + 1 < |t| && t[q + 1] == '>' then Lexed(Append, q, q + 2, SkipWhite(t, q + 2))
      else Lexed(Sym('>'), q, q + 1, SkipWhite(t, q + 1))
    else if Symbol(t[q]) then Lexed(Sym(t[q]), q, q + 1, SkipWhite(t, q + 1))
    else
      var e := WordEnd(t, q);
      assert WordChar(t[q]);
      Lexed(Word, q, e, SkipWhite(t, e))
  }

  /** [q, eq) is a word of t that cannot be made longer at the end. */
  predicate WordSpan(t: Text, q: nat, eq: nat) {
    q < eq <= |t| && (forall j :: q <= j < eq ==> WordChar(t[j])) && (eq < |t| ==> !WordChar(t[eq]))
  }

  /** peek: the next character that is not white is one of toks. */
  predicate Peek(t: Text, i: nat, toks: string)
    requires i <= |t|
  {
    var s := SkipWhite(t, i);
    s < |t| && t[s] in toks
  }

  // ---- commands ----

  datatype Span = Span(q: nat, eq: nat)

  /** `out` tells `>` (and `>>`, which is parsed the same) from `<`. */
  datatype Cmd =
    | Exec(argv: seq<Span>)
    | Redir(cmd: Cmd, file: Span, out: bool)
    | Pipe(left: Cmd, right: Cmd)
    | List(left: Cmd, right: Cmd)
    | Back(cmd: Cmd)

  datatype Error = Syntax | MissingFile | MissingParen | TooManyArgs | Leftovers

  datatype Parse = Ok(cmd: Cmd, next: nat) | Fail(error: Error)

  const MAXARGS: nat := 10

  predicate Within(t: Text, i: nat, r: Parse) { r.Ok? ==> i <= r.next <= |t| }

  /** The exec node at the bottom of a chain of redirections gets one more argument. */
  function AddArg(c: Cmd, a: Span): (r: Cmd) {
    match c
    case Exec(argv) => Exec(argv + [a])
    case Redir(d, file, out) => Redir(AddArg(d, a), file, out)
    case _ => c
  }

  /** parseredirs */
  function Redirs(t: Text, i: nat, c: Cmd): (r: Parse)
    requires i <= |t|
    ensures Within(t, i, r)
    decreases |t| - i
  {
    if !Peek(t, i, "<>") then Ok(c, SkipWhite(t, i))
    else
      var op := Lex(t, i);
      var file := Lex(t, op.next);
      if !file.tok.Word? then Fail(MissingFile)
      else Redirs(t, file.next, Redir(c, Span(file.q, file.eq), op.tok != Sym('<')))
  }

  /** parseexec's loop, with argc arguments so far. */
  function Args(t: Text, i: nat, c: Cmd, argc: nat): (r: Parse)
    requires i <= |t|
    ensures Within(t, i, r)
    decreases |t| - i, 0
  {
    if Peek(t, i, "|)&;") then Ok(c, SkipWhite(t, i))
    else
      var w := Lex(t, i);
      if w.tok.End? then Ok(c, w.next)
      else if !w.tok.Word? then Fail(Syntax)
      else if argc + 1 >= MAXARGS then Fail(TooManyArgs)
      else MoreArgs(t, w.next, AddArg(c, Span(w.q, w.eq)), argc + 1)
  }

  /** The rest of a round: redirections after an argument. */
  function MoreArgs(t: Text, i: nat, c: Cmd, argc: nat): (r: Parse)
    requires i <= |t|
    ensures Within(t, i, r)
    decreases |t| - i, 1
  {
    var r := Redirs(t, i, c);
    if r.Fail? then r else Args(t, r.next, r.cmd, argc)
  }

  /** parseline's loop over '&'. */
  function Amps(t: Text, i: nat, c: Cmd): (r: Parse)
    requires i <= |t|
    ensures Within(t, i, r) && r.Ok?
    decreases |t| - i
  {
    if Peek(t, i, "&") then Amps(t, Lex(t, i).next, Back(c)) else Ok(c, SkipWhite(t, i))
  }

  /** parseline */
  function Line(t: Text, i: nat): (r: Parse)
    requires i <= |t|
    ensures Within(t, i, r)
    decreases |t| - i, 3
  {
    var l := Pipes(t, i);
    if l.Fail? then l
    else
      var a := Amps(t, l.next, l.cmd);
      if !Peek(t, a.next, ";") then Ok(a.cmd, SkipWhite(t, a.next))
      else
        var r := Line(t, Lex(t, a.next).next);
        if r.Fail? then r else Ok(List(a.cmd, r.cmd), r.next)
  }

  /** parsepipe */
  function Pipes(t: Text, i: nat): (r: Parse)
    requires i <= |t|
    ensures Within(t, i, r)
    decreases |t| - i, 2
  {
    var l := Simple(t, i);
    if l.Fail? then l
    else if !Peek(t, l.next, "|") then Ok(l.cmd, SkipWhite(t, l.next))
    else
      var r := Pipes(t, Lex(t, l.next).next);
      if r.Fail? then r else Ok(Pipe(l.cmd, r.cmd), r.next)
  }

  /** parseexec */
  function Simple(t: Text, i: nat): (r: Parse)
    requires i <= |t|
    ensures Within(t, i, r)
    decreases |t| - i, 1
  {
    if Peek(t, i, "(") then Block(t, i)
    else
      var r := Redirs(t, i, Exec([]));
      if r.Fail? then r else Args(t, r.next, r.cmd, 0)
  }

  /** parseblock */
  function Block(t: Text, i: nat): (r: Parse)
    requires i <= |t|
    ensures Within(t, i, r)
    decreases |t| - i, 0
  {
    if !Peek(t, i, "(") then Fail(Syntax)
    else
      var r := Line(t, Lex(t, i).next);
      if r.Fail? then r
      else if !Peek(t, r.next, ")") then Fail(MissingParen)
      else Redirs(t, Lex(t, r.next).next, r.cmd)
  }

  /** parsecmd, before nulterminate. */
  function Command(t: Text): (r: Parse)
    ensures Within(t, 0, r)
  {
    var r := Line(t, 0);
    if r.Fail? then r
    else if SkipWhite(t, r.next) != |t| then Fail(Leftovers)
    else Ok(r.cmd, |t|)
  }
}
