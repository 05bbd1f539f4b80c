/** Printing a command tree and parsing the result gives the tree back. */
module ShRoundTrip {
  import opened ShParse
  import opened ShPrint
  import ShNul

  // ---- the printer ----

  /** How loosely the tree's outermost operator binds: exec, pipe, background, list. */
  function Kind(tr: Tree): (k: nat) {
    match tr
    case TExec(_) => 0
    case TRedir(_, _, _) => 0
    case TPipe(_, _) => 1
    case TBack(_) => 2
    case TList(_, _) => 3
  }

  function Words(args: seq<string>): (r: seq<Item>)
    ensures |r| == |args| && forall i :: 0 <= i < |args| ==> r[i] == W(args[i])
  {
    seq(|args|, i requires 0 <= i < |args| => W(args[i]))
  }

  function Op(out: bool): (x: Item) { S(if out then '>' else '<') }

  /** The tree without parentheses around it. */
  function Body(tr: Tree): (r: seq<Item>)
    decreases tr, 0
  {
    match tr
    case TExec(args) => Words(args)
    case TRedir(d, file, out) => Items(d, 0) + [Op(out), W(file)]
    case TPipe(l, r) => Items(l, 0) + [S('|')] + Items(r, 1)
    case TBack(d) => Items(d, 2) + [S('&')]
    case TList(l, r) => Items(l, 2) + [S(';')] + Items(r, 3)
  }

  /** The tree where operators up to `level` may stand; parentheses where needed. */
  function Items(tr: Tree, level: nat): (r: seq<Item>)
    decreases tr, 1
  {
    if Kind(tr) <= level then Body(tr) else [S('(')] + Body(tr) + [S(')')]
  }

  /** Words are legal and there are fewer than MAXARGS of them to a command. */
  predicate Legal(tr: Tree) {
    match tr
    case TExec(args) => |args| < MAXARGS && forall i :: 0 <= i < |args| ==> LegalWord(args[i])
    case TRedir(d, file, _) => Legal(d) && LegalWord(file)
    case TPipe(l, r) => Legal(l) && Legal(r)
    case TBack(d) => Legal(d)
    case TList(l, r) => Legal(l) && Legal(r)
  }

  // ---- matching ----

  /** Items [k, e) of ps are qs. */
  ghost predicate Here(ps: seq<Item>, k: nat, e: nat, qs: seq<Item>) { k <= e <= |ps| && ps[k..e] == qs }

  lemma HereSplit(ps: seq<Item>, k: nat, e: nat, a: seq<Item>, b: seq<Item>) returns (m: nat)
    requires Here(ps, k, e, a + b)
    ensures m == k + |a| && Here(ps, k, m, a) && Here(ps, m, e, b)
  {
    m := k + |a|;
    assert ps[k..m] == ps[k..e][..|a|] && ps[m..e] == ps[k..e][|a|..];
  }

  /** Items around a symbol. */
  lemma HereAround(ps: seq<Item>, k: nat, e: nat, a: seq<Item>, c: char, b: seq<Item>) returns (m: nat)
    requires Here(ps, k, e, a + [S(c)] + b)
    ensures m == k + |a| && m < |ps| && ps[m] == S(c) && Here(ps, k, m, a) && Here(ps, m + 1, e, b)
  {
    var n := HereSplit(ps, k, e, a + [S(c)], b);
    m := HereSplit(ps, k, n, a, [S(c)]);
    assert ps[m] == ps[m..n][0];
  }

  /** Items in parentheses. */
  lemma HereInside(ps: seq<Item>, k: nat, e: nat, b: seq<Item>) returns (a: nat)
    requires Here(ps, k, e, [S('(')] + b + [S(')')])
    ensures a + 1 == e && k < a && ps[k] == S('(') && ps[a] == S(')') && Here(ps, k + 1, a, b)
  {
    a := HereSplit(ps, k, e, [S('(')] + b, [S(')')]);
    var i := HereSplit(ps, k, a, [S('(')], b);
    assert ps[k] == ps[k..i][0] && ps[a] == ps[a..e][0];
  }

  /** The item at k is the end or one of the given symbols. */
  predicate Follow(ps: seq<Item>, k: nat, toks: string) { k == |ps| || (k < |ps| && ps[k].S? && ps[k].c in toks) }

  /** The parse has read up to item e and found the given tree. */
  ghost predicate Gives(t: Text, o: seq<nat>, r: Parse, e: nat, tr: Tree) {
    e < |o| && r.Ok? && r.next == o[e] && TreeOf(t, r.cmd) == tr
  }

  // ---- redirections ----

  datatype Redirection = Redirection(file: string, out: bool)

  function RedirItems(rs: seq<Redirection>): (r: seq<Item>) {
    if rs == [] then [] else [Op(rs[0].out), W(rs[0].file)] + RedirItems(rs[1..])
  }

  function WrapAll(tr: Tree, rs: seq<Redirection>): (r: Tree)
    decreases |rs|
  {
    if rs == [] then tr else WrapAll(TRedir(tr, rs[0].file, rs[0].out), rs[1..])
  }

  /** Where no redirection follows, parseredirs adds none. */
  lemma NoRedirs(t: Text, o: seq<nat>, ps: seq<Item>, k: nat, c: Cmd)
    requires Reads(t, o, ps) && k <= |ps| && (k < |ps| ==> ps[k].W? || (ps[k].c != '<' && ps[k].c != '>'))
    ensures o[k] <= |t| && Redirs(t, o[k], c) == Ok(c, o[k])
  {
    PeekItem(t, o, ps, k, "<>");
  }

  /** One redirection read. */
  lemma RedirRead(t: Text, o: seq<nat>, ps: seq<Item>, k: nat, r: Redirection, c: Cmd) returns (d: Cmd)
    requires Reads(t, o, ps) && k + 1 < |ps| && ps[k] == Op(r.out) && ps[k + 1] == W(r.file)
    ensures o[k] <= |t| && o[k + 2] <= |t| && Redirs(t, o[k], c) == Redirs(t, o[k + 2], d)
    ensures TreeOf(t, d) == TRedir(TreeOf(t, c), r.file, r.out)
  {
    PeekItem(t, o, ps, k, "<>");
    LexItem(t, o, ps, k);
    LexItem(t, o, ps, k + 1);
    var op, file := Lex(t, o[k]), Lex(t, o[k + 1]);
    d := Redir(c, Span(file.q, file.eq), op.tok != Sym('<'));
    assert Peek(t, o[k], "<>") && op.next == o[k + 1] && file.tok.Word? && file.next == o[k + 2];
    RedirStep(t, o[k], c);
  }

  /** parseredirs, unrolled once. */
  lemma RedirStep(t: Text, i: nat, c: Cmd)
    requires i <= |t| && Peek(t, i, "<>") && Lex(t, Lex(t, i).next).tok.Word?
    ensures var op := Lex(t, i); var file := Lex(t, op.next);
      Redirs(t, i, c) == Redirs(t, file.next, Redir(c, Span(file.q, file.eq), op.tok != Sym('<')))
  {
  }

  lemma {:induction false} RedirsParse(t: Text, o: seq<nat>, ps: seq<Item>, k: nat, e: nat, rs: seq<Redirection>, c: Cmd)
    requires Reads(t, o, ps) && Here(ps, k, e, RedirItems(rs)) && Follow(ps, e, "|)&;")
    ensures o[k] <= |t| && Gives(t, o, Redirs(t, o[k], c), e, WrapAll(TreeOf(t, c), rs))
    decreases |rs|
  {
    if rs == [] {
      NoRedirs(t, o, ps, k, c);
    } else {
      var m := HereSplit(ps, k, e, [Op(rs[0].out), W(rs[0].file)], RedirItems(rs[1..]));
      assert ps[k] == ps[k..m][0] && ps[k + 1] == ps[k..m][1];
      var d := RedirRead(t, o, ps, k, rs[0], c);
      RedirsParse(t, o, ps, m, e, rs[1..], d);
    }
  }

  // ---- arguments ----

  lemma ArgsStop(t: Text, o: seq<nat>, ps: seq<Item>, k: nat, c: Cmd, argc: nat)
    requires Reads(t, o, ps) && Follow(ps, k, "|)&;")
    ensures o[k] <= |t| && Args(t, o[k], c, argc) == Ok(c, o[k])
  {
    PeekItem(t, o, ps, k, "|)&;");
  }

  /** One argument read; what follows it is left to MoreArgs. */
  lemma ArgRead(t: Text, o: seq<nat>, ps: seq<Item>, k: nat, argv: seq<Span>) returns (more: seq<Span>)
    requires Reads(t, o, ps) && k < |ps| && ps[k].W? && |argv| + 1 < MAXARGS
    ensures o[k] <= |t| && o[k + 1] <= |t| && |more| == |argv| + 1
    ensures Args(t, o[k], Exec(argv), |argv|) == MoreArgs(t, o[k + 1], Exec(more), |more|)
    ensures TreeOf(t, Exec(more)) == TExec(TreeOf(t, Exec(argv)).args + [ps[k].w])
  {
    PeekItem(t, o, ps, k, "|)&;");
    LexItem(t, o, ps, k);
    var a := Span(o[k], o[k] + |ps[k].w|);
    more := argv + [a];
    assert AddArg(Exec(argv), a) == Exec(more);
    assert TreeOf(t, Exec(more)).args == TreeOf(t, Exec(argv)).args + [ps[k].w];
  }

  /** The last argument, then the redirections. */
  lemma LastArg(t: Text, o: seq<nat>, ps: seq<Item>, k: nat, e: nat, rs: seq<Redirection>, argv: seq<Span>)
    requires Reads(t, o, ps) && k < |ps| && ps[k].W? && Here(ps, k + 1, e, RedirItems(rs)) && |argv| + 1 < MAXARGS
    requires Follow(ps, e, "|)&;")
    ensures o[k] <= |t|
    ensures Gives(t, o, Args(t, o[k], Exec(argv), |argv|), e, WrapAll(TExec(TreeOf(t, Exec(argv)).args + [ps[k].w]), rs))
  {
    var more := ArgRead(t, o, ps, k, argv);
    RedirsParse(t, o, ps, k + 1, e, rs, Exec(more));
    ArgsStop(t, o, ps, e, Redirs(t, o[k + 1], Exec(more)).cmd, |more|);
  }

  /** An argument with another behind it. */
  lemma NextArg(t: Text, o: seq<nat>, ps: seq<Item>, k: nat, argv: seq<Span>) returns (more: seq<Span>)
    requires Reads(t, o, ps) && k + 1 < |ps| && ps[k].W? && ps[k + 1].W? && |argv| + 1 < MAXARGS
    ensures o[k] <= |t| && o[k + 1] <= |t| && |more| == |argv| + 1
    ensures Args(t, o[k], Exec(argv), |argv|) == Args(t, o[k + 1], Exec(more), |more|)
    ensures TreeOf(t, Exec(more)) == TExec(TreeOf(t, Exec(argv)).args + [ps[k].w])
  {
    more := ArgRead(t, o, ps, k, argv);
    NoRedirs(t, o, ps, k + 1, Exec(more));
  }

  /** All the arguments and then the redirections. */
  lemma {:induction false} ArgsParse(t: Text, o: seq<nat>, ps: seq<Item>, k: nat, m: nat, e: nat, args: seq<string>,
                                     rs: seq<Redirection>, argv: seq<Span>)
    requires Reads(t, o, ps) && args != [] && Here(ps, k, m, Words(args)) && Here(ps, m, e, RedirItems(rs))
    requires Follow(ps, e, "|)&;") && |argv| + |args| < MAXARGS
    ensures o[k] <= |t|
    ensures Gives(t, o, Args(t, o[k], Exec(argv), |argv|), e, WrapAll(TExec(TreeOf(t, Exec(argv)).args + args), rs))
    decreases |args|
  {
    assert ps[k] == ps[k..m][0];
    if |args| == 1 {
      assert args == [args[0]];
      LastArg(t, o, ps, k, e, rs, argv);
    } else {
      assert ps[k + 1] == ps[k..m][1];
      var more := NextArg(t, o, ps, k, argv);
      assert ps[k + 1..m] == ps[k..m][1..] == Words(args[1..]);
      ArgsParse(t, o, ps, k + 1, m, e, args[1..], rs, more);
      var before := TreeOf(t, Exec(argv)).args;
      assert before + [args[0]] + args[1..] == before + args;
    }
  }

  // ---- chains of redirections ----

  function Base(tr: Tree): (r: Tree)
    ensures !r.TRedir?
  {
    if tr.TRedir? then Base(tr.cmd) else tr
  }

  function Chain(tr: Tree): (rs: seq<Redirection>) {
    if tr.TRedir? then Chain(tr.cmd) + [Redirection(tr.file, tr.out)] else []
  }

  lemma {:induction false} WrapLast(tr: Tree, rs: seq<Redirection>, r: Redirection)
    ensures WrapAll(tr, rs + [r]) == TRedir(WrapAll(tr, rs), r.file, r.out)
    decreases |rs|
  {
    var all := rs + [r];
    if rs == [] {
      assert all[1..] == [];
    } else {
      assert all[1..] == rs[1..] + [r];
      WrapLast(TRedir(tr, rs[0].file, rs[0].out), rs[1..], r);
    }
  }

  lemma {:induction false} RedirItemsLast(rs: seq<Redirection>, r: Redirection)
    ensures RedirItems(rs + [r]) == RedirItems(rs) + [Op(r.out), W(r.file)]
    decreases |rs|
  {
    var all := rs + [r];
    if rs == [] {
      assert all[1..] == [];
    } else {
      assert all[1..] == rs[1..] + [r];
      RedirItemsLast(rs[1..], r);
    }
  }

  /** A tree is its base with its redirections around it, and is printed that way. */
  lemma {:induction false} ChainWraps(tr: Tree)
    ensures WrapAll(Base(tr), Chain(tr)) == tr
    ensures Items(tr, 0) == Items(Base(tr), 0) + RedirItems(Chain(tr))
    ensures Legal(tr) ==> Legal(Base(tr))
  {
    match tr
    case TRedir(d, file, out) =>
      ChainWraps(d);
      WrapLast(Base(d), Chain(d), Redirection(file, out));
      RedirItemsLast(Chain(d), Redirection(file, out));
    case _ =>
  }

  // ---- background ----

  function Backs(tr: Tree, n: nat): (r: Tree)
    decreases n
  {
    if n == 0 then tr else Backs(TBack(tr), n - 1)
  }

  ghost predicate AllAmps(ps: seq<Item>, m: nat, e: nat) {
    m <= e <= |ps| && forall i :: m <= i < e ==> ps[i] == S('&')
  }

  lemma {:induction false} AmpsParse(t: Text, o: seq<nat>, ps: seq<Item>, m: nat, e: nat, c: Cmd)
    requires Reads(t, o, ps) && AllAmps(ps, m, e) && Follow(ps, e, ");")
    ensures o[m] <= |t| && Gives(t, o, Amps(t, o[m], c), e, Backs(TreeOf(t, c), e - m))
    decreases e - m
  {
    if m == e {
      NoAmp(t, o, ps, e, c);
    } else {
      OneAmp(t, o, ps, m, c);
      AmpsParse(t, o, ps, m + 1, e, Back(c));
    }
  }

  // ---- the parse functions, one item further ----

  lemma NoAmp(t: Text, o: seq<nat>, ps: seq<Item>, e: nat, c: Cmd)
    requires Reads(t, o, ps) && Follow(ps, e, ");")
    ensures o[e] <= |t| && Amps(t, o[e], c) == Ok(c, o[e])
  {
    PeekItem(t, o, ps, e, "&");
  }

  lemma OneAmp(t: Text, o: seq<nat>, ps: seq<Item>, m: nat, c: Cmd)
    requires Reads(t, o, ps) && m < |ps| && ps[m] == S('&')
    ensures o[m] <= |t| && o[m + 1] <= |t| && Amps(t, o[m], c) == Amps(t, o[m + 1], Back(c))
  {
    PeekItem(t, o, ps, m, "&");
    LexItem(t, o, ps, m);
  }

  /** parseline where nothing more follows. */
  lemma LineEnds(t: Text, o: seq<nat>, ps: seq<Item>, i: nat, e: nat, p: Parse, a: Parse)
    requires Reads(t, o, ps) && i <= |t| && Follow(ps, e, ")") && p.Ok? && a.Ok? && p == Pipes(t, i)
    requires a == Amps(t, p.next, p.cmd) && a.next == o[e]
    ensures Line(t, i) == a
  {
    PeekItem(t, o, ps, e, ";");
  }

  lemma ListGoesOn(t: Text, o: seq<nat>, ps: seq<Item>, i: nat, m: nat, p: Parse, a: Parse, r: Parse)
    requires Reads(t, o, ps) && i <= |t| && m < |ps| && ps[m] == S(';') && p.Ok? && a.Ok? && r.Ok? && p == Pipes(t, i)
    requires a == Amps(t, p.next, p.cmd) && a.next == o[m] && o[m + 1] <= |t| && r == Line(t, o[m + 1])
    ensures Line(t, i) == Ok(List(a.cmd, r.cmd), r.next)
  {
    PeekItem(t, o, ps, m, ";");
    LexItem(t, o, ps, m);
  }

  lemma ListGives(t: Text, o: seq<nat>, ps: seq<Item>, i: nat, m: nat, e: nat, p: Parse, a: Parse, r: Parse, left: Tree, right: Tree)
    requires Reads(t, o, ps) && i <= |t| && m < |ps| && ps[m] == S(';') && p.Ok? && p == Pipes(t, i) && a == Amps(t, p.next, p.cmd)
    requires Gives(t, o, a, m, left) && o[m + 1] <= |t| && r == Line(t, o[m + 1]) && Gives(t, o, r, e, right)
    ensures Gives(t, o, Line(t, i), e, TList(left, right))
  {
    ListGoesOn(t, o, ps, i, m, p, a, r);
  }

  lemma PipeEnds(t: Text, o: seq<nat>, ps: seq<Item>, i: nat, e: nat, l: Parse)
    requires Reads(t, o, ps) && i <= |t| && Follow(ps, e, ")&;") && l.Ok? && l == Simple(t, i) && l.next == o[e]
    ensures Pipes(t, i) == l
  {
    PeekItem(t, o, ps, e, "|");
  }

  lemma PipeGoesOn(t: Text, o: seq<nat>, ps: seq<Item>, i: nat, m: nat, l: Parse, r: Parse)
    requires Reads(t, o, ps) && i <= |t| && m < |ps| && ps[m] == S('|') && l.Ok? && r.Ok? && l == Simple(t, i)
    requires l.next == o[m] && o[m + 1] <= |t| && r == Pipes(t, o[m + 1])
    ensures Pipes(t, i) == Ok(Pipe(l.cmd, r.cmd), r.next)
  {
    PeekItem(t, o, ps, m, "|");
    LexItem(t, o, ps, m);
  }

  lemma PipeGives(t: Text, o: seq<nat>, ps: seq<Item>, i: nat, m: nat, e: nat, l: Parse, r: Parse, left: Tree, right: Tree)
    requires Reads(t, o, ps) && i <= |t| && m < |ps| && ps[m] == S('|') && l == Simple(t, i) && Gives(t, o, l, m, left)
    requires o[m + 1] <= |t| && r == Pipes(t, o[m + 1]) && Gives(t, o, r, e, right)
    ensures Gives(t, o, Pipes(t, i), e, TPipe(left, right))
  {
    PipeGoesOn(t, o, ps, i, m, l, r);
  }

  lemma BlockCloses(t: Text, o: seq<nat>, ps: seq<Item>, k: nat, a: nat, r: Parse)
    requires Reads(t, o, ps) && k < |ps| && ps[k] == S('(') && a < |ps| && ps[a] == S(')')
    requires o[k + 1] <= |t| && r.Ok? && r == Line(t, o[k + 1]) && r.next == o[a]
    ensures o[k] <= |t| && o[a + 1] <= |t| && Simple(t, o[k]) == Redirs(t, o[a + 1], r.cmd)
  {
    PeekItem(t, o, ps, k, "(");
    LexItem(t, o, ps, k);
    PeekItem(t, o, ps, a, ")");
    LexItem(t, o, ps, a);
  }

  lemma BlockGives(t: Text, o: seq<nat>, ps: seq<Item>, k: nat, a: nat, e: nat, r: Parse, b: Tree, rs: seq<Redirection>)
    requires Reads(t, o, ps) && k < |ps| && ps[k] == S('(') && a < |ps| && ps[a] == S(')')
    requires o[k + 1] <= |t| && r == Line(t, o[k + 1]) && Gives(t, o, r, a, b)
    requires Here(ps, a + 1, e, RedirItems(rs)) && Follow(ps, e, "|)&;")
    ensures o[k] <= |t| && Gives(t, o, Simple(t, o[k]), e, WrapAll(b, rs))
  {
    BlockCloses(t, o, ps, k, a, r);
    RedirsParse(t, o, ps, a + 1, e, rs, r.cmd);
  }

  // ---- the parser reads what the printer wrote ----

  lemma {:induction false} LineParse(t: Text, o: seq<nat>, ps: seq<Item>, k: nat, e: nat, tr: Tree)
    requires Reads(t, o, ps) && Legal(tr) && Here(ps, k, e, Body(tr)) && Follow(ps, e, ")")
    ensures o[k] <= |t| && Gives(t, o, Line(t, o[k]), e, tr)
    decreases |Body(tr)|, 4
  {
    if tr.TList? {
      ListParse(t, o, ps, k, e, tr);
    } else {
      BackParse(t, o, ps, k, e, e, tr);
      var p := Pipes(t, o[k]);
      LineEnds(t, o, ps, o[k], e, p, Amps(t, p.next, p.cmd));
    }
  }

  lemma {:induction false} ListParse(t: Text, o: seq<nat>, ps: seq<Item>, k: nat, e: nat, tr: Tree)
    requires Reads(t, o, ps) && Legal(tr) && tr.TList? && Here(ps, k, e, Body(tr)) && Follow(ps, e, ")")
    ensures o[k] <= |t| && Gives(t, o, Line(t, o[k]), e, tr)
    decreases |Body(tr)|, 3
  {
    var m := ListAround(ps, k, e, tr);
    BackParse(t, o, ps, k, m, m, tr.left);
    LineParse(t, o, ps, m + 1, e, tr.right);
    var p := Pipes(t, o[k]);
    ListGives(t, o, ps, o[k], m, e, p, Amps(t, p.next, p.cmd), Line(t, o[m + 1]), tr.left, tr.right);
  }

  lemma ListAround(ps: seq<Item>, k: nat, e: nat, tr: Tree) returns (m: nat)
    requires tr.TList? && Here(ps, k, e, Body(tr))
    ensures m < |ps| && ps[m] == S(';') && Here(ps, k, m, Items(tr.left, 2)) && Here(ps, m + 1, e, Body(tr.right))
    ensures |Items(tr.left, 2)| < |Body(tr)| && |Body(tr.right)| < |Body(tr)|
  {
    var l, r := Items(tr.left, 2), Items(tr.right, 3);
    assert Body(tr) == l + [S(';')] + r;
    m := HereAround(ps, k, e, l, ';', r);
  }

  lemma PipeAround(ps: seq<Item>, k: nat, e: nat, tr: Tree) returns (m: nat)
    requires tr.TPipe? && Here(ps, k, e, Items(tr, 1))
    ensures m < |ps| && ps[m] == S('|') && Here(ps, k, m, Items(tr.left, 0)) && Here(ps, m + 1, e, Items(tr.right, 1))
    ensures |Items(tr.left, 0)| < |Items(tr, 1)| && |Items(tr.right, 1)| < |Items(tr, 1)|
  {
    var l, r := Items(tr.left, 0), Items(tr.right, 1);
    assert Items(tr, 1) == l + [S('|')] + r;
    m := HereAround(ps, k, e, l, '|', r);
  }

  /** parsepipe and then parseline's loop: a tree with e - m more & behind it. */
  lemma {:induction false} BackParse(t: Text, o: seq<nat>, ps: seq<Item>, k: nat, m: nat, e: nat, tr: Tree)
    requires Reads(t, o, ps) && Legal(tr) && Here(ps, k, m, Items(tr, 2)) && AllAmps(ps, m, e) && Follow(ps, e, ");")
    ensures o[k] <= |t| && Pipes(t, o[k]).Ok?
    ensures var p := Pipes(t, o[k]); Gives(t, o, Amps(t, p.next, p.cmd), e, Backs(tr, e - m))
    decreases |Items(tr, 2)|, 3
  {
    if tr.TBack? {
      assert Items(tr, 2) == Items(tr.cmd, 2) + [S('&')];
      var b := HereSplit(ps, k, m, Items(tr.cmd, 2), [S('&')]);
      assert ps[b] == ps[b..m][0];
      BackParse(t, o, ps, k, b, e, tr.cmd);
    } else {
      PipeParse(t, o, ps, k, m, tr);
      AmpsParse(t, o, ps, m, e, Pipes(t, o[k]).cmd);
    }
  }

  lemma {:induction false} PipeParse(t: Text, o: seq<nat>, ps: seq<Item>, k: nat, e: nat, tr: Tree)
    requires Reads(t, o, ps) && Legal(tr) && Here(ps, k, e, Items(tr, 1)) && Follow(ps, e, ")&;")
    ensures o[k] <= |t| && Gives(t, o, Pipes(t, o[k]), e, tr)
    decreases |Items(tr, 1)|, 2
  {
    if tr.TPipe? {
      var m := PipeAround(ps, k, e, tr);
      SimpleParse(t, o, ps, k, m, tr.left);
      PipeParse(t, o, ps, m + 1, e, tr.right);
      PipeGives(t, o, ps, o[k], m, e, Simple(t, o[k]), Pipes(t, o[m + 1]), tr.left, tr.right);
    } else {
      SimpleParse(t, o, ps, k, e, tr);
      PipeEnds(t, o, ps, o[k], e, Simple(t, o[k]));
    }
  }

  lemma {:induction false} SimpleParse(t: Text, o: seq<nat>, ps: seq<Item>, k: nat, e: nat, tr: Tree)
    requires Reads(t, o, ps) && Legal(tr) && Here(ps, k, e, Items(tr, 0)) && Follow(ps, e, "|)&;")
    ensures o[k] <= |t| && Gives(t, o, Simple(t, o[k]), e, tr)
    decreases |Items(tr, 0)|, 1
  {
    ChainWraps(tr);
    var b, rs := Base(tr), Chain(tr);
    var m := HereSplit(ps, k, e, Items(b, 0), RedirItems(rs));
    if b.TExec? {
      ExecParse(t, o, ps, k, m, e, b.args, rs);
    } else {
      BlockParse(t, o, ps, k, m, e, b, rs);
    }
  }

  lemma ExecParse(t: Text, o: seq<nat>, ps: seq<Item>, k: nat, m: nat, e: nat, args: seq<string>, rs: seq<Redirection>)
    requires Reads(t, o, ps) && Legal(TExec(args)) && Here(ps, k, m, Words(args)) && Here(ps, m, e, RedirItems(rs))
    requires Follow(ps, e, "|)&;")
    ensures o[k] <= |t| && Gives(t, o, Simple(t, o[k]), e, WrapAll(TExec(args), rs))
  {
    assert TreeOf(t, Exec([])).args == [] && [] + args == args;
    PeekItem(t, o, ps, k, "(");
    if args == [] {
      assert k == m;
      if rs != [] { assert ps[m] == ps[m..e][0]; }
      RedirsParse(t, o, ps, k, e, rs, Exec([]));
      ArgsStop(t, o, ps, e, Redirs(t, o[k], Exec([])).cmd, 0);
    } else {
      assert ps[k] == ps[k..m][0];
      NoRedirs(t, o, ps, k, Exec([]));
      ArgsParse(t, o, ps, k, m, e, args, rs, []);
    }
  }

  lemma {:induction false} BlockParse(t: Text, o: seq<nat>, ps: seq<Item>, k: nat, m: nat, e: nat, b: Tree, rs: seq<Redirection>)
    requires Reads(t, o, ps) && Legal(b) && Kind(b) > 0 && Here(ps, k, m, Items(b, 0)) && Here(ps, m, e, RedirItems(rs))
    requires Follow(ps, e, "|)&;")
    ensures o[k] <= |t| && Gives(t, o, Simple(t, o[k]), e, WrapAll(b, rs))
    decreases |Items(b, 0)|, 0
  {
    var a := HereInside(ps, k, m, Body(b));
    LineParse(t, o, ps, k + 1, a, b);
    var r := Line(t, o[k + 1]);
    BlockGives(t, o, ps, k, a, e, r, b, rs);
  }

  // ---- the round trip ----

  lemma {:induction false} ItemsLegal(tr: Tree, level: nat)
    requires Legal(tr)
    ensures LegalItems(Items(tr, level)) && LegalItems(Body(tr))
  {
    match tr
    case TExec(_) =>
    case TRedir(d, _, _) => ItemsLegal(d, 0);
    case TPipe(l, r) => ItemsLegal(l, 0); ItemsLegal(r, 1);
    case TBack(d) => ItemsLegal(d, 2);
    case TList(l, r) => ItemsLegal(l, 2); ItemsLegal(r, 3);
  }

  /** The printed form of a tree: parentheses where needed, every token followed by a space. */
  function Print(tr: Tree): (t: Text)
    requires Legal(tr)
  {
    ItemsLegal(tr, 3);
    TextOf(Items(tr, 3))
  }

  /** Parsing the printed form of any legal tree gives that tree. */
  lemma RoundTrip(tr: Tree)
    requires Legal(tr)
    ensures var t := Print(tr); Command(t).Ok? && TreeOf(t, Command(t).cmd) == tr
  {
    ItemsLegal(tr, 3);
    var ps := Items(tr, 3);
    var t := TextOf(ps);
    var o := PrintedReads(ps);
    assert ps[0..|ps|] == ps;
    LineParse(t, o, ps, 0, |ps|, tr);
  }

  // ---- every accepted line ----

  lemma {:induction false} ParsedLegal(t: Text, c: Cmd)
    requires ShNul.Words(t, c)
    ensures Legal(TreeOf(t, c))
  {
    match c
    case Exec(argv) =>
      forall i | 0 <= i < |argv| ensures LegalWord(WordAt(t, argv[i])) {
        assert argv[i] in ShNul.Spans(c);
        WordLegal(t, argv[i]);
      }
    case Redir(d, file, _) =>
      assert file in ShNul.Spans(c);
      WordLegal(t, file);
      ParsedLegal(t, d);
    case Pipe(l, r) => ParsedLegal(t, l); ParsedLegal(t, r);
    case List(l, r) => ParsedLegal(t, l); ParsedLegal(t, r);
    case Back(d) => ParsedLegal(t, d);
  }

  lemma WordLegal(t: Text, a: Span)
    requires WordSpan(t, a.q, a.eq)
    ensures LegalWord(WordAt(t, a))
  {
    var w := WordAt(t, a);
    forall i | 0 <= i < |w| ensures WordChar(w[i]) { assert w[i] == t[a.q + i]; }
  }

  /** Whatever line the shell accepts, printing its tree and parsing that gives the same tree. */
  lemma ReparseSame(t: Text)
    requires Command(t).Ok?
    ensures var tr := TreeOf(t, Command(t).cmd);
      Legal(tr) && Command(Print(tr)).Ok? && TreeOf(Print(tr), Command(Print(tr)).cmd) == tr
  {
    ShNul.LineWords(t, 0);
    ParsedLegal(t, Command(t).cmd);
    RoundTrip(TreeOf(t, Command(t).cmd));
  }
}
