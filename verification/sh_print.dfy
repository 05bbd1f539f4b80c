/** A printer for command trees, and how the shell's lexer reads its output. */
module ShPrint {
  import opened ShParse

  /** Commands by their words. */
  datatype Tree =
    | TExec(args: seq<string>)
    | TRedir(cmd: Tree, file: string, out: bool)
    | TPipe(left: Tree, right: Tree)
    | TList(left: Tree, right: Tree)
    | TBack(cmd: Tree)

  function WordAt(t: Text, a: Span): (w: string) { if a.q <= a.eq <= |t| then t[a.q..a.eq] else "" }

  /** The tree that a parsed command stands for. */
  function TreeOf(t: Text, c: Cmd): (r: Tree) {
    match c
    case Exec(argv) => TExec(seq(|argv|, i requires 0 <= i < |argv| => WordAt(t, argv[i])))
    case Redir(d, file, out) => TRedir(TreeOf(t, d), WordAt(t, file), out)
    case Pipe(l, r) => TPipe(TreeOf(t, l), TreeOf(t, r))
    case List(l, r) => TList(TreeOf(t, l), TreeOf(t, r))
    case Back(d) => TBack(TreeOf(t, d))
  }

  // ---- printing ----

  datatype Item = S(c: char) | W(w: string)

  predicate LegalWord(w: string) { |w| > 0 && forall i :: 0 <= i < |w| ==> WordChar(w[i]) }

  predicate LegalItem(x: Item) { if x.S? then Symbol(x.c) else LegalWord(x.w) }

  predicate LegalItems(ps: seq<Item>) { forall i :: 0 <= i < |ps| ==> LegalItem(ps[i]) }

  function Str(x: Item): (r: string) { if x.S? then [x.c] else x.w }

  /** The first k items, each followed by a space. */
  function Flat(ps: seq<Item>, k: nat): (r: string)
    requires k <= |ps|
  {
    if k == 0 then "" else Flat(ps, k - 1) + Str(ps[k - 1]) + " "
  }

  function Off(ps: seq<Item>, k: nat): (r: nat)
    requires k <= |ps|
  {
    |Flat(ps, k)|
  }

  lemma {:induction false} FlatPrefix(ps: seq<Item>, k: nat, n: nat)
    requires k <= n <= |ps|
    ensures Off(ps, k) <= Off(ps, n) && Flat(ps, n)[..Off(ps, k)] == Flat(ps, k)
  {
    if k < n { FlatPrefix(ps, k, n - 1); }
  }

  lemma {:induction false} FlatNoNul(ps: seq<Item>, k: nat)
    requires k <= |ps| && LegalItems(ps)
    ensures '\0' !in Flat(ps, k)
  {
    if k > 0 {
      FlatNoNul(ps, k - 1);
      assert LegalItem(ps[k - 1]);
    }
  }

  /** The text of a list of items. */
  function TextOf(ps: seq<Item>): (t: Text)
    requires LegalItems(ps)
  {
    FlatNoNul(ps, |ps|);
    Flat(ps, |ps|)
  }

  /** Item k stands at Off(k), then a space, then the next one. */
  ghost predicate StandsAt(ps: seq<Item>, t: Text, k: nat)
    requires k < |ps|
  {
    var o, w := Off(ps, k), Str(ps[k]);
    && Off(ps, k + 1) == o + |w| + 1 <= |t| && |w| > 0 && !White(w[0])
    && t[o..o + |w|] == w && t[o + |w|] == ' ' && (forall j :: 0 <= j < |w| ==> t[o + j] == w[j])
  }

  lemma ItemAt(ps: seq<Item>, k: nat)
    requires LegalItems(ps) && k < |ps|
    ensures StandsAt(ps, TextOf(ps), k)
  {
    var t, o, w := TextOf(ps), Off(ps, k), Str(ps[k]);
    assert LegalItem(ps[k]);
    FlatPrefix(ps, k + 1, |ps|);
    var u := Flat(ps, k + 1);
    assert u == Flat(ps, k) + w + " ";
    assert forall j :: 0 <= j < |w| ==> u[o + j] == w[j];
    assert forall j :: 0 <= j < |u| ==> t[j] == u[j];
  }

  /** Where the items end, and that every item starts with something visible. */
  lemma NotWhiteAt(ps: seq<Item>, k: nat)
    requires LegalItems(ps) && k <= |ps|
    ensures Off(ps, k) <= |TextOf(ps)| && (Off(ps, k) == |TextOf(ps)| <==> k == |ps|)
    ensures SkipWhite(TextOf(ps), Off(ps, k)) == Off(ps, k)
    ensures k < |ps| ==> TextOf(ps)[Off(ps, k)] == Str(ps[k])[0]
  {
    FlatPrefix(ps, k, |ps|);
    if k < |ps| { ItemAt(ps, k); }
  }

  function TokOf(x: Item): (r: Tok) { if x.S? then Sym(x.c) else Word }

  /** gettoken reads exactly item k. */
  lemma LexAt(ps: seq<Item>, k: nat)
    requires LegalItems(ps) && k < |ps|
    ensures Off(ps, k) <= |TextOf(ps)|
    ensures Lex(TextOf(ps), Off(ps, k)) == Lexed(TokOf(ps[k]), Off(ps, k), Off(ps, k) + |Str(ps[k])|, Off(ps, k + 1))
    ensures WordAt(TextOf(ps), Span(Off(ps, k), Off(ps, k) + |Str(ps[k])|)) == Str(ps[k])
  {
    var t, o, w := TextOf(ps), Off(ps, k), Str(ps[k]);
    ItemAt(ps, k);
    NotWhiteAt(ps, k);
    NotWhiteAt(ps, k + 1);
    assert SkipWhite(t, o + |w|) == Off(ps, k + 1);
    assert LegalItem(ps[k]);
    if ps[k].W? {
      assert WordChar(t[o]) by { assert WordChar(w[0]); }
      WordEndAt(t, o, w);
    }
  }

  lemma {:induction false} WordEndFrom(t: Text, i: nat, e: nat)
    requires i <= e < |t| && !WordChar(t[e]) && forall j :: i <= j < e ==> WordChar(t[j])
    ensures WordEnd(t, i) == e
    decreases e - i
  {
    if i < e { WordEndFrom(t, i + 1, e); }
  }

  lemma WordEndAt(t: Text, o: nat, w: string)
    requires o + |w| < |t| && t[o + |w|] == ' ' && LegalWord(w) && forall j :: 0 <= j < |w| ==> t[o + j] == w[j]
    ensures WordEnd(t, o) == o + |w|
  {
    forall j | o <= j < o + |w| ensures WordChar(t[j]) { assert t[o + (j - o)] == w[j - o]; }
    WordEndFrom(t, o, o + |w|);
  }

  // ---- a line as the lexer sees it ----

  /** Item k of ps is read at o[k]. */
  ghost predicate ReadsItem(t: Text, o: seq<nat>, ps: seq<Item>, k: nat)
    requires |o| == |ps| + 1 && k < |ps|
  {
    && o[k] < |t| && o[k + 1] <= |t| && SkipWhite(t, o[k]) == o[k] && |Str(ps[k])| > 0 && t[o[k]] == Str(ps[k])[0]
    && Lex(t, o[k]) == Lexed(TokOf(ps[k]), o[k], o[k] + |Str(ps[k])|, o[k + 1])
    && WordAt(t, Span(o[k], o[k] + |Str(ps[k])|)) == Str(ps[k])
    && (ps[k].W? ==> !Symbol(t[o[k]]))
  }

  /** Line t consists of the items ps, item k at o[k]. */
  ghost predicate Reads(t: Text, o: seq<nat>, ps: seq<Item>) {
    && |o| == |ps| + 1 && o[|ps|] == |t|
    && forall k: nat {:trigger ReadsItem(t, o, ps, k)} :: k < |ps| ==> ReadsItem(t, o, ps, k)
  }

  /** What is printed is read back item by item. */
  lemma PrintedReads(ps: seq<Item>) returns (o: seq<nat>)
    requires LegalItems(ps)
    ensures Reads(TextOf(ps), o, ps) && o[0] == 0
  {
    o := seq(|ps| + 1, k requires 0 <= k < |ps| + 1 => Off(ps, k));
    NotWhiteAt(ps, |ps|);
    forall k: nat | k < |ps| ensures ReadsItem(TextOf(ps), o, ps, k) {
      LexAt(ps, k);
      NotWhiteAt(ps, k);
      NotWhiteAt(ps, k + 1);
      assert LegalItem(ps[k]);
      if ps[k].W? { assert WordChar(ps[k].w[0]); }
    }
  }

  /** peek sees the next item's first character. */
  lemma PeekItem(t: Text, o: seq<nat>, ps: seq<Item>, k: nat, toks: string)
    requires Reads(t, o, ps) && k <= |ps| && forall i :: 0 <= i < |toks| ==> Symbol(toks[i])
    ensures o[k] <= |t| && SkipWhite(t, o[k]) == o[k]
    ensures Peek(t, o[k], toks) <==> k < |ps| && ps[k].S? && ps[k].c in toks
  {
    if k < |ps| { assert ReadsItem(t, o, ps, k); }
  }

  /** gettoken reads the next item. */
  lemma LexItem(t: Text, o: seq<nat>, ps: seq<Item>, k: nat)
    requires Reads(t, o, ps) && k < |ps|
    ensures o[k] <= |t| && o[k + 1] <= |t|
    ensures Lex(t, o[k]) == Lexed(TokOf(ps[k]), o[k], o[k] + |Str(ps[k])|, o[k + 1])
    ensures WordAt(t, Span(o[k], o[k] + |Str(ps[k])|)) == Str(ps[k])
  {
    assert ReadsItem(t, o, ps, k);
  }
}
