/** The regular expression matcher of grep.c. */
module Grep {

  /** A C string: no NUL before its end. */
  type CStr = t: string | '\0' !in t witness ""

  function At(s: CStr, i: nat): (c: char) { if i < |s| then s[i] else '\0' }

  // ---- the language of a pattern ----

  /** An element of a pattern: one character, any number of one character, or a final $. */
  datatype Elem = One(c: char) | Star(c: char) | AtEnd

  /** The elements of re from position p on: a character before * is starred whatever it is, * is itself
      when no character is before it, $ is special only as the last character. */
  function Elems(re: CStr, p: nat): (es: seq<Elem>)
    requires p <= |re|
    decreases |re| - p
  {
    if p == |re| then []
    else if p + 1 < |re| && re[p + 1] == '*' then [Star(re[p])] + Elems(re, p + 2)
    else if re[p] == '$' && p + 1 == |re| then [AtEnd]
    else [One(re[p])] + Elems(re, p + 1)
  }

  predicate Fits(c: char, x: char) { c == '.' || c == x }

  /** Element e describes text[i..j]. */
  predicate Describes(e: Elem, text: CStr, i: nat, j: nat)
    requires i <= j <= |text|
  {
    match e
    case One(c) => j == i + 1 && Fits(c, text[i])
    case Star(c) => forall k :: i <= k < j ==> Fits(c, text[k])
    case AtEnd => i == j == |text|
  }

  /** The elements describe consecutive parts of the text, cut at these positions. */
  predicate Cuts(es: seq<Elem>, text: CStr, cuts: seq<nat>) {
    && |cuts| == |es| + 1
    && (forall k :: 0 <= k < |cuts| ==> cuts[k] <= |text|)
    && (forall k :: 0 <= k < |es| ==> cuts[k] <= cuts[k + 1] && Describes(es[k], text, cuts[k], cuts[k + 1]))
  }

  /** Some prefix of the text from i on is in the language of the elements. */
  ghost predicate MatchesFrom(es: seq<Elem>, text: CStr, i: nat) {
    exists cuts: seq<nat> :: Cuts(es, text, cuts) && cuts[0] == i
  }

  /** What match promises: the pattern occurs somewhere, or at the start after ^. */
  ghost predicate Occurs(re: CStr, text: CStr) {
    if |re| > 0 && re[0] == '^' then MatchesFrom(Elems(re, 1), text, 0)
    else exists i: nat :: i <= |text| && MatchesFrom(Elems(re, 0), text, i)
  }

  // ---- one element at a time ----

  lemma NoElems(text: CStr, i: nat)
    requires i <= |text|
    ensures MatchesFrom([], text, i)
  {
    assert Cuts([], text, [i]);
  }

  /** A match of e and the rest is a part for e and a match of the rest behind it. */
  lemma ConsIff(e: Elem, es: seq<Elem>, text: CStr, i: nat)
    ensures MatchesFrom([e] + es, text, i) <==>
      exists j: nat :: i <= j <= |text| && Describes(e, text, i, j) && MatchesFrom(es, text, j)
  {
    var all := [e] + es;
    if MatchesFrom(all, text, i) {
      var cuts :| Cuts(all, text, cuts) && cuts[0] == i;
      var rest := cuts[1..];
      assert Describes(all[0], text, cuts[0], cuts[1]);
      forall k | 0 <= k < |es| ensures rest[k] <= rest[k + 1] && Describes(es[k], text, rest[k], rest[k + 1]) {
        assert Describes(all[k + 1], text, cuts[k + 1], cuts[k + 2]);
      }
      assert Cuts(es, text, rest) && rest[0] == cuts[1];
      assert MatchesFrom(es, text, cuts[1]);
    }
    if j: nat :| i <= j <= |text| && Describes(e, text, i, j) && MatchesFrom(es, text, j) {
      var rest :| Cuts(es, text, rest) && rest[0] == j;
      var cuts := [i] + rest;
      forall k | 0 <= k < |all| ensures cuts[k] <= cuts[k + 1] && Describes(all[k], text, cuts[k], cuts[k + 1]) {
        if k > 0 { assert Describes(es[k - 1], text, rest[k - 1], rest[k]); }
      }
      assert Cuts(all, text, cuts);
    }
  }

  /** matchhere's question. */
  ghost predicate Here(re: CStr, p: nat, text: CStr, i: nat)
    requires p <= |re| && i <= |text|
  {
    MatchesFrom(Elems(re, p), text, i)
  }

  lemma HereEmpty(re: CStr, p: nat, text: CStr, i: nat)
    requires p == |re| && i <= |text|
    ensures Here(re, p, text, i)
  {
    NoElems(text, i);
  }

  lemma HereStar(re: CStr, p: nat, text: CStr, i: nat)
    requires p + 1 < |re| && re[p + 1] == '*' && i <= |text|
    ensures Here(re, p, text, i) <==>
      exists j: nat :: i <= j <= |text| && Describes(Star(re[p]), text, i, j) && Here(re, p + 2, text, j)
  {
    ConsIff(Star(re[p]), Elems(re, p + 2), text, i);
  }

  lemma HereEnd(re: CStr, p: nat, text: CStr, i: nat)
    requires p + 1 == |re| && re[p] == '$' && i <= |text|
    ensures Here(re, p, text, i) <==> i == |text|
  {
    ConsIff(AtEnd, [], text, i);
    assert [AtEnd] + [] == Elems(re, p);
    if i == |text| {
      NoElems(text, i);
      assert Describes(AtEnd, text, i, i);
    }
  }

  lemma HereOne(re: CStr, p: nat, text: CStr, i: nat)
    requires p < |re| && !(p + 1 < |re| && re[p + 1] == '*') && !(re[p] == '$' && p + 1 == |re|) && i <= |text|
    ensures Here(re, p, text, i) <==> i < |text| && Fits(re[p], text[i]) && Here(re, p + 1, text, i + 1)
  {
    ConsIff(One(re[p]), Elems(re, p + 1), text, i);
    if i < |text| && Fits(re[p], text[i]) { assert Describes(One(re[p]), text, i, i + 1); }
  }

  // ---- the code ----

  /** match */
  method Match(re: CStr, text: CStr) returns (r: bool)
    ensures r <==> Occurs(re, text)
  {
    if At(re, 0) == '^' {
      r := Matchhere(re, 1, text, 0);
      return;
    }
    var i := 0;
    while true
      invariant 0 <= i <= |text| && forall j: nat :: j < i ==> !Here(re, 0, text, j)
      decreases |text| - i
    {
      r := Matchhere(re, 0, text, i);
      if r {
        assert MatchesFrom(Elems(re, 0), text, i);
        return;
      }
      if At(text, i) == '\0' {
        forall j: nat | j <= |text| ensures !MatchesFrom(Elems(re, 0), text, j) { assert !Here(re, 0, text, j); }
        return false;
      }
      i := i + 1;
    }
  }

  /** matchhere */
  method Matchhere(re: CStr, p: nat, text: CStr, i: nat) returns (r: bool)
    requires p <= |re| && i <= |text|
    ensures r <==> Here(re, p, text, i)
    decreases |re| - p, 0
  {
    if At(re, p) == '\0' {
      HereEmpty(re, p, text, i);
      return true;
    }
    if At(re, p + 1) == '*' {
      HereStar(re, p, text, i);
      r := Matchstar(re[p], re, p + 2, text, i);
      return;
    }
    if re[p] == '$' && At(re, p + 1) == '\0' {
      HereEnd(re, p, text, i);
      return At(text, i) == '\0';
    }
    HereOne(re, p, text, i);
    if At(text, i) != '\0' && (re[p] == '.' || re[p] == text[i]) {
      r := Matchhere(re, p + 1, text, i + 1);
      return;
    }
    return false;
  }

  /** matchstar: the rest of the pattern after zero or more c. */
  method Matchstar(c: char, re: CStr, p: nat, text: CStr, i: nat) returns (r: bool)
    requires p <= |re| && i <= |text|
    ensures r <==> exists j: nat :: i <= j <= |text| && Describes(Star(c), text, i, j) && Here(re, p, text, j)
    decreases |re| - p, 1
  {
    var t := i;
    while true
      invariant i <= t <= |text| && Describes(Star(c), text, i, t)
      invariant forall j: nat :: i <= j < t ==> !Here(re, p, text, j)
      decreases |text| - t
    {
      r := Matchhere(re, p, text, t);
      if r { return; }
      if At(text, t) == '\0' || !(text[t] == c || c == '.') { return false; }
      t := t + 1;
    }
  }
}
