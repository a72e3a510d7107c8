/**
 The lexer half of the shell's parser (xv6/user/sh.c): what gettoken and peek
 see in a line, and what they find when the lexemes ahead are known.
 */
module ShLex {
  /** A token: where it starts, and where it ends (exclusive). */
  type Tok = (nat, nat)

  predicate White(c: char) { c in [' ', '\t', '\r', '\n', '\U{0B}'] }

  predicate Symbol(c: char) { c in "<|>&;()" }

  predicate WordAt(line: string, x: int) { 0 <= x < |line| && !White(line[x]) && !Symbol(line[x]) }

  /** A maximal stretch of word characters. */
  ghost predicate IsWord(line: string, q: nat, e: nat) {
    q < e <= |line| && (forall x :: q <= x < e ==> WordAt(line, x)) && !WordAt(line, q - 1) && !WordAt(line, e)
  }

  /** No word reaches across p. */
  predicate Boundary(line: string, p: nat) { !WordAt(line, p - 1) || !WordAt(line, p) }

  /** A lexeme: its kind as gettoken reports it, and the stretch of the line it occupies. */
  datatype Lex = Lex(kind: char, q: nat, e: nat)

  ghost predicate LexOk(line: string, t: Lex) {
    && t.q < t.e <= |line|
    && if t.kind == 'a' then IsWord(line, t.q, t.e)
       else if t.kind == '+' then t.e == t.q + 2 && line[t.q] == '>' && line[t.q + 1] == '>'
       else t.kind == line[t.q] && Symbol(t.kind) && t.e == t.q + 1
            && (t.kind == '>' ==> t.e == |line| || line[t.e] != '>')
  }

  predicate Blank(line: string, a: nat, b: nat) {
    a <= b <= |line| && forall x :: a <= x < b ==> White(line[x])
  }

  /** line[a..b) is these lexemes with white space before, between and after. */
  ghost predicate Lexes(line: string, ts: seq<Lex>, a: nat, b: nat) {
    if ts == [] then Blank(line, a, b)
    else
      var t := ts[|ts| - 1];
      LexOk(line, t) && Lexes(line, ts[..|ts| - 1], a, t.q) && Blank(line, t.e, b)
  }

  lemma LexesOrder(line: string, ts: seq<Lex>, a: nat, b: nat)
    requires Lexes(line, ts, a, b)
    ensures a <= b <= |line|
  {
    if ts != [] { LexesOrder(line, ts[..|ts| - 1], a, ts[|ts| - 1].q); }
  }

  lemma {:induction false} LexesJoin(line: string, s: seq<Lex>, t: seq<Lex>, a: nat, b: nat, c: nat)
    requires Lexes(line, s, a, b) && Lexes(line, t, b, c)
    ensures Lexes(line, s + t, a, c)
    decreases |s| + |t|
  {
    if t != [] {
      var n := |t| - 1;
      LexesJoin(line, s, t[..n], a, b, t[n].q);
      assert (s + t)[..|s| + n] == s + t[..n];
    } else {
      assert s + t == s;
      LexesOrder(line, s, a, b);
      if s != [] { LexesOrder(line, s[..|s| - 1], a, s[|s| - 1].q); }
    }
  }

  /** The words among the lexemes. */
  ghost function Words(ts: seq<Lex>): multiset<Tok> {
    if ts == [] then multiset{}
    else Words(ts[..|ts| - 1]) + (var t := ts[|ts| - 1]; if t.kind == 'a' then multiset{(t.q, t.e)} else multiset{})
  }

  lemma {:induction false} WordsJoin(s: seq<Lex>, t: seq<Lex>)
    ensures Words(s + t) == Words(s) + Words(t)
    decreases |t|
  {
    if t != [] {
      assert (s + t)[..|s| + |t| - 1] == s + t[..|t| - 1];
      WordsJoin(s, t[..|t| - 1]);
    } else {
      assert s + t == s;
    }
  }

  /** The tokens are the words that start in [a, b), each once. */
  ghost predicate Exact(line: string, toks: multiset<Tok>, a: nat, b: nat) {
    forall q: nat, e: nat :: toks[(q, e)] == if IsWord(line, q, e) && a <= q < b then 1 else 0
  }

  /** Where a word starts decides where it ends. */
  lemma WordEnd(line: string, q: nat, e: nat, f: nat)
    requires IsWord(line, q, e) && IsWord(line, q, f)
    ensures e == f
  {
    assert e < f ==> WordAt(line, e);
    assert f < e ==> WordAt(line, f);
  }

  /** Passing a lexeme and the white space after it adds its word, if it is one. */
  lemma LexExact(line: string, toks: multiset<Tok>, a: nat, t: Lex, b: nat)
    requires LexOk(line, t) && Blank(line, t.e, b) && a <= t.q && Exact(line, toks, a, t.q)
    ensures Exact(line, toks + (if t.kind == 'a' then multiset{(t.q, t.e)} else multiset{}), a, b)
  {
    forall q: nat, e: nat | IsWord(line, q, e) && t.q <= q < b ensures t.kind == 'a' && (q, e) == (t.q, t.e) {
      assert WordAt(line, q) && !WordAt(line, q - 1);
      if t.kind == 'a' && q == t.q { WordEnd(line, q, e, t.e); }
    }
  }

  /** Lexing meets every word of the stretch, once. */
  lemma {:induction false} LexesExact(line: string, ts: seq<Lex>, a: nat, b: nat)
    requires Lexes(line, ts, a, b)
    ensures Exact(line, Words(ts), a, b)
    decreases |ts|
  {
    if ts == [] {
      forall q: nat, e: nat | IsWord(line, q, e) ensures !(a <= q < b) { assert WordAt(line, q); }
    } else {
      var t := ts[|ts| - 1];
      LexesExact(line, ts[..|ts| - 1], a, t.q);
      LexesOrder(line, ts[..|ts| - 1], a, t.q);
      LexExact(line, Words(ts[..|ts| - 1]), a, t, b);
    }
  }

  lemma WordsOne(t: Lex)
    ensures Words([t]) == if t.kind == 'a' then multiset{(t.q, t.e)} else multiset{}
  {
    assert [t][..0] == [];
  }

  /** A cursor between lexemes. */
  ghost predicate CursorOk(line: string, p: nat) {
    '\0' !in line && p <= |line| && Boundary(line, p)
  }

  lemma OneLex(line: string, a: nat, t: Lex, b: nat)
    requires Blank(line, a, t.q) && LexOk(line, t) && Blank(line, t.e, b)
    ensures Lexes(line, [t], a, b)
  {
    assert [t][..0] == [];
  }

  // What the cursor meets when the rest of the line is known to be the lexemes ts.

  /** The first lexeme and what follows it. */
  lemma {:induction false} LexesHead(line: string, ts: seq<Lex>, a: nat, b: nat)
    requires Lexes(line, ts, a, b) && ts != []
    ensures Blank(line, a, ts[0].q) && LexOk(line, ts[0]) && Lexes(line, ts[1..], ts[0].e, b)
    decreases |ts|
  {
    var n := |ts| - 1;
    if n > 0 {
      LexesHead(line, ts[..n], a, ts[n].q);
      assert ts[..n][1..] == ts[1..][..n - 1];
    }
  }

  /** A lexeme does not start with white space. */
  lemma LexStart(line: string, t: Lex)
    requires LexOk(line, t)
    ensures !White(line[t.q]) && (t.kind == 'a' ==> !Symbol(line[t.q])) && (t.kind == '+' ==> line[t.q] == '>')
    ensures t.kind != 'a' && t.kind != '+' ==> line[t.q] == t.kind && Symbol(t.kind)
  {
    assert t.kind == 'a' ==> WordAt(line, t.q);
  }

  /** White space from a to p ends before anything that is not. */
  lemma BlankEnds(line: string, a: nat, p: nat, q: nat)
    requires Blank(line, a, p) && a <= q < |line| && !White(line[q])
    ensures p <= q
  {
  }

  lemma NotBlank(line: string, a: nat, q: nat)
    requires a <= q < |line| && !White(line[q])
    ensures !Blank(line, a, |line|)
  {
  }

  /** White space may be skipped before the lexemes. */
  lemma {:induction false} LexesSkip(line: string, ts: seq<Lex>, a: nat, p: nat, b: nat)
    requires Lexes(line, ts, a, b) && Blank(line, a, p) && (ts == [] ==> p <= b)
    ensures Lexes(line, ts, p, b)
    decreases |ts|
  {
    if ts != [] {
      var n := |ts| - 1;
      LexStart(line, ts[n]);
      LexesOrder(line, ts[..n], a, ts[n].q);
      BlankEnds(line, a, p, ts[n].q);
      LexesSkip(line, ts[..n], a, p, ts[n].q);
    }
  }

  /** What peek finds. */
  predicate Shows(line: string, ts: seq<Lex>, p: nat) {
    if ts == [] then p == |line|
    else
      && p < |line|
      && if ts[0].kind == 'a' then !Symbol(line[p]) else if ts[0].kind == '+' then line[p] == '>'
         else line[p] == ts[0].kind && Symbol(ts[0].kind)
  }

  lemma PeekShows(line: string, ts: seq<Lex>, a: nat, p: nat)
    requires Lexes(line, ts, a, |line|) && Blank(line, a, p) && (p < |line| ==> !White(line[p]))
    ensures Lexes(line, ts, p, |line|) && Shows(line, ts, p)
  {
    LexesSkip(line, ts, a, p, |line|);
    if ts != [] {
      LexesHead(line, ts, p, |line|);
      LexStart(line, ts[0]);
      if p < |line| { BlankEnds(line, p, ts[0].q, p); }
    }
  }

  lemma SameLex(line: string, s: Lex, t: Lex)
    requires LexOk(line, s) && LexOk(line, t) && s.q == t.q
    ensures s == t
  {
    LexStart(line, s);
    LexStart(line, t);
    if s.kind == 'a' { WordEnd(line, s.q, s.e, t.e); }
  }

  /** What gettoken returns. */
  lemma TokenIs(line: string, ts: seq<Lex>, a: nat, t: Lex, p: nat)
    requires Lexes(line, ts, a, |line|) && Lexes(line, [t], a, p)
    ensures ts != [] && ts[0] == t && Lexes(line, ts[1..], p, |line|)
  {
    assert [t][..0] == [];
    LexStart(line, t);
    NotBlank(line, a, t.q);
    LexesHead(line, ts, a, |line|);
    LexStart(line, ts[0]);
    BlankEnds(line, a, ts[0].q, t.q);
    BlankEnds(line, a, t.q, ts[0].q);
    SameLex(line, ts[0], t);
    LexesSkip(line, ts[1..], t.e, p, |line|);
  }

  lemma NoToken(line: string, ts: seq<Lex>, a: nat)
    requires Lexes(line, ts, a, |line|) && Blank(line, a, |line|)
    ensures ts == []
  {
    if ts != [] { StartNotBlank(line, ts, a); }
  }

  lemma StartNotBlank(line: string, ts: seq<Lex>, a: nat)
    requires Lexes(line, ts, a, |line|) && ts != []
    ensures !Blank(line, a, |line|)
  {
    LexesHead(line, ts, a, |line|);
    LexStart(line, ts[0]);
    NotBlank(line, a, ts[0].q);
  }

  ghost function Tail(ts: seq<Lex>): seq<Lex> { if ts == [] then [] else ts[1..] }

  lemma Assoc(a: seq<Lex>, b: seq<Lex>, c: seq<Lex>)
    ensures (a + b) + c == a + (b + c)
  {
  }
}
