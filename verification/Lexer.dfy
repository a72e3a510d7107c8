/**
 lex_input (c-shell/src/lexer.c): operators, and words made of bare, single-
 quoted and double-quoted pieces.  Input holds no NUL; a word fits the 4096
 byte buffer.
 */
module Lexer {
  import opened Wrappers

  datatype Token = Word(value: string) | GtGt | Gt | Lt | Pipe | Amp | Semi

  predicate White(c: char) { c in " \t\n\r" }

  predicate Operator(c: char) { c in "|&;<>" }

  /** What is left of a word's scan: its text, whether it had quotes, and the input after it. */
  datatype Scanned = Scanned(text: string, quoted: bool, rest: string)

  /** The word loop, from input s with quoting state sq, dq and buffer b; None is a syntax error. */
  function Scan(s: string, sq: bool, dq: bool, b: string, quoted: bool): (r: Option<Scanned>)
    ensures r.Some? ==> |r.value.rest| <= |s|
    ensures r.Some? && s != "" && (sq || dq || !(White(s[0]) || Operator(s[0]))) ==> |r.value.rest| < |s|
    decreases |s|
  {
    if s == "" then if sq || dq then None else Some(Scanned(b, quoted, s))
    else if !sq && !dq && (White(s[0]) || Operator(s[0])) then Some(Scanned(b, quoted, s))
    else if s[0] == '\'' && !dq then Scan(s[1..], !sq, dq, b, true)
    else if s[0] == '"' && !sq then Scan(s[1..], sq, !dq, b, true)
    else if s[0] == '\\' && !sq && dq && |s| > 1 && s[1] in "\"\\" then Scan(s[2..], sq, dq, b + [s[1]], quoted)
    else if s[0] == '\\' && !sq && !dq then
      if |s| == 1 || s[1] == '\n' then None else Scan(s[2..], sq, dq, b + [s[1]], quoted)
    else Scan(s[1..], sq, dq, b + [s[0]], quoted)
  }

  /** The operator at the front of s, and its length. */
  function OpAt(s: string): (Token, nat)
    requires s != "" && Operator(s[0])
  {
    if s[0] == '>' then if |s| > 1 && s[1] == '>' then (GtGt, 2) else (Gt, 1)
    else if s[0] == '<' then (Lt, 1)
    else if s[0] == '|' then (Pipe, 1)
    else if s[0] == '&' then (Amp, 1)
    else (Semi, 1)
  }

  function Prepend(t: Token, ts: Option<seq<Token>>): Option<seq<Token>> {
    if ts.None? then None else Some([t] + ts.value)
  }

  function Lex(s: string): Option<seq<Token>>
    decreases |s|
  {
    if s == "" then Some([])
    else if White(s[0]) then Lex(s[1..])
    else if Operator(s[0]) then
      var (t, n) := OpAt(s);
      Prepend(t, Lex(s[n..]))
    else
      var w := Scan(s, false, false, "", false);
      if w.None? then None
      else if w.value.text != "" || w.value.quoted then Prepend(Word(w.value.text), Lex(w.value.rest))
      else Lex(w.value.rest)
  }

  /** What a character needs to stand for itself outside quotes. */
  predicate PlainChar(c: char) { !White(c) && !Operator(c) && c != '\'' && c != '"' && c != '\\' }

  /**
   A piece of a word as it is written: between single or double quotes, with a
   backslash before every character, or as it stands.
   */
  datatype Piece = Single(text: string) | Double(raw: string) | Escaped(text: string) | Plain(text: string)

  /** Between double quotes a backslash escapes a double quote and a backslash, and stands for itself otherwise. */
  predicate DoubleOk(r: string) {
    r == "" ||
    if r[0] == '\\' then |r| > 1 && DoubleOk(if r[1] in "\"\\" then r[2..] else r[1..])
    else r[0] != '"' && DoubleOk(r[1..])
  }

  function DoubleValue(r: string): string {
    if r == "" then ""
    else if r[0] == '\\' && |r| > 1 && r[1] in "\"\\" then [r[1]] + DoubleValue(r[2..])
    else [r[0]] + DoubleValue(r[1..])
  }

  predicate PieceOk(p: Piece) {
    match p
    case Single(t) => '\'' !in t
    case Double(r) => DoubleOk(r)
    case Escaped(t) => '\n' !in t
    case Plain(t) => forall k :: 0 <= k < |t| ==> PlainChar(t[k])
  }

  function EscapeBare(t: string): string {
    if t == "" then "" else ['\\', t[0]] + EscapeBare(t[1..])
  }

  function Written(p: Piece): string {
    match p
    case Single(t) => "'" + t + "'"
    case Double(r) => "\"" + r + "\""
    case Escaped(t) => EscapeBare(t)
    case Plain(t) => t
  }

  function ValueOf(p: Piece): string { if p.Double? then DoubleValue(p.raw) else p.text }

  predicate InQuotes(p: Piece) { p.Single? || p.Double? }

  function WrittenAll(ps: seq<Piece>): string {
    if ps == [] then "" else Written(ps[0]) + WrittenAll(ps[1..])
  }

  function Value(ps: seq<Piece>): string {
    if ps == [] then "" else ValueOf(ps[0]) + Value(ps[1..])
  }

  function Quoted(ps: seq<Piece>): bool { ps != [] && (InQuotes(ps[0]) || Quoted(ps[1..])) }

  lemma {:induction false} ScanSingle(t: string, rest: string, b: string, quoted: bool)
    requires '\'' !in t
    ensures Scan(t + "'" + rest, true, false, b, quoted) == Scan(rest, false, false, b + t, true)
    decreases |t|
  {
    var s := t + "'" + rest;
    if t == "" {
      assert s[1..] == rest && b + t == b;
    } else {
      assert s[0] == t[0] && s[1..] == t[1..] + "'" + rest;
      ScanSingle(t[1..], rest, b + [t[0]], quoted);
      assert b + [t[0]] + t[1..] == b + t;
    }
  }

  lemma {:induction false} ScanDouble(r: string, rest: string, b: string, quoted: bool)
    requires DoubleOk(r)
    ensures Scan(r + "\"" + rest, false, true, b, quoted) == Scan(rest, false, false, b + DoubleValue(r), true)
    decreases |r|
  {
    var s := r + "\"" + rest;
    if r == "" {
      assert s[1..] == rest && b + DoubleValue(r) == b;
    } else if r[0] == '\\' && r[1] in "\"\\" {
      assert s[0] == r[0] && s[1] == r[1] && s[2..] == r[2..] + "\"" + rest;
      ScanDouble(r[2..], rest, b + [r[1]], quoted);
      assert b + [r[1]] + DoubleValue(r[2..]) == b + DoubleValue(r);
    } else {
      assert s[0] == r[0] && s[1..] == r[1..] + "\"" + rest && (|r| > 1 ==> s[1] == r[1]);
      ScanDouble(r[1..], rest, b + [r[0]], quoted);
      assert b + [r[0]] + DoubleValue(r[1..]) == b + DoubleValue(r);
    }
  }

  lemma {:induction false} ScanPlain(t: string, rest: string, b: string, quoted: bool)
    requires PieceOk(Plain(t))
    ensures Scan(t + rest, false, false, b, quoted) == Scan(rest, false, false, b + t, quoted)
    decreases |t|
  {
    if t == "" {
      assert t + rest == rest && b + t == b;
    } else {
      assert PlainChar(t[0]);
      assert (t + rest)[0] == t[0] && (t + rest)[1..] == t[1..] + rest;
      ScanPlain(t[1..], rest, b + [t[0]], quoted);
      assert b + [t[0]] + t[1..] == b + t;
    }
  }

  lemma {:induction false} ScanBare(t: string, rest: string, b: string, quoted: bool)
    requires '\n' !in t
    ensures Scan(EscapeBare(t) + rest, false, false, b, quoted) == Scan(rest, false, false, b + t, quoted)
    decreases |t|
  {
    var s := EscapeBare(t) + rest;
    if t == "" {
      assert s == rest && b + t == b;
    } else {
      assert s == ['\\', t[0]] + (EscapeBare(t[1..]) + rest);
      assert s[2..] == EscapeBare(t[1..]) + rest;
      ScanBare(t[1..], rest, b + [t[0]], quoted);
      assert b + [t[0]] + t[1..] == b + t;
    }
  }

  lemma OpenQuote(c: char, x: string, b: string, quoted: bool)
    requires c in "'\""
    ensures Scan([c] + x, false, false, b, quoted) == Scan(x, c == '\'', c == '"', b, true)
  {
    assert ([c] + x)[1..] == x;
  }

  lemma ScanPiece(p: Piece, rest: string, b: string, quoted: bool)
    requires PieceOk(p)
    ensures Scan(Written(p) + rest, false, false, b, quoted) ==
      Scan(rest, false, false, b + ValueOf(p), quoted || InQuotes(p))
  {
    hide Scan, DoubleOk, DoubleValue, EscapeBare;
    match p
    case Single(t) =>
      assert Written(p) + rest == ['\''] + (t + "'" + rest);
      OpenQuote('\'', t + "'" + rest, b, quoted);
      ScanSingle(t, rest, b, true);
    case Double(r) =>
      assert Written(p) + rest == ['"'] + (r + "\"" + rest);
      OpenQuote('"', r + "\"" + rest, b, quoted);
      ScanDouble(r, rest, b, true);
    case Escaped(t) => ScanBare(t, rest, b, quoted);
    case Plain(t) => ScanPlain(t, rest, b, quoted);
  }

  lemma {:induction false} ScanPieces(ps: seq<Piece>, rest: string, b: string, quoted: bool)
    requires forall k :: 0 <= k < |ps| ==> PieceOk(ps[k])
    ensures Scan(WrittenAll(ps) + rest, false, false, b, quoted) ==
      Scan(rest, false, false, b + Value(ps), quoted || Quoted(ps))
    decreases |ps|
  {
    hide Scan, Written, ValueOf, InQuotes, PieceOk;
    if ps == [] {
      assert WrittenAll(ps) + rest == rest && b + Value(ps) == b;
    } else {
      var tail := WrittenAll(ps[1..]) + rest;
      assert WrittenAll(ps) + rest == Written(ps[0]) + tail;
      ScanPiece(ps[0], tail, b, quoted);
      ScanPieces(ps[1..], rest, b + ValueOf(ps[0]), quoted || InQuotes(ps[0]));
      assert b + ValueOf(ps[0]) + Value(ps[1..]) == b + Value(ps);
    }
  }

  /** A token, for a word the pieces it is written in, and the white space before it. */
  datatype Spelled = Op(gap: string, t: Token) | Pieces(gap: string, ps: seq<Piece>)

  predicate Gap(g: string) { forall k :: 0 <= k < |g| ==> White(g[k]) }

  predicate SpelledOk(x: Spelled) {
    && Gap(x.gap)
    && match x
       case Op(_, t) => !t.Word?
       case Pieces(_, ps) => (forall k :: 0 <= k < |ps| ==> PieceOk(ps[k])) && (Value(ps) != "" || Quoted(ps))
  }

  /** y may follow x at once: two words would run together, and so would > with > or >>. */
  predicate MayTouch(x: Spelled, y: Spelled) {
    !(x.Pieces? && y.Pieces?) && !(x.Op? && x.t.Gt? && y.Op? && (y.t.Gt? || y.t.GtGt?))
  }

  predicate SpelledAll(xs: seq<Spelled>) {
    && (forall k :: 0 <= k < |xs| ==> SpelledOk(xs[k]))
    && (forall k :: 0 <= k < |xs| - 1 ==> xs[k + 1].gap != "" || MayTouch(xs[k], xs[k + 1]))
  }

  function OpText(t: Token): string
    requires !t.Word?
  {
    match t
    case GtGt => ">>"
    case Gt => ">"
    case Lt => "<"
    case Pipe => "|"
    case Amp => "&"
    case Semi => ";"
  }

  function TextOf(x: Spelled): string
    requires SpelledOk(x)
  {
    if x.Op? then OpText(x.t) else WrittenAll(x.ps)
  }

  function TokenOf(x: Spelled): Token { if x.Op? then x.t else Word(Value(x.ps)) }

  /** The line, with white space before each token and at its end. */
  function Line(xs: seq<Spelled>, end: string): string
    requires forall k :: 0 <= k < |xs| ==> SpelledOk(xs[k])
  {
    if xs == [] then end else xs[0].gap + (TextOf(xs[0]) + Line(xs[1..], end))
  }

  function Tokens(xs: seq<Spelled>): seq<Token> {
    if xs == [] then [] else [TokenOf(xs[0])] + Tokens(xs[1..])
  }

  /** A written word starts with a character that starts a word. */
  lemma {:induction false} WordStart(ps: seq<Piece>)
    requires (Value(ps) != "" || Quoted(ps)) && forall k :: 0 <= k < |ps| ==> PieceOk(ps[k])
    ensures WrittenAll(ps) != "" && !White(WrittenAll(ps)[0]) && !Operator(WrittenAll(ps)[0])
  {
    hide Written, PieceOk, ValueOf, InQuotes, White, Operator;
    PieceStart(ps[0]);
    if Written(ps[0]) == "" {
      assert WrittenAll(ps) == WrittenAll(ps[1..]);
      WordStart(ps[1..]);
    }
  }

  lemma PieceStart(p: Piece)
    requires PieceOk(p)
    ensures Written(p) != "" ==> !White(Written(p)[0]) && !Operator(Written(p)[0])
    ensures Written(p) == "" ==> ValueOf(p) == "" && !InQuotes(p)
  {
    if p.Plain? && p.text != "" {
      assert PlainChar(p.text[0]);
    }
  }

  /** What ends a word. */
  predicate Separated(rest: string) { rest == "" || White(rest[0]) || Operator(rest[0]) }

  lemma LexWord(ps: seq<Piece>, rest: string)
    requires SpelledOk(Pieces("", ps)) && Separated(rest)
    ensures Lex(WrittenAll(ps) + rest) == Prepend(Word(Value(ps)), Lex(rest))
  {
    var s := WrittenAll(ps) + rest;
    WordStart(ps);
    assert s[0] == WrittenAll(ps)[0];
    ScanPieces(ps, rest, "", false);
    assert "" + Value(ps) == Value(ps);
  }

  lemma LexOp(t: Token, rest: string)
    requires !t.Word? && (t.Gt? ==> rest == "" || rest[0] != '>')
    ensures Lex(OpText(t) + rest) == Prepend(t, Lex(rest))
  {
    var s := OpText(t) + rest;
    assert s[|OpText(t)|..] == rest;
    assert OpAt(s) == (t, |OpText(t)|);
  }

  /** What follows a token lets it end there. */
  predicate Follows(x: Spelled, rest: string) {
    if x.Pieces? then Separated(rest) else x.t.Gt? ==> rest == "" || rest[0] != '>'
  }

  lemma LexFirst(x: Spelled, rest: string)
    requires SpelledOk(x) && Follows(x, rest)
    ensures Lex(TextOf(x) + rest) == Prepend(TokenOf(x), Lex(rest))
  {
    if x.Op? { LexOp(x.t, rest); } else { LexWord(x.ps, rest); }
  }

  lemma {:induction false} LexGap(g: string, rest: string)
    requires Gap(g)
    ensures Lex(g + rest) == Lex(rest)
    decreases |g|
  {
    if g == "" {
      assert g + rest == rest;
    } else {
      assert (g + rest)[1..] == g[1..] + rest;
      LexGap(g[1..], rest);
    }
  }

  /** A token is followed by what may follow it. */
  lemma NextFollows(x: Spelled, xs: seq<Spelled>, end: string)
    requires SpelledAll([x] + xs) && Gap(end) && forall k :: 0 <= k < |xs| ==> SpelledOk(xs[k])
    ensures Follows(x, Line(xs, end))
  {
    if xs != [] {
      var y := xs[0];
      assert ([x] + xs)[1] == y;
      assert SpelledOk(y);
      if y.gap == "" {
        assert MayTouch(([x] + xs)[0], ([x] + xs)[1]);
        FirstOf(y, Line(xs[1..], end));
      }
    }
  }

  lemma FirstOf(y: Spelled, rest: string)
    requires SpelledOk(y)
    ensures TextOf(y) + rest != ""
    ensures y.Op? ==> Operator((TextOf(y) + rest)[0]) && ((TextOf(y) + rest)[0] == '>' <==> y.t.Gt? || y.t.GtGt?)
    ensures y.Pieces? ==> !White((TextOf(y) + rest)[0]) && !Operator((TextOf(y) + rest)[0])
  {
    if y.Pieces? { WordStart(y.ps); }
  }

  /** However the words are written and wherever tokens touch, the line lexes to the tokens. */
  lemma {:induction false} LineRoundTrip(xs: seq<Spelled>, end: string)
    requires SpelledAll(xs) && Gap(end)
    ensures Lex(Line(xs, end)) == Some(Tokens(xs))
    decreases |xs|
  {
    hide TextOf, TokenOf, Gap, MayTouch, Follows;
    if xs == [] {
      LexGap(end, "");
      assert end + "" == end;
    } else {
      assert [xs[0]] + xs[1..] == xs;
      TailOk(xs);
      LineRoundTrip(xs[1..], end);
      NextFollows(xs[0], xs[1..], end);
      LexFirst(xs[0], Line(xs[1..], end));
      LexGap(xs[0].gap, TextOf(xs[0]) + Line(xs[1..], end));
    }
  }

  lemma TailOk(xs: seq<Spelled>)
    requires SpelledAll(xs) && xs != []
    ensures SpelledAll(xs[1..]) && SpelledOk(xs[0]) && Gap(xs[0].gap)
  {
    forall k | 0 <= k < |xs[1..]| - 1 ensures xs[1..][k + 1].gap != "" || MayTouch(xs[1..][k], xs[1..][k + 1]) {
      assert xs[1..][k] == xs[k + 1] && xs[1..][k + 1] == xs[k + 1 + 1];
    }
  }

  /** A word in single quotes, a quote in it written as '\'' */
  function Quote(w: string): string { "'" + QuoteRest(w) }

  function QuoteRest(w: string): string {
    if w == "" then "'" else (if w[0] == '\'' then "'\\''" else [w[0]]) + QuoteRest(w[1..])
  }

  /** The pieces of a word quoted that way, the first of them having started with the characters done. */
  function Cut(done: string, w: string): seq<Piece>
    decreases |w|
  {
    if w == "" then [Single(done)]
    else if w[0] == '\'' then [Single(done), Escaped("'")] + Cut("", w[1..])
    else Cut(done + [w[0]], w[1..])
  }

  lemma {:induction false} CutOk(done: string, w: string)
    requires '\'' !in done
    ensures Quoted(Cut(done, w)) && forall k :: 0 <= k < |Cut(done, w)| ==> PieceOk(Cut(done, w)[k])
    decreases |w|
  {
    if w != "" {
      if w[0] == '\'' { CutOk("", w[1..]); } else { CutOk(done + [w[0]], w[1..]); }
    }
  }

  lemma {:induction false} CutValue(done: string, w: string)
    ensures Value(Cut(done, w)) == done + w
    decreases |w|
  {
    var c := Cut(done, w);
    if w == "" {
      assert c[1..] == [];
    } else if w[0] == '\'' {
      CutValue("", w[1..]);
      assert c[1..] == [Escaped("'")] + Cut("", w[1..]) && c[1..][1..] == Cut("", w[1..]);
      assert w == "'" + w[1..];
    } else {
      CutValue(done + [w[0]], w[1..]);
      assert done + [w[0]] + w[1..] == done + w;
    }
  }

  lemma {:induction false} CutWritten(done: string, w: string)
    ensures WrittenAll(Cut(done, w)) == "'" + done + QuoteRest(w)
    decreases |w|
  {
    hide WrittenAll;
    if w == "" {
      WrittenLast(done);
    } else if w[0] == '\'' {
      CutWritten("", w[1..]);
      WrittenCut(done, Cut("", w[1..]));
      Reopen(done, QuoteRest(w[1..]));
    } else {
      CutWritten(done + [w[0]], w[1..]);
      Shift(done, w[0], QuoteRest(w[1..]));
    }
  }

  lemma WrittenLast(done: string)
    ensures WrittenAll([Single(done)]) == "'" + done + "'"
  {
    assert [Single(done)][1..] == [];
  }

  lemma Reopen(done: string, x: string)
    ensures "'" + done + "'" + "\\'" + ("'" + "" + x) == "'" + done + ("'\\''" + x)
  {
  }

  lemma Shift(done: string, c: char, x: string)
    ensures "'" + (done + [c]) + x == "'" + done + ([c] + x)
  {
  }

  lemma WrittenCut(done: string, rest: seq<Piece>)
    ensures WrittenAll([Single(done), Escaped("'")] + rest) == "'" + done + "'" + "\\'" + WrittenAll(rest)
  {
    var c := [Single(done), Escaped("'")] + rest;
    assert c[1..] == [Escaped("'")] + rest && c[1..][1..] == rest;
    EscapedQuote();
    assert WrittenAll(c[1..]) == "\\'" + WrittenAll(rest);
  }

  lemma EscapedQuote()
    ensures Written(Escaped("'")) == "\\'"
  {
    assert "'"[1..] == "";
  }

  function Spell(t: Token): Spelled { if t.Word? then Pieces("", Cut("", t.value)) else Op("", t) }

  function Rendered(t: Token): string { if t.Word? then Quote(t.value) else OpText(t) }

  function RenderTail(ts: seq<Token>): string {
    if ts == [] then "" else " " + Rendered(ts[0]) + RenderTail(ts[1..])
  }

  /** Words in single quotes, operators as they are, blanks between. */
  function Render(ts: seq<Token>): string { if ts == [] then "" else Rendered(ts[0]) + RenderTail(ts[1..]) }

  lemma SpellOne(t: Token)
    ensures SpelledOk(Spell(t)) && TextOf(Spell(t)) == Rendered(t) && TokenOf(Spell(t)) == t
  {
    hide Cut, Value, Quoted, WrittenAll, QuoteRest, PieceOk;
    if t.Word? {
      CutOk("", t.value);
      CutValue("", t.value);
      CutWritten("", t.value);
      assert "" + t.value == t.value;
      assert "'" + "" + QuoteRest(t.value) == Quote(t.value);
    }
  }

  lemma LexBlank(x: string, y: string)
    ensures Lex(" " + x + y) == Lex(x + y)
  {
    assert (" " + x + y)[1..] == x + y;
  }

  /** White space or the end may follow any token. */
  lemma BlankFollows(t: Token, rest: string)
    requires rest == "" || White(rest[0])
    ensures Follows(Spell(t), rest)
  {
  }

  lemma {:induction false} RenderTailRoundTrip(ts: seq<Token>)
    ensures Lex(RenderTail(ts)) == Some(ts) && (RenderTail(ts) == "" || White(RenderTail(ts)[0]))
    decreases |ts|
  {
    if ts != [] {
      hide Lex, TextOf, TokenOf, Rendered;
      RenderTailRoundTrip(ts[1..]);
      SpellOne(ts[0]);
      BlankFollows(ts[0], RenderTail(ts[1..]));
      LexFirst(Spell(ts[0]), RenderTail(ts[1..]));
      LexBlank(Rendered(ts[0]), RenderTail(ts[1..]));
      assert [ts[0]] + ts[1..] == ts;
    }
  }

  /** Any list of tokens, empty words included, survives rendering and lexing. */
  lemma RoundTrip(ts: seq<Token>)
    ensures Lex(Render(ts)) == Some(ts)
  {
    if ts != [] {
      RenderTailRoundTrip(ts[1..]);
      SpellOne(ts[0]);
      BlankFollows(ts[0], RenderTail(ts[1..]));
      LexFirst(Spell(ts[0]), RenderTail(ts[1..]));
      assert [ts[0]] + ts[1..] == ts;
    }
  }

  // When a line is refused.

  /** The line ends inside quotes, or has an unquoted backslash before a newline or the end. */
  predicate Broken(s: string, sq: bool, dq: bool) {
    if s == "" then sq || dq
    else if s[0] == '\'' && !dq then Broken(s[1..], !sq, dq)
    else if s[0] == '"' && !sq then Broken(s[1..], sq, !dq)
    else if s[0] == '\\' && dq && !sq && |s| > 1 && (s[1] == '"' || s[1] == '\\') then Broken(s[2..], sq, dq)
    else if s[0] == '\\' && !dq && !sq then |s| == 1 || s[1] == '\n' || Broken(s[2..], sq, dq)
    else Broken(s[1..], sq, dq)
  }

  lemma {:induction false} ScanBroken(s: string, sq: bool, dq: bool, b: string, quoted: bool)
    ensures var r := Scan(s, sq, dq, b, quoted);
      Broken(s, sq, dq) <==> r.None? || Broken(r.value.rest, false, false)
    decreases |s|
  {
    if s == "" || (!sq && !dq && (White(s[0]) || Operator(s[0]))) {
    } else if s[0] == '\'' && !dq {
      ScanBroken(s[1..], !sq, dq, b, true);
    } else if s[0] == '"' && !sq {
      ScanBroken(s[1..], sq, !dq, b, true);
    } else if s[0] == '\\' && !sq && dq && |s| > 1 && s[1] in "\"\\" {
      ScanBroken(s[2..], sq, dq, b + [s[1]], quoted);
    } else if s[0] == '\\' && !sq && !dq {
      if |s| > 1 && s[1] != '\n' {
        ScanBroken(s[2..], sq, dq, b + [s[1]], quoted);
      }
    } else {
      ScanBroken(s[1..], sq, dq, b + [s[0]], quoted);
    }
  }

  lemma PlainNotBroken(s: string)
    requires s != "" && (White(s[0]) || Operator(s[0]))
    ensures Broken(s, false, false) == Broken(s[1..], false, false)
  {
  }

  /** A line is refused exactly when it is broken. */
  lemma {:induction false} RefusedIffBroken(s: string)
    ensures Lex(s).None? <==> Broken(s, false, false)
    decreases |s|
  {
    hide Scan;
    if s != "" {
      if White(s[0]) {
        PlainNotBroken(s);
        RefusedIffBroken(s[1..]);
      } else if Operator(s[0]) {
        var n := OpAt(s).1;
        RefusedIffBroken(s[n..]);
        PlainNotBroken(s);
        if n == 2 {
          PlainNotBroken(s[1..]);
          assert s[1..][1..] == s[2..];
        }
      } else {
        ScanBroken(s, false, false, "", false);
        var w := Scan(s, false, false, "", false);
        if w.Some? { RefusedIffBroken(w.value.rest); }
      }
    }
  }

  // Every accepted line is spelled that way.

  /** One step of the scan between single quotes. */
  lemma SingleScan(s: string, b: string, quoted: bool)
    requires Scan(s, true, false, b, quoted).Some?
    ensures s != ""
    ensures Scan(s, true, false, b, quoted) ==
      if s[0] == '\'' then Scan(s[1..], false, false, b, true) else Scan(s[1..], true, false, b + [s[0]], quoted)
  {
  }

  /** The rest of a single-quoted piece. */
  lemma {:induction false} SingleEnds(s: string, b: string, quoted: bool) returns (t: string, rest: string)
    requires Scan(s, true, false, b, quoted).Some?
    ensures s == t + "'" + rest && '\'' !in t
    ensures Scan(s, true, false, b, quoted) == Scan(rest, false, false, b + t, true)
    decreases |s|
  {
    hide Scan;
    SingleScan(s, b, quoted);
    if s[0] == '\'' {
      t, rest := "", s[1..];
      assert s == "" + "'" + rest && b + "" == b;
    } else {
      t, rest := SingleEnds(s[1..], b + [s[0]], quoted);
      t := [s[0]] + t;
      assert s == [s[0]] + s[1..];
      assert b + [s[0]] + t[1..] == b + t;
    }
  }

  predicate Escapes(s: string) { s != "" && s[0] == '\\' && |s| > 1 && s[1] in "\"\\" }

  /** One step of the scan between double quotes. */
  lemma DoubleScan(s: string, b: string, quoted: bool)
    requires Scan(s, false, true, b, quoted).Some?
    ensures s != "" && (Escapes(s) ==> |s| > 1)
    ensures Scan(s, false, true, b, quoted) ==
      if s[0] == '"' then Scan(s[1..], false, false, b, true)
      else if Escapes(s) then Scan(s[2..], false, true, b + [s[1]], quoted)
      else Scan(s[1..], false, true, b + [s[0]], quoted)
  {
  }

  lemma DoubleCons(s: string, r: string)
    requires s != "" && DoubleOk(r)
    ensures Escapes(s) ==> DoubleOk([s[0], s[1]] + r) && DoubleValue([s[0], s[1]] + r) == [s[1]] + DoubleValue(r)
    ensures !Escapes(s) && s[0] != '"' && |s| > 1 && (r != "" ==> r[0] == s[1]) && (r == "" ==> s[1] == '"') ==>
      DoubleOk([s[0]] + r) && DoubleValue([s[0]] + r) == [s[0]] + DoubleValue(r)
  {
    assert ([s[0]] + r)[1..] == r;
    if Escapes(s) {
      assert ([s[0], s[1]] + r)[2..] == r;
    }
  }

  /** The rest of a double-quoted piece. */
  lemma {:induction false} DoubleEnds(s: string, b: string, quoted: bool) returns (r: string, rest: string)
    requires Scan(s, false, true, b, quoted).Some?
    ensures s == r + "\"" + rest && DoubleOk(r)
    ensures Scan(s, false, true, b, quoted) == Scan(rest, false, false, b + DoubleValue(r), true)
    decreases |s|
  {
    hide Scan, DoubleOk, DoubleValue;
    DoubleScan(s, b, quoted);
    if s[0] == '"' {
      r, rest := "", s[1..];
      EmptyDouble();
      assert s == "" + "\"" + rest && b + "" == b;
    } else if Escapes(s) {
      var r1;
      r1, rest := DoubleEnds(s[2..], b + [s[1]], quoted);
      r := [s[0], s[1]] + r1;
      DoubleCons(s, r1);
      assert s == [s[0], s[1]] + s[2..];
      assert b + [s[1]] + DoubleValue(r1) == b + ([s[1]] + DoubleValue(r1));
    } else {
      var r1;
      r1, rest := DoubleEnds(s[1..], b + [s[0]], quoted);
      r := [s[0]] + r1;
      assert s == [s[0]] + s[1..];
      assert s[1] == (r1 + "\"" + rest)[0];
      DoubleCons(s, r1);
      assert b + [s[0]] + DoubleValue(r1) == b + ([s[0]] + DoubleValue(r1));
    }
  }

  lemma EmptyDouble()
    ensures DoubleOk("") && DoubleValue("") == ""
  {
  }

  /** One step of the scan outside quotes. */
  lemma BareScan(s: string, b: string, quoted: bool)
    requires Scan(s, false, false, b, quoted).Some? && !Separated(s)
    ensures s[0] == '\\' ==> |s| > 1 && s[1] != '\n'
    ensures Scan(s, false, false, b, quoted) ==
      if s[0] == '\'' then Scan(s[1..], true, false, b, true)
      else if s[0] == '"' then Scan(s[1..], false, true, b, true)
      else if s[0] == '\\' then Scan(s[2..], false, false, b + [s[1]], quoted)
      else Scan(s[1..], false, false, b + [s[0]], quoted)
  {
  }

  /** One piece at the front of a word, and the scan after it. */
  lemma FirstPiece(s: string, b: string, quoted: bool) returns (p: Piece, rest: string)
    requires Scan(s, false, false, b, quoted).Some? && !Separated(s)
    ensures PieceOk(p) && s == Written(p) + rest && |rest| < |s|
    ensures Scan(s, false, false, b, quoted) == Scan(rest, false, false, b + ValueOf(p), quoted || InQuotes(p))
  {
    hide Scan, DoubleOk, DoubleValue;
    BareScan(s, b, quoted);
    if s[0] == '\'' {
      var t;
      t, rest := SingleEnds(s[1..], b, true);
      p := Single(t);
      assert s == "'" + s[1..];
    } else if s[0] == '"' {
      var r;
      r, rest := DoubleEnds(s[1..], b, true);
      p := Double(r);
      assert s == "\"" + s[1..];
    } else if s[0] == '\\' {
      p, rest := Escaped([s[1]]), s[2..];
      assert [s[1]][1..] == "" && EscapeBare([s[1]]) == ['\\', s[1]];
      assert s == [s[0], s[1]] + s[2..];
    } else {
      p, rest := Plain([s[0]]), s[1..];
      assert s == [s[0]] + s[1..];
    }
  }

  /** A scanned word is written in pieces. */
  lemma {:induction false} ScanIsSpelled(s: string, b: string, quoted: bool) returns (ps: seq<Piece>)
    requires Scan(s, false, false, b, quoted).Some?
    ensures forall k :: 0 <= k < |ps| ==> PieceOk(ps[k])
    ensures var w := Scan(s, false, false, b, quoted).value;
      s == WrittenAll(ps) + w.rest && w.text == b + Value(ps) && w.quoted == (quoted || Quoted(ps)) && Separated(w.rest)
    decreases |s|
  {
    hide Scan, Written, ValueOf, InQuotes, PieceOk;
    if Separated(s) {
      ps := [];
      ScanStops(s, b, quoted);
      assert b + "" == b && "" + s == s;
    } else {
      var p, rest := FirstPiece(s, b, quoted);
      var qs := ScanIsSpelled(rest, b + ValueOf(p), quoted || InQuotes(p));
      ps := [p] + qs;
      assert ps[1..] == qs;
      var w := Scan(s, false, false, b, quoted).value;
      assert Written(p) + (WrittenAll(qs) + w.rest) == WrittenAll(ps) + w.rest;
      assert b + ValueOf(p) + Value(qs) == b + Value(ps);
    }
  }

  lemma ScanStops(s: string, b: string, quoted: bool)
    requires Separated(s)
    ensures Scan(s, false, false, b, quoted) == Some(Scanned(b, quoted, s))
  {
  }

  /** The token at the front of an accepted line, and the rest of the line. */
  lemma FirstSpelled(s: string) returns (x: Spelled, rest: string)
    requires Lex(s).Some? && s != "" && !White(s[0])
    ensures SpelledOk(x) && x.gap == "" && s == TextOf(x) + rest && |rest| < |s| && Follows(x, rest)
    ensures Lex(rest).Some? && Lex(s).value == [TokenOf(x)] + Lex(rest).value
  {
    if Operator(s[0]) {
      var (t, n) := OpAt(s);
      x, rest := Op("", t), s[n..];
      assert s == s[..n] + rest && OpText(t) == s[..n];
    } else {
      var ps := ScanIsSpelled(s, "", false);
      hide DoubleOk, DoubleValue, EscapeBare;
      var w := Scan(s, false, false, "", false).value;
      x, rest := Pieces("", ps), w.rest;
      assert "" + Value(ps) == Value(ps);
      if Value(ps) == "" && !Quoted(ps) {
        NothingWritten(ps);
      }
    }
  }

  /** Without text and without quotes nothing is written. */
  lemma {:induction false} NothingWritten(ps: seq<Piece>)
    requires Value(ps) == "" && !Quoted(ps)
    ensures WrittenAll(ps) == ""
  {
    if ps != [] {
      NothingWritten(ps[1..]);
    }
  }

  /** The white space at the front of a line. */
  lemma {:induction false} SkipGap(s: string) returns (g: string, rest: string)
    ensures Gap(g) && s == g + rest && (rest == "" || !White(rest[0])) && Lex(rest) == Lex(s)
    decreases |s|
  {
    if s == "" || !White(s[0]) {
      g, rest := "", s;
    } else {
      g, rest := SkipGap(s[1..]);
      g := [s[0]] + g;
      assert s == [s[0]] + s[1..];
    }
  }

  /** y, written right after x in an accepted line, may touch it. */
  lemma Touches(x: Spelled, y: Spelled, rest: string)
    requires SpelledOk(x) && SpelledOk(y) && Follows(x, TextOf(y) + rest)
    ensures MayTouch(x, y)
  {
    FirstOf(y, rest);
  }

  /** Every accepted line is spelled: it is the line of some tokens, written in some way, and lexes to those. */
  lemma {:induction false} AcceptedIsSpelled(s: string) returns (xs: seq<Spelled>, end: string)
    requires Lex(s).Some?
    ensures SpelledAll(xs) && Gap(end) && s == Line(xs, end) && Tokens(xs) == Lex(s).value
    decreases |s|
  {
    hide Lex, TextOf, TokenOf, Follows, Gap, MayTouch;
    var g, t := SkipGap(s);
    if t == "" {
      xs, end := [], g;
      LexEmpty();
      assert g + "" == g;
    } else {
      var x, rest := FirstSpelled(t);
      var ys;
      ys, end := AcceptedIsSpelled(rest);
      var y := x.(gap := g);
      SameText(x, g);
      xs := [y] + ys;
      assert xs[1..] == ys;
      if ys != [] && ys[0].gap == "" {
        assert "" + (TextOf(ys[0]) + Line(ys[1..], end)) == TextOf(ys[0]) + Line(ys[1..], end);
        Touches(x, ys[0], Line(ys[1..], end));
        SameTouch(x, g, ys[0]);
      }
      SpelledCons(y, ys);
    }
  }

  lemma LexEmpty()
    ensures Lex("") == Some([])
  {
  }

  lemma SameText(x: Spelled, g: string)
    requires SpelledOk(x) && Gap(g)
    ensures SpelledOk(x.(gap := g)) && TextOf(x.(gap := g)) == TextOf(x) && TokenOf(x.(gap := g)) == TokenOf(x)
  {
  }

  lemma SameTouch(x: Spelled, g: string, y: Spelled)
    requires MayTouch(x, y)
    ensures MayTouch(x.(gap := g), y)
  {
  }

  lemma SpelledCons(y: Spelled, ys: seq<Spelled>)
    requires SpelledOk(y) && SpelledAll(ys) && (ys != [] ==> ys[0].gap != "" || MayTouch(y, ys[0]))
    ensures SpelledAll([y] + ys)
  {
    var xs := [y] + ys;
    forall k | 0 <= k < |xs| - 1 ensures xs[k + 1].gap != "" || MayTouch(xs[k], xs[k + 1]) {
      if k > 0 {
        assert xs[k] == ys[k - 1] && xs[k + 1] == ys[k - 1 + 1];
      }
    }
  }

  /** A line lexes to ts exactly when it is a spelling of ts. */
  lemma LexIffSpelled(s: string, ts: seq<Token>)
    ensures Lex(s) == Some(ts) <==>
      exists xs, end :: SpelledAll(xs) && Gap(end) && Line(xs, end) == s && Tokens(xs) == ts
  {
    if Lex(s) == Some(ts) {
      var xs, end := AcceptedIsSpelled(s);
    }
    forall xs, end | SpelledAll(xs) && Gap(end) && Line(xs, end) == s && Tokens(xs) == ts ensures Lex(s) == Some(ts) {
      LineRoundTrip(xs, end);
    }
  }

  /** input[i], the terminating NUL included. */
  function At(input: string, i: nat): char { if i < |input| then input[i] else '\0' }

  lemma ScanStep(input: string, i: nat)
    requires i < |input|
    ensures input[i..][0] == input[i] && input[i..][1..] == input[i + 1..]
    ensures i + 1 < |input| ==> input[i..][1] == input[i + 1] && input[i..][2..] == input[i + 2..]
  {
  }

  /** One step of the scan at position i. */
  lemma ScanAt(input: string, i: nat, sq: bool, dq: bool, b: string, quoted: bool)
    requires i < |input| && '\0' !in input
    ensures Scan(input[i..], sq, dq, b, quoted) ==
      if !sq && !dq && (White(input[i]) || Operator(input[i])) then Some(Scanned(b, quoted, input[i..]))
      else if input[i] == '\'' && !dq then Scan(input[i + 1..], !sq, dq, b, true)
      else if input[i] == '"' && !sq then Scan(input[i + 1..], sq, !dq, b, true)
      else if input[i] == '\\' && !sq && dq && At(input, i + 1) in "\"\\" then
        Scan(input[i + 2..], sq, dq, b + [input[i + 1]], quoted)
      else if input[i] == '\\' && !sq && !dq then
        if At(input, i + 1) in "\0\n" then None else Scan(input[i + 2..], sq, dq, b + [input[i + 1]], quoted)
      else Scan(input[i + 1..], sq, dq, b + [input[i]], quoted)
  {
    ScanStep(input, i);
  }

  lemma ScanEnd(sq: bool, dq: bool, b: string, quoted: bool)
    ensures Scan("", sq, dq, b, quoted) == if sq || dq then None else Some(Scanned(b, quoted, ""))
  {
  }

  /** The word loop of lex_input, from position i0. */
  method LexWordAt(input: string, i0: nat) returns (ok: bool, b: string, quoted: bool, i: nat)
    requires i0 <= |input| && '\0' !in input
    ensures i0 <= i <= |input|
    ensures Scan(input[i0..], false, false, "", false) == if ok then Some(Scanned(b, quoted, input[i..])) else None
  {
    hide Scan;
    var sq, dq := false, false;
    ok, b, quoted, i := true, "", false, i0;
    while i < |input|
      invariant i0 <= i <= |input| && ok
      invariant Scan(input[i0..], false, false, "", false) == Scan(input[i..], sq, dq, b, quoted)
      decreases |input| - i
    {
      ScanAt(input, i, sq, dq, b, quoted);
      if !sq && !dq {
        if White(input[i]) { return; }
        if Operator(input[i]) { return; }
      }
      if input[i] == '\'' && !dq {
        sq, quoted, i := !sq, true, i + 1;
      } else if input[i] == '"' && !sq {
        dq, quoted, i := !dq, true, i + 1;
      } else if input[i] == '\\' {
        if sq {
          b, i := b + [input[i]], i + 1;
        } else if dq {
          if At(input, i + 1) == '"' || At(input, i + 1) == '\\' {
            b, i := b + [input[i + 1]], i + 2;
          } else {
            b, i := b + [input[i]], i + 1;
          }
        } else {
          if At(input, i + 1) == '\0' || At(input, i + 1) == '\n' {
            ok := false;
            return;
          }
          b, i := b + [input[i + 1]], i + 2;
        }
      } else {
        b, i := b + [input[i]], i + 1;
      }
    }
    ScanEnd(sq, dq, b, quoted);
    assert input[i..] == "";
    if sq || dq { ok := false; }
  }

  function Onto(ts: seq<Token>, r: Option<seq<Token>>): Option<seq<Token>> {
    if r.None? then None else Some(ts + r.value)
  }

  lemma OntoNext(ts: seq<Token>, t: Token, r: Option<seq<Token>>)
    ensures Onto(ts, Prepend(t, r)) == Onto(ts + [t], r)
  {
    if r.Some? { assert ts + ([t] + r.value) == ts + [t] + r.value; }
  }

  /** lex_input; None is the syntax error it reports. */
  method LexInput(input: string) returns (r: Option<seq<Token>>)
    requires '\0' !in input
    ensures r == Lex(input)
    ensures r.None? <==> Broken(input, false, false)
  {
    RefusedIffBroken(input);
    hide Scan, Broken;
    var toks: seq<Token>, i := [], 0;
    assert input[0..] == input;
    assert Lex(input).Some? ==> [] + Lex(input).value == Lex(input).value;
    while i < |input|
      invariant 0 <= i <= |input| && Lex(input) == Onto(toks, Lex(input[i..]))
      decreases |input| - i
    {
      ScanStep(input, i);
      if White(input[i]) {
        i := i + 1;
      } else if Operator(input[i]) {
        var n := if input[i] == '>' && At(input, i + 1) == '>' then 2 else 1;
        var t := if n == 2 then GtGt else if input[i] == '>' then Gt else if input[i] == '<' then Lt
          else if input[i] == '|' then Pipe else if input[i] == '&' then Amp else Semi;
        assert OpAt(input[i..]) == (t, n);
        OntoNext(toks, t, Lex(input[i + n..]));
        toks, i := toks + [t], i + n;
      } else {
        var ok, b, quoted, j := LexWordAt(input, i);
        if !ok { return None; }
        if |b| > 0 || quoted {
          OntoNext(toks, Word(b), Lex(input[j..]));
          toks := toks + [Word(b)];
        }
        Shorter(input, i, j);
        i := j;
      }
    }
    assert input[i..] == "" && toks + [] == toks;
    return Some(toks);
  }

  lemma Shorter(input: string, i: nat, j: nat)
    requires i < |input| && i <= j <= |input| && !White(input[i]) && !Operator(input[i])
    requires exists b, q :: Scan(input[i..], false, false, "", false) == Some(Scanned(b, q, input[j..]))
    ensures i < j
  {
  }
}
